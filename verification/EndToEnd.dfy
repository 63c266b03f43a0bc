/** Two clients, one server: from the exchanged strings to the granted subscription. */
module EndToEnd {
  import opened Types
  import opened Tables
  import opened Spec
  import opened Machine
  import opened AuthInvariant
  import opened Revocation
  import opened ExchangeLifecycle
  import opened SharedSecrets
  import opened RelationshipTable
  import Base64Url

  // ── What the clients compute from what the server shows ─────────────────

  /** The responder's secret, from its private key and the exchange it fetched. */
  function RespondSecret(cr: Crypto, y: seq<byte>, view: ExchangeView): (r: Option<SharedSecret>)
    requires Expands(cr)
  {
    match Base64Url.ClientDecode(view.initiatorKey)
    case None => None
    case Some(theirs) =>
      Some(Derive(cr, cr.x25519(y, theirs), cr.x25519Public(y), theirs, view.initiatorId))
  }

  /** The initiator's secret, from its private key and the completed exchange. */
  function CompleteSecret(cr: Crypto, x: seq<byte>, view: ExchangeView): (r: Option<SharedSecret>)
    requires Expands(cr)
  {
    if view.responderKey.None? then None
    else
      match Base64Url.ClientDecode(view.responderKey.value)
      case None => None
      case Some(theirs) =>
        Some(Derive(cr, cr.x25519(x, theirs), cr.x25519Public(x), theirs, view.responderId))
  }

  // ── A completed handshake inside a run ──────────────────────────────────

  /** Who took part, with which ephemeral private keys, and the four requests: the
      initiator's offer, the responder's fetch and answer, the initiator's collection. */
  datatype Handshake = Handshake(
    id: string,
    alice: string, x: seq<byte>, offer: nat, collect: nat,
    bob: string, y: seq<byte>, fetch: nat, answer: nat)

  /** The request at step `i` authenticates as `user`. */
  ghost predicate By(p: Path, i: nat, auth: Token, user: string)
    requires i < |p.states|
  {
    AuthUser(p.cfg, p.states[i].now, auth) == Ok(user)
  }

  ghost predicate Offered(p: Path, h: Handshake)
    requires |p.states| == |p.events| + 1
  {
    && h.offer < |p.events| && Opens(p.cfg, p.states[h.offer], p.events[h.offer], h.id)
    && By(p, h.offer, p.events[h.offer].auth, h.alice)
    && p.events[h.offer].key == Base64Url.ClientEncode(p.cfg.crypto.x25519Public(h.x))
  }

  ghost predicate Fetched(p: Path, step: nat, id: string, user: string)
    requires |p.states| == |p.events| + 1
  {
    && step < |p.events| && p.events[step].GetsExchange? && p.events[step].id == id
    && By(p, step, p.events[step].auth, user)
    && GetExchange(p.cfg, p.states[step], p.events[step].auth, id).result.Ok?
  }

  /** The reply to a successful fetch. */
  function Reply(p: Path, step: nat): (v: ExchangeView)
    requires step < |p.states| && step < |p.events| && p.events[step].GetsExchange?
    requires GetExchange(p.cfg, p.states[step], p.events[step].auth, p.events[step].id).result.Ok?
  {
    GetExchange(p.cfg, p.states[step], p.events[step].auth, p.events[step].id).result.value
  }

  ghost predicate Answered(p: Path, h: Handshake)
    requires |p.states| == |p.events| + 1
  {
    && h.answer < |p.events| && p.events[h.answer].Responds? && p.events[h.answer].id == h.id
    && By(p, h.answer, p.events[h.answer].auth, h.bob)
    && Respond(p.cfg, p.states[h.answer], p.events[h.answer].auth, h.id, p.events[h.answer].key).result.Ok?
    && p.events[h.answer].key == Base64Url.ClientEncode(p.cfg.crypto.x25519Public(h.y))
  }

  /** Both clients' calls succeeded on one exchange. Nothing is said about their order, or
      about what happens in between. */
  ghost predicate Completed(p: Path, h: Handshake)
    requires |p.states| == |p.events| + 1
  {
    && Offered(p, h) && Answered(p, h)
    && Fetched(p, h.fetch, h.id, h.bob)
    && Fetched(p, h.collect, h.id, h.alice) && Reply(p, h.collect).responderKey.Some?
  }

  // ── Key agreement ───────────────────────────────────────────────────────

  /** A key text sent by a client is stored as the key itself. */
  lemma KeyTextDecodes(cr: Crypto, x: seq<byte>)
    requires Lawful(cr)
    ensures DecodeKey(Base64Url.ClientEncode(cr.x25519Public(x))) == Ok(cr.x25519Public(x))
  {
    var pub := cr.x25519Public(x);
    Base64Url.RepadRestores(pub);
    Base64Url.DecodeIffEncode(Base64Url.Encode(pub), pub);
  }

  /** Whenever the record is in the table, it carries what its initiator offered. */
  lemma OfferIsKept(p: Path, a: nat, k: nat, id: string)
    requires p.IsRun() && a < |p.events| && k < |p.states|
    requires Opens(p.cfg, p.states[a], p.events[a], id) && id in p.states[k].exchanges
    ensures a < k
    ensures p.events[a].auth.Signed? && DecodeKey(p.events[a].key).Ok?
    ensures var ex := p.states[k].exchanges[id];
            && ex.initiatorId == p.events[a].auth.claims.sub
            && ex.responderId == p.events[a].peer
            && ex.initiatorKey == DecodeKey(p.events[a].key).value
  {
    hide After, Allowed, DecodeKey, Opens;
    OpensFresh(p, a, id);
    assert p.Steps(a);
    AppearStep(p.cfg, p.states[a], p.events[a], id);
    RunSound(p, k);
    if k <= a {
      UsedIdsGrow(p, k, a);
    }
    RecordIsStable(p, a + 1, k, id);
  }

  /** The initiator collects the very key the responder submitted. */
  lemma CollectedIsAnswer(p: Path, c: nat, d: nat, id: string)
    requires p.IsRun() && c < |p.events| && d < |p.states|
    requires Answers(p.cfg, p.states[c], p.events[c], id)
    requires id in p.states[d].exchanges && p.states[d].exchanges[id].responderKey.Some?
    ensures c < d && p.states[d].exchanges[id].responderKey == Some(DecodeKey(p.events[c].key).value)
  {
    hide After, Allowed, DecodeKey, Answers;
    var j := AnswerOrigin(p, d, id);
    AnsweredAtMostOnce(p, j, c, id);
  }

  lemma AnsweredAnswers(p: Path, h: Handshake)
    requires |p.states| == |p.events| + 1 && Answered(p, h)
    ensures Answers(p.cfg, p.states[h.answer], p.events[h.answer], h.id)
  {
    hide DecodeKey, View;
  }

  /** What the two clients are shown. */
  lemma ShownKeys(p: Path, h: Handshake)
    requires p.IsRun() && Lawful(p.cfg.crypto) && Completed(p, h)
    ensures var view := Reply(p, h.fetch);
            view.initiatorId == h.alice
            && view.initiatorKey == Base64Url.Encode(p.cfg.crypto.x25519Public(h.x))
    ensures var view := Reply(p, h.collect);
            view.responderId == h.bob
            && view.responderKey == Some(Base64Url.Encode(p.cfg.crypto.x25519Public(h.y)))
  {
    hide After, Allowed, DecodeKey, Opens, Answers;
    KeyTextDecodes(p.cfg.crypto, h.x);
    KeyTextDecodes(p.cfg.crypto, h.y);
    OfferIsKept(p, h.offer, h.fetch, h.id);
    OfferIsKept(p, h.offer, h.collect, h.id);
    OfferIsKept(p, h.offer, h.answer, h.id);
    AnsweredAnswers(p, h);
    CollectedIsAnswer(p, h.answer, h.collect, h.id);
    assert p.states[h.answer].exchanges[h.id].responderId == h.bob;
  }

  /** In every run in which both clients complete one exchange they hold the same three
      keys, each filed under the other's authenticated user id. */
  lemma KeyAgreement(p: Path, h: Handshake)
    requires p.IsRun() && Lawful(p.cfg.crypto) && Completed(p, h)
    ensures var atBob := RespondSecret(p.cfg.crypto, h.y, Reply(p, h.fetch));
            var atAlice := CompleteSecret(p.cfg.crypto, h.x, Reply(p, h.collect));
            && atBob.Some? && atAlice.Some?
            && SameMaterial(atAlice.value, atBob.value)
            && atAlice.value.peerId == h.bob && atBob.value.peerId == h.alice
  {
    var cr := p.cfg.crypto;
    ShownKeys(p, h);
    Base64Url.ClientDecodes(cr.x25519Public(h.x));
    Base64Url.ClientDecodes(cr.x25519Public(h.y));
    hide Base64Url.ClientDecode, Base64Url.Encode, Derive, Completed;
    DeriveAgrees(cr, h.x, h.y, h.alice, h.bob);
    DeriveKeepsPeer(cr, h);
  }

  lemma DeriveKeepsPeer(cr: Crypto, h: Handshake)
    requires Lawful(cr)
    ensures var px, py := cr.x25519Public(h.x), cr.x25519Public(h.y);
            && Derive(cr, cr.x25519(h.x, py), px, py, h.bob).peerId == h.bob
            && Derive(cr, cr.x25519(h.y, px), py, px, h.alice).peerId == h.alice
  {
  }

  /** What both sides of a completed exchange hold, from the two private keys alone: the three
      keys are, in order, the HKDF output for the Diffie-Hellman secret under both public keys
      in ascending order. */
  lemma HandshakeKeys(p: Path, h: Handshake)
    requires p.IsRun() && Lawful(p.cfg.crypto) && Completed(p, h)
    ensures var cr := p.cfg.crypto;
            var atBob, atAlice := RespondSecret(cr, h.y, Reply(p, h.fetch)), CompleteSecret(cr, h.x, Reply(p, h.collect));
            && atBob.Some? && atAlice.Some?
            && HoldsKeys(cr, h, atAlice.value) && atAlice.value.peerId == h.bob
            && HoldsKeys(cr, h, atBob.value) && atBob.value.peerId == h.alice
  {
    var cr := p.cfg.crypto;
    var px, py := cr.x25519Public(h.x), cr.x25519Public(h.y);
    KeyAgreement(p, h);
    ShownKeys(p, h);
    Base64Url.ClientDecodes(px);
    Base64Url.ClientDecodes(py);
    DeriveIsOutput(cr, cr.x25519(h.x, py), px, py, h.bob);
    hide Base64Url.ClientDecode, Base64Url.Encode, Derive, Completed, Ascending;
  }

  ghost predicate HoldsKeys(cr: Crypto, h: Handshake, secret: SharedSecret) {
    && |secret.topicSeed| == |secret.encKey| == |secret.authKey| == 32
    && secret.topicSeed + secret.encKey + secret.authKey
       == cr.hkdf(Ascending(cr.x25519Public(h.x), cr.x25519Public(h.y)), cr.x25519(h.x, cr.x25519Public(h.y)))
  }

  // ── Routing ─────────────────────────────────────────────────────────────

  /** Step `r` registers the relationship of `me` the way the client does. */
  ghost predicate RegistersRow(p: Path, r: nat, me: string, secret: SharedSecret)
    requires |p.states| == |p.events| + 1
  {
    && r < |p.events| && p.events[r].CreatesRelationship?
    && By(p, r, p.events[r].auth, me)
    && p.events[r].peer == secret.peerId
    && p.events[r].pubs == [OutboundTopic(p.cfg.crypto, secret, me)]
    && p.events[r].subs == [InboundTopic(p.cfg.crypto, secret, me)]
  }

  /** The row that step `r` created. */
  function Row(p: Path, r: nat): (row: Relationship)
    requires r < |p.states| && r < |p.events| && p.events[r].CreatesRelationship? && p.events[r].auth.Signed?
  {
    var e := p.events[r];
    Relationship(e.id, e.auth.claims.sub, e.peer, e.pubs, e.subs, p.states[r].now)
  }

  /** What the two clients register, from the two private keys alone: each publishes to the
      unpadded base64url of the HMAC of "me>peer" under the first 32 bytes of the HKDF output,
      and subscribes to that of "peer>me". */
  lemma HandshakeTopics(p: Path, h: Handshake, ra: nat, rb: nat)
    requires p.IsRun() && Lawful(p.cfg.crypto) && Completed(p, h)
    requires var atAlice := CompleteSecret(p.cfg.crypto, h.x, Reply(p, h.collect));
             atAlice.Some? && RegistersRow(p, ra, h.alice, atAlice.value)
    requires var atBob := RespondSecret(p.cfg.crypto, h.y, Reply(p, h.fetch));
             atBob.Some? && RegistersRow(p, rb, h.bob, atBob.value)
    ensures var cr := p.cfg.crypto;
            var px, py := cr.x25519Public(h.x), cr.x25519Public(h.y);
            var seed := cr.hkdf(Ascending(px, py), cr.x25519(h.x, py))[..32];
            var toBob := Base64Url.Encode(cr.hmac(seed, h.alice + ">" + h.bob));
            var toAlice := Base64Url.Encode(cr.hmac(seed, h.bob + ">" + h.alice));
            && p.events[ra].peer == h.bob && p.events[ra].pubs == [toBob] && p.events[ra].subs == [toAlice]
            && p.events[rb].peer == h.alice && p.events[rb].pubs == [toAlice] && p.events[rb].subs == [toBob]
  {
    HandshakeKeys(p, h);
    var cr := p.cfg.crypto;
    var atAlice := CompleteSecret(cr, h.x, Reply(p, h.collect)).value;
    var atBob := RespondSecret(cr, h.y, Reply(p, h.fetch)).value;
    hide Completed, RespondSecret, CompleteSecret, Reply, By, Base64Url.Encode, Base64Url.ClientEncode, Ascending;
    SeedIsPrefix(cr, h, atAlice);
    SeedIsPrefix(cr, h, atBob);
    var seed := atAlice.topicSeed;
    Base64Url.RepadRestores(cr.hmac(seed, h.alice + ">" + h.bob));
    Base64Url.RepadRestores(cr.hmac(seed, h.bob + ">" + h.alice));
  }

  lemma SeedIsPrefix(cr: Crypto, h: Handshake, secret: SharedSecret)
    requires Expands(cr) && HoldsKeys(cr, h, secret)
    ensures var py := cr.x25519Public(h.y);
            secret.topicSeed == cr.hkdf(Ascending(cr.x25519Public(h.x), py), cr.x25519(h.x, py))[..32]
  {
    hide Ascending;
    var okm := secret.topicSeed + secret.encKey + secret.authKey;
    assert okm[..32] == secret.topicSeed;
  }

  /** A token signed while the user's row is in the table lists what the peer publishes to. */
  lemma TokenListsPeer(cfg: Config, s: State, row: Relationship, device: string, topic: string)
    requires row in s.relationships && topic in row.subscribeTopics
    ensures topic in Snapshot(cfg, s, row.userId, device).subTopics
  {
    AggregateIsLists(s.relationships, row.userId, topic, Subscribe);
    assert topic in TopicsOf(row, Subscribe);
  }

  /** The row that step `r` created has not been revoked by its owner before step `j`. */
  ghost predicate StillRegistered(p: Path, r: nat, j: nat)
    requires |p.states| == |p.events| + 1 && j <= |p.events|
    requires r < |p.events| && p.events[r].CreatesRelationship? && p.events[r].auth.Signed?
  {
    r < j && forall i :: r < i < j ==> !RevokesRow(p.cfg, p.states[i], p.events[i], Row(p, r))
  }

  lemma StillInTable(p: Path, r: nat, j: nat, me: string, secret: SharedSecret)
    requires p.IsRun() && RegistersRow(p, r, me, secret) && j < |p.states| && StillRegistered(p, r, j)
    ensures Row(p, r) in p.states[j].relationships && Row(p, r).userId == me
  {
    hide After, Allowed, OutboundTopic, InboundTopic;
    assert KeptSince(p, r, j, Row(p, r));
    RowsFromHistory(p, j, Row(p, r));
  }

  /** One direction: `me` registered a row for a secret that mirrors the peer's, and was
      issued a token at step `j` without having revoked the row. The token lists the topic the
      peer registered for publishing, and a connection admitted with it that still holds its
      session entry is granted that subscription. */
  lemma RoutesTo(p: Path, me: string, mine: SharedSecret, r: nat, peer: string, theirs: SharedSecret, r': nat, j: nat)
    requires p.IsRun()
    requires SameMaterial(mine, theirs) && mine.peerId == peer && theirs.peerId == me
    requires RegistersRow(p, r, me, mine) && RegistersRow(p, r', peer, theirs)
    requires j < |p.events| && Issues(p.cfg, p.states[j], p.events[j]) && p.events[j].user == me
    requires StillRegistered(p, r, j)
    ensures var token := Snapshot(p.cfg, p.states[j], me, p.events[j].device);
            && p.events[r'].pubs == [p.events[r].subs[0]]
            && p.events[r'].pubs[0] in token.subTopics
            && forall k: nat | k < |p.states| && token.dev in p.states[k].live && p.states[k].live[token.dev] == token ::
                 token.dev in p.states[k].sessions ==> Granted(p.states[k], token.dev, p.events[r'].pubs[0])
  {
    var cr := p.cfg.crypto;
    TopicsMirror(cr, me, peer, mine, theirs);
    StillInTable(p, r, j, me, mine);
    hide After, Allowed, OutboundTopic, InboundTopic, Issues;
    var topic := InboundTopic(cr, mine, me);
    assert p.events[r].subs == [topic] && p.events[r'].pubs == [topic];
    TokenListsPeer(p.cfg, p.states[j], Row(p, r), p.events[j].device, topic);
    var token := Snapshot(p.cfg, p.states[j], me, p.events[j].device);
    hide Snapshot, SameMaterial;
    forall k: nat | k < |p.states| && token.dev in p.states[k].live && p.states[k].live[token.dev] == token
                    && token.dev in p.states[k].sessions
      ensures Granted(p.states[k], token.dev, topic)
    {
      RunKeeps(p, k);
    }
  }

  /** After a completed handshake, with both relationships registered and both users
      re-authenticated without having revoked them, each side's token lists exactly what the
      other registered for publishing, and the broker grants it. */
  lemma EndToEndRouting(p: Path, h: Handshake, ra: nat, rb: nat, ja: nat, jb: nat)
    requires p.IsRun() && Lawful(p.cfg.crypto) && Completed(p, h)
    requires var atAlice := CompleteSecret(p.cfg.crypto, h.x, Reply(p, h.collect));
             atAlice.Some? && RegistersRow(p, ra, h.alice, atAlice.value)
    requires var atBob := RespondSecret(p.cfg.crypto, h.y, Reply(p, h.fetch));
             atBob.Some? && RegistersRow(p, rb, h.bob, atBob.value)
    requires ja < |p.events| && Issues(p.cfg, p.states[ja], p.events[ja]) && p.events[ja].user == h.alice
    requires jb < |p.events| && Issues(p.cfg, p.states[jb], p.events[jb]) && p.events[jb].user == h.bob
    requires StillRegistered(p, ra, ja) && StillRegistered(p, rb, jb)
    ensures Routed(p, h.alice, ja, p.events[rb].pubs) && Routed(p, h.bob, jb, p.events[ra].pubs)
  {
    hide After, Allowed, Issues, RegistersRow, RespondSecret, CompleteSecret, Snapshot, SameMaterial;
    KeyAgreement(p, h);
    var atAlice := CompleteSecret(p.cfg.crypto, h.x, Reply(p, h.collect)).value;
    var atBob := RespondSecret(p.cfg.crypto, h.y, Reply(p, h.fetch)).value;
    hide Completed, Reply;
    SameMaterialIsSymmetric(atAlice, atBob);
    RoutesTo(p, h.alice, atAlice, ra, h.bob, atBob, rb, ja);
    RoutesTo(p, h.bob, atBob, rb, h.alice, atAlice, ra, jb);
  }

  lemma SameMaterialIsSymmetric(s: SharedSecret, t: SharedSecret)
    requires SameMaterial(s, t)
    ensures SameMaterial(t, s)
  {
  }

  /** The token signed for `me` at step `j` lists the topics, and every open connection
      admitted with it that holds its session entry is granted them. */
  ghost predicate Routed(p: Path, me: string, j: nat, topics: seq<string>)
    requires j < |p.states| && j < |p.events| && p.events[j].Verifies?
  {
    var token := Snapshot(p.cfg, p.states[j], me, p.events[j].device);
    forall topic | topic in topics ::
      && topic in token.subTopics
      && forall k: nat | k < |p.states| && token.dev in p.states[k].live && p.states[k].live[token.dev] == token ::
           token.dev in p.states[k].sessions ==> Granted(p.states[k], token.dev, topic)
  }
}
