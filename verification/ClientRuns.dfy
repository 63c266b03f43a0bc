/** The client's methods as stretches of runs, and what two clients end up with. */
module ClientRuns {
  import opened Types
  import opened Spec
  import opened Machine
  import opened SharedSecrets
  import opened EndToEnd
  import opened Progress
  import opened Client
  import Base64Url

  lemma AfterRequests(cfg: Config, s: State, auth: Token, id: string, key: string, peer: string, pubs: seq<string>,
                      subs: seq<string>)
    ensures After(cfg, s, GetsExchange(auth, id)) == GetExchange(cfg, s, auth, id).state
    ensures After(cfg, s, Responds(auth, id, key)) == Respond(cfg, s, auth, id, key).state
    ensures After(cfg, s, CreatesRelationship(auth, peer, pubs, subs, id))
         == CreateRelationship(cfg, s, auth, peer, pubs, subs, id).state
  {
    hide GetExchange, Respond, CreateRelationship, AfterAccount, AfterAuth, AfterBroker;
  }

  /** Steps of the client's own registration of a row. */
  function RowEvent(cfg: Config, auth: Token, me: string, secret: SharedSecret, rowId: string): (e: Event) {
    CreatesRelationship(auth, secret.peerId, [OutboundTopic(cfg.crypto, secret, me)],
                        [InboundTopic(cfg.crypto, secret, me)], rowId)
  }

  /** The run prolonged by what answering an exchange sends: the fetch, the answer, the row. */
  function WithAnswer(p: Path, auth: Token, h: Handshake, secret: SharedSecret, rowId: string): (q: Path)
    requires |p.states| == |p.events| + 1
    ensures q.cfg == p.cfg
  {
    var key := Base64Url.ClientEncode(p.cfg.crypto.x25519Public(h.y));
    Then(Then(Then(p, GetsExchange(auth, h.id)), Responds(auth, h.id, key)),
         RowEvent(p.cfg, auth, h.bob, secret, rowId))
  }

  /** Answering is that stretch of the run, and ends in the state the client's call leaves. */
  lemma RespondFlowRuns(p: Path, auth: Token, h: Handshake, rowId: string)
    requires p.IsRun() && Expands(p.cfg.crypto) && SpeaksFor(p.cfg, Last(p), auth, h.bob) && Fresh(Last(p), rowId)
    requires h.fetch == |p.events| && h.answer == |p.events| + 1
    requires RespondFlow(p.cfg, Last(p), auth, h.bob, h.id, h.y, rowId).result.Ok?
    ensures var o := RespondFlow(p.cfg, Last(p), auth, h.bob, h.id, h.y, rowId);
            var q := WithAnswer(p, auth, h, o.result.value, rowId);
            && Extends(p, q) && Last(q) == o.state
            && Fetched(q, h.fetch, h.id, h.bob) && Answered(q, h)
            && RespondSecret(q.cfg.crypto, h.y, Reply(q, h.fetch)) == Some(o.result.value)
            && RegistersRow(q, h.fetch + 2, h.bob, o.result.value)
  {
    hide After, GetExchange, Respond, CreateRelationship, RespondSecret, OutboundTopic, InboundTopic,
      Base64Url.ClientEncode, Fresh, AuthUser;
    var cfg, s := p.cfg, Last(p);
    var key := Base64Url.ClientEncode(cfg.crypto.x25519Public(h.y));
    var secret := RespondFlow(cfg, s, auth, h.bob, h.id, h.y, rowId).result.value;
    var row := RowEvent(cfg, auth, h.bob, secret, rowId);
    AfterRequests(cfg, s, auth, h.id, key, "", [], []);
    var p1 := Then(p, GetsExchange(auth, h.id));
    ThenExtends(p, GetsExchange(auth, h.id));
    AfterRequests(cfg, Last(p1), auth, h.id, key, "", [], []);
    var p2 := Then(p1, Responds(auth, h.id, key));
    ThenExtends(p1, Responds(auth, h.id, key));
    AfterRequests(cfg, Last(p2), auth, rowId, key, row.peer, row.pubs, row.subs);
    FreshStays(s, Last(p2), rowId);
    ThenExtends(p2, row);
  }

  lemma FreshStays(s: State, r: State, id: string)
    requires Fresh(s, id) && r.usedIds == s.usedIds
    ensures Fresh(r, id)
  {
  }

  /** The run prolonged by what completing an answered exchange sends. */
  function WithCompletion(p: Path, auth: Token, h: Handshake, secret: SharedSecret, rowId: string): (q: Path)
    requires |p.states| == |p.events| + 1
    ensures q.cfg == p.cfg
  {
    Then(Then(p, GetsExchange(auth, h.id)), RowEvent(p.cfg, auth, h.alice, secret, rowId))
  }

  lemma CompleteFlowRuns(p: Path, auth: Token, h: Handshake, rowId: string)
    requires p.IsRun() && Expands(p.cfg.crypto) && SpeaksFor(p.cfg, Last(p), auth, h.alice) && Fresh(Last(p), rowId)
    requires h.collect == |p.events|
    requires var r := CompleteFlow(p.cfg, Last(p), auth, h.alice, h.id, h.x, rowId).result;
             r.Ok? && r.value.Some?
    ensures var o := CompleteFlow(p.cfg, Last(p), auth, h.alice, h.id, h.x, rowId);
            var q := WithCompletion(p, auth, h, o.result.value.value, rowId);
            && Extends(p, q) && Last(q) == o.state
            && Fetched(q, h.collect, h.id, h.alice) && Reply(q, h.collect).responderKey.Some?
            && CompleteSecret(q.cfg.crypto, h.x, Reply(q, h.collect)) == o.result.value
            && RegistersRow(q, h.collect + 1, h.alice, o.result.value.value)
  {
    hide After, GetExchange, CreateRelationship, CompleteSecret, OutboundTopic, InboundTopic, Fresh, AuthUser;
    var cfg, s := p.cfg, Last(p);
    var secret := CompleteFlow(cfg, s, auth, h.alice, h.id, h.x, rowId).result.value.value;
    var row := RowEvent(cfg, auth, h.alice, secret, rowId);
    AfterRequests(cfg, s, auth, h.id, "", "", [], []);
    var p1 := Then(p, GetsExchange(auth, h.id));
    ThenExtends(p, GetsExchange(auth, h.id));
    AfterRequests(cfg, Last(p1), auth, rowId, "", row.peer, row.pubs, row.subs);
    FreshStays(s, Last(p1), rowId);
    ThenExtends(p1, row);
  }

  /** What happened in a run happened in every extension of it. */
  lemma StillHappened(p: Path, q: Path, h: Handshake)
    requires Extends(p, q)
    ensures Offered(p, h) ==> Offered(q, h)
    ensures Answered(p, h) ==> Answered(q, h)
    ensures Fetched(p, h.fetch, h.id, h.bob) ==> Fetched(q, h.fetch, h.id, h.bob) && Reply(q, h.fetch) == Reply(p, h.fetch)
    ensures Fetched(p, h.collect, h.id, h.alice) ==>
              Fetched(q, h.collect, h.id, h.alice) && Reply(q, h.collect) == Reply(p, h.collect)
  {
    hide After, GetExchange, Respond, Base64Url.ClientEncode, AuthUser;
    assert forall i :: 0 <= i < |p.events| ==> p.events[i] == q.events[i] && p.states[i] == q.states[i];
  }

  /** Alice has offered an exchange, Bob's client answers it, anything may happen, Alice's
      client completes it. If both calls return a secret, the secrets hold the same keys, each
      under the other's id, and what each side registered for publishing is what the other
      registered for subscription. */
  lemma ClientsAgree(p: Path, h: Handshake, authB: Token, rowB: string, q: Path, authA: Token, rowA: string)
    requires p.IsRun() && Lawful(p.cfg.crypto) && Offered(p, h)
    requires SpeaksFor(p.cfg, Last(p), authB, h.bob) && Fresh(Last(p), rowB)
    requires h.fetch == |p.events| && h.answer == |p.events| + 1
    requires var r := RespondFlow(p.cfg, Last(p), authB, h.bob, h.id, h.y, rowB).result;
             r.Ok? && Extends(WithAnswer(p, authB, h, r.value, rowB), q)
    requires SpeaksFor(q.cfg, Last(q), authA, h.alice) && Fresh(Last(q), rowA) && h.collect == |q.events|
    requires var r := CompleteFlow(q.cfg, Last(q), authA, h.alice, h.id, h.x, rowA).result;
             r.Ok? && r.value.Some?
    ensures var atBob := RespondFlow(p.cfg, Last(p), authB, h.bob, h.id, h.y, rowB).result.value;
            var atAlice := CompleteFlow(q.cfg, Last(q), authA, h.alice, h.id, h.x, rowA).result.value.value;
            && SameMaterial(atAlice, atBob)
            && atAlice.peerId == h.bob && atBob.peerId == h.alice
            && OutboundTopic(p.cfg.crypto, atAlice, h.alice) == InboundTopic(p.cfg.crypto, atBob, h.bob)
            && InboundTopic(p.cfg.crypto, atAlice, h.alice) == OutboundTopic(p.cfg.crypto, atBob, h.bob)
  {
    hide After, RespondFlow, CompleteFlow, WithAnswer, WithCompletion, Offered, Answered, Fetched, RegistersRow, Reply,
      RespondSecret, CompleteSecret, OutboundTopic, InboundTopic, SameMaterial, SpeaksFor, Fresh;
    var atBob := RespondFlow(p.cfg, Last(p), authB, h.bob, h.id, h.y, rowB).result.value;
    var atAlice := CompleteFlow(q.cfg, Last(q), authA, h.alice, h.id, h.x, rowA).result.value.value;
    var answered := WithAnswer(p, authB, h, atBob, rowB);
    var completed := WithCompletion(q, authA, h, atAlice, rowA);
    RespondFlowRuns(p, authB, h, rowB);
    CompleteFlowRuns(q, authA, h, rowA);
    StillHappened(p, answered, h);
    StillHappened(answered, q, h);
    StillHappened(q, completed, h);
    KeyAgreement(completed, h);
    TopicsMirror(p.cfg.crypto, h.alice, h.bob, atAlice, atBob);
  }
}
