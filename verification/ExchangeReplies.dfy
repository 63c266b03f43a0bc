/** What a client is shown of an exchange, told from the requests of the run. */
module ExchangeReplies {
  import opened Types
  import opened Spec
  import opened Machine
  import opened ExchangeLifecycle
  import opened EndToEnd
  import opened Replies
  import Base64Url

  /** Step `a` is an accepted request to open the exchange. */
  ghost predicate Offers(p: Path, a: nat, id: string)
    requires |p.states| == |p.events| + 1
    ensures Offers(p, a, id) ==> a < |p.events| && p.events[a].Initiates? && p.events[a].auth.Signed?
  {
    && a < |p.events| && p.events[a].Initiates? && p.events[a].id == id
    && Bearer(p.cfg, p.states[a].now, p.events[a].auth)
    && p.events[a].peer in p.states[a].users && IsKeyText(p.events[a].key)
  }

  lemma OffersOpens(p: Path, a: nat, id: string)
    requires |p.states| == |p.events| + 1 && a < |p.events|
    ensures Offers(p, a, id) <==> Opens(p.cfg, p.states[a], p.events[a], id)
  {
    hide Initiate, IsKeyText, Bearer;
    var e := p.events[a];
    if e.Initiates? {
      InitiateReplies(p.cfg, p.states[a], e.auth, e.peer, e.key, e.id);
    }
  }

  /** Every stored record goes back to the request that offered it. */
  lemma {:induction false} OfferOrigin(p: Path, k: nat, id: string) returns (a: nat)
    requires p.IsRun() && k < |p.states| && id in p.states[k].exchanges
    ensures a < k && Offers(p, a, id)
  {
    hide After, Allowed, Opens, Offers, DecodeKey;
    assert k > 0;
    assert p.Steps(k - 1);
    if id in p.states[k - 1].exchanges {
      a := OfferOrigin(p, k - 1, id);
    } else {
      AppearStep(p.cfg, p.states[k - 1], p.events[k - 1], id);
      OffersOpens(p, k - 1, id);
      a := k - 1;
    }
  }

  /** The record as the requests of the run made it: the offer of step `a`, and the answer of an
      earlier step if there was one, each key in the text in which it was sent. */
  ghost predicate TellsOf(p: Path, v: ExchangeView, a: nat, k: nat, id: string)
    requires |p.states| == |p.events| + 1 && a < |p.events| && k <= |p.events|
    requires p.events[a].Initiates? && p.events[a].auth.Signed?
  {
    && v.exchangeId == id && v.initiatorId == p.events[a].auth.claims.sub && v.responderId == p.events[a].peer
    && v.initiatorKey == p.events[a].key
    && (v.responderKey.Some? <==> exists b: nat :: AnsweredAt(p, b, k, id))
    && (forall b: nat | AnsweredAt(p, b, k, id) :: v.responderKey == Some(p.events[b].key))
  }

  ghost predicate AnsweredAt(p: Path, b: nat, k: nat, id: string)
    requires |p.states| == |p.events| + 1 && k <= |p.events|
    ensures AnsweredAt(p, b, k, id) ==> b < k && p.events[b].Responds?
  {
    b < k && Answers(p.cfg, p.states[b], p.events[b], id)
  }

  lemma TextOfKey(text: string)
    requires DecodeKey(text).Ok?
    ensures Base64Url.Encode(DecodeKey(text).value) == text
  {
  }

  /** A stored record, shown, is what its parties sent. */
  lemma ShownTells(p: Path, v: ExchangeView, a: nat, k: nat, id: string)
    requires p.IsRun() && k < |p.states| && id in p.states[k].exchanges && Offers(p, a, id)
    requires Shown(v, id, p.states[k].exchanges[id])
    ensures a < k && TellsOf(p, v, a, k, id)
  {
    hide After, Allowed, Opens, Answers, DecodeKey, Base64Url.Encode, IsKeyText;
    OffersOpens(p, a, id);
    OfferIsKept(p, a, k, id);
    TextOfKey(p.events[a].key);
    forall b: nat | AnsweredAt(p, b, k, id) ensures v.responderKey == Some(p.events[b].key) {
      AnswerShown(p, b, k, id);
      TextOfKey(p.events[b].key);
    }
    if p.states[k].exchanges[id].responderKey.Some? {
      var j := AnswerOrigin(p, k, id);
      assert AnsweredAt(p, j, k, id);
    }
  }

  /** An earlier answer is still in the record. */
  lemma AnswerShown(p: Path, b: nat, k: nat, id: string)
    requires p.IsRun() && k < |p.states| && b < k && Answers(p.cfg, p.states[b], p.events[b], id)
    requires id in p.states[k].exchanges
    ensures DecodeKey(p.events[b].key).Ok?
    ensures p.states[k].exchanges[id].responderKey == Some(DecodeKey(p.events[b].key).value)
  {
    hide After, Allowed, DecodeKey;
    RunSound(p, b);
    assert p.Steps(b);
    RecordStep(p.cfg, p.states[b], p.events[b], id);
    RecordIsStable(p, b + 1, k, id);
  }

  /** In every run a fetch is answered with the record if and only if the token is good, the
      record is stored, and the caller is who offered it or the peer named in that offer; the
      reply is what the two sent. Otherwise nothing is shown and nothing changes. */
  lemma FetchAnswers(p: Path, k: nat)
    requires p.IsRun() && k < |p.events| && p.events[k].GetsExchange?
    ensures var s, e := p.states[k], p.events[k];
            var r, known := GetExchange(p.cfg, s, e.auth, e.id).result, Bearer(p.cfg, s.now, e.auth);
            && (r == Err(Unauthorized) <==> !known)
            && (r == Err(NotFound) <==> known && e.id !in s.exchanges)
            && (r.Ok? <==> known && e.id in s.exchanges && exists a: nat :: IsParty(p, a, k, e.id, e.auth.claims.sub))
            && (r.Err? ==> p.states[k + 1] == s && r.error in {Unauthorized, NotFound, Forbidden})
            && (r.Ok? ==> forall a: nat | a < k && Offers(p, a, e.id) :: TellsOf(p, r.value, a, k, e.id))
  {
    hide After, Allowed, GetExchange, Offers, TellsOf, Bearer, Shown;
    var s, e := p.states[k], p.events[k];
    GetReplies(p.cfg, s, e.auth, e.id);
    assert p.Steps(k);
    AfterGet(p.cfg, s, e);
    if e.id in s.exchanges {
      var a := OfferOrigin(p, k, e.id);
      PartiesOf(p, k, e.id);
      var r := GetExchange(p.cfg, s, e.auth, e.id).result;
      if r.Ok? {
        assert IsParty(p, a, k, e.id, e.auth.claims.sub);
        forall a': nat | a' < k && Offers(p, a', e.id) ensures TellsOf(p, r.value, a', k, e.id) {
          ShownTells(p, r.value, a', k, e.id);
        }
      }
    }
  }

  /** The user offered the exchange before step `k`, or is the peer named in the offer. */
  ghost predicate IsParty(p: Path, a: nat, k: nat, id: string, user: string)
    requires |p.states| == |p.events| + 1 && k <= |p.events|
  {
    a < k && Offers(p, a, id) && (user == p.events[a].auth.claims.sub || user == p.events[a].peer)
  }

  lemma PartiesOf(p: Path, k: nat, id: string)
    requires p.IsRun() && k < |p.states| && id in p.states[k].exchanges
    ensures forall a: nat | a < k && Offers(p, a, id) ::
              p.states[k].exchanges[id].initiatorId == p.events[a].auth.claims.sub
              && p.states[k].exchanges[id].responderId == p.events[a].peer
  {
    hide After, Allowed, Opens, DecodeKey, IsKeyText;
    forall a: nat | a < k && Offers(p, a, id)
      ensures p.states[k].exchanges[id].initiatorId == p.events[a].auth.claims.sub
              && p.states[k].exchanges[id].responderId == p.events[a].peer
    {
      OffersOpens(p, a, id);
      OfferIsKept(p, a, k, id);
    }
  }

  lemma AfterGet(cfg: Config, s: State, e: Event)
    requires e.GetsExchange?
    ensures After(cfg, s, e) == GetExchange(cfg, s, e.auth, e.id).state
  {
    hide GetExchange, AfterAccount, AfterAuth, AfterRelationship, AfterBroker;
  }

  /** In every run an answer is accepted if and only if the token is good, the record is stored
      and unanswered, the caller is the peer its offer named, and the key is one; the reply is
      what the two sent. */
  lemma AnswerAnswers(p: Path, k: nat)
    requires p.IsRun() && k < |p.events| && p.events[k].Responds?
    ensures var s, e := p.states[k], p.events[k];
            var r, known := Respond(p.cfg, s, e.auth, e.id, e.key).result, Bearer(p.cfg, s.now, e.auth);
            && (r.Ok? <==> && known && e.id in s.exchanges && IsKeyText(e.key)
                           && (exists a: nat :: NamedIn(p, a, k, e.id, e.auth.claims.sub))
                           && (forall b: nat :: !AnsweredAt(p, b, k, e.id)))
            && (r.Ok? ==> forall a: nat | a < k && Offers(p, a, e.id) :: TellsOf(p, r.value, a, k + 1, e.id))
  {
    hide After, Allowed, Respond, Offers, TellsOf, Bearer, Shown, IsKeyText, KeyOf, Answers;
    var s, e := p.states[k], p.events[k];
    RespondReplies(p.cfg, s, e.auth, e.id, e.key);
    if e.id in s.exchanges {
      var a := OfferOrigin(p, k, e.id);
      PartiesOf(p, k, e.id);
      assert e.auth.Signed? && e.auth.claims.sub == s.exchanges[e.id].responderId ==> NamedIn(p, a, k, e.id, e.auth.claims.sub);
      UnansweredIff(p, k, e.id);
      var r := Respond(p.cfg, s, e.auth, e.id, e.key).result;
      if r.Ok? {
        ReplyIsNextRecord(p, k);
        forall a': nat | a' < k && Offers(p, a', e.id) ensures TellsOf(p, r.value, a', k + 1, e.id) {
          ShownTells(p, r.value, a', k + 1, e.id);
        }
      }
    }
  }

  ghost predicate NamedIn(p: Path, a: nat, k: nat, id: string, user: string)
    requires |p.states| == |p.events| + 1 && k <= |p.events|
  {
    a < k && Offers(p, a, id) && user == p.events[a].peer
  }

  lemma UnansweredIff(p: Path, k: nat, id: string)
    requires p.IsRun() && k < |p.states| && id in p.states[k].exchanges
    ensures p.states[k].exchanges[id].responderKey.None? <==> forall b: nat :: !AnsweredAt(p, b, k, id)
  {
    hide After, Allowed, Answers, DecodeKey;
    if p.states[k].exchanges[id].responderKey.Some? {
      var j := AnswerOrigin(p, k, id);
      assert AnsweredAt(p, j, k, id);
    } else {
      forall b: nat ensures !AnsweredAt(p, b, k, id) {
        if AnsweredAt(p, b, k, id) {
          AnswerShown(p, b, k, id);
        }
      }
    }
  }

  lemma ReplyIsNextRecord(p: Path, k: nat)
    requires p.IsRun() && k < |p.events| && p.events[k].Responds?
    requires Respond(p.cfg, p.states[k], p.events[k].auth, p.events[k].id, p.events[k].key).result.Ok?
    ensures var e := p.events[k];
            && e.id in p.states[k + 1].exchanges
            && Shown(Respond(p.cfg, p.states[k], e.auth, e.id, e.key).result.value, e.id, p.states[k + 1].exchanges[e.id])
  {
    hide Allowed, Shown, Respond, AfterAccount, AfterAuth, AfterRelationship, AfterBroker, IsKeyText, KeyOf;
    var e := p.events[k];
    assert p.Steps(k);
    RespondReplies(p.cfg, p.states[k], e.auth, e.id, e.key);
  }
}
