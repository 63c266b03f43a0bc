/** The life of a pending exchange with atomic handlers: offered, answered once, then
    collected by its initiator or purged after its expiry. */
module ExchangeLifecycle {
  import opened Types
  import opened Tables
  import opened Spec
  import opened Machine
  import AuthInvariant
  import Revocation

  ghost predicate ExchangesSound(s: State) {
    forall id | id in s.exchanges ::
      var ex := s.exchanges[id];
      && id in s.usedIds
      && |ex.initiatorKey| == 32
      && (ex.responderKey.Some? ==> |ex.responderKey.value| == 32)
      && ex.createdAt <= s.now && ex.expiresAt == ex.createdAt + EXCHANGE_TTL_SECS
  }

  // ── One step ────────────────────────────────────────────────────────────

  /** The step delivers the completed exchange to its initiator. */
  predicate Delivers(cfg: Config, s: State, e: Event, id: string) {
    && e.GetsExchange? && e.id == id && id in s.exchanges
    && AuthUser(cfg, s.now, e.auth) == Ok(s.exchanges[id].initiatorId)
    && s.exchanges[id].responderKey.Some?
  }

  /** The step answers the exchange: the named responder submits a 32-byte key while none
      is stored. */
  predicate Answers(cfg: Config, s: State, e: Event, id: string) {
    && e.Responds? && e.id == id && id in s.exchanges
    && AuthUser(cfg, s.now, e.auth) == Ok(s.exchanges[id].responderId)
    && s.exchanges[id].responderKey.None?
    && DecodeKey(e.key).Ok?
  }

  predicate PurgesExpired(s: State, e: Event, id: string) {
    e.Purges? && id in s.exchanges && s.exchanges[id].expiresAt < s.now
  }

  predicate Opens(cfg: Config, s: State, e: Event, id: string) {
    && e.Initiates? && e.id == id
    && Initiate(cfg, s, e.auth, e.peer, e.key, e.id).result.Ok?
  }

  /** What the step makes of a record it finds: it vanishes exactly when delivered or purged
      past its expiry; otherwise its offer stays, and its answer changes exactly when the
      named responder answers. */
  ghost predicate Follows(cfg: Config, s: State, e: Event, r: State, id: string)
    requires id in s.exchanges
  {
    && (id !in r.exchanges <==> Delivers(cfg, s, e, id) || PurgesExpired(s, e, id))
    && (id in r.exchanges && !Answers(cfg, s, e, id) ==> r.exchanges[id] == s.exchanges[id])
    && (Answers(cfg, s, e, id) ==>
          id in r.exchanges
          && r.exchanges[id] == s.exchanges[id].(responderKey := Some(DecodeKey(e.key).value)))
  }

  lemma HandlerStep(cfg: Config, s: State, e: Event, id: string)
    requires IsExchange(e) && Allowed(s, e) && ExchangesSound(s) && id in s.exchanges
    ensures Follows(cfg, s, e, AfterExchange(cfg, s, e), id)
  {
    hide DecodeKey, View;
  }

  /** The whole life of one record, step by step. */
  lemma RecordStep(cfg: Config, s: State, e: Event, id: string)
    requires Allowed(s, e) && ExchangesSound(s) && id in s.exchanges
    ensures Follows(cfg, s, e, After(cfg, s, e), id)
  {
    hide AfterAccount, AfterAuth, AfterExchange, AfterRelationship, AfterBroker, DecodeKey;
    if IsExchange(e) {
      HandlerStep(cfg, s, e, id);
    }
  }

  /** Records appear only by an initiation with a fresh id, unanswered and with a week to
      live. */
  ghost predicate Appears(cfg: Config, s: State, e: Event, r: State, id: string) {
    && (id in r.exchanges <==> Opens(cfg, s, e, id))
    && (Opens(cfg, s, e, id) ==>
          id !in s.usedIds && e.auth.Signed? && DecodeKey(e.key).Ok?
          && r.exchanges[id] == Exchange(e.auth.claims.sub, e.peer, DecodeKey(e.key).value, None,
                                         s.now, s.now + EXCHANGE_TTL_SECS))
  }

  lemma HandlerAppear(cfg: Config, s: State, e: Event, id: string)
    requires IsExchange(e) && Allowed(s, e) && id !in s.exchanges
    ensures Appears(cfg, s, e, AfterExchange(cfg, s, e), id)
  {
    hide DecodeKey, View;
  }

  lemma AppearStep(cfg: Config, s: State, e: Event, id: string)
    requires Allowed(s, e) && id !in s.exchanges
    ensures Appears(cfg, s, e, After(cfg, s, e), id)
  {
    hide AfterAccount, AfterAuth, AfterExchange, AfterRelationship, AfterBroker, DecodeKey;
    if IsExchange(e) {
      HandlerAppear(cfg, s, e, id);
    }
  }

  lemma UsedIdsStep(cfg: Config, s: State, e: Event)
    ensures s.usedIds <= After(cfg, s, e).usedIds && s.now <= After(cfg, s, e).now
  {
    hide AfterAccount, AfterAuth, AfterExchange, AfterRelationship, AfterBroker, Restart;
    if IsAccount(e) {
      assert After(cfg, s, e) == AfterAccount(cfg, s, e);
    } else if IsAuth(e) {
      assert After(cfg, s, e) == AfterAuth(cfg, s, e);
    } else if IsExchange(e) {
      assert After(cfg, s, e) == AfterExchange(cfg, s, e);
    } else if IsRelationship(e) {
      assert After(cfg, s, e) == AfterRelationship(cfg, s, e);
    }
  }

  lemma OpenUsesId(cfg: Config, s: State, e: Event, id: string)
    requires Opens(cfg, s, e, id)
    ensures id in After(cfg, s, e).usedIds
  {
    hide AfterAccount, AfterAuth, AfterRelationship, AfterBroker, DecodeKey;
  }

  lemma SoundStep(cfg: Config, s: State, e: Event)
    requires Allowed(s, e) && ExchangesSound(s)
    ensures ExchangesSound(After(cfg, s, e))
  {
    hide After, Allowed, DecodeKey, Opens, Delivers, PurgesExpired;
    var r := After(cfg, s, e);
    UsedIdsStep(cfg, s, e);
    forall id | id in r.exchanges
      ensures var ex := r.exchanges[id];
              && id in r.usedIds && |ex.initiatorKey| == 32
              && (ex.responderKey.Some? ==> |ex.responderKey.value| == 32)
              && ex.createdAt <= r.now && ex.expiresAt == ex.createdAt + EXCHANGE_TTL_SECS
    {
      if id in s.exchanges {
        RecordStep(cfg, s, e, id);
      } else {
        AppearStep(cfg, s, e, id);
        OpenUsesId(cfg, s, e, id);
      }
    }
  }

  // ── Runs ────────────────────────────────────────────────────────────────

  lemma {:induction false} RunSound(p: Path, k: nat)
    requires p.IsRun() && k < |p.states|
    ensures ExchangesSound(p.states[k])
  {
    hide After, Allowed;
    if k > 0 {
      RunSound(p, k - 1);
      assert p.Steps(k - 1);
      SoundStep(p.cfg, p.states[k - 1], p.events[k - 1]);
    }
  }

  /** A record that has gone, or whose id was drawn for something else, never comes back. */
  lemma {:induction false} GoneStaysGone(p: Path, i: nat, k: nat, id: string)
    requires p.IsRun() && i <= k < |p.states|
    requires id in p.states[i].usedIds && id !in p.states[i].exchanges
    ensures id in p.states[k].usedIds && id !in p.states[k].exchanges
  {
    hide After, Allowed, Opens;
    if i < k {
      GoneStaysGone(p, i, k - 1, id);
      assert p.Steps(k - 1);
      UsedIdsStep(p.cfg, p.states[k - 1], p.events[k - 1]);
      AppearStep(p.cfg, p.states[k - 1], p.events[k - 1], id);
    }
  }

  /** While a record exists it was there all along since any earlier sighting, its ids,
      initiator key and times never change, and a stored answer never changes. */
  lemma {:induction false} RecordIsStable(p: Path, i: nat, k: nat, id: string)
    requires p.IsRun() && i <= k < |p.states|
    requires id in p.states[i].exchanges && id in p.states[k].exchanges
    ensures SameOffer(p.states[i].exchanges[id], p.states[k].exchanges[id])
    ensures p.states[i].exchanges[id].responderKey.Some? ==> p.states[k].exchanges[id] == p.states[i].exchanges[id]
  {
    hide After, Allowed, Delivers, PurgesExpired;
    if i < k {
      RunSound(p, i);
      RunSound(p, k - 1);
      assert p.Steps(k - 1);
      PresentBetween(p, i, k - 1, k, id);
      RecordIsStable(p, i, k - 1, id);
      RecordStep(p.cfg, p.states[k - 1], p.events[k - 1], id);
    }
  }

  lemma PresentBetween(p: Path, i: nat, j: nat, k: nat, id: string)
    requires p.IsRun() && i <= j <= k < |p.states|
    requires id in p.states[i].exchanges && id in p.states[k].exchanges
    ensures id in p.states[j].exchanges
  {
    hide After, Allowed;
    RunSound(p, i);
    UsedIdsGrow(p, i, j);
    if id !in p.states[j].exchanges {
      GoneStaysGone(p, j, k, id);
    }
  }

  lemma {:induction false} UsedIdsGrow(p: Path, i: nat, k: nat)
    requires p.Valid() && i <= k < |p.states|
    ensures p.states[i].usedIds <= p.states[k].usedIds
  {
    hide After, Allowed;
    if i < k {
      UsedIdsGrow(p, i, k - 1);
      assert p.Steps(k - 1);
      UsedIdsStep(p.cfg, p.states[k - 1], p.events[k - 1]);
    }
  }

  /** A stored answer goes back to exactly one earlier step, in which the named responder
      submitted it. */
  lemma {:induction false} AnswerOrigin(p: Path, k: nat, id: string) returns (j: nat)
    requires p.IsRun() && k < |p.states|
    requires id in p.states[k].exchanges && p.states[k].exchanges[id].responderKey.Some?
    ensures j < k && Answers(p.cfg, p.states[j], p.events[j], id)
    ensures p.states[k].exchanges[id].responderKey == Some(DecodeKey(p.events[j].key).value)
  {
    hide After, Allowed, Answers, Opens, Delivers, PurgesExpired, DecodeKey;
    assert k > 0;
    var s, e := p.states[k - 1], p.events[k - 1];
    RunSound(p, k - 1);
    assert p.Steps(k - 1);
    if id !in s.exchanges {
      AppearStep(p.cfg, s, e, id);
    }
    RecordStep(p.cfg, s, e, id);
    if Answers(p.cfg, s, e, id) {
      j := k - 1;
    } else {
      j := AnswerOrigin(p, k - 1, id);
    }
  }

  /** An exchange is answered at most once over any run. */
  lemma AnsweredAtMostOnce(p: Path, j: nat, k: nat, id: string)
    requires p.IsRun() && j < |p.events| && k < |p.events|
    requires Answers(p.cfg, p.states[j], p.events[j], id) && Answers(p.cfg, p.states[k], p.events[k], id)
    ensures j == k
  {
    if j < k {
      NoSecondAnswer(p, j, k, id);
    } else if k < j {
      NoSecondAnswer(p, k, j, id);
    }
  }

  lemma NoSecondAnswer(p: Path, j: nat, k: nat, id: string)
    requires p.IsRun() && j < k < |p.events|
    requires Answers(p.cfg, p.states[j], p.events[j], id)
    ensures !Answers(p.cfg, p.states[k], p.events[k], id)
  {
    hide After, Allowed, DecodeKey;
    RunSound(p, j);
    assert p.Steps(j);
    RecordStep(p.cfg, p.states[j], p.events[j], id);
    if id in p.states[k].exchanges {
      RecordIsStable(p, j + 1, k, id);
    }
  }

  lemma OpensBetweenUsers(cfg: Config, s: State, e: Event, id: string)
    requires Opens(cfg, s, e, id) && Allowed(s, e) && AuthInvariant.Inv(cfg, s)
    ensures e.auth.Signed? && e.auth.claims.sub in s.users && e.peer in s.users
  {
    hide DecodeKey;
  }

  /** Both parties of every stored exchange are registered users. */
  lemma {:induction false} PartiesAreUsers(p: Path, k: nat, id: string)
    requires p.IsRun() && k < |p.states| && id in p.states[k].exchanges
    ensures var ex := p.states[k].exchanges[id];
            ex.initiatorId in p.states[k].users && ex.responderId in p.states[k].users
  {
    hide After, Allowed, Opens, Delivers, PurgesExpired, DecodeKey, AuthInvariant.Inv;
    assert k > 0;
    var s, e := p.states[k - 1], p.events[k - 1];
    RunSound(p, k - 1);
    AuthInvariant.RunKeeps(p, k - 1);
    assert p.Steps(k - 1);
    if id in s.exchanges {
      PartiesAreUsers(p, k - 1, id);
      RecordStep(p.cfg, s, e, id);
    } else {
      AppearStep(p.cfg, s, e, id);
      OpensBetweenUsers(p.cfg, s, e, id);
    }
    var ex := p.states[k].exchanges[id];
    assert ex.initiatorId in s.users && ex.responderId in s.users;
    UsersStay(p.cfg, s, e, ex.initiatorId);
    UsersStay(p.cfg, s, e, ex.responderId);
  }

  lemma UsersStay(cfg: Config, s: State, e: Event, user: string)
    requires Allowed(s, e) && AuthInvariant.Inv(cfg, s) && user in s.users
    ensures user in After(cfg, s, e).users
  {
    hide After, Allowed;
    Revocation.ValidFromStep(cfg, s, e, user);
  }

  // ── Discard after delivery ──────────────────────────────────────────────

  /** The reply to the step shows the record. */
  ghost predicate Shows(cfg: Config, s: State, e: Event, id: string) {
    || (e.GetsExchange? && var r := GetExchange(cfg, s, e.auth, e.id).result; r.Ok? && r.value.exchangeId == id)
    || (e.Responds? && var r := Respond(cfg, s, e.auth, e.id, e.key).result; r.Ok? && r.value.exchangeId == id)
  }

  lemma ShowsNeedsRecord(cfg: Config, s: State, e: Event, id: string)
    requires id !in s.exchanges
    ensures !Shows(cfg, s, e, id)
    ensures e.GetsExchange? && e.id == id ==> GetExchange(cfg, s, e.auth, id).result.Err?
    ensures e.Responds? && e.id == id ==> Respond(cfg, s, e.auth, id, e.key).result.Err?
  {
  }

  /** Once its initiator has collected a completed exchange, no later step shows that record
      to anyone; requests for it fail. */
  lemma DiscardedAfterDelivery(p: Path, i: nat, k: nat, id: string)
    requires p.IsRun() && i < k < |p.events|
    requires Delivers(p.cfg, p.states[i], p.events[i], id)
    ensures id !in p.states[k].exchanges && !Shows(p.cfg, p.states[k], p.events[k], id)
  {
    hide After, Allowed, Shows;
    RunSound(p, i);
    assert p.Steps(i);
    RecordStep(p.cfg, p.states[i], p.events[i], id);
    UsedIdsStep(p.cfg, p.states[i], p.events[i]);
    GoneStaysGone(p, i + 1, k, id);
    ShowsNeedsRecord(p.cfg, p.states[k], p.events[k], id);
  }

  // ── Purge and lifetime ──────────────────────────────────────────────────

  /** A purge removes exactly the records past their expiry, keeps the others as they are,
      and reports how many it removed. */
  lemma PurgeIsExact(s: State)
    ensures var o := Purge(s);
            && (forall id :: id in o.state.exchanges <==> id in s.exchanges && s.now <= s.exchanges[id].expiresAt)
            && (forall id | id in o.state.exchanges :: o.state.exchanges[id] == s.exchanges[id])
            && o.result == Ok(|s.exchanges| - |o.state.exchanges|)
  {
    CutSize(s.exchanges, Expired(s.exchanges, s.now));
  }

  lemma CutSize(table: map<string, Exchange>, gone: set<string>)
    requires gone <= table.Keys
    ensures |table - gone| == |table| - |gone|
  {
    var left := table - gone;
    assert left.Keys == table.Keys - gone;
    assert |left| == |left.Keys| && |table| == |table.Keys|;
  }

  /** A record its initiator has not collected survives at least seven days. */
  lemma {:induction false} SurvivesSevenDays(p: Path, i: nat, k: nat, id: string)
    requires p.IsRun() && i < k < |p.states|
    requires Opens(p.cfg, p.states[i], p.events[i], id)
    requires forall j :: i < j < k ==> !Delivers(p.cfg, p.states[j], p.events[j], id)
    requires p.states[k].now <= p.states[i].now + EXCHANGE_TTL_SECS
    ensures id in p.states[k].exchanges && p.states[k].exchanges[id].expiresAt == p.states[i].now + EXCHANGE_TTL_SECS
  {
    hide After, Allowed, Opens, Delivers, Answers, DecodeKey;
    RunSound(p, i);
    assert p.Steps(k - 1);
    if k == i + 1 {
      OpensFresh(p, i, id);
      AppearStep(p.cfg, p.states[i], p.events[i], id);
    } else {
      UsedIdsStep(p.cfg, p.states[k - 1], p.events[k - 1]);
      SurvivesSevenDays(p, i, k - 1, id);
      RunSound(p, k - 1);
      RecordStep(p.cfg, p.states[k - 1], p.events[k - 1], id);
    }
  }

  lemma OpensFresh(p: Path, i: nat, id: string)
    requires p.IsRun() && i < |p.events| && Opens(p.cfg, p.states[i], p.events[i], id)
    ensures id !in p.states[i].exchanges
  {
    hide After;
    RunSound(p, i);
    assert p.Steps(i);
  }

  /** After the first purge past its expiry a record is gone for good. */
  lemma GoneAfterPurge(p: Path, i: nat, j: nat, k: nat, id: string)
    requires p.IsRun() && i < j < k < |p.states|
    requires Opens(p.cfg, p.states[i], p.events[i], id)
    requires p.events[j].Purges? && p.states[i].now + EXCHANGE_TTL_SECS < p.states[j].now
    ensures id !in p.states[k].exchanges
  {
    hide After, Allowed, Opens, DecodeKey, Answers, Delivers;
    OpensFresh(p, i, id);
    assert p.Steps(i) && p.Steps(j);
    AppearStep(p.cfg, p.states[i], p.events[i], id);
    OpenUsesId(p.cfg, p.states[i], p.events[i], id);
    UsedIdsGrow(p, i + 1, j);
    UsedIdsGrow(p, j, j + 1);
    RunSound(p, j);
    if id in p.states[j].exchanges {
      RecordIsStable(p, i + 1, j, id);
      RecordStep(p.cfg, p.states[j], p.events[j], id);
    } else {
      GoneStaysGone(p, j, j + 1, id);
    }
    GoneStaysGone(p, j + 1, k, id);
  }
}
