/** Open connections and the disconnect hooks still owed, told from the events. */
module Connections {
  import opened Types
  import opened Tables
  import opened Spec
  import opened Machine
  import opened AuthInvariant
  import opened Kicking
  import opened Revocation
  import opened Suspension

  /** The step admits a connection of the client id. */
  predicate Opened(cfg: Config, s: State, e: Event, id: string) {
    e.Connects? && e.clientId == id && Authenticate(cfg, s, id, e.password).Some?
  }

  // ── Exactly which connections are open ──────────────────────────────────

  lemma AccountCloses(cfg: Config, s: State, e: Event, id: string)
    requires IsAccount(e) && Sound(cfg, s) && id in s.live
    ensures id in AfterAccount(cfg, s, e).live <==> !SuspendedBy(cfg, s, e, s.live[id].sub)
  {
    hide Register, Kick, Sound;
    if e.Suspends? && SuspendedBy(cfg, s, e, e.user) {
      var marked := SetSuspended(s, e.user, true, e.reason).state;
      assert Sound(cfg, marked) by { MarkingKeepsSound(cfg, s, e.user, e.reason); }
      KickExpels(cfg, marked, e.user);
    }
  }

  lemma MarkingKeepsSound(cfg: Config, s: State, user: string, reason: Option<string>)
    requires Sound(cfg, s)
    ensures Sound(cfg, SetSuspended(s, user, true, reason).state)
  {
    hide Owns;
  }

  lemma RevokeCloses(cfg: Config, s: State, e: Event, id: string)
    requires IsRelationship(e) && Sound(cfg, s) && id in s.live
    ensures id in AfterRelationship(cfg, s, e).live <==> !Kicks(cfg, s, e, s.live[id].sub)
  {
    hide Kick, FindRelationship, DeleteRelationship, Sound;
    if e.Revokes? && Revoke(cfg, s, e.auth, e.id).result.Ok? {
      RevocationKicksBoth(cfg, s, e.auth, e.id);
    }
  }

  /** The connection is open in `r` because the step admitted it, or because it was open and the
      step neither hung it up, kicked its user nor restarted the server. */
  ghost predicate StaysOpen(cfg: Config, s: State, e: Event, id: string) {
    || Opened(cfg, s, e, id)
    || (id in s.live && !e.Restarts? && e != Hangs(id) && !Kicks(cfg, s, e, s.live[id].sub))
  }

  lemma BrokerOpens(cfg: Config, s: State, e: Event, id: string)
    requires IsBroker(e)
    ensures id in AfterBroker(cfg, s, e).live <==> StaysOpen(cfg, s, e, id)
  {
    hide Authenticate, Revoke, EndsOf;
  }

  lemma AccountOpens(cfg: Config, s: State, e: Event, id: string)
    requires IsAccount(e) && Sound(cfg, s)
    ensures id in AfterAccount(cfg, s, e).live <==> StaysOpen(cfg, s, e, id)
  {
    hide AfterAccount, Sound, Authenticate, Revoke, EndsOf;
    AccountOnlyCloses(cfg, s, e);
    if id in s.live {
      AccountCloses(cfg, s, e, id);
    }
  }

  lemma RelationshipOpens(cfg: Config, s: State, e: Event, id: string)
    requires IsRelationship(e) && Sound(cfg, s)
    ensures id in AfterRelationship(cfg, s, e).live <==> StaysOpen(cfg, s, e, id)
  {
    hide AfterRelationship, Sound, Authenticate, Kicks;
    RelationshipOnlyCloses(cfg, s, e);
    if id in s.live {
      RevokeCloses(cfg, s, e, id);
    }
  }

  lemma QuietOpens(cfg: Config, s: State, e: Event, id: string)
    requires !IsAccount(e) && !IsRelationship(e) && !IsBroker(e)
    ensures id in After(cfg, s, e).live <==> StaysOpen(cfg, s, e, id)
  {
    hide AfterAccount, AfterAuth, AfterExchange, AfterRelationship, AfterBroker, Authenticate;
    if IsAuth(e) {
      assert After(cfg, s, e) == AfterAuth(cfg, s, e);
    } else if IsExchange(e) {
      assert After(cfg, s, e) == AfterExchange(cfg, s, e);
    }
  }

  /** A connection is open after a step if and only if the step admitted it, or it was open and
      the step neither hung it up, kicked its user nor restarted the server. */
  lemma OpenStep(cfg: Config, s: State, e: Event, id: string)
    requires Sound(cfg, s)
    ensures id in After(cfg, s, e).live <==> StaysOpen(cfg, s, e, id)
  {
    hide AfterAccount, AfterAuth, AfterExchange, AfterRelationship, AfterBroker, Sound, StaysOpen;
    if IsAccount(e) {
      AccountOpens(cfg, s, e, id);
    } else if IsRelationship(e) {
      RelationshipOpens(cfg, s, e, id);
    } else if IsBroker(e) {
      BrokerOpens(cfg, s, e, id);
    } else {
      QuietOpens(cfg, s, e, id);
    }
  }

  // ── Every connection gets its disconnect hook ───────────────────────────

  /** Connections of the client id that are open or await their disconnect hook. */
  function Pending(s: State, id: string): (n: nat) {
    s.closing[id] + if id in s.live then 1 else 0
  }

  lemma CloseConserves(s: State, ids: set<string>, id: string)
    ensures Pending(Close(s, ids), id) == Pending(s, id)
  {
  }

  lemma KickConserves(s: State, user: string, id: string)
    ensures Pending(Kick(s, user), id) == Pending(s, id)
  {
    hide DeviceIds, DevicesOf, Close;
    CloseConserves(InvalidateTokens(s, user), DeviceIds(DevicesOf(s.devices, user)), id);
  }

  lemma AccountConserves(cfg: Config, s: State, e: Event, id: string)
    requires IsAccount(e)
    ensures Pending(AfterAccount(cfg, s, e), id) == Pending(s, id)
  {
    hide Register, Kick;
    if e.Suspends? {
      KickConserves(SetSuspended(s, e.user, true, e.reason).state, e.user, id);
    }
  }

  lemma RelationshipConserves(cfg: Config, s: State, e: Event, id: string)
    requires IsRelationship(e)
    ensures Pending(AfterRelationship(cfg, s, e), id) == Pending(s, id)
  {
    hide Kick, FindRelationship, DeleteRelationship;
    if e.Revokes? && Revoke(cfg, s, e.auth, e.id).result.Ok? {
      var user := e.auth.claims.sub;
      var deleted := s.(relationships := DeleteRelationship(s.relationships, user, e.id));
      KickConserves(deleted, user, id);
      KickConserves(Kick(deleted, user), FindRelationship(s.relationships, user, e.id).value.peerId, id);
    }
  }

  lemma ConnectConserves(cfg: Config, s: State, clientId: string, password: Option<Token>, id: string)
    ensures Pending(Connect(cfg, s, clientId, password), id)
         == Pending(s, id) + if Opened(cfg, s, Connects(clientId, password), id) then 1 else 0
  {
    hide Authenticate;
  }

  lemma BrokerConserves(cfg: Config, s: State, e: Event, id: string)
    requires IsBroker(e) && Allowed(s, e)
    ensures Pending(AfterBroker(cfg, s, e), id)
         == Pending(s, id) + (if Opened(cfg, s, e, id) then 1 else 0) - (if e == Disconnected(id) then 1 else 0)
  {
    hide Authenticate, Close, Connect;
    if e.Hangs? {
      CloseConserves(s, {e.clientId}, id);
    } else if e.Connects? {
      ConnectConserves(cfg, s, e.clientId, e.password, id);
    }
  }

  lemma QuietConserves(cfg: Config, s: State, e: Event, id: string)
    requires !IsAccount(e) && !IsRelationship(e) && !IsBroker(e)
    ensures Pending(After(cfg, s, e), id) == if e.Restarts? then 0 else Pending(s, id)
  {
    hide AfterAccount, AfterAuth, AfterExchange, AfterRelationship, AfterBroker;
    if IsAuth(e) {
      assert After(cfg, s, e) == AfterAuth(cfg, s, e);
    } else if IsExchange(e) {
      assert After(cfg, s, e) == AfterExchange(cfg, s, e);
    }
  }

  lemma PendingStep(cfg: Config, s: State, e: Event, id: string)
    requires Allowed(s, e)
    ensures Pending(After(cfg, s, e), id)
         == if e.Restarts? then 0
            else Pending(s, id) + (if Opened(cfg, s, e, id) then 1 else 0) - (if e == Disconnected(id) then 1 else 0)
  {
    hide AfterAccount, AfterAuth, AfterExchange, AfterRelationship, AfterBroker, Authenticate, Allowed, Pending;
    if IsAccount(e) {
      AccountConserves(cfg, s, e, id);
    } else if IsRelationship(e) {
      RelationshipConserves(cfg, s, e, id);
    } else if IsBroker(e) {
      BrokerConserves(cfg, s, e, id);
    } else {
      QuietConserves(cfg, s, e, id);
    }
  }

  /** Connections of the client id admitted since the last restart. */
  ghost function Admissions(p: Path, k: nat, id: string): (n: nat)
    requires k <= |p.events| < |p.states|
  {
    if k == 0 || p.events[k - 1].Restarts? then 0
    else Admissions(p, k - 1, id) + if Opened(p.cfg, p.states[k - 1], p.events[k - 1], id) then 1 else 0
  }

  /** Disconnect hooks of the client id since the last restart. */
  ghost function Hooks(p: Path, k: nat, id: string): (n: nat)
    requires k <= |p.events|
  {
    if k == 0 || p.events[k - 1].Restarts? then 0
    else Hooks(p, k - 1, id) + if p.events[k - 1] == Disconnected(id) then 1 else 0
  }

  /** In every run, of the connections admitted since the last restart each is open, has had its
      disconnect hook, or still awaits it: kicks, hang-ups and takeovers lose none and report
      none twice. */
  lemma {:induction false} ConnectionsConserved(p: Path, k: nat, id: string)
    requires p.IsRun() && k < |p.states|
    ensures Admissions(p, k, id)
         == Hooks(p, k, id) + p.states[k].closing[id] + (if id in p.states[k].live then 1 else 0)
  {
    hide After, Allowed, Opened;
    if k > 0 {
      ConnectionsConserved(p, k - 1, id);
      assert p.Steps(k - 1);
      PendingStep(p.cfg, p.states[k - 1], p.events[k - 1], id);
    }
  }
}
