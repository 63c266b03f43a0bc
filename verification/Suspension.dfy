/** A suspended user is off the broker and gets no token; unsuspending does not revive
    tokens from before the suspension. */
module Suspension {
  import opened Types
  import opened Tables
  import opened Spec
  import opened Machine
  import opened AuthInvariant
  import opened Kicking
  import opened Revocation
  import opened Replies

  /** In every reachable state a suspended user has no open connection, is admitted with no
      token and is issued none. */
  lemma SuspendedIsOffline(p: Path, k: nat, user: string)
    requires p.IsRun() && k < |p.states|
    requires user in p.states[k].users && p.states[k].users[user].suspended
    ensures forall clientId | clientId in p.states[k].live :: p.states[k].live[clientId].sub != user
    ensures forall c: Claims, clientId | c.sub == user ::
              Authenticate(p.cfg, p.states[k], clientId, Some(Signed(c))) == None
    ensures forall device, signature :: Verify(p.cfg, p.states[k], user, device, signature).result.Err?
  {
    hide After;
    RunKeeps(p, k);
    assert LiveCurrent(p.states[k], {});
  }

  /** A suspension closes exactly the user's open connections, which then await their
      disconnect hooks. */
  lemma SuspensionKicks(cfg: Config, s: State, e: Event, user: string)
    requires Sound(cfg, s) && SuspendedBy(cfg, s, e, user)
    ensures var r := After(cfg, s, e);
            && user in r.users && r.users[user].suspended && r.users[user].tokensValidFrom == s.now == r.now
            && r.issued == s.issued
            && (forall k :: k in r.live <==> k in s.live && s.live[k].sub != user)
            && (forall k | k in r.live :: r.live[k] == s.live[k])
            && r.closing == s.closing + multiset(set k | k in s.live && s.live[k].sub == user)
  {
    hide AfterAuth, AfterExchange, AfterRelationship, AfterBroker, Register, CreateRegToken, Unsuspend, Kick;
    var marked := SetSuspended(s, user, true, e.reason).state;
    KickIsExact(cfg, marked, user);
  }

  /** Some continuation admits the token. */
  ghost predicate AdmittedAgain(cfg: Config, s: State, c: Claims) {
    exists p: Path, k: nat :: ReachesAdmission(cfg, s, p, k, c)
  }

  ghost predicate ReachesAdmission(cfg: Config, s: State, p: Path, k: nat, c: Claims) {
    && p.Valid() && p.cfg == cfg && p.states[0] == s && k < |p.states|
    && Authenticate(cfg, p.states[k], c.dev, Some(Signed(c))) == Some(c)
  }

  lemma UnsuspendAdmits(cfg: Config, s: State, c: Claims)
    requires c.sub in s.users && s.users[c.sub].tokensValidFrom <= c.iat && s.now <= c.exp
    ensures AdmittedAgain(cfg, s, c)
  {
    hide AfterAuth, AfterExchange, AfterRelationship, AfterBroker, Register, CreateRegToken, Suspend;
    var e := Unsuspends(cfg.adminKey, c.sub);
    var r := After(cfg, s, e);
    var p := Path(cfg, [s, r], [e]);
    assert Authenticate(cfg, r, c.dev, Some(Signed(c))) == Some(c);
    assert p.Steps(0);
    assert ReachesAdmission(cfg, s, p, 1, c);
  }

  /** Of the tokens signed before a suspension, exactly those signed in its very second can
      ever be admitted again, whatever happens afterwards. */
  lemma SuspensionIsFinalIff(cfg: Config, s: State, e: Event, user: string, c: Claims)
    requires Inv(cfg, s) && Allowed(s, e) && SuspendedBy(cfg, s, e, user)
    requires c in s.issued && c.sub == user
    ensures AdmittedAgain(cfg, After(cfg, s, e), c) <==> c.iat == s.now
  {
    hide After;
    var r := After(cfg, s, e);
    StepKeeps(cfg, s, e);
    SuspensionKicks(cfg, s, e, user);
    if c.iat == s.now {
      UnsuspendAdmits(cfg, r, c);
    }
    if AdmittedAgain(cfg, r, c) {
      var p: Path, k: nat :| ReachesAdmission(cfg, r, p, k, c);
      ValidFromNeverDecreases(p, 0, k, user);
    }
  }

  // ── Suspension told from the run ────────────────────────────────────────

  /** The step is a request with the administrator's key to unsuspend `user`. */
  predicate UnsuspendedBy(cfg: Config, e: Event, user: string) {
    e.Unsuspends? && e.user == user && e.adminKey == cfg.adminKey
  }

  predicate IsSuspended(s: State, user: string) {
    user in s.users && s.users[user].suspended
  }

  lemma AccountSuspends(cfg: Config, s: State, e: Event, user: string)
    requires IsAccount(e) && Allowed(s, e) && UsersSound(s)
    ensures IsSuspended(AfterAccount(cfg, s, e), user)
            <==> SuspendedBy(cfg, s, e, user) || (IsSuspended(s, user) && !UnsuspendedBy(cfg, e, user))
  {
    hide Register, Suspend, Unsuspend, MayRegister;
    match e
    case Registers(pubkey, regToken, hook, u, d) =>
      hide IsKeyText, KeyOf;
      RegisterReplies(cfg, s, pubkey, regToken, hook, u, d);
    case Suspends(adminKey, u, reason) => SuspendReplies(cfg, s, adminKey, u, reason);
    case Unsuspends(adminKey, u) => UnsuspendReplies(cfg, s, adminKey, u);
    case CreatesRegToken(_, _, _, _, _) =>
  }

  lemma KicksDoNotSuspend(cfg: Config, s: State, e: Event, user: string)
    requires IsRelationship(e)
    ensures IsSuspended(AfterRelationship(cfg, s, e), user) <==> IsSuspended(s, user)
  {
    hide Kick, FindRelationship, DeleteRelationship;
  }

  /** A user's suspension changes if and only if the administrator asks for it. */
  lemma SuspensionStep(cfg: Config, s: State, e: Event, user: string)
    requires Allowed(s, e) && UsersSound(s)
    ensures IsSuspended(After(cfg, s, e), user)
            <==> SuspendedBy(cfg, s, e, user) || (IsSuspended(s, user) && !UnsuspendedBy(cfg, e, user))
  {
    hide AfterAccount, AfterAuth, AfterExchange, AfterRelationship, AfterBroker;
    if IsAccount(e) {
      AccountSuspends(cfg, s, e, user);
    } else if IsRelationship(e) {
      KicksDoNotSuspend(cfg, s, e, user);
    }
  }

  /** The administrator suspended the existing user at step `i` and has not unsuspended it before
      step `k`. */
  ghost predicate SuspendedSince(p: Path, i: nat, k: nat, user: string)
    requires |p.states| == |p.events| + 1 && k <= |p.events|
  {
    && i < k && SuspendedBy(p.cfg, p.states[i], p.events[i], user)
    && forall j :: i < j < k ==> !UnsuspendedBy(p.cfg, p.events[j], user)
  }

  /** In every run a user is suspended if and only if the administrator suspended the user and
      has not unsuspended the user since. */
  lemma {:induction false} SuspendedFromHistory(p: Path, k: nat, user: string)
    requires p.IsRun() && k < |p.states|
    ensures IsSuspended(p.states[k], user) <==> exists i: nat :: SuspendedSince(p, i, k, user)
  {
    hide After, Allowed, SuspendedBy, UnsuspendedBy, IsSuspended, Sound;
    if k == 0 {
      NobodyAtBoot(p.states[0].now, user);
    } else {
      SuspendedFromHistory(p, k - 1, user);
      RunKeeps(p, k - 1);
      assert p.Steps(k - 1);
      SoundUsers(p.cfg, p.states[k - 1]);
      SuspensionStep(p.cfg, p.states[k - 1], p.events[k - 1], user);
      forall i: nat | i < k - 1 && SuspendedSince(p, i, k, user)
        ensures SuspendedSince(p, i, k - 1, user) && !UnsuspendedBy(p.cfg, p.events[k - 1], user)
      {
      }
      if SuspendedBy(p.cfg, p.states[k - 1], p.events[k - 1], user) {
        assert SuspendedSince(p, k - 1, k, user);
      } else if IsSuspended(p.states[k], user) {
        var i: nat :| SuspendedSince(p, i, k - 1, user);
        assert SuspendedSince(p, i, k, user);
      }
    }
  }

  lemma NobodyAtBoot(now: nat, user: string)
    ensures !IsSuspended(Boot(now), user)
  {
  }

  lemma SoundUsers(cfg: Config, s: State)
    requires Inv(cfg, s)
    ensures UsersSound(s)
  {
  }

  /** An administrative request without the administrator's key changes nothing. */
  lemma OnlyAdministrator(cfg: Config, s: State, e: Event)
    requires (e.Suspends? || e.Unsuspends? || e.CreatesRegToken?) && e.adminKey != cfg.adminKey
    ensures After(cfg, s, e) == s
  {
    hide Register, AfterAuth, AfterExchange, AfterRelationship, AfterBroker, Kick;
  }
}
