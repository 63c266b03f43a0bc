/** Revocation when handlers interleave: `verify` reads the rows and signs in separate steps,
    and CONNECT is checked and opened in separate steps, with any events in between. */
module AuthRace {
  import opened Types
  import opened Tables
  import opened Spec
  import opened Machine
  import opened AuthInvariant
  import opened Kicking
  import opened Revocation
  import opened Suspension
  import ExchangeLifecycle

  /** The server with requests under way. */
  datatype Server = Server(
    s: State,
    signing: map<nat, Claims>, // rows read, signature to come; the times are set when signing
    opening: map<nat, Claims>) // checks passed, connection to come

  datatype ServerMove =
    | Does(e: Event)
    | Gathers(request: nat, user: string, device: string, signature: string)
    | Signs(request: nat)
    | Checks(request: nat, clientId: string, password: Option<Token>)
    | Opens(request: nat)

  /** `verify` up to and including its read of the rows. */
  function Gather(cfg: Config, x: Server, request: nat, user: string, device: string, signature: string): (r: Server) {
    if user !in x.s.challenges then x
    else
      var popped := x.(s := x.s.(challenges := x.s.challenges - {user}));
      match VerifyChecks(cfg, x.s, x.s.challenges[user], user, device, signature)
      case Err(_) => popped
      case Ok(_) => popped.(signing := x.signing[request := Snapshot(cfg, x.s, user, device)])
  }

  /** The claims as signed now. */
  function Dated(cfg: Config, now: nat, c: Claims): (r: Claims) {
    c.(iat := now, exp := now + cfg.jwtTtl)
  }

  /** The connection opens and the session entry is set. */
  function Admit(s: State, c: Claims): (r: State)
    ensures r == s.(sessions := r.sessions, live := r.live, closing := r.closing)
  {
    s.(sessions := s.sessions[c.dev := c],
       live := s.live[c.dev := c],
       closing := s.closing + multiset(s.live.Keys * {c.dev}))
  }

  function AfterMove(cfg: Config, x: Server, m: ServerMove): (r: Server) {
    match m
    case Does(e) =>
      if e.Restarts? then Server(After(cfg, x.s, e), map[], map[]) else x.(s := After(cfg, x.s, e))
    case Gathers(request, user, device, signature) => Gather(cfg, x, request, user, device, signature)
    case Signs(request) =>
      if request in x.signing
      then x.(s := x.s.(issued := x.s.issued + {Dated(cfg, x.s.now, x.signing[request])}),
              signing := x.signing - {request})
      else x
    case Checks(request, clientId, password) =>
      (match Authenticate(cfg, x.s, clientId, password)
       case None => x
       case Some(c) => x.(opening := x.opening[request := c]))
    case Opens(request) =>
      if request in x.opening
      then x.(s := Admit(x.s, x.opening[request]), opening := x.opening - {request})
      else x
  }

  predicate Enabled(x: Server, m: ServerMove) {
    match m
    case Does(e) => Allowed(x.s, e)
    case Gathers(request, _, _, _) => request !in x.signing
    case Signs(request) => request in x.signing
    case Checks(request, _, password) => request !in x.opening && (password.Some? ==> Genuine(x.s, password.value))
    case Opens(request) => request in x.opening
  }

  datatype Schedule = Schedule(cfg: Config, states: seq<Server>, moves: seq<ServerMove>) {

    ghost predicate Steps(i: nat)
      requires |states| == |moves| + 1 && i < |moves|
    {
      Enabled(states[i], moves[i]) && states[i + 1] == AfterMove(cfg, states[i], moves[i])
    }

    ghost predicate Valid() {
      && |states| == |moves| + 1
      && forall i :: 0 <= i < |moves| ==> Steps(i)
    }

    ghost predicate IsRun() {
      Valid() && states[0] == Server(Boot(states[0].s.now), map[], map[])
    }
  }

  // ── Undisturbed, the halves are the atomic handlers ─────────────────────

  lemma AtomicVerifyIsGatherThenSign(cfg: Config, x: Server, request: nat, user: string, device: string, signature: string)
    requires request !in x.signing
    ensures var gathered := AfterMove(cfg, x, Gathers(request, user, device, signature));
            var o := Verify(cfg, x.s, user, device, signature);
            && (o.result.Ok? <==> request in gathered.signing)
            && (o.result.Ok? ==> AfterMove(cfg, gathered, Signs(request)) == x.(s := o.state))
            && (o.result.Err? ==> gathered == x.(s := o.state))
  {
    hide VerifyChecks, RelationshipsOf, Topics, NotifyTopic;
    var gathered := AfterMove(cfg, x, Gathers(request, user, device, signature));
    if request in gathered.signing {
      assert gathered.signing - {request} == x.signing;
    }
  }

  lemma AtomicConnectIsCheckThenOpen(cfg: Config, x: Server, request: nat, clientId: string, password: Option<Token>)
    requires request !in x.opening
    ensures var checked := AfterMove(cfg, x, Checks(request, clientId, password));
            && (request in checked.opening <==> Authenticate(cfg, x.s, clientId, password).Some?)
            && (request in checked.opening ==>
                  AfterMove(cfg, checked, Opens(request)) == x.(s := Connect(cfg, x.s, clientId, password)))
            && (request !in checked.opening ==> checked == x && Connect(cfg, x.s, clientId, password) == x.s)
  {
    var checked := AfterMove(cfg, x, Checks(request, clientId, password));
    if request in checked.opening {
      assert checked.opening - {request} == x.opening;
    }
  }

  // ── What every interleaving keeps ───────────────────────────────────────

  ghost predicate SigningSound(x: Server) {
    forall q | q in x.signing :: x.signing[q].sub in x.s.users && Owns(x.s.devices, x.signing[q].sub, x.signing[q].dev)
  }

  ghost predicate OpeningSound(x: Server) {
    forall q | q in x.opening :: x.opening[q] in x.s.issued
  }

  ghost predicate ServerSound(cfg: Config, x: Server) {
    Sound(cfg, x.s) && SigningSound(x) && OpeningSound(x)
  }

  /** Users, devices and signed tokens only ever grow. */
  lemma Grows(cfg: Config, s: State, e: Event)
    requires Allowed(s, e) && Sound(cfg, s)
    ensures var r := After(cfg, s, e);
            && (forall u | u in s.users :: u in r.users)
            && (forall u, d | Owns(s.devices, u, d) :: Owns(r.devices, u, d))
            && s.issued <= r.issued
  {
    hide After, Allowed;
    var r := After(cfg, s, e);
    IssuedStep(cfg, s, e);
    DeviceStep(cfg, s, e);
    forall u | u in s.users ensures u in r.users {
      ValidFromStep(cfg, s, e, u);
    }
  }

  lemma DeviceStep(cfg: Config, s: State, e: Event)
    ensures s.devices <= After(cfg, s, e).devices
  {
    hide AfterAccount, AfterAuth, AfterExchange, AfterRelationship, AfterBroker;
    if IsAccount(e) {
      DevicesGrow(cfg, s, e);
    }
  }

  lemma VerifiedOwns(cfg: Config, s: State, challenge: Challenge, user: string, device: string, signature: string)
    requires VerifyChecks(cfg, s, challenge, user, device, signature).Ok?
    ensures user in s.users && Owns(s.devices, user, device)
  {
    assert FindDevice(DevicesOf(s.devices, user), device).value in s.devices;
  }

  lemma GatherKeeps(cfg: Config, x: Server, m: ServerMove)
    requires m.Gathers? && ServerSound(cfg, x)
    ensures ServerSound(cfg, AfterMove(cfg, x, m))
  {
    hide VerifyChecks, Owns, RelationshipsOf, Topics, NotifyTopic;
    if m.user in x.s.challenges {
      var challenge := x.s.challenges[m.user];
      if VerifyChecks(cfg, x.s, challenge, m.user, m.device, m.signature).Ok? {
        VerifiedOwns(cfg, x.s, challenge, m.user, m.device, m.signature);
      }
    }
  }

  lemma SignKeeps(cfg: Config, x: Server, m: ServerMove)
    requires m.Signs? && ServerSound(cfg, x)
    ensures ServerSound(cfg, AfterMove(cfg, x, m))
  {
    hide Owns;
  }

  lemma OpenKeeps(cfg: Config, x: Server, m: ServerMove)
    requires (m.Checks? || m.Opens?) && Enabled(x, m) && ServerSound(cfg, x)
    ensures ServerSound(cfg, AfterMove(cfg, x, m))
  {
    hide Owns;
  }

  lemma MoveKeeps(cfg: Config, x: Server, m: ServerMove)
    requires Enabled(x, m) && ServerSound(cfg, x)
    ensures ServerSound(cfg, AfterMove(cfg, x, m))
  {
    match m
    case Does(e) =>
      hide After, Allowed, Owns;
      StepKeepsBoth(cfg, x.s, e);
      Grows(cfg, x.s, e);
    case Gathers(_, _, _, _) => GatherKeeps(cfg, x, m);
    case Signs(_) => SignKeeps(cfg, x, m);
    case _ => OpenKeeps(cfg, x, m);
  }

  lemma {:induction false} ScheduleKeeps(p: Schedule, k: nat)
    requires p.Valid() && k < |p.states| && ServerSound(p.cfg, p.states[0])
    ensures ServerSound(p.cfg, p.states[k])
  {
    hide AfterMove, Enabled, ServerSound;
    if k > 0 {
      ScheduleKeeps(p, k - 1);
      assert p.Steps(k - 1);
      MoveKeeps(p.cfg, p.states[k - 1], p.moves[k - 1]);
    }
  }

  /** Even with handlers split, in every reachable state each token, session entry, connection
      and request under way names a device of its own user. */
  lemma RunKeeps(p: Schedule, k: nat)
    requires p.IsRun() && k < |p.states|
    ensures ServerSound(p.cfg, p.states[k])
  {
    ScheduleKeeps(p, k);
  }

  // ── The exact window of a revocation ────────────────────────────────────

  predicate Names(c: Claims, user: string, topic: string) {
    c.sub == user && topic in c.subTopics
  }

  /** Some continuation without a new row grants the topic to the user on a token issued in
      second `iat`. */
  ghost predicate GrantedOn(cfg: Config, x: Server, user: string, topic: string, iat: nat) {
    exists p: Schedule, k: nat :: ReachesGrant(cfg, x, p, k, user, topic, iat)
  }

  ghost predicate ReachesGrant(cfg: Config, x: Server, p: Schedule, k: nat, user: string, topic: string, iat: nat) {
    && p.Valid() && p.cfg == cfg && p.states[0] == x && k < |p.moves|
    && (forall j :: 0 <= j <= k ==> !Lists(p.states[j].s.relationships, user, topic))
    && GrantsOn(p.states[k], p.moves[k], user, topic, iat)
  }

  ghost predicate GrantsOn(x: Server, m: ServerMove, user: string, topic: string, iat: nat) {
    m.Does? && GrantedTo(x.s, m.e, user, topic) && x.s.sessions[m.e.clientId].iat == iat
  }

  /** When the revocation comes, a token listing the topic has been signed in this very second,
      or a verification has read the rows and has yet to sign, or a connection has passed its
      checks and has yet to open. */
  ghost predicate Window(x: Server, user: string, topic: string, iat: nat) {
    || (iat == x.s.now && SignedThisSecond(x.s, user, topic))
    || (iat >= x.s.now && exists q :: q in x.signing && Names(x.signing[q], user, topic))
    || (exists q :: q in x.opening && Names(x.opening[q], user, topic) && x.opening[q].iat == iat)
  }

  // From the window to the grant.

  lemma GrantedNow(cfg: Config, x: Server, e: Event, user: string, topic: string)
    requires GrantedTo(x.s, e, user, topic) && !Lists(x.s.relationships, user, topic)
    ensures GrantedOn(cfg, x, user, topic, x.s.sessions[e.clientId].iat)
  {
    hide After, Lists;
    var p := Schedule(cfg, [x, AfterMove(cfg, x, Does(e))], [Does(e)]);
    assert p.Steps(0);
    assert ReachesGrant(cfg, x, p, 0, user, topic, x.s.sessions[e.clientId].iat);
  }

  lemma GrantedLater(cfg: Config, x: Server, m: ServerMove, user: string, topic: string, iat: nat)
    requires Enabled(x, m) && !Lists(x.s.relationships, user, topic)
    requires GrantedOn(cfg, AfterMove(cfg, x, m), user, topic, iat)
    ensures GrantedOn(cfg, x, user, topic, iat)
  {
    hide AfterMove, Enabled, Lists, GrantsOn;
    var p: Schedule, k: nat :| ReachesGrant(cfg, AfterMove(cfg, x, m), p, k, user, topic, iat);
    var q := Schedule(cfg, [x] + p.states, [m] + p.moves);
    forall i: nat | i < |q.moves| ensures q.Steps(i) {
      if i > 0 {
        assert p.Steps(i - 1);
      }
    }
    assert ReachesGrant(cfg, x, q, k + 1, user, topic, iat);
  }

  /** Unsuspend if needed, connect, subscribe. */
  lemma TokenGrants(cfg: Config, x: Server, c: Claims, topic: string)
    requires c in x.s.issued && topic in c.subTopics && !Lists(x.s.relationships, c.sub, topic)
    requires c.sub in x.s.users && x.s.users[c.sub].tokensValidFrom <= c.iat && x.s.now <= c.exp
    ensures GrantedOn(cfg, x, c.sub, topic, c.iat)
  {
    hide After, Lists, Unsuspend, Connect, GrantedOn;
    var unsuspend, connect, subscribe :=
      Unsuspends(cfg.adminKey, c.sub), Connects(c.dev, Some(Signed(c))), Subscribes(c.dev, topic);
    var s1 := Unsuspend(cfg, x.s, cfg.adminKey, c.sub).state;
    var s2 := Connect(cfg, s1, c.dev, Some(Signed(c)));
    AfterThese(cfg, x.s, s1, s2, unsuspend, connect, subscribe);
    AdmittedAfterUnsuspend(cfg, x.s, c, topic);
    GrantedNow(cfg, x.(s := s2), subscribe, c.sub, topic);
    GrantedLater(cfg, x.(s := s1), Does(connect), c.sub, topic, c.iat);
    GrantedLater(cfg, x, Does(unsuspend), c.sub, topic, c.iat);
  }

  /** A verification under way signs after any delay, and its token is good. */
  lemma SigningGrants(cfg: Config, x: Server, q: nat, user: string, topic: string, iat: nat)
    requires ServerSound(cfg, x) && q in x.signing && Names(x.signing[q], user, topic)
    requires x.s.users[user].tokensValidFrom <= x.s.now <= iat && !Lists(x.s.relationships, user, topic)
    ensures GrantedOn(cfg, x, user, topic, iat)
  {
    hide Lists, GrantedOn, AfterAccount, AfterAuth, AfterExchange, AfterRelationship, AfterBroker;
    var wait := Does(Tick(iat - x.s.now));
    var x1 := AfterMove(cfg, x, wait);
    assert x1 == x.(s := x.s.(now := iat));
    var x2 := AfterMove(cfg, x1, Signs(q));
    var c := Dated(cfg, iat, x.signing[q]);
    assert x2.s == x1.s.(issued := x1.s.issued + {c});
    TokenGrants(cfg, x2, c, topic);
    GrantedLater(cfg, x1, Signs(q), user, topic, iat);
    GrantedLater(cfg, x, wait, user, topic, iat);
  }

  /** A connection that has passed its checks opens. */
  lemma OpeningGrants(cfg: Config, x: Server, q: nat, user: string, topic: string)
    requires q in x.opening && Names(x.opening[q], user, topic) && !Lists(x.s.relationships, user, topic)
    ensures GrantedOn(cfg, x, user, topic, x.opening[q].iat)
  {
    hide Lists, GrantedOn, After;
    var c := x.opening[q];
    var x1 := AfterMove(cfg, x, Opens(q));
    GrantedNow(cfg, x1, Subscribes(c.dev, topic), user, topic);
    GrantedLater(cfg, x, Opens(q), user, topic, c.iat);
  }

  // From the grant back to the window.

  /** Since the revocation at `at`, whatever may still serve the topic to the user is in the window. */
  ghost predicate Confined(x: Server, user: string, topic: string, at: Server) {
    && user in x.s.users && at.s.now <= x.s.users[user].tokensValidFrom && at.s.now <= x.s.now
    && (forall c | c in x.s.issued && Names(c, user, topic) :: c.iat < at.s.now || Window(at, user, topic, c.iat))
    && (forall q | q in x.signing && Names(x.signing[q], user, topic) ::
          exists q' :: q' in at.signing && Names(at.signing[q'], user, topic))
    && (forall q | q in x.opening && Names(x.opening[q], user, topic) :: Window(at, user, topic, x.opening[q].iat))
    && (forall k | k in x.s.live && Names(x.s.live[k], user, topic) :: Window(at, user, topic, x.s.live[k].iat))
  }

  lemma EventConfined(cfg: Config, x: Server, e: Event, user: string, topic: string, at: Server)
    requires Allowed(x.s, e) && ServerSound(cfg, x) && Confined(x, user, topic, at)
    requires topic != NotifyTopic(cfg, user) && !Lists(x.s.relationships, user, topic)
    ensures Confined(AfterMove(cfg, x, Does(e)), user, topic, at)
  {
    hide After, Lists, Issues, NotifyTopic, Window, Snapshot, Authenticate;
    var s, r := x.s, After(cfg, x.s, e);
    ValidFromStep(cfg, s, e, user);
    IssuedStep(cfg, s, e);
    ExchangeLifecycle.UsedIdsStep(cfg, s, e);
    if Issues(cfg, s, e) {
      SnapshotIsTable(cfg, s, e.user, e.device, topic);
    }
    forall k | k in r.live && Names(r.live[k], user, topic) ensures Window(at, user, topic, r.live[k].iat) {
      LiveStep(cfg, s, e, k);
      if !(k in s.live && r.live[k] == s.live[k]) {
        AdmittedIsCurrent(cfg, s, e.clientId, e.password);
      }
    }
  }

  lemma AdmittedIsCurrent(cfg: Config, s: State, clientId: string, password: Option<Token>)
    requires password.Some? ==> Genuine(s, password.value)
    ensures var a := Authenticate(cfg, s, clientId, password);
            a.Some? ==> a.value in s.issued && Current(s, a.value)
  {
  }

  lemma GatherConfined(cfg: Config, x: Server, m: ServerMove, user: string, topic: string, at: Server)
    requires m.Gathers? && Confined(x, user, topic, at)
    requires topic != NotifyTopic(cfg, user) && !Lists(x.s.relationships, user, topic)
    ensures Confined(AfterMove(cfg, x, m), user, topic, at)
  {
    hide Window, Lists, NotifyTopic, Snapshot, VerifyChecks;
    SnapshotIsTable(cfg, x.s, m.user, m.device, topic);
  }

  lemma SignConfined(cfg: Config, x: Server, m: ServerMove, user: string, topic: string, at: Server)
    requires m.Signs? && Confined(x, user, topic, at)
    ensures Confined(AfterMove(cfg, x, m), user, topic, at)
  {
    hide Window;
    if m.request in x.signing && Names(x.signing[m.request], user, topic) {
      assert Window(at, user, topic, x.s.now) by { LateIsInWindow(at, user, topic, x.s.now); }
    }
  }

  lemma LateIsInWindow(at: Server, user: string, topic: string, iat: nat)
    requires iat >= at.s.now && exists q :: q in at.signing && Names(at.signing[q], user, topic)
    ensures Window(at, user, topic, iat)
  {
  }

  lemma CheckConfined(cfg: Config, x: Server, m: ServerMove, user: string, topic: string, at: Server)
    requires m.Checks? && Enabled(x, m) && Confined(x, user, topic, at)
    ensures Confined(AfterMove(cfg, x, m), user, topic, at)
  {
    hide Window, Authenticate;
    AdmittedIsCurrent(cfg, x.s, m.clientId, m.password);
  }

  lemma OpenConfined(cfg: Config, x: Server, m: ServerMove, user: string, topic: string, at: Server)
    requires m.Opens? && Confined(x, user, topic, at)
    ensures Confined(AfterMove(cfg, x, m), user, topic, at)
  {
    hide Window;
  }

  lemma ConfinedStep(cfg: Config, x: Server, m: ServerMove, user: string, topic: string, at: Server)
    requires Enabled(x, m) && ServerSound(cfg, x) && Confined(x, user, topic, at)
    requires topic != NotifyTopic(cfg, user) && !Lists(x.s.relationships, user, topic)
    ensures Confined(AfterMove(cfg, x, m), user, topic, at)
  {
    hide Lists, NotifyTopic, AfterMove, Allowed, Confined, ServerSound;
    match m
    case Does(e) => EventConfined(cfg, x, e, user, topic, at);
    case Gathers(_, _, _, _) => GatherConfined(cfg, x, m, user, topic, at);
    case Signs(_) => SignConfined(cfg, x, m, user, topic, at);
    case Checks(_, _, _) => CheckConfined(cfg, x, m, user, topic, at);
    case Opens(_) => OpenConfined(cfg, x, m, user, topic, at);
  }

  lemma {:induction false} ConfinedAlong(p: Schedule, k: nat, user: string, topic: string, at: Server)
    requires p.Valid() && k < |p.states| && ServerSound(p.cfg, p.states[0]) && Confined(p.states[0], user, topic, at)
    requires topic != NotifyTopic(p.cfg, user)
    requires forall j :: 0 <= j < k ==> !Lists(p.states[j].s.relationships, user, topic)
    ensures Confined(p.states[k], user, topic, at)
  {
    hide AfterMove, Enabled, ServerSound, Confined, Lists, NotifyTopic;
    if k > 0 {
      ConfinedAlong(p, k - 1, user, topic, at);
      ScheduleKeeps(p, k - 1);
      assert p.Steps(k - 1);
      ConfinedStep(p.cfg, p.states[k - 1], p.moves[k - 1], user, topic, at);
    }
  }

  /** What a revocation leaves behind. */
  lemma RevocationConfines(cfg: Config, x: Server, e: Event, user: string, topic: string)
    requires ServerSound(cfg, x) && Allowed(x.s, e) && RevokedBy(cfg, x.s, e, user)
    ensures var r := AfterMove(cfg, x, Does(e));
            && Confined(r, user, topic, x) && ServerSound(cfg, r)
            && r.s.now == x.s.now && r.s.users[user].tokensValidFrom == x.s.now && r.s.issued == x.s.issued
            && r.signing == x.signing && r.opening == x.opening
  {
    hide After, Kick, FindRelationship, DeleteRelationship, Lists, Owns;
    MoveKeeps(cfg, x, Does(e));
    AfterRevoke(cfg, x.s, e);
    IssuedStep(cfg, x.s, e);
    RevocationKicksBoth(cfg, x.s, e.auth, e.id);
    forall c | c in x.s.issued && Names(c, user, topic) ensures c.iat < x.s.now || Window(x, user, topic, c.iat) {
      assert c.iat == x.s.now ==> SignedThisSecond(x.s, user, topic);
    }
    forall q | q in x.opening && Names(x.opening[q], user, topic) ensures Window(x, user, topic, x.opening[q].iat) {
    }
  }

  /** The exact window of a revocation with `verify` and CONNECT split in two: a continuation
      without a new row grants the topic on a token of second `iat` if and only if a token was
      signed in the second of the revocation, or a verification was between reading the rows
      and signing (then any later second), or a connection was between its checks and its
      opening (then on the token it was checked with). */
  lemma RevocationRaceIff(cfg: Config, x: Server, e: Event, user: string, topic: string, iat: nat)
    requires ServerSound(cfg, x) && Allowed(x.s, e) && RevokedBy(cfg, x.s, e, user)
    requires topic != NotifyTopic(cfg, user)
    requires !Lists(After(cfg, x.s, e).relationships, user, topic)
    ensures GrantedOn(cfg, AfterMove(cfg, x, Does(e)), user, topic, iat) <==> Window(x, user, topic, iat)
  {
    hide After, Allowed, RevokedBy, Lists, NotifyTopic, ServerSound;
    var r := AfterMove(cfg, x, Does(e));
    RevocationConfines(cfg, x, e, user, topic);
    if Window(x, user, topic, iat) {
      WindowGrants(cfg, x, r, user, topic, iat);
    }
    if GrantedOn(cfg, r, user, topic, iat) {
      var p: Schedule, k: nat :| ReachesGrant(cfg, r, p, k, user, topic, iat);
      ConfinedAlong(p, k, user, topic, x);
      ScheduleKeeps(p, k);
      GrantInWindow(cfg, p.states[k], p.moves[k].e, user, topic, x);
    }
  }

  lemma WindowGrants(cfg: Config, x: Server, r: Server, user: string, topic: string, iat: nat)
    requires ServerSound(cfg, r) && Window(x, user, topic, iat) && !Lists(r.s.relationships, user, topic)
    requires user in r.s.users && r.s.users[user].tokensValidFrom == r.s.now == x.s.now && r.s.issued == x.s.issued
    requires r.signing == x.signing && r.opening == x.opening
    ensures GrantedOn(cfg, r, user, topic, iat)
  {
    hide Lists, GrantedOn, Owns;
    if iat == x.s.now && SignedThisSecond(x.s, user, topic) {
      var c :| c in x.s.issued && c.sub == user && topic in c.subTopics && c.iat == x.s.now;
      TokenGrants(cfg, r, c, topic);
    } else if q :| q in x.opening && Names(x.opening[q], user, topic) && x.opening[q].iat == iat {
      OpeningGrants(cfg, r, q, user, topic);
    } else {
      var q :| q in x.signing && Names(x.signing[q], user, topic);
      SigningGrants(cfg, r, q, user, topic, iat);
    }
  }

  lemma GrantInWindow(cfg: Config, x: Server, e: Event, user: string, topic: string, at: Server)
    requires ServerSound(cfg, x) && Confined(x, user, topic, at) && GrantedTo(x.s, e, user, topic)
    ensures Window(at, user, topic, x.s.sessions[e.clientId].iat)
  {
    hide Window, Owns;
    assert x.s.sessions[e.clientId] == x.s.live[e.clientId];
  }

  // ── The exact window of a suspension ────────────────────────────────────

  predicate Lifts(e: Event, user: string) {
    e.Unsuspends? && e.user == user
  }

  ghost predicate Online(s: State, user: string) {
    exists k :: k in s.live && s.live[k].sub == user
  }

  /** Some continuation that does not unsuspend the user sees a connection of the user open. */
  ghost predicate OnlineLater(cfg: Config, x: Server, user: string) {
    exists p: Schedule, k: nat :: ReachesOnline(cfg, x, p, k, user)
  }

  ghost predicate ReachesOnline(cfg: Config, x: Server, p: Schedule, k: nat, user: string) {
    && p.Valid() && p.cfg == cfg && p.states[0] == x && k < |p.states|
    && (forall j :: 0 <= j < k ==> !(p.moves[j].Does? && Lifts(p.moves[j].e, user)))
    && Online(p.states[k].s, user)
  }

  ghost predicate Offline(x: Server, user: string) {
    && user in x.s.users && x.s.users[user].suspended
    && (forall q | q in x.opening :: x.opening[q].sub != user)
    && !Online(x.s, user)
  }

  lemma SuspendedStays(cfg: Config, s: State, e: Event, user: string)
    requires Allowed(s, e) && UsersSound(s) && !Lifts(e, user) && user in s.users && s.users[user].suspended
    ensures var r := After(cfg, s, e); user in r.users && r.users[user].suspended
  {
    hide After, Allowed;
    SuspensionStep(cfg, s, e, user);
  }

  lemma EventOffline(cfg: Config, x: Server, e: Event, user: string)
    requires Allowed(x.s, e) && ServerSound(cfg, x) && Offline(x, user) && !Lifts(e, user)
    ensures Offline(AfterMove(cfg, x, Does(e)), user)
  {
    hide After, Authenticate, Owns, Lifts;
    var r := After(cfg, x.s, e);
    SuspendedStays(cfg, x.s, e, user);
    forall k | k in r.live ensures r.live[k].sub != user {
      LiveStep(cfg, x.s, e, k);
      if !(k in x.s.live && r.live[k] == x.s.live[k]) {
        AdmittedIsCurrent(cfg, x.s, e.clientId, e.password);
      }
    }
  }

  lemma SigningFrame(cfg: Config, x: Server, m: ServerMove)
    requires m.Gathers? || m.Signs?
    ensures var r := AfterMove(cfg, x, m);
            r.s.live == x.s.live && r.s.users == x.s.users && r.opening == x.opening
  {
    hide VerifyChecks, Snapshot;
  }

  lemma CheckOffline(cfg: Config, x: Server, m: ServerMove, user: string)
    requires m.Checks? && Enabled(x, m) && Offline(x, user)
    ensures Offline(AfterMove(cfg, x, m), user)
  {
    hide Authenticate, Online;
    AdmittedIsCurrent(cfg, x.s, m.clientId, m.password);
  }

  lemma OpenOffline(cfg: Config, x: Server, m: ServerMove, user: string)
    requires m.Opens? && Offline(x, user)
    ensures Offline(AfterMove(cfg, x, m), user)
  {
  }

  lemma RequestOffline(cfg: Config, x: Server, m: ServerMove, user: string)
    requires !m.Does? && Enabled(x, m) && Offline(x, user)
    ensures Offline(AfterMove(cfg, x, m), user)
  {
    hide AfterMove, Enabled;
    if m.Checks? {
      CheckOffline(cfg, x, m, user);
    } else if m.Opens? {
      OpenOffline(cfg, x, m, user);
    } else {
      SigningFrame(cfg, x, m);
    }
  }

  lemma OfflineStep(cfg: Config, x: Server, m: ServerMove, user: string)
    requires Enabled(x, m) && ServerSound(cfg, x) && Offline(x, user) && !(m.Does? && Lifts(m.e, user))
    ensures Offline(AfterMove(cfg, x, m), user)
  {
    hide AfterMove, Offline, ServerSound, Allowed, Lifts;
    if m.Does? {
      EventOffline(cfg, x, m.e, user);
    } else {
      RequestOffline(cfg, x, m, user);
    }
  }

  lemma {:induction false} OfflineAlong(p: Schedule, k: nat, user: string)
    requires p.Valid() && k < |p.states| && ServerSound(p.cfg, p.states[0]) && Offline(p.states[0], user)
    requires forall j :: 0 <= j < k ==> !(p.moves[j].Does? && Lifts(p.moves[j].e, user))
    ensures Offline(p.states[k], user)
  {
    hide AfterMove, Enabled, ServerSound, Offline, Lifts;
    if k > 0 {
      OfflineAlong(p, k - 1, user);
      ScheduleKeeps(p, k - 1);
      assert p.Steps(k - 1);
      OfflineStep(p.cfg, p.states[k - 1], p.moves[k - 1], user);
    }
  }

  /** What a suspension leaves behind. */
  lemma SuspensionLeaves(cfg: Config, x: Server, e: Event, user: string)
    requires ServerSound(cfg, x) && Allowed(x.s, e) && SuspendedBy(cfg, x.s, e, user)
    ensures var r := AfterMove(cfg, x, Does(e));
            && ServerSound(cfg, r) && r.opening == x.opening && r.signing == x.signing && !Online(r.s, user)
            && user in r.s.users && r.s.users[user].suspended
            && r.s.users[user].tokensValidFrom == r.s.now == x.s.now
  {
    hide After, Allowed, Suspend, Owns;
    MoveKeeps(cfg, x, Does(e));
    SuspensionKicks(cfg, x.s, e, user);
  }

  /** The exact window of a suspension with CONNECT split in two: before it is lifted, a
      connection of the user can be open again if and only if one was between its checks and
      its opening when the suspension came. */
  lemma SuspensionRaceIff(cfg: Config, x: Server, e: Event, user: string)
    requires ServerSound(cfg, x) && Allowed(x.s, e) && SuspendedBy(cfg, x.s, e, user)
    ensures OnlineLater(cfg, AfterMove(cfg, x, Does(e)), user) <==> exists q :: q in x.opening && x.opening[q].sub == user
  {
    hide AfterMove, Allowed, SuspendedBy, ServerSound, Online;
    var r := AfterMove(cfg, x, Does(e));
    SuspensionLeaves(cfg, x, e, user);
    if q :| q in x.opening && x.opening[q].sub == user {
      OpeningComesOnline(cfg, r, q, user);
    } else {
      StaysOffline(cfg, r, user);
    }
  }

  lemma StaysOffline(cfg: Config, x: Server, user: string)
    requires ServerSound(cfg, x) && Offline(x, user)
    ensures !OnlineLater(cfg, x, user)
  {
    hide AfterMove, Enabled, ServerSound;
    if OnlineLater(cfg, x, user) {
      var p: Schedule, k: nat :| ReachesOnline(cfg, x, p, k, user);
      OfflineAlong(p, k, user);
    }
  }

  lemma OpeningComesOnline(cfg: Config, x: Server, q: nat, user: string)
    requires q in x.opening && x.opening[q].sub == user
    ensures OnlineLater(cfg, x, user)
  {
    hide After;
    var r := AfterMove(cfg, x, Opens(q));
    var p := Schedule(cfg, [x, r], [Opens(q)]);
    assert r.s.live[x.opening[q].dev].sub == user;
    assert p.Steps(0);
    assert ReachesOnline(cfg, x, p, 1, user);
  }

  /** The move signs a token for the user. */
  ghost predicate SignsFor(cfg: Config, x: Server, m: ServerMove, user: string) {
    || (m.Signs? && m.request in x.signing && x.signing[m.request].sub == user)
    || (m.Does? && Issues(cfg, x.s, m.e) && m.e.user == user)
  }

  /** Some continuation that does not unsuspend the user signs a token for the user. */
  ghost predicate SignedLater(cfg: Config, x: Server, user: string) {
    exists p: Schedule, k: nat :: ReachesSignature(cfg, x, p, k, user)
  }

  ghost predicate ReachesSignature(cfg: Config, x: Server, p: Schedule, k: nat, user: string) {
    && p.Valid() && p.cfg == cfg && p.states[0] == x && k < |p.moves|
    && (forall j :: 0 <= j < k ==> !(p.moves[j].Does? && Lifts(p.moves[j].e, user)))
    && SignsFor(cfg, p.states[k], p.moves[k], user)
  }

  ghost predicate Unsigned(x: Server, user: string) {
    && user in x.s.users && x.s.users[user].suspended
    && forall q | q in x.signing :: x.signing[q].sub != user
  }

  lemma SuspendedFailsChecks(cfg: Config, s: State, challenge: Challenge, user: string, device: string, signature: string)
    requires user in s.users && s.users[user].suspended
    ensures VerifyChecks(cfg, s, challenge, user, device, signature).Err?
  {
  }

  lemma GatherUnsigned(cfg: Config, x: Server, m: ServerMove, user: string)
    requires m.Gathers? && Unsigned(x, user)
    ensures Unsigned(AfterMove(cfg, x, m), user)
  {
    hide VerifyChecks;
    if m.user == user && user in x.s.challenges {
      SuspendedFailsChecks(cfg, x.s, x.s.challenges[user], user, m.device, m.signature);
    }
  }

  lemma UnsignedStep(cfg: Config, x: Server, m: ServerMove, user: string)
    requires Enabled(x, m) && ServerSound(cfg, x) && Unsigned(x, user) && !(m.Does? && Lifts(m.e, user))
    ensures Unsigned(AfterMove(cfg, x, m), user)
  {
    hide After, Gather, Authenticate, Lifts, Owns, Allowed;
    if m.Does? {
      SuspendedStays(cfg, x.s, m.e, user);
    } else if m.Gathers? {
      GatherUnsigned(cfg, x, m, user);
    }
  }

  lemma {:induction false} UnsignedAlong(p: Schedule, k: nat, user: string)
    requires p.Valid() && k < |p.states| && ServerSound(p.cfg, p.states[0]) && Unsigned(p.states[0], user)
    requires forall j :: 0 <= j < k ==> !(p.moves[j].Does? && Lifts(p.moves[j].e, user))
    ensures Unsigned(p.states[k], user)
  {
    hide AfterMove, Enabled, ServerSound, Unsigned, Lifts;
    if k > 0 {
      UnsignedAlong(p, k - 1, user);
      ScheduleKeeps(p, k - 1);
      assert p.Steps(k - 1);
      UnsignedStep(p.cfg, p.states[k - 1], p.moves[k - 1], user);
    }
  }

  lemma UnsignedSignsNothing(cfg: Config, x: Server, m: ServerMove, user: string)
    requires Unsigned(x, user)
    ensures !SignsFor(cfg, x, m, user)
  {
    hide VerifyChecks, Snapshot;
    if m.Does? && m.e.Verifies? && m.e.user == user && user in x.s.challenges {
      SuspendedFailsChecks(cfg, x.s, x.s.challenges[user], user, m.e.device, m.e.signature);
    }
  }

  /** The same with `verify` split in two: before the suspension is lifted a token is signed for
      the user in some continuation if and only if a verification of the user was between its
      checks and its signature when the suspension came. */
  lemma SuspensionSigningIff(cfg: Config, x: Server, e: Event, user: string)
    requires ServerSound(cfg, x) && Allowed(x.s, e) && SuspendedBy(cfg, x.s, e, user)
    ensures SignedLater(cfg, AfterMove(cfg, x, Does(e)), user) <==> exists q :: q in x.signing && x.signing[q].sub == user
  {
    hide AfterMove, Allowed, SuspendedBy, ServerSound, SignsFor;
    var r := AfterMove(cfg, x, Does(e));
    SuspensionLeaves(cfg, x, e, user);
    if q :| q in x.signing && x.signing[q].sub == user {
      SigningSigns(cfg, r, q, user);
    } else if SignedLater(cfg, r, user) {
      var p: Schedule, k: nat :| ReachesSignature(cfg, r, p, k, user);
      UnsignedAlong(p, k, user);
      UnsignedSignsNothing(cfg, p.states[k], p.moves[k], user);
    }
  }

  lemma SigningSigns(cfg: Config, x: Server, q: nat, user: string)
    requires q in x.signing && x.signing[q].sub == user
    ensures SignedLater(cfg, x, user)
  {
    var p := Schedule(cfg, [x, AfterMove(cfg, x, Signs(q))], [Signs(q)]);
    assert p.Steps(0);
    assert ReachesSignature(cfg, x, p, 0, user);
  }
}
