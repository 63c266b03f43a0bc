/** What every reachable state keeps about tokens, devices, sessions and connections. */
module AuthInvariant {
  import opened Types
  import opened Tables
  import opened Spec
  import opened Machine

  /** Every signed token names a device of its user and carries its own time of issue. */
  ghost predicate TokensSound(cfg: Config, s: State) {
    forall c | c in s.issued ::
      c.sub in s.users && Owns(s.devices, c.sub, c.dev) && c.iat <= s.now && c.exp == c.iat + cfg.jwtTtl
  }

  /** A session entry is a signed token for the device whose id is the client id. */
  ghost predicate SessionsSound(s: State) {
    forall k | k in s.sessions :: s.sessions[k] in s.issued && s.sessions[k].dev == k
  }

  /** So is an open connection; its session entry, if still there, is its own. */
  ghost predicate LiveSound(s: State) {
    forall k | k in s.live ::
      && s.live[k] in s.issued
      && s.live[k].dev == k
      && (k in s.sessions ==> s.sessions[k] == s.live[k])
  }

  ghost predicate UsersSound(s: State) {
    forall u | u in s.users :: s.users[u].tokensValidFrom <= s.now && u in s.usedIds
  }

  ghost predicate DevicesSound(s: State) {
    && (forall d | d in s.devices :: d.userId in s.users && d.deviceId in s.usedIds)
    && (forall d, d' | d in s.devices && d' in s.devices && d.deviceId == d'.deviceId :: d.userId == d'.userId)
  }

  ghost predicate Sound(cfg: Config, s: State) {
    TokensSound(cfg, s) && SessionsSound(s) && LiveSound(s) && UsersSound(s) && DevicesSound(s)
  }

  /** The user is not suspended and the token is not stale. */
  predicate Current(s: State, c: Claims) {
    c.sub in s.users && !s.users[c.sub].suspended && s.users[c.sub].tokensValidFrom <= c.iat
  }

  /** Every open connection is neither stale nor of a suspended user, those in `except` aside. */
  ghost predicate LiveCurrent(s: State, except: set<string>) {
    forall k | k in s.live :: s.live[k].sub in except || Current(s, s.live[k])
  }

  ghost predicate Inv(cfg: Config, s: State) {
    Sound(cfg, s) && LiveCurrent(s, {})
  }

  // ── Kicks ───────────────────────────────────────────────────────────────

  /** A kick closes exactly the open connections whose token names the user: the loop over
      the user's devices misses none and hits no one else's. */
  lemma KickIsExact(cfg: Config, s: State, user: string)
    requires Sound(cfg, s)
    ensures var r := Kick(s, user);
            && (forall k :: k in r.live <==> k in s.live && s.live[k].sub != user)
            && (forall k | k in r.live :: r.live[k] == s.live[k])
            && r.closing == s.closing + multiset(set k | k in s.live && s.live[k].sub == user)
  {
    var ids := DeviceIds(DevicesOf(s.devices, user));
    forall k | k in s.live ensures k in ids <==> s.live[k].sub == user {
      var c := s.live[k];
      var d :| d in s.devices && d.userId == c.sub && d.deviceId == k;
      if c.sub == user {
        assert d in DevicesOf(s.devices, user);
      }
      if k in ids {
        var d' :| d' in DevicesOf(s.devices, user) && d'.deviceId == k;
      }
    }
    assert s.live.Keys * ids == set k | k in s.live && s.live[k].sub == user;
  }

  lemma KickKeepsSound(cfg: Config, s: State, user: string)
    requires Sound(cfg, s)
    ensures Sound(cfg, Kick(s, user))
  {
    hide DeviceIds, DevicesOf, Owns;
    var r := Kick(s, user);
    assert r.users.Keys == s.users.Keys;
    assert TokensSound(cfg, r);
  }

  /** Kicking a user repairs whatever was wrong with that user's connections. */
  lemma KickRestores(cfg: Config, s: State, user: string)
    requires Sound(cfg, s) && LiveCurrent(s, {user})
    ensures Inv(cfg, Kick(s, user))
  {
    KickKeepsSound(cfg, s, user);
    KickIsExact(cfg, s, user);
    hide Sound, DeviceIds, DevicesOf;
    var r := Kick(s, user);
    forall k | k in r.live ensures Current(r, r.live[k]) {
      assert k in s.live && s.live[k].sub != user && Current(s, s.live[k]);
    }
  }

  // ── One step of each component ──────────────────────────────────────────

  /** What a step must keep: soundness always, and current connections if they were so. */
  ghost predicate Keeps(cfg: Config, s: State, r: State) {
    Sound(cfg, r) && (LiveCurrent(s, {}) ==> LiveCurrent(r, {}))
  }

  lemma RegisterKeeps(cfg: Config, s: State, pubkey: string, token: Option<string>, hook: Result<()>,
                      userId: string, deviceId: string)
    requires Sound(cfg, s) && Fresh(s, userId) && Fresh(s, deviceId)
    ensures Keeps(cfg, s, Register(cfg, s, pubkey, token, hook, userId, deviceId).state)
  {
    hide RegistrationPolicy, DecodeKey;
    var o := Register(cfg, s, pubkey, token, hook, userId, deviceId);
    var r := o.state;
    if o.result.Ok? {
      var row := r.devices[|s.devices|];
      assert r.devices == s.devices + [row];
      forall c | c in r.issued ensures Owns(r.devices, c.sub, c.dev) {
        var d :| d in s.devices && d.userId == c.sub && d.deviceId == c.dev;
        assert d in r.devices;
      }
    } else {
      assert r == s.(regTokens := r.regTokens);
    }
  }

  lemma SuspendKeeps(cfg: Config, s: State, adminKey: string, user: string, reason: Option<string>)
    requires Sound(cfg, s)
    ensures Keeps(cfg, s, Suspend(cfg, s, adminKey, user, reason).state)
  {
    hide Kick;
    if adminKey == cfg.adminKey && user in s.users {
      var marked := SetSuspended(s, user, true, reason).state;
      KickKeepsSound(cfg, marked, user);
      if LiveCurrent(s, {}) {
        KickRestores(cfg, marked, user);
      }
    }
  }

  lemma AccountKeeps(cfg: Config, s: State, e: Event)
    requires IsAccount(e) && Allowed(s, e) && Sound(cfg, s)
    ensures Keeps(cfg, s, AfterAccount(cfg, s, e))
  {
    hide Register, Suspend, Owns;
    match e
    case Registers(pubkey, regToken, hook, u, d) => RegisterKeeps(cfg, s, pubkey, regToken, hook, u, d);
    case Suspends(adminKey, user, reason) => SuspendKeeps(cfg, s, adminKey, user, reason);
    case _ =>
  }

  lemma AuthKeeps(cfg: Config, s: State, e: Event)
    requires IsAuth(e) && Sound(cfg, s)
    ensures Keeps(cfg, s, AfterAuth(cfg, s, e))
  {
  }

  lemma RevokeKeeps(cfg: Config, s: State, auth: Token, id: string)
    requires Sound(cfg, s)
    ensures Keeps(cfg, s, Revoke(cfg, s, auth, id).state)
  {
    hide Kick, FindRelationship, DeleteRelationship, Owns;
    var o := Revoke(cfg, s, auth, id);
    if o.result.Ok? {
      var user := auth.claims.sub;
      var row := FindRelationship(s.relationships, user, id).value;
      var deleted := s.(relationships := DeleteRelationship(s.relationships, user, id));
      KickKeepsSound(cfg, deleted, user);
      KickKeepsSound(cfg, Kick(deleted, user), row.peerId);
      if LiveCurrent(s, {}) {
        KickRestores(cfg, deleted, user);
        KickRestores(cfg, Kick(deleted, user), row.peerId);
      }
    }
  }

  lemma RelationshipKeeps(cfg: Config, s: State, e: Event)
    requires IsRelationship(e) && Sound(cfg, s)
    ensures Keeps(cfg, s, AfterRelationship(cfg, s, e))
  {
    hide Revoke;
    if e.Revokes? {
      RevokeKeeps(cfg, s, e.auth, e.id);
    }
  }

  /** Admission: the session entry, the connection and the token agree. */
  lemma ConnectKeeps(cfg: Config, s: State, clientId: string, password: Option<Token>)
    requires Sound(cfg, s) && (password.Some? ==> Genuine(s, password.value))
    ensures Keeps(cfg, s, Connect(cfg, s, clientId, password))
  {
    var a := Authenticate(cfg, s, clientId, password);
    if a.Some? {
      assert a.value in s.issued && a.value.dev == clientId && Current(s, a.value);
      hide Authenticate, Owns;
      var r := Connect(cfg, s, clientId, password);
      assert SessionsSound(r) && LiveSound(r);
    }
  }

  lemma BrokerKeeps(cfg: Config, s: State, e: Event)
    requires IsBroker(e) && Allowed(s, e) && Sound(cfg, s)
    ensures Keeps(cfg, s, AfterBroker(cfg, s, e))
  {
    hide Connect;
    match e
    case Connects(clientId, password) => ConnectKeeps(cfg, s, clientId, password);
    case _ =>
  }

  /** Time, restarts and key exchange do not touch what the invariant is about, or only
      empty it. */
  lemma OthersKeep(cfg: Config, s: State, e: Event)
    requires (e.Tick? || e.Restarts? || IsExchange(e)) && Sound(cfg, s)
    ensures Keeps(cfg, s, After(cfg, s, e))
  {
    hide AfterAccount, AfterAuth, AfterExchange, AfterRelationship, AfterBroker, Owns;
    var r := After(cfg, s, e);
    if IsExchange(e) {
      assert r == s.(exchanges := r.exchanges, usedIds := r.usedIds) && s.usedIds <= r.usedIds;
    }
  }

  lemma StepKeepsBoth(cfg: Config, s: State, e: Event)
    requires Allowed(s, e) && Sound(cfg, s)
    ensures Keeps(cfg, s, After(cfg, s, e))
  {
    hide AfterAccount, AfterAuth, AfterExchange, AfterRelationship, AfterBroker, Sound, Keeps, Allowed;
    if IsAccount(e) {
      AccountKeeps(cfg, s, e);
    } else if IsAuth(e) {
      AuthKeeps(cfg, s, e);
    } else if IsRelationship(e) {
      RelationshipKeeps(cfg, s, e);
    } else if IsBroker(e) {
      BrokerKeeps(cfg, s, e);
    } else {
      OthersKeep(cfg, s, e);
    }
  }

  /** Every step keeps the invariant. */
  lemma StepKeeps(cfg: Config, s: State, e: Event)
    requires Allowed(s, e) && Inv(cfg, s)
    ensures Inv(cfg, After(cfg, s, e))
  {
    hide After, Allowed, Sound, LiveCurrent;
    StepKeepsBoth(cfg, s, e);
  }

  /** The invariant along any path that starts with it. */
  lemma {:induction false} PathKeeps(p: Path, k: nat)
    requires p.Valid() && k < |p.states| && Inv(p.cfg, p.states[0])
    ensures Inv(p.cfg, p.states[k])
  {
    hide After, Inv, Allowed;
    if k > 0 {
      PathKeeps(p, k - 1);
      assert p.Steps(k - 1);
      StepKeeps(p.cfg, p.states[k - 1], p.events[k - 1]);
    }
  }

  /** The invariant holds in every reachable state. */
  lemma RunKeeps(p: Path, k: nat)
    requires p.IsRun() && k < |p.states|
    ensures Inv(p.cfg, p.states[k])
  {
    PathKeeps(p, k);
  }

  /** Device rows never move or vanish. */
  lemma {:induction false} DevicesNeverVanish(p: Path, i: nat, k: nat)
    requires p.Valid() && i <= k < |p.states|
    ensures p.states[i].devices <= p.states[k].devices
  {
    hide AfterAccount, AfterAuth, AfterExchange, AfterRelationship, AfterBroker;
    if i < k {
      DevicesNeverVanish(p, i, k - 1);
      assert p.Steps(k - 1);
      if IsAccount(p.events[k - 1]) {
        DevicesGrow(p.cfg, p.states[k - 1], p.events[k - 1]);
      }
    }
  }

  lemma DevicesGrow(cfg: Config, s: State, e: Event)
    requires IsAccount(e)
    ensures s.devices <= AfterAccount(cfg, s, e).devices
  {
    hide Kick, RegistrationPolicy, DecodeKey;
  }
}
