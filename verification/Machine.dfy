/** Runs of the server: any sequence of requests, hooks, timer ticks and restarts, subject
    to the stated facts about the environment. */
module Machine {
  import opened Types
  import opened Spec

  datatype Event =
    | Tick(seconds: nat)
    | Restarts
    | Registers(pubkey: string, regToken: Option<string>, hook: Result<()>, userId: string, deviceId: string)
    | AsksChallenge(user: string, nonce: seq<byte>)
    | Verifies(user: string, device: string, signature: string)
    | Initiates(auth: Token, peer: string, key: string, id: string)
    | GetsExchange(auth: Token, id: string)
    | Responds(auth: Token, id: string, key: string)
    | Purges
    | CreatesRelationship(auth: Token, peer: string, pubs: seq<string>, subs: seq<string>, id: string)
    | ListsRelationships(auth: Token)
    | Revokes(auth: Token, id: string)
    | CreatesRegToken(adminKey: string, raw: seq<byte>, expiresIn: nat, maxUses: int, id: string)
    | Suspends(adminKey: string, user: string, reason: Option<string>)
    | Unsuspends(adminKey: string, user: string)
    | Connects(clientId: string, password: Option<Token>)
    | Subscribes(clientId: string, topic: string)
    | Hangs(clientId: string) // the client or the network closes the connection
    | Disconnected(clientId: string)

  // What an event does, component by component.

  predicate IsAccount(e: Event) {
    e.Registers? || e.CreatesRegToken? || e.Suspends? || e.Unsuspends?
  }

  function AfterAccount(cfg: Config, s: State, e: Event): (r: State)
    requires IsAccount(e)
    ensures r == s.(users := r.users, devices := r.devices, regTokens := r.regTokens,
                    usedIds := r.usedIds, live := r.live, closing := r.closing)
    ensures s.usedIds <= r.usedIds
  {
    match e
    case Registers(pubkey, regToken, hook, u, d) => Register(cfg, s, pubkey, regToken, hook, u, d).state
    case CreatesRegToken(adminKey, raw, expiresIn, maxUses, id) =>
      CreateRegToken(cfg, s, adminKey, raw, expiresIn, maxUses, id).state
    case Suspends(adminKey, user, reason) => Suspend(cfg, s, adminKey, user, reason).state
    case Unsuspends(adminKey, user) => Unsuspend(cfg, s, adminKey, user).state
  }

  predicate IsAuth(e: Event) {
    e.AsksChallenge? || e.Verifies?
  }

  function AfterAuth(cfg: Config, s: State, e: Event): (r: State)
    requires IsAuth(e)
    ensures r == s.(challenges := r.challenges, issued := r.issued)
  {
    match e
    case AsksChallenge(user, nonce) => AskChallenge(s, user, nonce).state
    case Verifies(user, device, signature) => Verify(cfg, s, user, device, signature).state
  }

  predicate IsExchange(e: Event) {
    e.Initiates? || e.GetsExchange? || e.Responds? || e.Purges?
  }

  function AfterExchange(cfg: Config, s: State, e: Event): (r: State)
    requires IsExchange(e)
    ensures r == s.(exchanges := r.exchanges, usedIds := r.usedIds)
    ensures s.usedIds <= r.usedIds
  {
    match e
    case Initiates(auth, peer, key, id) => Initiate(cfg, s, auth, peer, key, id).state
    case GetsExchange(auth, id) => GetExchange(cfg, s, auth, id).state
    case Responds(auth, id, key) => Respond(cfg, s, auth, id, key).state
    case Purges => Purge(s).state
  }

  predicate IsRelationship(e: Event) {
    e.CreatesRelationship? || e.ListsRelationships? || e.Revokes?
  }

  function AfterRelationship(cfg: Config, s: State, e: Event): (r: State)
    requires IsRelationship(e)
    ensures r == s.(relationships := r.relationships, usedIds := r.usedIds, users := r.users,
                    live := r.live, closing := r.closing)
    ensures s.usedIds <= r.usedIds
  {
    match e
    case CreatesRelationship(auth, peer, pubs, subs, id) =>
      CreateRelationship(cfg, s, auth, peer, pubs, subs, id).state
    case ListsRelationships(auth) => ListRelationships(cfg, s, auth).state
    case Revokes(auth, id) => Revoke(cfg, s, auth, id).state
  }

  predicate IsBroker(e: Event) {
    e.Connects? || e.Subscribes? || e.Hangs? || e.Disconnected?
  }

  function AfterBroker(cfg: Config, s: State, e: Event): (r: State)
    requires IsBroker(e)
    ensures r == s.(sessions := r.sessions, live := r.live, closing := r.closing)
  {
    match e
    case Connects(clientId, password) => Connect(cfg, s, clientId, password)
    case Subscribes(clientId, topic) => s
    case Hangs(clientId) => Close(s, {clientId})
    case Disconnected(clientId) => DisconnectHook(s, clientId)
  }

  function After(cfg: Config, s: State, e: Event): (r: State) {
    if e.Tick? then s.(now := s.now + e.seconds)
    else if e.Restarts? then Restart(s)
    else if IsAccount(e) then AfterAccount(cfg, s, e)
    else if IsAuth(e) then AfterAuth(cfg, s, e)
    else if IsExchange(e) then AfterExchange(cfg, s, e)
    else if IsRelationship(e) then AfterRelationship(cfg, s, e)
    else AfterBroker(cfg, s, e)
  }

  // ── Facts about the environment ─────────────────────────────────────────

  /** Nobody but the server signs. */
  predicate Genuine(s: State, token: Token) {
    token.Signed? ==> token.claims in s.issued
  }

  /** A drawn UUID was never drawn before; its text has no '>'. */
  predicate Fresh(s: State, id: string) {
    id !in s.usedIds && '>' !in id
  }

  predicate Allowed(s: State, e: Event) {
    match e
    case Registers(_, _, _, u, d) => Fresh(s, u) && Fresh(s, d) && u != d
    case Initiates(auth, _, _, id) => Genuine(s, auth) && Fresh(s, id)
    case GetsExchange(auth, _) => Genuine(s, auth)
    case Responds(auth, _, _) => Genuine(s, auth)
    case CreatesRelationship(auth, _, _, _, id) => Genuine(s, auth) && Fresh(s, id)
    case ListsRelationships(auth) => Genuine(s, auth)
    case Revokes(auth, _) => Genuine(s, auth)
    case CreatesRegToken(_, _, _, _, id) => Fresh(s, id)
    case Connects(_, password) => password.Some? ==> Genuine(s, password.value)
    case Subscribes(clientId, _) => clientId in s.live
    case Hangs(clientId) => clientId in s.live
    case Disconnected(clientId) => clientId in s.closing
    case _ => true
  }

  // ── Paths and runs ──────────────────────────────────────────────────────

  /** States visited and the events between them. */
  datatype Path = Path(cfg: Config, states: seq<State>, events: seq<Event>) {

    ghost predicate Valid() {
      && |states| == |events| + 1
      && forall i :: 0 <= i < |events| ==> Steps(i)
    }

    ghost predicate Steps(i: nat)
      requires |states| == |events| + 1 && i < |events|
    {
      Allowed(states[i], events[i]) && states[i + 1] == After(cfg, states[i], events[i])
    }

    /** A path from first boot. */
    ghost predicate IsRun() {
      Valid() && states[0] == Boot(states[0].now)
    }
  }

  /** The clock never goes back. */
  lemma {:induction false} ClockNeverGoesBack(p: Path, i: nat, k: nat)
    requires p.Valid() && i <= k < |p.states|
    ensures p.states[i].now <= p.states[k].now
  {
    hide AfterAccount, AfterAuth, AfterExchange, AfterRelationship, AfterBroker;
    if i < k {
      ClockNeverGoesBack(p, i, k - 1);
      assert p.Steps(k - 1);
    }
  }
}
