/** The server's state as one value, and what each request, broker hook and timer does to
    it. Each function is one atomic step; identifiers, nonces and the registration hook's
    answer, which the program draws from outside, are arguments. The contracts say which
    parts of the state a step may touch. */
module Spec {
  import opened Types
  import opened Tables
  import Base64Url

  datatype State = State(
    now: nat,
    // SQL tables
    users: map<string, User>,
    devices: seq<Device>,
    relationships: seq<Relationship>,
    exchanges: map<string, Exchange>,
    regTokens: seq<RegToken>,
    // in-memory maps
    challenges: map<string, Challenge>,
    sessions: map<string, Claims>,
    // broker: open connections by client id, each with the claims it was admitted with,
    // and closed ones whose disconnect hook is still to come
    live: map<string, Claims>,
    closing: multiset<string>,
    // history: every claims value ever signed, every identifier ever drawn
    issued: set<Claims>,
    usedIds: set<string>)

  datatype Outcome<+T> = Outcome(state: State, result: Result<T>)

  /** First boot: empty tables and maps. */
  function Boot(now: nat): (s: State) {
    State(now, map[], [], [], map[], [], map[], map[], map[], multiset{}, {}, {})
  }

  // ── JWTs and derived strings ────────────────────────────────────────────

  function JwtVerify(cfg: Config, now: nat, token: Token): (r: Result<Claims>)
    ensures r.Ok? <==> token.Signed? && now <= token.claims.exp + cfg.jwtLeeway
    ensures r.Ok? ==> r.value == token.claims
    ensures r.Err? ==> r.error == Unauthorized
  {
    match token
    case Malformed => Err(Unauthorized)
    case Signed(c) => if c.exp + cfg.jwtLeeway < now then Err(Unauthorized) else Ok(c)
  }

  /** The user id behind a bearer token. */
  function AuthUser(cfg: Config, now: nat, token: Token): (r: Result<string>) {
    match JwtVerify(cfg, now, token)
    case Err(e) => Err(e)
    case Ok(c) => Ok(c.sub)
  }

  function NotifyTopic(cfg: Config, user: string): (topic: string) {
    Base64Url.Encode(cfg.crypto.hmac(cfg.notifySecret, "notify:" + user))
  }

  function TokenHash(cfg: Config, token: string): (hash: seq<byte>) {
    cfg.crypto.hmac(cfg.tokenHashKey, token)
  }

  /** A 32-byte key in canonical base64url, or the error the handlers answer. */
  function DecodeKey(text: string): (r: Result<seq<byte>>)
    ensures r.Ok? ==> |r.value| == 32 && Base64Url.Encode(r.value) == text
  {
    match Base64Url.Decode(text)
    case None => Err(BadRequest)
    case Some(key) =>
      Base64Url.DecodeIffEncode(text, key);
      if |key| != 32 then Err(BadRequest) else Ok(key)
  }

  // ── Registration ────────────────────────────────────────────────────────

  /** The policy decision; a push token is consumed even if the request fails later. */
  function RegistrationPolicy(cfg: Config, s: State, token: Option<string>, hook: Result<()>): (o: Outcome<()>)
    ensures o.state == s.(regTokens := o.state.regTokens)
  {
    match cfg.mode
    case Closed => Outcome(s, Err(Forbidden))
    case PolicyMissing => Outcome(s, Err(Internal))
    case HookUrlMissing => Outcome(s, Err(Internal))
    case Hook => Outcome(s, hook)
    case Open => Outcome(s, Ok(()))
    case Push =>
      if token.None? then Outcome(s, Err(BadRequest))
      else
        var hash := TokenHash(cfg, token.value);
        Outcome(s.(regTokens := Consume(s.regTokens, hash, s.now)),
                if CountUsable(s.regTokens, hash, s.now) == 0 then Err(Forbidden) else Ok(()))
  }

  function Register(cfg: Config, s: State, pubkey: string, token: Option<string>, hook: Result<()>,
                    userId: string, deviceId: string): (o: Outcome<(string, string)>)
    ensures o.state == s.(users := o.state.users, devices := o.state.devices, regTokens := o.state.regTokens, usedIds := o.state.usedIds)
  {
    var policy := RegistrationPolicy(cfg, s, token, hook);
    if policy.result.Err? then Outcome(policy.state, Err(policy.result.error))
    else
      match DecodeKey(pubkey)
      case Err(e) => Outcome(policy.state, Err(e))
      case Ok(key) =>
        if !cfg.crypto.edKeyValid(key) then Outcome(policy.state, Err(BadRequest))
        else
          Outcome(
            policy.state.(
              users := s.users[userId := User(s.now, false, None, 0)],
              devices := s.devices + [Device(deviceId, userId, key, s.now)],
              usedIds := s.usedIds + {userId, deviceId}),
            Ok((userId, deviceId)))
  }

  // ── Authentication ──────────────────────────────────────────────────────

  function AskChallenge(s: State, user: string, nonce: seq<byte>): (o: Outcome<string>)
    ensures o.state == s.(challenges := o.state.challenges)
  {
    if user !in s.users then Outcome(s, Err(NotFound))
    else
      Outcome(s.(challenges := s.challenges[user := Challenge(nonce, s.now + CHALLENGE_TTL_SECS)]),
              Ok(Base64Url.Encode(nonce)))
  }

  /** The checks of `verify` after it has taken the challenge out of the store. */
  function VerifyChecks(cfg: Config, s: State, challenge: Challenge, user: string, device: string,
                        signature: string): (r: Result<()>)
  {
    if s.now > challenge.expiresAt then Err(Unauthorized)
    else if user !in s.users then Err(NotFound)
    else if s.users[user].suspended then Err(Forbidden)
    else
      match FindDevice(DevicesOf(s.devices, user), device)
      case None => Err(Unauthorized)
      case Some(d) =>
        if |d.pubkey| != 32 || !cfg.crypto.edKeyValid(d.pubkey) then Err(Internal)
        else
          match Base64Url.Decode(signature)
          case None => Err(BadRequest)
          case Some(sig) =>
            if |sig| != 64 then Err(BadRequest)
            else if !cfg.crypto.edVerify(d.pubkey, challenge.nonce, sig) then Err(Unauthorized)
            else Ok(())
  }

  /** The claims signed for a device now: a snapshot of the user's rows. */
  function Snapshot(cfg: Config, s: State, user: string, device: string): (c: Claims) {
    var mine := RelationshipsOf(s.relationships, user);
    var notify := NotifyTopic(cfg, user);
    Claims(user, device, s.now + cfg.jwtTtl, s.now,
           Topics(mine, Publish), Topics(mine, Subscribe) + [notify], notify)
  }

  function Verify(cfg: Config, s: State, user: string, device: string, signature: string): (o: Outcome<Token>)
    ensures o.state == s.(challenges := o.state.challenges, issued := o.state.issued)
  {
    if user !in s.challenges then Outcome(s, Err(Unauthorized))
    else
      var popped := s.(challenges := s.challenges - {user});
      match VerifyChecks(cfg, s, s.challenges[user], user, device, signature)
      case Err(e) => Outcome(popped, Err(e))
      case Ok(_) =>
        var c := Snapshot(cfg, s, user, device);
        Outcome(popped.(issued := s.issued + {c}), Ok(Signed(c)))
  }

  // ── Key exchange ────────────────────────────────────────────────────────

  datatype ExchangeView = ExchangeView(
    exchangeId: string,
    initiatorId: string,
    responderId: string,
    initiatorKey: string,
    responderKey: Option<string>)

  function View(id: string, ex: Exchange): (v: ExchangeView) {
    ExchangeView(id, ex.initiatorId, ex.responderId, Base64Url.Encode(ex.initiatorKey),
                 match ex.responderKey case None => None case Some(k) => Some(Base64Url.Encode(k)))
  }

  function Initiate(cfg: Config, s: State, auth: Token, peer: string, key: string, id: string): (o: Outcome<string>)
    ensures o.state == s.(exchanges := o.state.exchanges, usedIds := o.state.usedIds)
  {
    match AuthUser(cfg, s.now, auth)
    case Err(e) => Outcome(s, Err(e))
    case Ok(user) =>
      if peer !in s.users then Outcome(s, Err(NotFound))
      else
        match DecodeKey(key)
        case Err(e) => Outcome(s, Err(e))
        case Ok(pub) =>
          var ex := Exchange(user, peer, pub, None, s.now, s.now + EXCHANGE_TTL_SECS);
          Outcome(s.(exchanges := s.exchanges[id := ex], usedIds := s.usedIds + {id}), Ok(id))
  }

  function GetExchange(cfg: Config, s: State, auth: Token, id: string): (o: Outcome<ExchangeView>)
    ensures o.state == s.(exchanges := o.state.exchanges)
  {
    match AuthUser(cfg, s.now, auth)
    case Err(e) => Outcome(s, Err(e))
    case Ok(user) =>
      if id !in s.exchanges then Outcome(s, Err(NotFound))
      else
        var ex := s.exchanges[id];
        if ex.initiatorId != user && ex.responderId != user then Outcome(s, Err(Forbidden))
        else
          var discard := ex.responderKey.Some? && ex.initiatorId == user;
          Outcome(if discard then s.(exchanges := s.exchanges - {id}) else s, Ok(View(id, ex)))
  }

  function Respond(cfg: Config, s: State, auth: Token, id: string, key: string): (o: Outcome<ExchangeView>)
    ensures o.state == s.(exchanges := o.state.exchanges)
  {
    match AuthUser(cfg, s.now, auth)
    case Err(e) => Outcome(s, Err(e))
    case Ok(user) =>
      if id !in s.exchanges then Outcome(s, Err(NotFound))
      else
        var ex := s.exchanges[id];
        if ex.responderId != user then Outcome(s, Err(Forbidden))
        else if ex.responderKey.Some? then Outcome(s, Err(Conflict))
        else
          match DecodeKey(key)
          case Err(e) => Outcome(s, Err(e))
          case Ok(pub) =>
            var done := ex.(responderKey := Some(pub));
            Outcome(s.(exchanges := s.exchanges[id := done]), Ok(View(id, done)))
  }

  function Purge(s: State): (o: Outcome<nat>)
    ensures o.state == s.(exchanges := o.state.exchanges)
  {
    var gone := Expired(s.exchanges, s.now);
    Outcome(s.(exchanges := s.exchanges - gone), Ok(|gone|))
  }

  // ── Relationships and kicks ─────────────────────────────────────────────

  function CreateRelationship(cfg: Config, s: State, auth: Token, peer: string, pubs: seq<string>,
                              subs: seq<string>, id: string): (o: Outcome<Relationship>)
    ensures o.state == s.(relationships := o.state.relationships, usedIds := o.state.usedIds)
  {
    match AuthUser(cfg, s.now, auth)
    case Err(e) => Outcome(s, Err(e))
    case Ok(user) =>
      var row := Relationship(id, user, peer, pubs, subs, s.now);
      Outcome(s.(relationships := s.relationships + [row], usedIds := s.usedIds + {id}), Ok(row))
  }

  function ListRelationships(cfg: Config, s: State, auth: Token): (o: Outcome<seq<Relationship>>)
    ensures o.state == s
  {
    match AuthUser(cfg, s.now, auth)
    case Err(e) => Outcome(s, Err(e))
    case Ok(user) => Outcome(s, Ok(RelationshipsOf(s.relationships, user)))
  }

  /** Closes the open connections among the given client ids. */
  function Close(s: State, ids: set<string>): (r: State)
    ensures r == s.(live := r.live, closing := r.closing)
  {
    s.(live := s.live - ids, closing := s.closing + multiset(s.live.Keys * ids))
  }

  function InvalidateTokens(s: State, user: string): (r: State)
    ensures r == s.(users := r.users)
  {
    if user in s.users
    then s.(users := s.users[user := s.users[user].(tokensValidFrom := s.now)])
    else s
  }

  function Kick(s: State, user: string): (r: State)
    ensures r == s.(users := r.users, live := r.live, closing := r.closing)
    ensures r.users == InvalidateTokens(s, user).users
  {
    Close(InvalidateTokens(s, user), DeviceIds(DevicesOf(s.devices, user)))
  }

  function Revoke(cfg: Config, s: State, auth: Token, id: string): (o: Outcome<()>)
    ensures o.state == s.(relationships := o.state.relationships, users := o.state.users, live := o.state.live, closing := o.state.closing)
  {
    match AuthUser(cfg, s.now, auth)
    case Err(e) => Outcome(s, Err(e))
    case Ok(user) =>
      match FindRelationship(s.relationships, user, id)
      case None => Outcome(s, Err(NotFound))
      case Some(row) =>
        var deleted := s.(relationships := DeleteRelationship(s.relationships, user, id));
        Outcome(Kick(Kick(deleted, user), row.peerId), Ok(()))
  }

  // ── Administration ──────────────────────────────────────────────────────

  function CreateRegToken(cfg: Config, s: State, adminKey: string, raw: seq<byte>, expiresIn: nat,
                          maxUses: int, id: string): (o: Outcome<string>)
    ensures o.state == s.(regTokens := o.state.regTokens, usedIds := o.state.usedIds)
  {
    if adminKey != cfg.adminKey then Outcome(s, Err(Unauthorized))
    else
      var token := Base64Url.Encode(raw);
      var row := RegToken(id, TokenHash(cfg, token), s.now, s.now + expiresIn, maxUses, 0);
      Outcome(s.(regTokens := s.regTokens + [row], usedIds := s.usedIds + {id}), Ok(token))
  }

  function SetSuspended(s: State, user: string, suspended: bool, reason: Option<string>): (o: Outcome<()>)
    ensures o.state == s.(users := o.state.users)
  {
    if user !in s.users then Outcome(s, Err(NotFound))
    else
      var row := s.users[user].(suspended := suspended, suspendReason := reason);
      Outcome(s.(users := s.users[user := row]), Ok(()))
  }

  function Suspend(cfg: Config, s: State, adminKey: string, user: string, reason: Option<string>): (o: Outcome<()>)
    ensures o.state == s.(users := o.state.users, live := o.state.live, closing := o.state.closing)
  {
    if adminKey != cfg.adminKey then Outcome(s, Err(Unauthorized))
    else
      var o := SetSuspended(s, user, true, reason);
      if o.result.Err? then o else Outcome(Kick(o.state, user), Ok(()))
  }

  function Unsuspend(cfg: Config, s: State, adminKey: string, user: string): (o: Outcome<()>)
    ensures o.state == s.(users := o.state.users)
  {
    if adminKey != cfg.adminKey then Outcome(s, Err(Unauthorized))
    else SetSuspended(s, user, false, None)
  }

  // ── Broker hooks ────────────────────────────────────────────────────────

  /** The claims that CONNECT is admitted with, if it is. */
  function Authenticate(cfg: Config, s: State, clientId: string, password: Option<Token>): (r: Option<Claims>) {
    if password.None? then None
    else
      match JwtVerify(cfg, s.now, password.value)
      case Err(_) => None
      case Ok(c) =>
        if clientId != c.dev then None
        else if c.sub !in s.users || s.users[c.sub].suspended then None
        else if c.iat < s.users[c.sub].tokensValidFrom then None
        else Some(c)
  }

  /** An admitted CONNECT overwrites the session entry, and the broker closes an older
      connection of the same client id. */
  function Connect(cfg: Config, s: State, clientId: string, password: Option<Token>): (r: State)
    ensures r == s.(sessions := r.sessions, live := r.live, closing := r.closing)
  {
    match Authenticate(cfg, s, clientId, password)
    case None => s
    case Some(c) =>
      s.(sessions := s.sessions[clientId := c],
         live := s.live[clientId := c],
         closing := s.closing + multiset(s.live.Keys * {clientId}))
  }

  /** The subscribe decision. */
  predicate Granted(s: State, clientId: string, topic: string) {
    clientId in s.sessions && topic in s.sessions[clientId].subTopics
  }

  function DisconnectHook(s: State, clientId: string): (r: State)
    ensures r == s.(sessions := r.sessions, closing := r.closing)
  {
    s.(sessions := s.sessions - {clientId}, closing := s.closing - multiset{clientId})
  }

  /** Process restart: memory and connections are lost, tables stay. */
  function Restart(s: State): (r: State)
    ensures r == s.(challenges := r.challenges, sessions := r.sessions, live := r.live, closing := r.closing)
  {
    s.(challenges := map[], sessions := map[], live := map[], closing := multiset{})
  }
}
