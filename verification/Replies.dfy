/** What every request is answered and what it may change, for all states and all requests: who
    must have sent it, which errors come in which case, and what a success stores. */
module Replies {
  import opened Types
  import opened Tables
  import opened Spec
  import Base64Url

  // ── Callers and keys ────────────────────────────────────────────────────

  /** The server's own token, within its life and the leeway. */
  predicate Bearer(cfg: Config, now: nat, token: Token)
    ensures Bearer(cfg, now, token) ==> token.Signed?
  {
    token.Signed? && now <= token.claims.exp + cfg.jwtLeeway
  }

  lemma CallerIff(cfg: Config, now: nat, token: Token)
    ensures AuthUser(cfg, now, token) == if Bearer(cfg, now, token) then Ok(token.claims.sub) else Err(Unauthorized)
  {
  }

  /** The text is the unpadded base64url of the 32-byte key. */
  predicate KeyText(text: string, key: seq<byte>) {
    |key| == 32 && text == Base64Url.Encode(key)
  }

  ghost predicate IsKeyText(text: string) {
    exists key :: KeyText(text, key)
  }

  /** A key is read from exactly one text. */
  lemma DecodeKeyIff(text: string, key: seq<byte>)
    ensures DecodeKey(text) == Ok(key) <==> KeyText(text, key)
    ensures DecodeKey(text).Err? <==> !IsKeyText(text)
    ensures DecodeKey(text).Err? ==> DecodeKey(text).error == BadRequest
  {
    Base64Url.DecodeIffEncode(text, key);
    if DecodeKey(text).Ok? {
      assert KeyText(text, DecodeKey(text).value);
    }
    if k :| KeyText(text, k) {
      Base64Url.DecodeIffEncode(text, k);
    }
  }

  /** The key that a key text stands for. */
  ghost function KeyOf(text: string): (key: seq<byte>)
    requires IsKeyText(text)
    ensures KeyText(text, key) && DecodeKey(text) == Ok(key)
  {
    var key :| KeyText(text, key);
    DecodeKeyIff(text, key);
    key
  }

  // ── Registration ────────────────────────────────────────────────────────

  /** Registration is allowed: always, never, at the hook's word, or for a usable token. */
  ghost predicate MayRegister(cfg: Config, s: State, token: Option<string>, hook: Result<()>) {
    match cfg.mode
    case Open => true
    case Hook => hook.Ok?
    case Push =>
      token.Some? && exists row :: row in s.regTokens && row.tokenHash == cfg.crypto.hmac(cfg.tokenHashKey, token.value)
                                   && s.now < row.expiresAt && row.uses < row.maxUses
    case _ => false
  }

  lemma {:induction false} UsableIff(rows: seq<RegToken>, hash: seq<byte>, now: nat)
    ensures CountUsable(rows, hash, now) > 0
            <==> exists row :: row in rows && row.tokenHash == hash && now < row.expiresAt && row.uses < row.maxUses
  {
    if rows != [] {
      UsableIff(rows[1..], hash, now);
      if Usable(rows[0], hash, now) {
        assert rows[0] in rows;
      }
    }
  }

  lemma PolicyReplies(cfg: Config, s: State, token: Option<string>, hook: Result<()>)
    ensures var r := RegistrationPolicy(cfg, s, token, hook).result;
            && (r.Ok? <==> MayRegister(cfg, s, token, hook))
            && (cfg.mode.Closed? ==> r == Err(Forbidden))
            && (cfg.mode.PolicyMissing? || cfg.mode.HookUrlMissing? ==> r == Err(Internal))
            && (cfg.mode.Hook? ==> r == hook)
            && (cfg.mode.Push? && token.None? ==> r == Err(BadRequest))
            && (cfg.mode.Push? && token.Some? && r.Err? ==> r == Err(Forbidden))
    ensures !cfg.mode.Push? || token.None? ==> RegistrationPolicy(cfg, s, token, hook).state == s
  {
    if cfg.mode.Push? && token.Some? {
      UsableIff(s.regTokens, cfg.crypto.hmac(cfg.tokenHashKey, token.value), s.now);
    }
  }

  /** Registration succeeds exactly when it is allowed and the key is a valid one in canonical
      text; it then files one active user with one device under the drawn ids, and replies with
      those. Otherwise users and devices stay as they are, and a bad key is a bad request. */
  lemma RegisterReplies(cfg: Config, s: State, pubkey: string, token: Option<string>, hook: Result<()>, user: string,
                        device: string)
    ensures var o := Register(cfg, s, pubkey, token, hook, user, device);
            var valid := IsKeyText(pubkey) && cfg.crypto.edKeyValid(KeyOf(pubkey));
            && (o.result.Ok? <==> MayRegister(cfg, s, token, hook) && valid)
            && (MayRegister(cfg, s, token, hook) && !valid ==> o.result == Err(BadRequest))
            && (!MayRegister(cfg, s, token, hook) ==>
                  RegistrationPolicy(cfg, s, token, hook).result.Err?
                  && o.result == Err(RegistrationPolicy(cfg, s, token, hook).result.error))
            && (o.result.Ok? ==>
                  && o.result.value == (user, device)
                  && o.state.users == s.users[user := User(s.now, false, None, 0)]
                  && o.state.devices == s.devices + [Device(device, user, KeyOf(pubkey), s.now)])
            && (o.result.Err? ==> o.state.users == s.users && o.state.devices == s.devices)
            && o.state.regTokens == RegistrationPolicy(cfg, s, token, hook).state.regTokens
  {
    PolicyReplies(cfg, s, token, hook);
    hide RegistrationPolicy, MayRegister, DecodeKey;
    DecodeKeyIff(pubkey, []);
  }

  // ── Authentication ──────────────────────────────────────────────────────

  lemma ChallengeReplies(s: State, user: string, nonce: seq<byte>)
    ensures var o := AskChallenge(s, user, nonce);
            && (user in s.users ==>
                  && o.result == Ok(Base64Url.Encode(nonce))
                  && o.state == s.(challenges := s.challenges[user := Challenge(nonce, s.now + 60)]))
            && (user !in s.users ==> o == Outcome(s, Err(NotFound)))
  {
  }

  /** The text is the unpadded base64url of a 64-byte signature. */
  predicate SignatureText(text: string, sig: seq<byte>) {
    |sig| == 64 && text == Base64Url.Encode(sig)
  }

  /** The outstanding challenge is at most sixty seconds old. */
  predicate InTime(s: State, user: string) {
    user in s.challenges && s.now <= s.challenges[user].expiresAt
  }

  /** A verification by an active user from a device on file, with that device's signature of
      the outstanding nonce, yields a token; every other one fails, and any attempt spends the
      challenge. */
  lemma VerifyReplies(cfg: Config, s: State, user: string, device: string, signature: string)
    ensures var o := Verify(cfg, s, user, device, signature);
            var found := FindDevice(DevicesOf(s.devices, user), device);
            var known := InTime(s, user) && user in s.users && !s.users[user].suspended && found.Some?;
            var sound := known && |found.value.pubkey| == 32 && cfg.crypto.edKeyValid(found.value.pubkey);
            && (o.result.Ok? <==> sound && exists sig :: SignatureText(signature, sig)
                                                         && cfg.crypto.edVerify(found.value.pubkey, s.challenges[user].nonce, sig))
            && (o.result == Err(NotFound) <==> InTime(s, user) && user !in s.users)
            && (o.result == Err(Forbidden) <==> InTime(s, user) && user in s.users && s.users[user].suspended)
            && (o.result == Err(Internal) <==> known && !sound)
            && (o.result == Err(BadRequest) <==> sound && forall sig :: !SignatureText(signature, sig))
            && (o.result.Err? ==> o.result.error in {NotFound, Forbidden, Internal, BadRequest, Unauthorized})
            && o.state.challenges == s.challenges - {user}
            && (o.result.Err? ==> o.state.issued == s.issued)
            && (o.result.Ok? ==>
                  o.result.value.Signed? && o.state.issued == s.issued + {o.result.value.claims}
                  && o.result.value.claims == Snapshot(cfg, s, user, device))
  {
    hide DevicesOf, FindDevice, Snapshot;
    SignatureIff(signature);
    hide Base64Url.Decode, Base64Url.Encode;
  }

  lemma SignatureIff(text: string)
    ensures forall sig :: SignatureText(text, sig) <==> Base64Url.Decode(text) == Some(sig) && |sig| == 64
  {
    forall sig ensures SignatureText(text, sig) <==> Base64Url.Decode(text) == Some(sig) && |sig| == 64 {
      Base64Url.DecodeIffEncode(text, sig);
    }
  }

  // ── Key exchange ────────────────────────────────────────────────────────

  /** Only a caller with a good token, an existing peer and a 32-byte key opens an exchange; the
      record names caller and peer, and lives seven days. */
  lemma InitiateReplies(cfg: Config, s: State, auth: Token, peer: string, key: string, id: string)
    ensures var o, known := Initiate(cfg, s, auth, peer, key, id), Bearer(cfg, s.now, auth);
            && (o.result.Ok? <==> known && peer in s.users && IsKeyText(key))
            && (o.result == Err(Unauthorized) <==> !known)
            && (o.result == Err(NotFound) <==> known && peer !in s.users)
            && (o.result == Err(BadRequest) <==> known && peer in s.users && !IsKeyText(key))
            && (o.result.Err? ==> o.state == s)
            && (o.result.Ok? ==>
                  && o.result.value == id
                  && o.state.exchanges
                     == s.exchanges[id := Exchange(auth.claims.sub, peer, KeyOf(key), None, s.now, s.now + 604800)])
  {
    CallerIff(cfg, s.now, auth);
    DecodeKeyIff(key, []);
    hide DecodeKey, AuthUser;
  }

  /** Initiator and responder alone are shown a record; showing it answered to its initiator
      discards it. */
  lemma GetReplies(cfg: Config, s: State, auth: Token, id: string)
    ensures var o, known := GetExchange(cfg, s, auth, id), Bearer(cfg, s.now, auth);
            var party := known && id in s.exchanges && auth.claims.sub in {s.exchanges[id].initiatorId, s.exchanges[id].responderId};
            && (o.result.Ok? <==> party)
            && (o.result == Err(Unauthorized) <==> !known)
            && (o.result == Err(NotFound) <==> known && id !in s.exchanges)
            && (o.result == Err(Forbidden) <==> known && id in s.exchanges && !party)
            && (o.result.Ok? ==> Shown(o.result.value, id, s.exchanges[id]))
            && o.state == (if party && auth.claims.sub == s.exchanges[id].initiatorId && s.exchanges[id].responderKey.Some?
                           then s.(exchanges := s.exchanges - {id}) else s)
  {
    CallerIff(cfg, s.now, auth);
    hide AuthUser;
  }

  /** The reply carries the record, its keys as text. */
  predicate Shown(v: ExchangeView, id: string, ex: Exchange) {
    && v.exchangeId == id && v.initiatorId == ex.initiatorId && v.responderId == ex.responderId
    && v.initiatorKey == Base64Url.Encode(ex.initiatorKey)
    && (v.responderKey.Some? <==> ex.responderKey.Some?)
    && (v.responderKey.Some? ==> v.responderKey.value == Base64Url.Encode(ex.responderKey.value))
  }

  /** The named responder alone answers, once, with a 32-byte key; the reply is the record with
      that key. */
  lemma RespondReplies(cfg: Config, s: State, auth: Token, id: string, key: string)
    ensures var o, known := Respond(cfg, s, auth, id, key), Bearer(cfg, s.now, auth);
            var named := known && id in s.exchanges && auth.claims.sub == s.exchanges[id].responderId;
            && (o.result.Ok? <==> named && s.exchanges[id].responderKey.None? && IsKeyText(key))
            && (o.result == Err(Unauthorized) <==> !known)
            && (o.result == Err(NotFound) <==> known && id !in s.exchanges)
            && (o.result == Err(Forbidden) <==> known && id in s.exchanges && !named)
            && (o.result == Err(Conflict) <==> named && s.exchanges[id].responderKey.Some?)
            && (o.result == Err(BadRequest) <==> named && s.exchanges[id].responderKey.None? && !IsKeyText(key))
            && (o.result.Err? ==> o.state == s)
            && (o.result.Ok? ==>
                  var answered := s.exchanges[id].(responderKey := Some(KeyOf(key)));
                  o.state.exchanges == s.exchanges[id := answered] && Shown(o.result.value, id, answered))
  {
    CallerIff(cfg, s.now, auth);
    DecodeKeyIff(key, []);
    hide DecodeKey, AuthUser;
  }

  // ── Relationships ───────────────────────────────────────────────────────

  /** A relationship is stored as requested, for the caller, after the rows already there. */
  lemma CreateReplies(cfg: Config, s: State, auth: Token, peer: string, pubs: seq<string>, subs: seq<string>, id: string)
    ensures var o := CreateRelationship(cfg, s, auth, peer, pubs, subs, id);
            && (!Bearer(cfg, s.now, auth) ==> o == Outcome(s, Err(Unauthorized)))
            && (Bearer(cfg, s.now, auth) ==>
                  && o.result.Ok?
                  && o.state.relationships == s.relationships + [o.result.value]
                  && var row := o.result.value;
                     && row.relationshipId == id && row.userId == auth.claims.sub && row.peerId == peer
                     && row.publishTopics == pubs && row.subscribeTopics == subs && row.createdAt == s.now)
  {
    CallerIff(cfg, s.now, auth);
    hide AuthUser;
  }

  lemma ListReplies(cfg: Config, s: State, auth: Token)
    ensures var o := ListRelationships(cfg, s, auth);
            && o.state == s
            && (!Bearer(cfg, s.now, auth) ==> o.result == Err(Unauthorized))
            && (Bearer(cfg, s.now, auth) ==>
                  o.result.Ok? && forall row :: row in o.result.value <==> row in s.relationships && row.userId == auth.claims.sub)
  {
    CallerIff(cfg, s.now, auth);
    hide AuthUser;
  }

  /** Only the owner of the row revokes it. */
  lemma RevokeReplies(cfg: Config, s: State, auth: Token, id: string)
    ensures var o, known := Revoke(cfg, s, auth, id), Bearer(cfg, s.now, auth);
            var owned := known && exists row :: row in s.relationships && Matches(row, auth.claims.sub, id);
            && (o.result == Err(Unauthorized) <==> !known)
            && (o.result == Err(NotFound) <==> known && !owned)
            && (o.result == Ok(()) <==> owned)
            && (o.result.Err? ==> o.state == s)
  {
    CallerIff(cfg, s.now, auth);
    hide AuthUser, Kick;
  }

  // ── Administration ──────────────────────────────────────────────────────

  /** The token handed out is the text of the random bytes, and what is stored is its keyed
      hash, unused, with the limits asked for. */
  lemma CreateTokenReplies(cfg: Config, s: State, adminKey: string, raw: seq<byte>, expiresIn: nat, maxUses: int, id: string)
    ensures var o := CreateRegToken(cfg, s, adminKey, raw, expiresIn, maxUses, id);
            && (adminKey != cfg.adminKey ==> o == Outcome(s, Err(Unauthorized)))
            && (adminKey == cfg.adminKey ==>
                  && o.result == Ok(Base64Url.Encode(raw))
                  && |o.state.regTokens| == |s.regTokens| + 1 && s.regTokens <= o.state.regTokens
                  && var row := o.state.regTokens[|s.regTokens|];
                     && row.tokenHash == cfg.crypto.hmac(cfg.tokenHashKey, o.result.value)
                     && row.uses == 0 && row.maxUses == maxUses && row.expiresAt == s.now + expiresIn)
  {
  }

  /** Only the administrator suspends and unsuspends, and only existing users. */
  lemma SuspendReplies(cfg: Config, s: State, adminKey: string, user: string, reason: Option<string>)
    ensures var o := Suspend(cfg, s, adminKey, user, reason);
            && (o.result == Err(Unauthorized) <==> adminKey != cfg.adminKey)
            && (o.result == Err(NotFound) <==> adminKey == cfg.adminKey && user !in s.users)
            && (o.result == Ok(()) <==> adminKey == cfg.adminKey && user in s.users)
            && (o.result.Err? ==> o.state == s)
            && (o.result.Ok? ==>
                  o.state.users
                  == s.users[user := s.users[user].(suspended := true, suspendReason := reason, tokensValidFrom := s.now)])
  {
    hide DeviceIds, DevicesOf;
  }

  lemma UnsuspendReplies(cfg: Config, s: State, adminKey: string, user: string)
    ensures var o := Unsuspend(cfg, s, adminKey, user);
            && (o.result == Err(Unauthorized) <==> adminKey != cfg.adminKey)
            && (o.result == Err(NotFound) <==> adminKey == cfg.adminKey && user !in s.users)
            && (o.result == Ok(()) <==> adminKey == cfg.adminKey && user in s.users)
            && (o.result.Err? ==> o.state == s)
            && (o.result.Ok? ==>
                  o.state == s.(users := s.users[user := s.users[user].(suspended := false, suspendReason := None)]))
  {
  }
}
