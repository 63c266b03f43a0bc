/** The REST handlers, step by step. Each takes the bearer token or admin key it was sent,
    and the identifiers and random bytes it draws. */
module RestApi {
  import opened Types
  import opened Tables
  import opened App
  import opened Spec
  import Base64Url

  // ── Authentication ──────────────────────────────────────────────────────

  method Challenge(app: AppState, userId: string, nonce: seq<byte>) returns (r: Result<string>)
    modifies app`challenges
    ensures Outcome(app.Model(), r) == AskChallenge(old(app.Model()), userId, nonce)
  {
    var user := app.db.GetUser(userId);
    if user.Err? {
      return Err(user.error);
    }
    var expiresAt := app.now + CHALLENGE_TTL_SECS;
    app.challenges := app.challenges[userId := Types.Challenge(nonce, expiresAt)];
    r := Ok(Base64Url.Encode(nonce));
  }

  method Verify(app: AppState, userId: string, deviceId: string, signature: string) returns (r: Result<Token>)
    modifies app`challenges, app`issued
    ensures Outcome(app.Model(), r) == Spec.Verify(app.cfg, old(app.Model()), userId, deviceId, signature)
  {
    hide DevicesOf, FindDevice, RelationshipsOf, ListsFor, Topics, NotifyTopic, Base64Url.Decode;
    // 1. Take the outstanding challenge
    if userId !in app.challenges {
      return Err(Unauthorized);
    }
    var challenge := app.challenges[userId];
    app.challenges := app.challenges - {userId};
    if app.now > challenge.expiresAt {
      return Err(Unauthorized);
    }
    // 2. An existing, active user
    var user := app.db.GetUser(userId);
    if user.Err? {
      return Err(user.error);
    }
    if user.value.suspended {
      return Err(Forbidden);
    }
    // 3. A device of that user signed the nonce
    var devices := app.db.GetDeviceByUser(userId);
    var device := FindDevice(devices, deviceId);
    if device.None? {
      return Err(Unauthorized);
    }
    var key := device.value.pubkey;
    if |key| != 32 || !app.cfg.crypto.edKeyValid(key) {
      return Err(Internal);
    }
    var sig := Base64Url.Decode(signature);
    if sig.None? || |sig.value| != 64 {
      return Err(BadRequest);
    }
    if !app.cfg.crypto.edVerify(key, challenge.nonce, sig.value) {
      return Err(Unauthorized);
    }
    // 4. Snapshot the rows and sign
    var pubTopics, subTopics := app.db.UserTopics(userId);
    var notify := app.NotifyTopic(userId);
    subTopics := subTopics + [notify];
    var token := app.IssueJwt(userId, deviceId, pubTopics, subTopics, notify);
    r := Ok(token);
  }

  // ── Registration ────────────────────────────────────────────────────────

  /** The policy branch; a push token is consumed here and stays consumed. */
  method CheckRegistrationPolicy(app: AppState, token: Option<string>, hook: Result<()>) returns (r: Result<()>)
    modifies app.db`registrationTokens
    ensures Outcome(app.Model(), r) == RegistrationPolicy(app.cfg, old(app.Model()), token, hook)
  {
    match app.cfg.mode {
      case Closed => r := Err(Forbidden);
      case PolicyMissing => r := Err(Internal);
      case HookUrlMissing => r := Err(Internal);
      case Hook => r := hook;
      case Open => r := Ok(());
      case Push =>
        if token.None? {
          return Err(BadRequest);
        }
        var hash := TokenHash(app.cfg, token.value);
        r := app.db.ConsumeRegistrationToken(hash, app.now);
    }
  }

  method Register(app: AppState, pubkey: string, token: Option<string>, hook: Result<()>, userId: string, deviceId: string)
      returns (r: Result<(string, string)>)
    modifies app`usedIds, app.db`users, app.db`devices, app.db`registrationTokens
    ensures Outcome(app.Model(), r) == Spec.Register(app.cfg, old(app.Model()), pubkey, token, hook, userId, deviceId)
  {
    hide RegistrationPolicy, DecodeKey;
    // 1. Is registration allowed?
    var policy := CheckRegistrationPolicy(app, token, hook);
    if policy.Err? {
      return Err(policy.error);
    }
    // 2. The key must be a 32-byte Ed25519 point
    var key := DecodeKey(pubkey);
    if key.Err? {
      return Err(key.error);
    }
    if !app.cfg.crypto.edKeyValid(key.value) {
      return Err(BadRequest);
    }
    // 3. File the user with this first device
    app.db.CreateUser(userId, app.now);
    var device := app.db.CreateDevice(deviceId, userId, key.value, app.now);
    app.usedIds := app.usedIds + {userId, deviceId};
    r := Ok((userId, device.deviceId));
  }

  // ── Key exchange ────────────────────────────────────────────────────────

  method Initiate(app: AppState, auth: Token, peerId: string, key: string, exchangeId: string) returns (r: Result<string>)
    modifies app`usedIds, app.db`pendingExchanges
    ensures Outcome(app.Model(), r) == Spec.Initiate(app.cfg, old(app.Model()), auth, peerId, key, exchangeId)
  {
    var user := AuthUser(app.cfg, app.now, auth);
    if user.Err? {
      return Err(user.error);
    }
    var peer := app.db.GetUser(peerId);
    if peer.Err? {
      return Err(peer.error);
    }
    var pub := DecodeKey(key);
    if pub.Err? {
      return Err(pub.error);
    }
    app.db.CreateExchange(exchangeId, user.value, peerId, pub.value, app.now);
    app.usedIds := app.usedIds + {exchangeId};
    r := Ok(exchangeId);
  }

  method GetExchange(app: AppState, auth: Token, exchangeId: string) returns (r: Result<ExchangeView>)
    modifies app.db`pendingExchanges
    ensures Outcome(app.Model(), r) == Spec.GetExchange(app.cfg, old(app.Model()), auth, exchangeId)
  {
    var user := AuthUser(app.cfg, app.now, auth);
    if user.Err? {
      return Err(user.error);
    }
    var ex := app.db.GetExchange(exchangeId);
    if ex.Err? {
      return Err(ex.error);
    }
    if ex.value.initiatorId != user.value && ex.value.responderId != user.value {
      return Err(Forbidden);
    }
    var complete := ex.value.responderKey.Some?;
    var isInitiator := ex.value.initiatorId == user.value;
    if complete && isInitiator {
      app.db.DeleteExchange(exchangeId);
    }
    r := Ok(View(exchangeId, ex.value));
  }

  /** A successful answer shows the responder's key in exactly the text it was sent in. */
  method Respond(app: AppState, auth: Token, exchangeId: string, key: string) returns (r: Result<ExchangeView>)
    modifies app.db`pendingExchanges
    ensures Outcome(app.Model(), r) == Spec.Respond(app.cfg, old(app.Model()), auth, exchangeId, key)
    ensures r.Ok? ==> r.value.responderKey == Some(key)
  {
    var user := AuthUser(app.cfg, app.now, auth);
    if user.Err? {
      return Err(user.error);
    }
    var ex := app.db.GetExchange(exchangeId);
    if ex.Err? {
      return Err(ex.error);
    }
    if ex.value.responderId != user.value {
      return Err(Forbidden);
    }
    if ex.value.responderKey.Some? {
      return Err(Conflict);
    }
    var pub := DecodeKey(key);
    if pub.Err? {
      return Err(pub.error);
    }
    var stored := app.db.SetResponderPubkey(exchangeId, pub.value);
    assert stored.Ok?; // the record read above is still there; ExchangeRace has the other case
    r := Ok(View(exchangeId, ex.value.(responderKey := Some(pub.value))));
  }

  method PurgeTimer(app: AppState) returns (n: nat)
    modifies app.db`pendingExchanges
    ensures Outcome(app.Model(), Ok(n)) == Purge(old(app.Model()))
  {
    n := app.db.PurgeExpiredExchanges(app.now);
  }

  // ── Relationships ───────────────────────────────────────────────────────

  method CreateRelationship(app: AppState, auth: Token, peerId: string, pubs: seq<string>, subs: seq<string>,
                            relationshipId: string) returns (r: Result<Relationship>)
    modifies app`usedIds, app.db`relationships
    ensures Outcome(app.Model(), r)
         == Spec.CreateRelationship(app.cfg, old(app.Model()), auth, peerId, pubs, subs, relationshipId)
  {
    var user := AuthUser(app.cfg, app.now, auth);
    if user.Err? {
      return Err(user.error);
    }
    var row := app.db.CreateRelationship(relationshipId, user.value, peerId, pubs, subs, app.now);
    app.usedIds := app.usedIds + {relationshipId};
    r := Ok(row);
  }

  /** The caller's rows; nothing changes. */
  method ListRelationships(app: AppState, auth: Token) returns (r: Result<seq<Relationship>>)
    ensures Outcome(app.Model(), r) == Spec.ListRelationships(app.cfg, app.Model(), auth)
    ensures r.Ok? ==> forall row | row in r.value :: row in app.db.relationships && row.userId == auth.claims.sub
  {
    var user := AuthUser(app.cfg, app.now, auth);
    if user.Err? {
      return Err(user.error);
    }
    r := Ok(app.db.ListRelationships(user.value));
  }

  method Revoke(app: AppState, auth: Token, relationshipId: string) returns (r: Result<()>)
    modifies app.db`relationships, app.db`users, app.broker
    ensures Outcome(app.Model(), r) == Spec.Revoke(app.cfg, old(app.Model()), auth, relationshipId)
  {
    hide Kick, RelationshipsOf;
    var user := AuthUser(app.cfg, app.now, auth);
    if user.Err? {
      return Err(user.error);
    }
    var rel := app.db.GetRelationship(user.value, relationshipId);
    if rel.Err? {
      return Err(rel.error);
    }
    DeleteShrinks(app.db.relationships, user.value, relationshipId);
    var deleted := app.db.DeleteRelationship(user.value, relationshipId);
    assert deleted.Ok?; // the row read above is still there
    app.KickUser(user.value);
    app.KickUser(rel.value.peerId);
    r := Ok(());
  }

  // ── Administration ──────────────────────────────────────────────────────

  method CreateRegistrationToken(app: AppState, adminKey: string, raw: seq<byte>, expiresIn: nat, maxUses: int,
                                 tokenId: string) returns (r: Result<string>)
    modifies app`usedIds, app.db`registrationTokens
    ensures Outcome(app.Model(), r)
         == CreateRegToken(app.cfg, old(app.Model()), adminKey, raw, expiresIn, maxUses, tokenId)
  {
    if adminKey != app.cfg.adminKey {
      return Err(Unauthorized);
    }
    var token := Base64Url.Encode(raw);
    app.db.CreateRegistrationToken(tokenId, TokenHash(app.cfg, token), app.now, expiresIn, maxUses);
    app.usedIds := app.usedIds + {tokenId};
    r := Ok(token);
  }

  method SuspendUser(app: AppState, adminKey: string, userId: string, reason: Option<string>) returns (r: Result<()>)
    modifies app.db`users, app.broker
    ensures Outcome(app.Model(), r) == Suspend(app.cfg, old(app.Model()), adminKey, userId, reason)
  {
    hide Kick;
    if adminKey != app.cfg.adminKey {
      return Err(Unauthorized);
    }
    var marked := app.db.SetSuspended(userId, true, reason);
    if marked.Err? {
      return Err(marked.error);
    }
    app.KickUser(userId);
    r := Ok(());
  }

  method UnsuspendUser(app: AppState, adminKey: string, userId: string) returns (r: Result<()>)
    modifies app.db`users
    ensures Outcome(app.Model(), r) == Unsuspend(app.cfg, old(app.Model()), adminKey, userId)
  {
    if adminKey != app.cfg.adminKey {
      return Err(Unauthorized);
    }
    r := app.db.SetSuspended(userId, false, None);
  }
}
