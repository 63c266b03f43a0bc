/** The client library against the server: an HTTP request is a call of the handler. */
module Client {
  import opened Types
  import opened App
  import opened Spec
  import opened SharedSecrets
  import opened EndToEnd
  import Base64Url
  import RestApi

  /** The row that the client registers for a secret. */
  function RegisterRelationship(cfg: Config, s: State, auth: Token, me: string, secret: SharedSecret, id: string)
      : (o: Outcome<Relationship>)
  {
    CreateRelationship(cfg, s, auth, secret.peerId, [OutboundTopic(cfg.crypto, secret, me)],
                       [InboundTopic(cfg.crypto, secret, me)], id)
  }

  /** Fetch, answer, derive, register: what answering an exchange amounts to when nothing else
      intervenes. */
  ghost function RespondFlow(cfg: Config, s: State, auth: Token, me: string, exchangeId: string, y: seq<byte>, rowId: string)
      : (o: Outcome<SharedSecret>)
    requires Expands(cfg.crypto)
  {
    var got := GetExchange(cfg, s, auth, exchangeId);
    if got.result.Err? then Outcome(got.state, Err(got.result.error))
    else
      match RespondSecret(cfg.crypto, y, got.result.value)
      case None => Outcome(got.state, Err(Internal))
      case Some(secret) =>
        var answer := Respond(cfg, got.state, auth, exchangeId, Base64Url.ClientEncode(cfg.crypto.x25519Public(y)));
        if answer.result.Err? then Outcome(answer.state, Err(answer.result.error))
        else
          var made := RegisterRelationship(cfg, answer.state, auth, me, secret, rowId);
          Outcome(made.state, if made.result.Err? then Err(made.result.error) else Ok(secret))
  }

  /** Collect, derive, register; `None` while the peer has not answered. */
  ghost function CompleteFlow(cfg: Config, s: State, auth: Token, me: string, exchangeId: string, x: seq<byte>, rowId: string)
      : (o: Outcome<Option<SharedSecret>>)
    requires Expands(cfg.crypto)
  {
    var got := GetExchange(cfg, s, auth, exchangeId);
    if got.result.Err? then Outcome(got.state, Err(got.result.error))
    else if got.result.value.responderKey.None? then Outcome(got.state, Ok(None))
    else
      match CompleteSecret(cfg.crypto, x, got.result.value)
      case None => Outcome(got.state, Err(Internal))
      case Some(secret) =>
        var made := RegisterRelationship(cfg, got.state, auth, me, secret, rowId);
        Outcome(made.state, if made.result.Err? then Err(made.result.error) else Ok(Some(secret)))
  }

  class SmqttClient {
    var userId: string
    var deviceId: string
    var jwt: Token
    var edPrivate: Option<seq<byte>>

    constructor ()
      ensures jwt == Malformed && edPrivate == None
    {
      userId, deviceId, jwt, edPrivate := "", "", Malformed, None;
    }

    /** The newly generated key replaces the old one even if the server then refuses. */
    method Register(app: AppState, generated: seq<byte>, token: Option<string>, hook: Result<()>, newUser: string,
                    newDevice: string) returns (r: Result<string>)
      modifies this, app`usedIds, app.db`users, app.db`devices, app.db`registrationTokens
      ensures edPrivate == Some(generated) && jwt == old(jwt)
      ensures var pubkey := Base64Url.Encode(app.cfg.crypto.edPublic(generated));
              var sent := if token == Some("") then None else token;
              var o := Spec.Register(app.cfg, old(app.Model()), pubkey, sent, hook, newUser, newDevice);
              && app.Model() == o.state
              && (o.result.Ok? ==> r == Ok(newUser) && userId == newUser && deviceId == newDevice)
              && (o.result.Err? ==> r == Err(o.result.error) && userId == old(userId) && deviceId == old(deviceId))
    {
      edPrivate := Some(generated);
      var pubkey := app.cfg.crypto.edPublic(generated);
      Base64Url.RepadRestores(pubkey);
      var sent := if token == Some("") then None else token; // an empty token is not sent
      var data := RestApi.Register(app, Base64Url.ClientEncode(pubkey), sent, hook, newUser, newDevice);
      if data.Err? {
        return Err(data.error);
      }
      userId, deviceId := data.value.0, data.value.1;
      r := Ok(userId);
    }

    /** The client signs exactly the nonce the server drew; without a key it fails after having
        asked for one. */
    method Authenticate(app: AppState, nonce: seq<byte>) returns (r: Result<Token>)
      modifies this`jwt, app`challenges, app`issued
      ensures var asked := AskChallenge(old(app.Model()), userId, nonce);
              && (asked.result.Err? ==> r == Err(asked.result.error) && app.Model() == asked.state)
              && (asked.result.Ok? && edPrivate.None? ==> r == Err(Internal) && app.Model() == asked.state)
              && (asked.result.Ok? && edPrivate.Some? ==>
                    var signature := Base64Url.Encode(app.cfg.crypto.edSign(edPrivate.value, nonce));
                    Outcome(app.Model(), r) == Spec.Verify(app.cfg, asked.state, userId, deviceId, signature))
      ensures jwt == if r.Ok? then r.value else old(jwt)
    {
      hide Spec.Verify;
      var asked := RestApi.Challenge(app, userId, nonce);
      if asked.Err? {
        return Err(asked.error);
      }
      Base64Url.DecodeIffEncode(asked.value, nonce);
      var received := Base64Url.B64uDecode(asked.value);
      if edPrivate.None? {
        return Err(Internal);
      }
      var sig := app.cfg.crypto.edSign(edPrivate.value, received.value);
      Base64Url.RepadRestores(sig);
      r := RestApi.Verify(app, userId, deviceId, Base64Url.ClientEncode(sig));
      if r.Ok? {
        jwt := r.value;
      }
    }

    method InitiateExchange(app: AppState, peerId: string, x: seq<byte>, newId: string) returns (r: Result<string>)
      modifies app`usedIds, app.db`pendingExchanges
      ensures Outcome(app.Model(), r)
           == Initiate(app.cfg, old(app.Model()), jwt, peerId, Base64Url.ClientEncode(app.cfg.crypto.x25519Public(x)), newId)
    {
      var key := Base64Url.ClientEncode(app.cfg.crypto.x25519Public(x));
      r := RestApi.Initiate(app, jwt, peerId, key, newId);
    }

    method RespondToExchange(app: AppState, exchangeId: string, y: seq<byte>, rowId: string) returns (r: Result<SharedSecret>)
      requires Expands(app.cfg.crypto)
      modifies app`usedIds, app.db`pendingExchanges, app.db`relationships
      ensures Outcome(app.Model(), r) == RespondFlow(app.cfg, old(app.Model()), jwt, userId, exchangeId, y, rowId)
    {
      hide Spec.GetExchange, Spec.Respond, Spec.CreateRelationship, Base64Url.ClientDecode, Base64Url.ClientEncode, Derive;
      var cr := app.cfg.crypto;
      var data := RestApi.GetExchange(app, jwt, exchangeId);
      if data.Err? {
        return Err(data.error);
      }
      var theirs := Base64Url.B64uDecode(data.value.initiatorKey);
      if theirs.None? {
        return Err(Internal);
      }
      var ours := cr.x25519Public(y);
      var raw := cr.x25519(y, theirs.value);
      var answer := RestApi.Respond(app, jwt, exchangeId, Base64Url.ClientEncode(ours));
      if answer.Err? {
        return Err(answer.error);
      }
      var secret := Derive(cr, raw, ours, theirs.value, data.value.initiatorId);
      var made := RegisterRow(app, secret, rowId);
      if made.Err? {
        return Err(made.error);
      }
      r := Ok(secret);
    }

    method CompleteExchange(app: AppState, exchangeId: string, x: seq<byte>, rowId: string)
        returns (r: Result<Option<SharedSecret>>)
      requires Expands(app.cfg.crypto)
      modifies app`usedIds, app.db`pendingExchanges, app.db`relationships
      ensures Outcome(app.Model(), r) == CompleteFlow(app.cfg, old(app.Model()), jwt, userId, exchangeId, x, rowId)
    {
      hide Spec.GetExchange, Spec.CreateRelationship, Base64Url.ClientDecode, Derive;
      var cr := app.cfg.crypto;
      var data := RestApi.GetExchange(app, jwt, exchangeId);
      if data.Err? {
        return Err(data.error);
      }
      if data.value.responderKey.None? {
        return Ok(None);
      }
      var theirs := Base64Url.B64uDecode(data.value.responderKey.value);
      if theirs.None? {
        return Err(Internal);
      }
      var secret := Derive(cr, cr.x25519(x, theirs.value), cr.x25519Public(x), theirs.value, data.value.responderId);
      var made := RegisterRow(app, secret, rowId);
      if made.Err? {
        return Err(made.error);
      }
      r := Ok(Some(secret));
    }

    method RegisterRow(app: AppState, secret: SharedSecret, rowId: string) returns (r: Result<Relationship>)
      modifies app`usedIds, app.db`relationships
      ensures Outcome(app.Model(), r) == RegisterRelationship(app.cfg, old(app.Model()), jwt, userId, secret, rowId)
    {
      var cr := app.cfg.crypto;
      r := RestApi.CreateRelationship(app, jwt, secret.peerId, [OutboundTopic(cr, secret, userId)],
                                      [InboundTopic(cr, secret, userId)], rowId);
    }
  }
}
