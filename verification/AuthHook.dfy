/** The broker's hooks: admission, the subscribe decision, and disconnection. */
module AuthHook {
  import opened Types
  import opened App
  import opened Spec

  /** Admission: on success the claims become the session entry of the client id. */
  method Authenticate(app: AppState, clientId: string, password: Option<Token>) returns (admitted: Option<Claims>)
    modifies app`sessions
    ensures admitted == Spec.Authenticate(app.cfg, old(app.Model()), clientId, password)
    ensures app.sessions == if admitted.Some? then old(app.sessions)[clientId := admitted.value] else old(app.sessions)
  {
    if password.None? {
      return None;
    }
    var claims := JwtVerify(app.cfg, app.now, password.value);
    if claims.Err? {
      return None;
    }
    // The client id must be the device id, so that kicks by device reach the connection.
    if clientId != claims.value.dev {
      return None;
    }
    var user := app.db.GetUser(claims.value.sub);
    if user.Err? || user.value.suspended {
      return None;
    }
    // Older than the last kick.
    if claims.value.iat < user.value.tokensValidFrom {
      return None;
    }
    app.sessions := app.sessions[clientId := claims.value];
    admitted := Some(claims.value);
  }

  /** CONNECT as the broker runs it: the hook, then the connection. */
  method OnConnect(app: AppState, clientId: string, password: Option<Token>) returns (admitted: bool)
    modifies app`sessions, app.broker
    ensures app.Model() == Connect(app.cfg, old(app.Model()), clientId, password)
    ensures admitted <==> Spec.Authenticate(app.cfg, old(app.Model()), clientId, password).Some?
  {
    var claims := Authenticate(app, clientId, password);
    if claims.Some? {
      app.broker.Accept(clientId, claims.value);
    }
    admitted := claims.Some?;
  }

  /** The subscribe decision reads the session entry and changes nothing. */
  method CheckSubscribeAcl(app: AppState, clientId: string, topicFilter: string) returns (allowed: bool)
    ensures allowed <==> Granted(app.Model(), clientId, topicFilter)
  {
    if clientId !in app.sessions {
      return false;
    }
    allowed := topicFilter in app.sessions[clientId].subTopics;
  }

  /** The disconnect hook of one closed connection. */
  method OnDisconnected(app: AppState, clientId: string)
    modifies app`sessions, app.broker`closing
    ensures app.Model() == DisconnectHook(old(app.Model()), clientId)
  {
    app.broker.closing := app.broker.closing - multiset{clientId};
    app.sessions := app.sessions - {clientId};
  }
}
