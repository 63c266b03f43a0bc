/** The boundary second of a kick, inside runs: a token signed just before a revocation or a
    suspension outlives it. */
module Boundary {
  import opened Types
  import opened Tables
  import opened Spec
  import opened Machine
  import opened AuthInvariant
  import opened RelationshipTable
  import opened Kicking
  import opened Revocation
  import opened Suspension
  import opened EndToEnd
  import opened Progress
  import Base64Url

  // ── Logging in prolongs a run ───────────────────────────────────────────

  /** The user can log in from the device, and `sig` is the key's signature of `nonce`. */
  ghost predicate CanSign(cfg: Config, s: State, user: string, device: string, nonce: seq<byte>, sig: seq<byte>) {
    |sig| == 64 && exists key :: CanLogIn(cfg, s, user, device, key) && cfg.crypto.edVerify(key, nonce, sig)
  }

  function Login(p: Path, user: string, device: string, nonce: seq<byte>, sig: seq<byte>): (q: Path)
    requires |p.states| == |p.events| + 1
    ensures q.cfg == p.cfg && |q.states| == |q.events| + 1 && |q.events| == |p.events| + 2
  {
    Then(Then(p, AsksChallenge(user, nonce)), Verifies(user, device, Base64Url.Encode(sig)))
  }

  lemma AfterLogin(cfg: Config, s: State, user: string, nonce: seq<byte>, device: string, signature: string)
    ensures After(cfg, s, AsksChallenge(user, nonce)) == AskChallenge(s, user, nonce).state
    ensures After(cfg, s, Verifies(user, device, signature)) == Verify(cfg, s, user, device, signature).state
  {
    hide AskChallenge, Verify, AfterAccount, AfterExchange, AfterRelationship, AfterBroker;
  }

  /** A login takes no time and leaves a freshly signed token, and no other trace but a spent
      challenge. */
  lemma LoginRuns(p: Path, user: string, device: string, nonce: seq<byte>, sig: seq<byte>)
    requires p.IsRun() && CanSign(p.cfg, Last(p), user, device, nonce, sig)
    ensures var q := Login(p, user, device, nonce, sig);
            var s, c := Last(p), Snapshot(p.cfg, Last(p), user, device);
            && Extends(p, q) && Last(q) == s.(challenges := Last(q).challenges, issued := s.issued + {c})
            && Issues(q.cfg, q.states[|p.events| + 1], q.events[|p.events| + 1])
            && q.events[|p.events|] == AsksChallenge(user, nonce)
  {
    hide After, AskChallenge, Verify, Snapshot, Base64Url.Encode;
    var cfg, s := p.cfg, Last(p);
    var key :| CanLogIn(cfg, s, user, device, key) && cfg.crypto.edVerify(key, nonce, sig);
    LoginSucceeds(cfg, s, user, device, key, nonce, sig);
    AfterLogin(cfg, s, user, nonce, device, Base64Url.Encode(sig));
    ThenExtends(p, AsksChallenge(user, nonce));
    var p1 := Then(p, AsksChallenge(user, nonce));
    AfterLogin(cfg, Last(p1), user, nonce, device, Base64Url.Encode(sig));
    ThenExtends(p1, Verifies(user, device, Base64Url.Encode(sig)));
  }

  // ── Connecting and subscribing with a token ─────────────────────────────

  /** The run prolonged by a connect with the token and a subscription. */
  function Subscribe(p: Path, c: Claims, topic: string): (q: Path)
    requires |p.states| == |p.events| + 1
    ensures q.cfg == p.cfg && |q.states| == |q.events| + 1 && |q.events| == |p.events| + 2
  {
    Then(Then(p, Connects(c.dev, Some(Signed(c)))), Subscribes(c.dev, topic))
  }

  lemma AfterSubscribe(cfg: Config, s: State, clientId: string, password: Option<Token>, topic: string)
    ensures After(cfg, s, Connects(clientId, password)) == Connect(cfg, s, clientId, password)
    ensures After(cfg, s, Subscribes(clientId, topic)) == s
  {
    hide Connect, AfterAccount, AfterAuth, AfterExchange, AfterRelationship;
  }

  /** A token that is neither stale, expired nor of a suspended user gets what it lists. */
  lemma SubscribeRuns(p: Path, c: Claims, topic: string)
    requires p.IsRun() && c in Last(p).issued && topic in c.subTopics
    requires Current(Last(p), c) && Last(p).now <= c.exp
    ensures var q, n := Subscribe(p, c, topic), |p.events|;
            && Extends(p, q)
            && Authenticate(p.cfg, Last(p), c.dev, Some(Signed(c))) == Some(c)
            && GrantedTo(q.states[n + 1], q.events[n + 1], c.sub, topic)
            && q.states[n + 1].sessions[c.dev] == c
            && q.states[n + 1].relationships == Last(p).relationships && q.states[n + 1].now == Last(p).now
            && Last(q) == Last(p).(sessions := Last(q).sessions, live := Last(q).live, closing := Last(q).closing)
  {
    var connect := Connects(c.dev, Some(Signed(c)));
    assert Authenticate(p.cfg, Last(p), c.dev, Some(Signed(c))) == Some(c);
    hide After, Authenticate, Current;
    AfterSubscribe(p.cfg, Last(p), c.dev, Some(Signed(c)), topic);
    ThenExtends(p, connect);
    var p1 := Then(p, connect);
    AfterSubscribe(p.cfg, Last(p1), c.dev, Some(Signed(c)), topic);
    ThenExtends(p1, Subscribes(c.dev, topic));
  }

  // ── Revocation ──────────────────────────────────────────────────────────

  /** The row is the only one of its user that lists the topic. */
  ghost predicate OnlyListing(s: State, row: Relationship, topic: string) {
    && row in s.relationships && topic in row.subscribeTopics
    && forall x | x in s.relationships && x.userId == row.userId && topic in x.subscribeTopics :: x == row
  }

  /** Revoking the only row that lists a topic: afterwards no row does, and the user stands as
      before but for the age limit on tokens. */
  lemma RevokeOnlyListing(cfg: Config, s: State, c: Claims, row: Relationship, topic: string)
    requires Sound(cfg, s) && RowsSound(s) && OnlyListing(s, row, topic)
    requires c in s.issued && c.sub == row.userId && s.now <= c.exp
    ensures var e := Revokes(Signed(c), row.relationshipId);
            var r := After(cfg, s, e);
            && Allowed(s, e) && RevokedBy(cfg, s, e, c.sub) && !Lists(r.relationships, c.sub, topic)
            && r.issued == s.issued && r.now == s.now && c.sub in s.users && c.sub in r.users
            && r.users[c.sub] == s.users[c.sub].(tokensValidFrom := s.now)
  {
    hide After, Kick, FindRelationship, DeleteRelationship, UniqueRelationshipIds;
    FoundByItsId(s.relationships, row);
    RevokeDeletes(cfg, s, Signed(c), row.relationshipId);
    OnlyRow(s.relationships, c.sub, row.relationshipId);
    RevocationKicksBoth(cfg, s, Signed(c), row.relationshipId);
    AfterRevoke(cfg, s, Revokes(Signed(c), row.relationshipId));
  }

  lemma FoundByItsId(rows: seq<Relationship>, row: Relationship)
    requires UniqueRelationshipIds(rows) && row in rows
    ensures FindRelationship(rows, row.userId, row.relationshipId) == Some(row)
  {
    var found := FindRelationship(rows, row.userId, row.relationshipId);
    assert Matches(row, row.userId, row.relationshipId);
    var i :| 0 <= i < |rows| && rows[i] == row;
    var j :| 0 <= j < |rows| && rows[j] == found.value;
    assert i == j;
  }

  lemma FreshToken(cfg: Config, s: State, user: string, device: string)
    ensures var c := Snapshot(cfg, s, user, device);
            c.sub == user && c.dev == device && c.iat == s.now <= c.exp && NotifyTopic(cfg, user) in c.subTopics
  {
  }

  lemma SignersAreActive(cfg: Config, s: State, user: string, device: string, nonce: seq<byte>, sig: seq<byte>)
    requires CanSign(cfg, s, user, device, nonce, sig)
    ensures user in s.users && !s.users[user].suspended
  {
  }

  /** Log in, then revoke the only row for the topic with the token just obtained: the token
      lists the topic, no row does, and the token is still good. */
  lemma RevokedAtOnce(p: Path, device: string, nonce: seq<byte>, sig: seq<byte>, row: Relationship, topic: string)
    requires p.IsRun() && CanSign(p.cfg, Last(p), row.userId, device, nonce, sig)
    requires OnlyListing(Last(p), row, topic)
    ensures var user, p1 := row.userId, Login(p, row.userId, device, nonce, sig);
            var c := Snapshot(p.cfg, Last(p), user, device);
            var e := Revokes(Signed(c), row.relationshipId);
            var p2 := Then(p1, e);
            && Extends(p, p1) && Extends(p1, p2)
            && RevokedBy(p.cfg, Last(p1), e, user)
            && !Lists(Last(p2).relationships, user, topic)
            && c.sub == user && topic in c.subTopics && c in Last(p2).issued
            && Current(Last(p2), c) && Last(p2).now <= c.exp && Last(p2).now == Last(p).now
  {
    hide After, Lists, RevokedBy, CanSign, Snapshot, NotifyTopic, Extends, Login, Then;
    var cfg, s, user := p.cfg, Last(p), row.userId;
    var c := Snapshot(cfg, s, user, device);
    SignersAreActive(cfg, s, user, device, nonce, sig);
    FreshToken(cfg, s, user, device);
    TokenListsPeer(cfg, s, row, device, topic);
    LoginRuns(p, user, device, nonce, sig);
    var p1 := Login(p, user, device, nonce, sig);
    ExtendsKeeps(p, p1);
    RunKeeps(p1, |p1.events|);
    RunRowsSound(p1, |p1.events|);
    RevokeOnlyListing(cfg, Last(p1), c, row, topic);
    ThenExtends(p1, Revokes(Signed(c), row.relationshipId));
  }

  /** In every run, a user who can log in and has one row listing a topic can in a single
      second log in, revoke the row, connect with the token and be granted the topic that no
      row lists any more. */
  lemma RevocationOutlived(p: Path, device: string, nonce: seq<byte>, sig: seq<byte>, row: Relationship, topic: string)
      returns (q: Path)
    requires p.IsRun() && CanSign(p.cfg, Last(p), row.userId, device, nonce, sig)
    requires OnlyListing(Last(p), row, topic)
    ensures Extends(p, q) && |q.events| == |p.events| + 5
    ensures var n, user := |p.events|, row.userId;
            && q.events[n] == AsksChallenge(user, nonce)
            && Issues(q.cfg, q.states[n + 1], q.events[n + 1])
            && RevokedBy(q.cfg, q.states[n + 2], q.events[n + 2], user)
            && q.events[n + 3].Connects?
            && NeverListed(q, user, topic, n + 3, n + 5)
            && GrantedTo(q.states[n + 4], q.events[n + 4], user, topic)
            && q.states[n + 4].now == Last(p).now
  {
    hide After, Lists, RevokedBy, GrantedTo, CanSign, Snapshot, Authenticate, Issues, Extends, OnlyListing, Current, Login;
    var cfg, user, n := p.cfg, row.userId, |p.events|;
    var c := Snapshot(cfg, Last(p), user, device);
    LoginRuns(p, user, device, nonce, sig);
    RevokedAtOnce(p, device, nonce, sig, row, topic);
    var p1 := Login(p, user, device, nonce, sig);
    var p2 := Then(p1, Revokes(Signed(c), row.relationshipId));
    ExtendsKeeps(p1, p2);
    SubscribeRuns(p2, c, topic);
    q := Subscribe(p2, c, topic);
    ExtendsKeeps(p2, q);
    ExtendsTransitive(p, p1, p2);
    ExtendsTransitive(p, p2, q);
    assert q.states[n + 2] == Last(p1) && q.states[n + 3] == Last(p2);
  }

  // ── Suspension ──────────────────────────────────────────────────────────

  lemma AfterSuspend(cfg: Config, s: State, user: string)
    ensures After(cfg, s, Suspends(cfg.adminKey, user, None)) == Suspend(cfg, s, cfg.adminKey, user, None).state
    ensures After(cfg, s, Unsuspends(cfg.adminKey, user)) == Unsuspend(cfg, s, cfg.adminKey, user).state
  {
    hide Suspend, Unsuspend, Register, CreateRegToken, AfterAuth, AfterExchange, AfterRelationship, AfterBroker;
  }

  /** The run prolonged by suspending the user and lifting the suspension at once. */
  function Lift(p: Path, user: string): (q: Path)
    requires |p.states| == |p.events| + 1
    ensures q.cfg == p.cfg && |q.states| == |q.events| + 1 && |q.events| == |p.events| + 2
  {
    Then(Then(p, Suspends(p.cfg.adminKey, user, None)), Unsuspends(p.cfg.adminKey, user))
  }

  lemma LiftRuns(p: Path, user: string)
    requires p.IsRun() && user in Last(p).users
    ensures var q, s := Lift(p, user), Last(p);
            && Extends(p, q)
            && SuspendedBy(q.cfg, q.states[|p.events|], q.events[|p.events|], user)
            && user in Last(q).users && !Last(q).users[user].suspended && Last(q).users[user].tokensValidFrom == s.now
            && Last(q).issued == s.issued && Last(q).now == s.now
  {
    hide After, Kick, AskChallenge;
    var e := Suspends(p.cfg.adminKey, user, None);
    RunKeeps(p, |p.events|);
    AfterSuspend(p.cfg, Last(p), user);
    SuspensionKicks(p.cfg, Last(p), e, user);
    ThenExtends(p, e);
    var p1 := Then(p, e);
    AfterSuspend(p.cfg, Last(p1), user);
    ThenExtends(p1, Unsuspends(p.cfg.adminKey, user));
  }

  /** In every run, a user who can log in can do so, be suspended and unsuspended in the same
      second, and then be admitted with the token from before the suspension. */
  lemma SuspensionOutlived(p: Path, user: string, device: string, nonce: seq<byte>, sig: seq<byte>) returns (q: Path)
    requires p.IsRun() && CanSign(p.cfg, Last(p), user, device, nonce, sig)
    ensures Extends(p, q) && |q.events| == |p.events| + 6
    ensures var n := |p.events|;
            && Issues(q.cfg, q.states[n + 1], q.events[n + 1])
            && SuspendedBy(q.cfg, q.states[n + 2], q.events[n + 2], user)
            && q.events[n + 4].Connects?
            && GrantedTo(q.states[n + 5], q.events[n + 5], user, NotifyTopic(q.cfg, user))
            && q.states[n + 5].sessions[q.events[n + 5].clientId] in q.states[n + 2].issued
  {
    hide After, SuspendedBy, GrantedTo, CanSign, Snapshot, Authenticate, Issues, Extends, Login, Lift, NotifyTopic;
    var cfg, n := p.cfg, |p.events|;
    var c := Snapshot(cfg, Last(p), user, device);
    SignersAreActive(cfg, Last(p), user, device, nonce, sig);
    FreshToken(cfg, Last(p), user, device);
    LoginRuns(p, user, device, nonce, sig);
    var p1 := Login(p, user, device, nonce, sig);
    ExtendsKeeps(p, p1);
    LiftRuns(p1, user);
    var p2 := Lift(p1, user);
    ExtendsKeeps(p1, p2);
    SubscribeRuns(p2, c, NotifyTopic(cfg, user));
    q := Subscribe(p2, c, NotifyTopic(cfg, user));
    ExtendsKeeps(p2, q);
    ExtendsTransitive(p, p1, p2);
    ExtendsTransitive(p, p2, q);
    assert q.states[n + 2] == Last(p1) && q.states[n + 4] == Last(p2);
    assert q.events[n + 5] == Subscribes(c.dev, NotifyTopic(cfg, user));
  }

  // ── Such runs exist ─────────────────────────────────────────────────────

  lemma AfterFirstSteps(cfg: Config, s: State, register: Event, create: Event)
    requires register.Registers? && create.CreatesRelationship?
    ensures After(cfg, s, register)
         == Register(cfg, s, register.pubkey, register.regToken, register.hook, register.userId, register.deviceId).state
    ensures After(cfg, s, create)
         == CreateRelationship(cfg, s, create.auth, create.peer, create.pubs, create.subs, create.id).state
  {
    hide Register, CreateRelationship, CreateRegToken, Suspend, Unsuspend, AfterAuth, AfterExchange, AfterBroker;
  }

  lemma CanSignStays(cfg: Config, s: State, r: State, user: string, device: string, nonce: seq<byte>, sig: seq<byte>)
    requires CanSign(cfg, s, user, device, nonce, sig) && r.users == s.users && r.devices == s.devices
    ensures CanSign(cfg, r, user, device, nonce, sig)
  {
    var key :| CanLogIn(cfg, s, user, device, key) && cfg.crypto.edVerify(key, nonce, sig);
    assert CanLogIn(cfg, r, user, device, key);
  }

  /** Open registration on a server with no rows files the key. */
  lemma RegisterRuns(p: Path, key: seq<byte>, user: string, device: string, nonce: seq<byte>, sig: seq<byte>)
    requires p.IsRun() && Last(p).relationships == []
    requires Fresh(Last(p), user) && Fresh(Last(p), device) && user != device
    requires p.cfg.mode.Open? && |key| == 32 && p.cfg.crypto.edKeyValid(key)
    requires |sig| == 64 && p.cfg.crypto.edVerify(key, nonce, sig)
    ensures var q := Then(p, Registers(Base64Url.Encode(key), None, Ok(()), user, device));
            && Extends(p, q) && CanSign(q.cfg, Last(q), user, device, nonce, sig) && Last(q).relationships == []
            && Last(q).usedIds == Last(p).usedIds + {user, device}
  {
    hide After, Base64Url.Encode, Base64Url.Decode, FindDevice, DevicesOf, CanLogIn;
    var e := Registers(Base64Url.Encode(key), None, Ok(()), user, device);
    Base64Url.DecodeIffEncode(e.pubkey, key);
    RunKeeps(p, |p.events|);
    AfterFirstSteps(p.cfg, Last(p), e, CreatesRelationship(Malformed, "", [], [], ""));
    RegistrationFiles(p.cfg, Last(p), e.pubkey, None, Ok(()), user, device);
    ThenExtends(p, e);
  }

  /** A user with a token creates the first row. */
  lemma FirstRowRuns(p: Path, c: Claims, topic: string, id: string)
    requires p.IsRun() && Last(p).relationships == [] && Fresh(Last(p), id)
    requires c in Last(p).issued && Last(p).now <= c.exp
    ensures var q := Then(p, CreatesRelationship(Signed(c), "peer", [], [topic], id));
            var row := Relationship(id, c.sub, "peer", [], [topic], Last(p).now);
            && Extends(p, q) && OnlyListing(Last(q), row, topic)
            && Last(q).users == Last(p).users && Last(q).devices == Last(p).devices
  {
    hide After;
    var e := CreatesRelationship(Signed(c), "peer", [], [topic], id);
    var row := Relationship(id, c.sub, "peer", [], [topic], Last(p).now);
    AfterFirstSteps(p.cfg, Last(p), Registers("", None, Ok(()), "", ""), e);
    ThenExtends(p, e);
    assert Last(Then(p, e)).relationships == [row];
    assert row in [row];
  }

  /** From an empty server with open registration, a run that registers a user and lets the
      user log in. */
  lemma FirstLogin(cfg: Config, now: nat, key: seq<byte>, nonce: seq<byte>, sig: seq<byte>) returns (p: Path, c: Claims)
    requires cfg.mode.Open? && |key| == 32 && cfg.crypto.edKeyValid(key)
    requires |sig| == 64 && cfg.crypto.edVerify(key, nonce, sig)
    ensures p.IsRun() && p.cfg == cfg && p.states[0] == Boot(now)
    ensures CanSign(cfg, Last(p), "user", "device", nonce, sig) && Fresh(Last(p), "row")
    ensures c in Last(p).issued && c.sub == "user" && Current(Last(p), c) && Last(p).now <= c.exp
    ensures Last(p).relationships == []
  {
    hide After, Snapshot, CanSign, Extends, Login, Base64Url.Encode;
    var p0 := Path(cfg, [Boot(now)], []);
    RegisterRuns(p0, key, "user", "device", nonce, sig);
    var p1 := Then(p0, Registers(Base64Url.Encode(key), None, Ok(()), "user", "device"));
    ExtendsKeeps(p0, p1);
    LoginRuns(p1, "user", "device", nonce, sig);
    p, c := Login(p1, "user", "device", nonce, sig), Snapshot(cfg, Last(p1), "user", "device");
    ExtendsKeeps(p1, p);
    FreshToken(cfg, Last(p1), "user", "device");
    SignersAreActive(cfg, Last(p1), "user", "device", nonce, sig);
    CanSignStays(cfg, Last(p1), Last(p), "user", "device", nonce, sig);
    AgeLimitIsPast(p1, "user");
    assert "row" != "user" && "row" != "device";
  }

  lemma AgeLimitIsPast(p: Path, user: string)
    requires p.IsRun() && user in Last(p).users
    ensures Last(p).users[user].tokensValidFrom <= Last(p).now
  {
    RunKeeps(p, |p.events|);
  }

  /** The user then creates one row. */
  lemma OneRowRun(cfg: Config, now: nat, key: seq<byte>, nonce: seq<byte>, sig: seq<byte>, topic: string)
      returns (p: Path, row: Relationship)
    requires cfg.mode.Open? && |key| == 32 && cfg.crypto.edKeyValid(key)
    requires |sig| == 64 && cfg.crypto.edVerify(key, nonce, sig)
    ensures p.IsRun() && p.cfg == cfg && p.states[0] == Boot(now)
    ensures OnlyListing(Last(p), row, topic) && CanSign(cfg, Last(p), row.userId, "device", nonce, sig)
  {
    hide After, CanSign, OnlyListing, Extends, Current, Fresh;
    var p1, c := FirstLogin(cfg, now, key, nonce, sig);
    FirstRowRuns(p1, c, topic, "row");
    p := Then(p1, CreatesRelationship(Signed(c), "peer", [], [topic], "row"));
    row := Relationship("row", "user", "peer", [], [topic], Last(p1).now);
    ExtendsKeeps(p1, p);
    CanSignStays(cfg, Last(p1), Last(p), "user", "device", nonce, sig);
  }

  /** So the code does let a topic be granted after its last row was revoked: a run from an
      empty server, for any topic. */
  lemma SameSecondRun(cfg: Config, now: nat, key: seq<byte>, nonce: seq<byte>, sig: seq<byte>, topic: string)
      returns (q: Path, i: nat, user: string)
    requires cfg.mode.Open? && |key| == 32 && cfg.crypto.edKeyValid(key)
    requires |sig| == 64 && cfg.crypto.edVerify(key, nonce, sig)
    ensures q.IsRun() && q.cfg == cfg && q.states[0] == Boot(now) && i + 2 < |q.events|
    ensures RevokedBy(cfg, q.states[i], q.events[i], user) && NeverListed(q, user, topic, i + 1, i + 3)
    ensures GrantedTo(q.states[i + 2], q.events[i + 2], user, topic)
  {
    hide After, CanSign, OnlyListing, Extends, RevokedBy, GrantedTo, NeverListed, Issues;
    var p, row := OneRowRun(cfg, now, key, nonce, sig, topic);
    q := RevocationOutlived(p, "device", nonce, sig, row, topic);
    ExtendsKeeps(p, q);
    i, user := |p.events| + 2, row.userId;
  }
}
