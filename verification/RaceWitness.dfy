/** The windows of a revocation are reached: runs from an empty server that pass through them. */
module RaceWitness {
  import opened Types
  import opened Tables
  import opened Spec
  import opened Machine
  import opened AuthInvariant
  import opened Kicking
  import opened RelationshipTable
  import opened Revocation
  import opened EndToEnd
  import opened Progress
  import opened Boundary
  import opened AuthRace
  import Base64Url

  function End(p: Schedule): (x: Server)
    requires |p.states| == |p.moves| + 1
  {
    p.states[|p.moves|]
  }

  /** A run of the atomic server is one of the split server with no request under way. */
  function Lifted(p: Path): (q: Schedule)
    requires |p.states| == |p.events| + 1
    ensures |q.states| == |q.moves| + 1
  {
    Schedule(p.cfg, seq(|p.states|, i requires 0 <= i < |p.states| => Server(p.states[i], map[], map[])),
                 seq(|p.events|, i requires 0 <= i < |p.events| => Does(p.events[i])))
  }

  lemma LiftedIsRun(p: Path)
    requires p.IsRun()
    ensures Lifted(p).IsRun() && End(Lifted(p)) == Server(Last(p), map[], map[])
  {
    hide After, Allowed;
    var q := Lifted(p);
    forall i: nat | i < |q.moves| ensures q.Steps(i) {
      assert p.Steps(i);
    }
  }

  function Followed(p: Schedule, m: ServerMove): (q: Schedule)
    requires |p.states| == |p.moves| + 1
    ensures |q.states| == |q.moves| + 1
  {
    Schedule(p.cfg, p.states + [AfterMove(p.cfg, End(p), m)], p.moves + [m])
  }

  lemma FollowedIsRun(p: Schedule, m: ServerMove)
    requires p.IsRun() && Enabled(End(p), m)
    ensures Followed(p, m).IsRun() && End(Followed(p, m)) == AfterMove(p.cfg, End(p), m)
  {
    hide AfterMove, Enabled;
    var q := Followed(p, m);
    forall i: nat | i < |q.moves| ensures q.Steps(i) {
      if i < |p.moves| {
        assert p.Steps(i);
      }
    }
  }

  lemma Joined(p: Schedule, q: Schedule) returns (r: Schedule)
    requires p.IsRun() && q.Valid() && q.cfg == p.cfg && q.states[0] == End(p)
    ensures r.IsRun() && r == Schedule(p.cfg, p.states + q.states[1..], p.moves + q.moves)
  {
    hide AfterMove, Enabled;
    r := Schedule(p.cfg, p.states + q.states[1..], p.moves + q.moves);
    var n := |p.moves|;
    assert forall i :: 0 <= i < |q.states| ==> r.states[n + i] == q.states[i];
    forall i: nat | i < |r.moves| ensures r.Steps(i) {
      if i < n {
        assert p.Steps(i);
      } else {
        assert q.Steps(i - n);
      }
    }
  }

  /** Step `i` of the run revokes, and step `k` grants the topic, which no row lists in
      between, on a token of second `iat`. */
  ghost predicate Outlived(q: Schedule, i: nat, k: nat, user: string, topic: string, iat: nat) {
    && q.IsRun() && i < k < |q.moves|
    && q.moves[i].Does? && RevokedBy(q.cfg, q.states[i].s, q.moves[i].e, user)
    && (forall j :: i < j <= k ==> !Lists(q.states[j].s.relationships, user, topic))
    && GrantsOn(q.states[k], q.moves[k], user, topic, iat)
  }

  /** A run, a revocation and a continuation that reaches a grant, joined. */
  lemma JoinOutlived(p: Schedule, e: Event, c: Schedule, j: nat, user: string, topic: string, iat: nat)
      returns (q: Schedule)
    requires p.IsRun() && Allowed(End(p).s, e) && RevokedBy(p.cfg, End(p).s, e, user)
    requires AuthRace.ReachesGrant(p.cfg, AfterMove(p.cfg, End(p), Does(e)), c, j, user, topic, iat)
    ensures Outlived(q, |p.moves|, |p.moves| + 1 + j, user, topic, iat) && q.cfg == p.cfg
    ensures q.states[|p.moves|] == End(p)
  {
    hide AfterMove, Allowed, RevokedBy, Lists, GrantsOn;
    var n := |p.moves|;
    FollowedIsRun(p, Does(e));
    var r := Followed(p, Does(e));
    q := Joined(r, c);
    assert q.moves[n] == Does(e) && q.states[n] == End(p);
    assert forall i :: 0 <= i < |c.states| ==> q.states[n + 1 + i] == c.states[i];
    assert forall i :: n < i <= n + 1 + j ==> q.states[i] == c.states[i - n - 1];
  }

  /** A run that revokes inside a window goes on to a grant. */
  lemma WindowRun(p: Schedule, e: Event, user: string, topic: string, iat: nat) returns (q: Schedule, k: nat)
    requires p.IsRun() && Allowed(End(p).s, e) && RevokedBy(p.cfg, End(p).s, e, user)
    requires topic != NotifyTopic(p.cfg, user) && !Lists(After(p.cfg, End(p).s, e).relationships, user, topic)
    requires Window(End(p), user, topic, iat)
    ensures Outlived(q, |p.moves|, k, user, topic, iat) && q.cfg == p.cfg
    ensures q.states[|p.moves|] == End(p)
  {
    hide After, AfterMove, Allowed, RevokedBy, Lists, NotifyTopic, Window, Outlived, ServerSound, AuthRace.ReachesGrant;
    AuthRace.RunKeeps(p, |p.moves|);
    RevocationRaceIff(p.cfg, End(p), e, user, topic, iat);
    var c: Schedule, j: nat :| AuthRace.ReachesGrant(p.cfg, AfterMove(p.cfg, End(p), Does(e)), c, j, user, topic, iat);
    q := JoinOutlived(p, e, c, j, user, topic, iat);
    k := |p.moves| + 1 + j;
  }

  /** The user's part of the state is that of a run, whatever else is under way. */
  lemma RevokesHere(p: Path, s: State, c: Claims, row: Relationship, topic: string)
    requires p.IsRun() && OnlyListing(Last(p), row, topic) && c in Last(p).issued && c.sub == row.userId
    requires s == Last(p).(now := s.now, challenges := s.challenges) && Last(p).now <= s.now <= c.exp
    ensures var e := Revokes(Signed(c), row.relationshipId);
            && Allowed(s, e) && RevokedBy(p.cfg, s, e, c.sub)
            && !Lists(After(p.cfg, s, e).relationships, c.sub, topic)
  {
    AuthInvariant.RunKeeps(p, |p.events|);
    RunRowsSound(p, |p.events|);
    hide After, Lists, RevokedBy, UniqueRelationshipIds, Owns;
    assert Sound(p.cfg, s) && RowsSound(s);
    hide Sound, RowsSound;
    RevokeOnlyListing(p.cfg, s, c, row, topic);
  }

  lemma GatherSucceeds(cfg: Config, s: State, user: string, device: string, nonce: seq<byte>, sig: seq<byte>)
    requires CanSign(cfg, s, user, device, nonce, sig)
    ensures var asked := AskChallenge(s, user, nonce).state;
            var x := AfterMove(cfg, Server(asked, map[], map[]), Gathers(0, user, device, Base64Url.Encode(sig)));
            x == Server(s.(challenges := x.s.challenges), map[0 := Snapshot(cfg, s, user, device)], map[])
  {
    hide VerifyChecks, RelationshipsOf, Topics, NotifyTopic, Base64Url.Encode;
    var asked := AskChallenge(s, user, nonce).state;
    var key :| CanLogIn(cfg, s, user, device, key) && cfg.crypto.edVerify(key, nonce, sig);
    LoginSucceeds(cfg, s, user, device, key, nonce, sig);
    AtomicVerifyIsGatherThenSign(cfg, Server(asked, map[], map[]), 0, user, device, Base64Url.Encode(sig));
  }

  /** The run goes on by a login that has read the rows and has yet to sign. */
  lemma GatheredRun(p: Path, user: string, device: string, nonce: seq<byte>, sig: seq<byte>) returns (q: Schedule)
    requires p.IsRun() && CanSign(p.cfg, Last(p), user, device, nonce, sig)
    ensures q.IsRun() && q.cfg == p.cfg && q.states[0].s == p.states[0]
    ensures End(q) == Server(Last(p).(challenges := End(q).s.challenges),
                             map[0 := Snapshot(p.cfg, Last(p), user, device)], map[])
  {
    hide After, Allowed, CanSign, AskChallenge, Snapshot;
    var cfg, s, gathers := p.cfg, Last(p), Gathers(0, user, device, Base64Url.Encode(sig));
    AfterLogin(cfg, s, user, nonce, device, Base64Url.Encode(sig));
    AskIsAllowed(s, user, nonce);
    ThenExtends(p, AsksChallenge(user, nonce));
    var p1 := Then(p, AsksChallenge(user, nonce));
    LiftedIsRun(p1);
    GatherSucceeds(cfg, s, user, device, nonce, sig);
    FollowedIsRun(Lifted(p1), gathers);
    q := Followed(Lifted(p1), gathers);
  }

  /** In every run, let a user with a usable token and one row for a topic start logging in. If
      the row is revoked after the login has read it and before it signs, the topic is granted
      on a token of any later second: no age limit on tokens ever catches it. */
  lemma LateSignatureRun(p: Path, device: string, nonce: seq<byte>, sig: seq<byte>, c: Claims, row: Relationship,
                         topic: string, iat: nat) returns (q: Schedule, i: nat, k: nat)
    requires p.IsRun() && CanSign(p.cfg, Last(p), row.userId, device, nonce, sig)
    requires OnlyListing(Last(p), row, topic) && topic != NotifyTopic(p.cfg, row.userId)
    requires c in Last(p).issued && c.sub == row.userId && Last(p).now <= c.exp && Last(p).now <= iat
    ensures Outlived(q, i, k, row.userId, topic, iat) && q.states[i].s.now == Last(p).now
  {
    hide After, Allowed, Lists, NotifyTopic, Outlived, CanSign, RevokedBy, SignedThisSecond, Snapshot;
    var q1 := GatheredRun(p, row.userId, device, nonce, sig);
    FreshToken(p.cfg, Last(p), row.userId, device);
    TokenListsPeer(p.cfg, Last(p), row, device, topic);
    assert Names(End(q1).signing[0], row.userId, topic);
    RevokesHere(p, End(q1).s, c, row, topic);
    q, k := WindowRun(q1, Revokes(Signed(c), row.relationshipId), row.userId, topic, iat);
    i := |q1.moves|;
  }

  lemma AskIsAllowed(s: State, user: string, nonce: seq<byte>)
    ensures Allowed(s, AsksChallenge(user, nonce))
  {
  }

  /** In every run, let a connection with a good token that lists the topic pass its checks. If
      the row is revoked before the connection opens, any time within the token's life, the
      topic is granted on that token, however old. */
  lemma LateOpeningRun(p: Path, c: Claims, row: Relationship, topic: string, delay: nat)
      returns (q: Schedule, i: nat, k: nat)
    requires p.IsRun() && OnlyListing(Last(p), row, topic) && topic != NotifyTopic(p.cfg, row.userId)
    requires c in Last(p).issued && c.sub == row.userId && topic in c.subTopics
    requires Current(Last(p), c) && Last(p).now + delay <= c.exp
    ensures Outlived(q, i, k, row.userId, topic, c.iat) && q.states[i].s.now == Last(p).now + delay
  {
    hide Allowed, Lists, NotifyTopic, Outlived, RevokedBy, SignedThisSecond, AfterAccount, AfterAuth, AfterExchange,
      AfterRelationship, AfterBroker;
    var cfg, s, user := p.cfg, Last(p), row.userId;
    LiftedIsRun(p);
    var checks, wait := Checks(0, c.dev, Some(Signed(c))), Does(Tick(delay));
    assert Authenticate(cfg, s, c.dev, Some(Signed(c))) == Some(c);
    FollowedIsRun(Lifted(p), checks);
    var q1 := Followed(Lifted(p), checks);
    assert End(q1) == Server(s, map[], map[0 := c]);
    TickIsAllowed(s, delay);
    FollowedIsRun(q1, wait);
    var q2 := Followed(q1, wait);
    assert End(q2) == Server(s.(now := s.now + delay), map[], map[0 := c]);
    hide AfterMove, Followed, Lifted, Authenticate, Current, After;
    RevokesHere(p, End(q2).s, c, row, topic);
    q, k := WindowRun(q2, Revokes(Signed(c), row.relationshipId), user, topic, c.iat);
    i := |q2.moves|;
  }

  lemma TickIsAllowed(s: State, delay: nat)
    ensures Allowed(s, Tick(delay))
  {
  }

  // ── Suspension ──────────────────────────────────────────────────────────

  /** The run goes on by suspending the user. */
  lemma SuspendFollows(p: Schedule, user: string) returns (q: Schedule)
    requires p.IsRun() && user in End(p).s.users
    ensures var e := Suspends(p.cfg.adminKey, user, None);
            && q == Followed(p, Does(e)) && q.IsRun() && SuspendedBy(p.cfg, End(p).s, e, user)
            && End(q).s.users.Keys >= {user} && End(q).s.users[user].suspended
            && End(q).s.users[user].tokensValidFrom == End(q).s.now == End(p).s.now
            && End(q).opening == End(p).opening && End(q).signing == End(p).signing
  {
    hide After, AfterMove, Kick, ServerSound;
    var e := Suspends(p.cfg.adminKey, user, None);
    AuthRace.RunKeeps(p, |p.moves|);
    FollowedIsRun(p, Does(e));
    SuspensionLeaves(p.cfg, End(p), e, user);
    q := Followed(p, Does(e));
  }

  /** In every run, let a connection of a user with a good token pass its checks. If the user is
      suspended before it opens, the suspended user is online. */
  lemma SuspendedOnlineRun(p: Path, c: Claims) returns (q: Schedule, i: nat)
    requires p.IsRun() && c in Last(p).issued && Current(Last(p), c) && Last(p).now <= c.exp
    ensures q.IsRun() && q.cfg == p.cfg && q.states[0].s == p.states[0] && |q.moves| == i + 2
    ensures q.moves[i].Does? && SuspendedBy(q.cfg, q.states[i].s, q.moves[i].e, c.sub) && q.moves[i + 1].Opens?
    ensures c.sub in End(q).s.users && End(q).s.users[c.sub].suspended && Online(End(q).s, c.sub)
  {
    hide After, Allowed, SuspendedBy;
    LiftedIsRun(p);
    var checks := Checks(0, c.dev, Some(Signed(c)));
    assert Authenticate(p.cfg, Last(p), c.dev, Some(Signed(c))) == Some(c);
    hide Authenticate, Current;
    FollowedIsRun(Lifted(p), checks);
    var q1 := Followed(Lifted(p), checks);
    assert End(q1) == Server(Last(p), map[], map[0 := c]);
    var q2 := SuspendFollows(q1, c.sub);
    FollowedIsRun(q2, Opens(0));
    q, i := Followed(q2, Opens(0)), |q1.moves|;
    assert End(q).s.live[c.dev] == c;
  }

  lemma UnsuspendedIsAdmitted(cfg: Config, s: State, c: Claims)
    requires c.sub in s.users && s.users[c.sub].tokensValidFrom <= c.iat && s.now <= c.exp
    ensures Authenticate(cfg, Unsuspend(cfg, s, cfg.adminKey, c.sub).state, c.dev, Some(Signed(c))) == Some(c)
  {
  }

  /** The run goes on by lifting the suspension. */
  lemma LiftFollows(p: Schedule, c: Claims) returns (q: Schedule)
    requires p.IsRun() && c in End(p).s.issued && c.sub in End(p).s.users
    requires End(p).s.users[c.sub].tokensValidFrom <= c.iat && End(p).s.now <= c.exp
    ensures var e := Unsuspends(p.cfg.adminKey, c.sub);
            && q == Followed(p, Does(e)) && q.IsRun()
            && Authenticate(p.cfg, End(q).s, c.dev, Some(Signed(c))) == Some(c)
  {
    hide After, Unsuspend, Authenticate;
    var e := Unsuspends(p.cfg.adminKey, c.sub);
    AfterSuspend(p.cfg, End(p).s, c.sub);
    UnsuspendedIsAdmitted(p.cfg, End(p).s, c);
    FollowedIsRun(p, Does(e));
    q := Followed(p, Does(e));
  }

  /** In every run, let a user start logging in. If the user is suspended after the checks and
      before the signature, a token is signed in any later second while the user is suspended,
      and it is good once the suspension is lifted. */
  lemma SignedWhileSuspendedRun(p: Path, user: string, device: string, nonce: seq<byte>, sig: seq<byte>, iat: nat)
      returns (q: Schedule, i: nat, c: Claims)
    requires p.IsRun() && CanSign(p.cfg, Last(p), user, device, nonce, sig) && Last(p).now <= iat
    ensures q.IsRun() && q.cfg == p.cfg && q.states[0].s == p.states[0] && |q.moves| == i + 4
    ensures q.moves[i].Does? && SuspendedBy(q.cfg, q.states[i].s, q.moves[i].e, user)
    ensures q.moves[i + 2].Signs? && SignsFor(q.cfg, q.states[i + 2], q.moves[i + 2], user)
    ensures user in q.states[i + 2].s.users && q.states[i + 2].s.users[user].suspended
    ensures q.moves[i + 3] == Does(Unsuspends(q.cfg.adminKey, user))
    ensures c.sub == user && c.iat == iat && Authenticate(q.cfg, End(q).s, device, Some(Signed(c))) == Some(c)
  {
    hide After, Allowed, SuspendedBy, CanSign, Authenticate;
    var q1 := GatheredRun(p, user, device, nonce, sig);
    SignersAreActive(p.cfg, Last(p), user, device, nonce, sig);
    FreshToken(p.cfg, Last(p), user, device);
    hide Snapshot;
    var q2 := SuspendFollows(q1, user);
    TickIsAllowed(End(q2).s, iat - End(q2).s.now);
    var wait := Does(Tick(iat - End(q2).s.now));
    FollowedIsRun(q2, wait);
    AfterTick(q2.cfg, End(q2).s, iat);
    var q3 := Followed(q2, wait);
    FollowedIsRun(q3, Signs(0));
    var q4 := Followed(q3, Signs(0));
    c := Dated(p.cfg, iat, End(q1).signing[0]);
    q := LiftFollows(q4, c);
    i := |q1.moves|;
  }

  lemma AfterTick(cfg: Config, s: State, now: nat)
    requires s.now <= now
    ensures After(cfg, s, Tick(now - s.now)) == s.(now := now)
  {
    hide AfterAccount, AfterAuth, AfterExchange, AfterRelationship, AfterBroker;
  }

  /** Both happen from an empty server. */
  lemma SuspensionWindowsReached(cfg: Config, now: nat, key: seq<byte>, nonce: seq<byte>, sig: seq<byte>)
      returns (online: Schedule, i: nat, signed: Schedule, k: nat)
    requires cfg.mode.Open? && |key| == 32 && cfg.crypto.edKeyValid(key)
    requires |sig| == 64 && cfg.crypto.edVerify(key, nonce, sig)
    ensures online.IsRun() && online.cfg == cfg && online.states[0].s == Boot(now) && |online.moves| == i + 2
    ensures online.moves[i].Does? && SuspendedBy(cfg, online.states[i].s, online.moves[i].e, "user")
    ensures var s := End(online).s; "user" in s.users && s.users["user"].suspended && Online(s, "user")
    ensures signed.IsRun() && signed.cfg == cfg && signed.states[0].s == Boot(now) && |signed.moves| == k + 4
    ensures signed.moves[k].Does? && SuspendedBy(cfg, signed.states[k].s, signed.moves[k].e, "user")
    ensures var s := signed.states[k + 2].s; "user" in s.users && s.users["user"].suspended
    ensures SignsFor(cfg, signed.states[k + 2], signed.moves[k + 2], "user")
  {
    hide After, AfterMove, CanSign, Current, Fresh, SuspendedBy, Online, SignsFor, Authenticate;
    var p, c := FirstLogin(cfg, now, key, nonce, sig);
    online, i := SuspendedOnlineRun(p, c);
    var token: Claims;
    signed, k, token := SignedWhileSuspendedRun(p, "user", "device", nonce, sig, Last(p).now);
  }
}
