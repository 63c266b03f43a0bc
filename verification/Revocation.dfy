/** Tokens are snapshots of the relationship table. This module shows when a snapshot stops
    being usable after the table has changed. */
module Revocation {
  import opened Types
  import opened Tables
  import opened Spec
  import opened Machine
  import opened AuthInvariant
  import opened Kicking

  // ── Staleness ───────────────────────────────────────────────────────────

  /** The user stays, and the earliest accepted time of issue does not drop. */
  ghost predicate NotLowered(s: State, r: State, user: string)
    requires user in s.users
  {
    user in r.users && s.users[user].tokensValidFrom <= r.users[user].tokensValidFrom
  }

  /** No step lowers a user's earliest accepted time of issue or removes the user. */
  lemma ValidFromStep(cfg: Config, s: State, e: Event, user: string)
    requires Allowed(s, e) && Sound(cfg, s) && user in s.users
    ensures NotLowered(s, After(cfg, s, e), user)
  {
    hide After, Allowed, Kicks;
    ValidFromExact(cfg, s, e, user);
  }

  lemma {:induction false} ValidFromNeverDecreases(p: Path, i: nat, k: nat, user: string)
    requires p.Valid() && Inv(p.cfg, p.states[0]) && i <= k < |p.states| && user in p.states[i].users
    ensures NotLowered(p.states[i], p.states[k], user)
  {
    hide After;
    if i < k {
      ValidFromNeverDecreases(p, i, k - 1, user);
      PathKeeps(p, k - 1);
      assert p.Steps(k - 1);
      ValidFromStep(p.cfg, p.states[k - 1], p.events[k - 1], user);
    }
  }

  /** A token once too old for a connect is too old for every later connect. */
  lemma StalenessIsPermanent(p: Path, i: nat, k: nat, c: Claims, clientId: string)
    requires p.IsRun() && i <= k < |p.states|
    requires c.sub in p.states[i].users && c.iat < p.states[i].users[c.sub].tokensValidFrom
    ensures Authenticate(p.cfg, p.states[k], clientId, Some(Signed(c))) == None
  {
    ValidFromNeverDecreases(p, i, k, c.sub);
  }

  // ── Issue ───────────────────────────────────────────────────────────────

  /** The step answers a verification with a freshly signed token. */
  ghost predicate Issues(cfg: Config, s: State, e: Event)
    ensures Issues(cfg, s, e) ==> e.Verifies?
  {
    e.Verifies? && Verify(cfg, s, e.user, e.device, e.signature).result.Ok?
  }

  /** Tokens come from verifications only, and are snapshots of the table at that moment. */
  lemma IssuedStep(cfg: Config, s: State, e: Event)
    ensures var r := After(cfg, s, e);
            r.issued == if Issues(cfg, s, e) then s.issued + {Snapshot(cfg, s, e.user, e.device)} else s.issued
  {
    hide AfterAccount, AfterExchange, AfterRelationship, AfterBroker, VerifyChecks, Snapshot;
  }

  /** A snapshot lists a topic exactly when some current row does or, for subscription, it is
      the user's own notification topic, as often as the rows together; it names the device and
      the present second. */
  lemma SnapshotIsTable(cfg: Config, s: State, user: string, device: string, topic: string)
    ensures var c := Snapshot(cfg, s, user, device);
            && (topic in c.subTopics <==> Lists(s.relationships, user, topic) || topic == NotifyTopic(cfg, user))
            && (topic in c.pubTopics <==> ListsFor(s.relationships, user, topic, Publish))
            && multiset(c.subTopics) == Aggregate(s.relationships, user, Subscribe) + multiset{NotifyTopic(cfg, user)}
            && multiset(c.pubTopics) == Aggregate(s.relationships, user, Publish)
            && c.sub == user && c.dev == device && c.iat == s.now
  {
    AggregateIsLists(s.relationships, user, topic, Subscribe);
    AggregateIsLists(s.relationships, user, topic, Publish);
  }

  // ── Revocation ──────────────────────────────────────────────────────────

  /** Only tokens of `earlier` list the topic for the user, and older ones are refused. */
  ghost predicate Sealed(s: State, user: string, topic: string, since: nat, earlier: set<Claims>) {
    && user in s.users
    && since <= s.users[user].tokensValidFrom
    && forall c | c in s.issued && c.sub == user && topic in c.subTopics :: c in earlier
  }

  lemma SealedStep(cfg: Config, s: State, e: Event, user: string, topic: string, since: nat, earlier: set<Claims>)
    requires Allowed(s, e) && Inv(cfg, s) && Sealed(s, user, topic, since, earlier)
    requires topic != NotifyTopic(cfg, user) && !Lists(s.relationships, user, topic)
    ensures Sealed(After(cfg, s, e), user, topic, since, earlier)
  {
    hide After, Lists, Issues, NotifyTopic;
    ValidFromStep(cfg, s, e, user);
    IssuedStep(cfg, s, e);
    if Issues(cfg, s, e) {
      SnapshotIsTable(cfg, s, e.user, e.device, topic);
      assert Snapshot(cfg, s, e.user, e.device).sub == e.user;
    }
  }

  /** The path never gives the user a row for the topic again. */
  ghost predicate NeverListed(p: Path, user: string, topic: string, from: nat, to: nat)
    requires to <= |p.states|
  {
    forall j :: from <= j < to ==> !Lists(p.states[j].relationships, user, topic)
  }

  lemma {:induction false} SealedAlong(p: Path, k: nat, user: string, topic: string, since: nat, earlier: set<Claims>)
    requires p.Valid() && k < |p.states| && Inv(p.cfg, p.states[0])
    requires Sealed(p.states[0], user, topic, since, earlier)
    requires topic != NotifyTopic(p.cfg, user) && NeverListed(p, user, topic, 0, k)
    ensures Sealed(p.states[k], user, topic, since, earlier)
  {
    hide After, Inv, Allowed, Sealed, Lists, NotifyTopic;
    if k > 0 {
      SealedAlong(p, k - 1, user, topic, since, earlier);
      PathKeeps(p, k - 1);
      assert p.Steps(k - 1);
      SealedStep(p.cfg, p.states[k - 1], p.events[k - 1], user, topic, since, earlier);
    }
  }

  /** The step is a successful revocation by `user`. */
  ghost predicate RevokedBy(cfg: Config, s: State, e: Event, user: string) {
    e.Revokes? && Revoke(cfg, s, e.auth, e.id).result.Ok? && AuthUser(cfg, s.now, e.auth) == Ok(user)
  }

  /** A revocation seals off every topic, with the tokens signed so far as the old ones. */
  lemma RevocationSeals(cfg: Config, s: State, e: Event, user: string, topic: string)
    requires Allowed(s, e) && Sound(cfg, s) && RevokedBy(cfg, s, e, user)
    ensures Sealed(After(cfg, s, e), user, topic, s.now, s.issued)
    ensures After(cfg, s, e).now == s.now
  {
    hide AfterAccount, AfterAuth, AfterExchange, AfterBroker, Kick, FindRelationship, DeleteRelationship;
    var r := After(cfg, s, e);
    assert user in s.users;
    assert r.issued == s.issued && r.now == s.now;
  }

  /** After a revocation the peer, too, is never admitted with a token older than it. */
  lemma RevocationReachesPeer(p: Path, i: nat, k: nat, c: Claims, clientId: string)
    requires p.IsRun() && i < k < |p.states| && p.events[i].Revokes?
    requires Revoke(p.cfg, p.states[i], p.events[i].auth, p.events[i].id).result.Ok?
    requires var e := p.events[i];
             c.sub == FindRelationship(p.states[i].relationships, e.auth.claims.sub, e.id).value.peerId
    requires c in p.states[i].issued && c.iat < p.states[i].now
    ensures Authenticate(p.cfg, p.states[k], clientId, Some(Signed(c))) == None
  {
    hide Revoke, FindRelationship, Allowed, Authenticate;
    var s, e := p.states[i], p.events[i];
    RunKeeps(p, i);
    RevocationKicksBoth(p.cfg, s, e.auth, e.id);
    assert p.Steps(i);
    AfterRevoke(p.cfg, s, e);
    StalenessIsPermanent(p, i + 1, k, c, clientId);
  }

  lemma AfterRevoke(cfg: Config, s: State, e: Event)
    requires e.Revokes?
    ensures After(cfg, s, e) == Revoke(cfg, s, e.auth, e.id).state
  {
    hide Revoke;
  }

  /** The step is a subscription to `topic` granted to a connection of `user`. */
  ghost predicate GrantedTo(s: State, e: Event, user: string, topic: string) {
    && e.Subscribes? && e.topic == topic
    && e.clientId in s.live && s.live[e.clientId].sub == user
    && Granted(s, e.clientId, topic)
  }

  /** A granted subscription rests on a signed token that is neither stale nor of a
      suspended user. */
  lemma GrantRestsOnToken(cfg: Config, s: State, e: Event, user: string, topic: string)
    requires Inv(cfg, s) && GrantedTo(s, e, user, topic)
    ensures var c := s.sessions[e.clientId];
            c in s.issued && c.sub == user && c.dev == e.clientId && topic in c.subTopics && Current(s, c)
  {
  }

  lemma {:induction false} SuffixPath(p: Path, i: nat) returns (q: Path)
    requires p.Valid() && i < |p.states|
    ensures q.Valid() && q == Path(p.cfg, p.states[i..], p.events[i..])
  {
    hide After, Allowed;
    q := Path(p.cfg, p.states[i..], p.events[i..]);
    forall j: nat | j < |q.events| ensures q.Steps(j) {
      assert p.Steps(i + j);
    }
  }

  /** After `user` revokes, at second T, the last row that lists a topic, and while no row
      restores it: a later grant of the topic to that user rests on a token issued in second
      T itself and before the revocation; older tokens are never admitted again; later
      tokens never list the topic. */
  lemma RevocationSafety(p: Path, i: nat, k: nat, user: string, topic: string)
    requires p.IsRun() && i < k < |p.events|
    requires RevokedBy(p.cfg, p.states[i], p.events[i], user)
    requires topic != NotifyTopic(p.cfg, user) && NeverListed(p, user, topic, i + 1, k + 1)
    ensures var at, s, e := p.states[i], p.states[k], p.events[k];
            && (GrantedTo(s, e, user, topic) ==>
                  s.sessions[e.clientId].iat == at.now && s.sessions[e.clientId] in at.issued)
            && (forall c: Claims, clientId | c.sub == user && c.iat < at.now ::
                  Authenticate(p.cfg, s, clientId, Some(Signed(c))) == None)
            && (Issues(p.cfg, s, e) && e.user == user ==>
                  topic !in Snapshot(p.cfg, s, e.user, e.device).subTopics)
  {
    hide After, Allowed, Lists, NotifyTopic, RevokedBy, Issues, Snapshot;
    var at, s, e := p.states[i], p.states[k], p.events[k];
    RunKeeps(p, i);
    RunKeeps(p, k);
    assert p.Steps(i);
    RevocationSeals(p.cfg, at, p.events[i], user, topic);
    RunKeeps(p, i + 1);
    var q := SuffixPath(p, i + 1);
    assert forall j :: 0 <= j < |q.states| ==> q.states[j] == p.states[i + 1 + j];
    SealedAlong(q, k - i - 1, user, topic, at.now, at.issued);
    assert Sealed(s, user, topic, at.now, at.issued);
    if GrantedTo(s, e, user, topic) {
      GrantRestsOnToken(p.cfg, s, e, user, topic);
    }
    if Issues(p.cfg, s, e) && e.user == user {
      SnapshotIsTable(p.cfg, s, e.user, e.device, topic);
    }
  }

  // ── Exactly when revocation is complete ─────────────────────────────────

  /** A token signed in the current second lists the topic for the user. */
  ghost predicate SignedThisSecond(s: State, user: string, topic: string) {
    exists c :: c in s.issued && c.sub == user && topic in c.subTopics && c.iat == s.now
  }

  /** Some continuation without a new row grants the topic to the user once more. */
  ghost predicate GrantedAgain(cfg: Config, s: State, user: string, topic: string) {
    exists p: Path, k: nat :: ReachesGrant(cfg, s, p, k, user, topic)
  }

  ghost predicate ReachesGrant(cfg: Config, s: State, p: Path, k: nat, user: string, topic: string) {
    && p.Valid() && p.cfg == cfg && p.states[0] == s
    && k < |p.events|
    && NeverListed(p, user, topic, 0, k + 1)
    && GrantedTo(p.states[k], p.events[k], user, topic)
  }

  /** Once unsuspended, the user of a token that is neither stale nor expired is admitted
      and granted what the token lists. */
  lemma AdmittedAfterUnsuspend(cfg: Config, s: State, c: Claims, topic: string)
    requires c.sub in s.users && s.users[c.sub].tokensValidFrom <= c.iat && s.now <= c.exp + cfg.jwtLeeway
    requires topic in c.subTopics
    ensures var s1 := Unsuspend(cfg, s, cfg.adminKey, c.sub).state;
            var s2 := Connect(cfg, s1, c.dev, Some(Signed(c)));
            && c.dev in s2.live && s2.live[c.dev] == c && Granted(s2, c.dev, topic) && s2.sessions[c.dev] == c
            && s1.issued == s.issued
            && s1.relationships == s.relationships == s2.relationships
  {
  }

  /** Unsuspend if needed, connect with the token, subscribe. */
  lemma TokenReachesGrant(cfg: Config, s: State, c: Claims, topic: string) returns (p: Path, k: nat)
    requires c.sub in s.users && c in s.issued && topic in c.subTopics
    requires s.users[c.sub].tokensValidFrom <= c.iat && s.now <= c.exp + cfg.jwtLeeway
    requires !Lists(s.relationships, c.sub, topic)
    ensures ReachesGrant(cfg, s, p, k, c.sub, topic)
  {
    hide After, Lists, Unsuspend, Connect;
    var unsuspend := Unsuspends(cfg.adminKey, c.sub);
    var connect := Connects(c.dev, Some(Signed(c)));
    var subscribe := Subscribes(c.dev, topic);
    var s1 := Unsuspend(cfg, s, cfg.adminKey, c.sub).state;
    var s2 := Connect(cfg, s1, c.dev, Some(Signed(c)));
    AfterThese(cfg, s, s1, s2, unsuspend, connect, subscribe);
    AdmittedAfterUnsuspend(cfg, s, c, topic);
    p := Path(cfg, [s, s1, s2, s2], [unsuspend, connect, subscribe]);
    k := 2;
    assert p.Steps(0) && p.Steps(1) && p.Steps(2);
  }

  lemma AfterThese(cfg: Config, s: State, s1: State, s2: State, unsuspend: Event, connect: Event, subscribe: Event)
    requires unsuspend.Unsuspends? && connect.Connects? && subscribe.Subscribes?
    ensures After(cfg, s, unsuspend) == Unsuspend(cfg, s, unsuspend.adminKey, unsuspend.user).state
    ensures After(cfg, s1, connect) == Connect(cfg, s1, connect.clientId, connect.password)
    ensures After(cfg, s2, subscribe) == s2
  {
    hide Unsuspend, Connect;
  }

  /** Revoking the last row for a topic ends the user's access to it for good if and only if
      no token listing it was signed for that user in the very second of the revocation. */
  lemma RevocationIsFinalIff(cfg: Config, s: State, e: Event, user: string, topic: string)
    requires Inv(cfg, s) && Allowed(s, e) && RevokedBy(cfg, s, e, user)
    requires topic != NotifyTopic(cfg, user)
    requires !Lists(After(cfg, s, e).relationships, user, topic)
    ensures GrantedAgain(cfg, After(cfg, s, e), user, topic) <==> SignedThisSecond(s, user, topic)
  {
    hide After, Allowed, Lists, NotifyTopic, RevokedBy;
    var r := After(cfg, s, e);
    StepKeeps(cfg, s, e);
    RevocationSeals(cfg, s, e, user, topic);
    IssuedStep(cfg, s, e);
    if SignedThisSecond(s, user, topic) {
      var c :| c in s.issued && c.sub == user && topic in c.subTopics && c.iat == s.now;
      var p, k := TokenReachesGrant(cfg, r, c, topic);
      assert ReachesGrant(cfg, r, p, k, user, topic);
    }
    if GrantedAgain(cfg, r, user, topic) {
      var p: Path, k: nat :| ReachesGrant(cfg, r, p, k, user, topic);
      SealedAlong(p, k, user, topic, s.now, s.issued);
      PathKeeps(p, k);
      GrantRestsOnToken(cfg, p.states[k], p.events[k], user, topic);
      var c := p.states[k].sessions[p.events[k].clientId];
      assert c in s.issued && c.iat <= s.now <= c.iat;
    }
  }
}
