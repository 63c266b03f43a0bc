/** A revocation cut short: the process restarts after the row is deleted and before both ends
    are kicked. */
module Interrupted {
  import opened Types
  import opened Tables
  import opened Spec
  import opened Machine
  import opened AuthInvariant
  import opened Kicking
  import opened Revocation
  import opened RelationshipTable
  import opened Progress
  import opened Boundary

  /** The row is gone and the first `kicks` of the two kicks are done. */
  function Cut(cfg: Config, s: State, auth: Token, id: string, kicks: nat): (r: State)
    requires Revoke(cfg, s, auth, id).result.Ok?
  {
    var user := auth.claims.sub;
    var deleted := s.(relationships := DeleteRelationship(s.relationships, user, id));
    Kicked(deleted, user, FindRelationship(s.relationships, user, id).value.peerId, kicks)
  }

  function Kicked(s: State, user: string, peer: string, kicks: nat): (r: State)
    ensures r == s.(users := r.users, live := r.live, closing := r.closing)
  {
    if kicks == 0 then s else if kicks == 1 then Kick(s, user) else Kick(Kick(s, user), peer)
  }

  /** With both kicks done it is the whole revocation. */
  lemma UncutIsRevoke(cfg: Config, s: State, auth: Token, id: string)
    requires Revoke(cfg, s, auth, id).result.Ok?
    ensures Cut(cfg, s, auth, id, 2) == Revoke(cfg, s, auth, id).state
  {
    hide Kick, FindRelationship, DeleteRelationship;
  }

  /** The age limit on the user's tokens at the restart. */
  function AgeLimit(s: State, user: string, kicks: nat): (limit: nat)
    requires user in s.users
  {
    if kicks == 0 then s.users[user].tokensValidFrom else s.now
  }

  lemma RestartMakesCurrent(cfg: Config, s: State)
    requires Sound(cfg, s)
    ensures Inv(cfg, Restart(s))
  {
    hide Owns;
  }

  lemma RowsDoNotMatter(cfg: Config, s: State, rows: seq<Relationship>)
    requires Sound(cfg, s)
    ensures Sound(cfg, s.(relationships := rows))
  {
    hide Owns;
  }

  lemma KickedLeaves(cfg: Config, s: State, user: string, peer: string, kicks: nat)
    requires Sound(cfg, s) && user in s.users
    ensures var r := Kicked(s, user, peer, kicks);
            Sound(cfg, r) && user in r.users && r.users[user].tokensValidFrom == AgeLimit(s, user, kicks)
  {
    hide Kick, Sound;
    if kicks > 0 {
      KickKeepsSound(cfg, s, user);
      KickExpels(cfg, s, user);
    }
    if kicks > 1 {
      KickKeepsSound(cfg, Kick(s, user), peer);
      KickExpels(cfg, Kick(s, user), peer);
    }
  }

  /** What the restart finds. */
  lemma CutLeaves(cfg: Config, s: State, auth: Token, id: string, kicks: nat)
    requires Sound(cfg, s) && Genuine(s, auth) && Revoke(cfg, s, auth, id).result.Ok?
    ensures var user, r := auth.claims.sub, Restart(Cut(cfg, s, auth, id, kicks));
            && Inv(cfg, r) && r.live == map[] && r.now == s.now && r.issued == s.issued
            && r.relationships == DeleteRelationship(s.relationships, user, id)
            && user in s.users && user in r.users && r.users[user].tokensValidFrom == AgeLimit(s, user, kicks)
  {
    var user := auth.claims.sub;
    assert user in s.users;
    hide Kick, FindRelationship, DeleteRelationship, Revoke, Sound, Inv, Kicked;
    var deleted := s.(relationships := DeleteRelationship(s.relationships, user, id));
    RowsDoNotMatter(cfg, s, deleted.relationships);
    KickedLeaves(cfg, deleted, user, FindRelationship(s.relationships, user, id).value.peerId, kicks);
    RestartMakesCurrent(cfg, Cut(cfg, s, auth, id, kicks));
  }

  /** Connections opened since a moment without any rest on tokens not expired at that moment. */
  lemma {:induction false} LiveUnexpired(p: Path, k: nat, clientId: string)
    requires p.Valid() && p.states[0].live == map[] && k < |p.states| && clientId in p.states[k].live
    ensures p.states[0].now <= p.states[k].live[clientId].exp + p.cfg.jwtLeeway
  {
    hide After, Allowed, Authenticate;
    assert k > 0;
    var s, e := p.states[k - 1], p.events[k - 1];
    assert p.Steps(k - 1);
    LiveStep(p.cfg, s, e, clientId);
    if clientId in s.live && p.states[k].live[clientId] == s.live[clientId] {
      LiveUnexpired(p, k - 1, clientId);
    } else {
      ClockNeverGoesBack(p, 0, k - 1);
      AdmittedIsUnexpired(p.cfg, s, e.clientId, e.password);
    }
  }

  lemma AdmittedIsUnexpired(cfg: Config, s: State, clientId: string, password: Option<Token>)
    ensures var a := Authenticate(cfg, s, clientId, password); a.Some? ==> s.now <= a.value.exp + cfg.jwtLeeway
  {
  }

  /** Some signed token lists the topic for the user, passes the age limit and is unexpired. */
  ghost predicate GoodToken(cfg: Config, s: State, user: string, topic: string, limit: nat) {
    exists c :: c in s.issued && c.sub == user && topic in c.subTopics && limit <= c.iat && s.now <= c.exp + cfg.jwtLeeway
  }

  /** With no connection open and no row listing the topic, some continuation without a new row
      grants it if and only if a good token lists it. */
  lemma OfflineGrantIff(cfg: Config, s: State, user: string, topic: string)
    requires Inv(cfg, s) && s.live == map[] && user in s.users
    requires topic != NotifyTopic(cfg, user) && !Lists(s.relationships, user, topic)
    ensures GrantedAgain(cfg, s, user, topic) <==> GoodToken(cfg, s, user, topic, s.users[user].tokensValidFrom)
  {
    hide Lists, NotifyTopic, Inv;
    var limit := s.users[user].tokensValidFrom;
    if GoodToken(cfg, s, user, topic, limit) {
      var c :| c in s.issued && c.sub == user && topic in c.subTopics && limit <= c.iat && s.now <= c.exp + cfg.jwtLeeway;
      var p, k := TokenReachesGrant(cfg, s, c, topic);
      assert ReachesGrant(cfg, s, p, k, user, topic);
    }
    if GrantedAgain(cfg, s, user, topic) {
      var p: Path, k: nat :| ReachesGrant(cfg, s, p, k, user, topic);
      GrantIsGood(p, k, user, topic, s.issued);
    }
  }

  /** Exactly what an interrupted revocation leaves open: some continuation without a new row
      grants the topic if and only if some unexpired token lists it and is not older than the
      age limit, which is the present second if the caller was kicked and the old limit, hence
      no bar to any current token, if not. */
  lemma InterruptedIff(cfg: Config, s: State, auth: Token, id: string, kicks: nat, topic: string)
    requires Inv(cfg, s) && Genuine(s, auth) && Revoke(cfg, s, auth, id).result.Ok?
    requires auth.claims.sub in s.users && topic != NotifyTopic(cfg, auth.claims.sub)
    requires !Lists(DeleteRelationship(s.relationships, auth.claims.sub, id), auth.claims.sub, topic)
    ensures var user := auth.claims.sub;
            GrantedAgain(cfg, Restart(Cut(cfg, s, auth, id, kicks)), user, topic)
            <==> GoodToken(cfg, s, user, topic, AgeLimit(s, user, kicks))
  {
    assert auth.Signed?;
    hide Cut, Revoke, Lists, NotifyTopic, Restart, Sound, LiveCurrent, DeleteRelationship, AgeLimit, GrantedAgain;
    CutLeaves(cfg, s, auth, id, kicks);
    OfflineGrantIff(cfg, Restart(Cut(cfg, s, auth, id, kicks)), auth.claims.sub, topic);
  }

  lemma GrantIsGood(p: Path, k: nat, user: string, topic: string, issued: set<Claims>)
    requires p.Valid() && Inv(p.cfg, p.states[0]) && p.states[0].live == map[] && p.states[0].issued == issued
    requires user in p.states[0].users && topic != NotifyTopic(p.cfg, user) && k < |p.events|
    requires NeverListed(p, user, topic, 0, k + 1) && GrantedTo(p.states[k], p.events[k], user, topic)
    ensures var c, limit := p.states[k].sessions[p.events[k].clientId], p.states[0].users[user].tokensValidFrom;
            && c in issued && c.sub == user && topic in c.subTopics && limit <= c.iat
            && p.states[0].now <= c.exp + p.cfg.jwtLeeway
  {
    hide After, Allowed, Lists, NotifyTopic, TokensSound, SessionsSound, DevicesSound;
    var limit := p.states[0].users[user].tokensValidFrom;
    assert Sealed(p.states[0], user, topic, limit, issued);
    SealedAlong(p, k, user, topic, limit, issued);
    PathKeeps(p, k);
    GrantRestsOnToken(p.cfg, p.states[k], p.events[k], user, topic);
    LiveUnexpired(p, k, p.events[k].clientId);
  }

  /** So in every run, a user who holds a current token listing a topic, of whatever age, keeps
      the topic when the revocation of its only row is cut short before the kicks. */
  lemma RevocationLost(p: Path, c: Claims, row: Relationship, topic: string)
    requires p.IsRun() && OnlyListing(Last(p), row, topic) && topic != NotifyTopic(p.cfg, row.userId)
    requires c in Last(p).issued && c.sub == row.userId && topic in c.subTopics
    requires Current(Last(p), c) && Last(p).now <= c.exp
    ensures Revoke(p.cfg, Last(p), Signed(c), row.relationshipId).result.Ok?
    ensures var r := Restart(Cut(p.cfg, Last(p), Signed(c), row.relationshipId, 0));
            && !Lists(r.relationships, row.userId, topic)
            && GrantedAgain(p.cfg, r, row.userId, topic)
  {
    hide After, Lists, NotifyTopic, DeleteRelationship, Kick, Owns, GrantedAgain, UniqueRelationshipIds;
    var cfg, s, auth, id := p.cfg, Last(p), Signed(c), row.relationshipId;
    AuthInvariant.RunKeeps(p, |p.events|);
    RunRowsSound(p, |p.events|);
    RevokeOnlyListing(cfg, s, c, row, topic);
    AfterRevoke(cfg, s, Revokes(auth, id));
    RevokeDeletes(cfg, s, auth, id);
    assert GoodToken(cfg, s, row.userId, topic, AgeLimit(s, row.userId, 0));
    InterruptedIff(cfg, s, auth, id, 0, topic);
  }
}
