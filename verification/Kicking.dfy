/** What a kick does, and which events kick whom. */
module Kicking {
  import opened Types
  import opened Tables
  import opened Spec
  import opened Machine
  import opened AuthInvariant

  /** Exactly the users in `ends` lose their connections and get their tokens aged. */
  ghost predicate Expels(s: State, r: State, ends: set<string>) {
    && (forall k :: k in r.live <==> k in s.live && s.live[k].sub !in ends)
    && (forall k | k in r.live :: r.live[k] == s.live[k])
    && r.users.Keys == s.users.Keys
    && (forall u | u in s.users && u in ends :: r.users[u] == s.users[u].(tokensValidFrom := s.now))
    && (forall u | u in s.users && u !in ends :: r.users[u] == s.users[u])
  }

  lemma KickExpels(cfg: Config, s: State, user: string)
    requires Sound(cfg, s)
    ensures Expels(s, Kick(s, user), {user})
  {
    KickIsExact(cfg, s, user);
    hide Sound, DeviceIds, DevicesOf;
  }

  lemma TwoKicksExpel(cfg: Config, s: State, a: string, b: string)
    requires Sound(cfg, s)
    ensures Expels(s, Kick(Kick(s, a), b), {a, b})
  {
    KickKeepsSound(cfg, s, a);
    KickExpels(cfg, s, a);
    KickExpels(cfg, Kick(s, a), b);
    KickIsExact(cfg, s, a);
    hide Sound, Kick;
  }

  /** A revocation closes exactly the open connections of the two ends of the deleted row and
      ages the tokens of both, and nobody else's. */
  lemma RevocationKicksBoth(cfg: Config, s: State, auth: Token, id: string)
    requires Sound(cfg, s) && Revoke(cfg, s, auth, id).result.Ok?
    ensures var row := FindRelationship(s.relationships, auth.claims.sub, id).value;
            row.userId == auth.claims.sub && Expels(s, Revoke(cfg, s, auth, id).state, {row.userId, row.peerId})
  {
    hide FindRelationship, DeleteRelationship, Kick, Owns;
    var user := auth.claims.sub;
    var row := FindRelationship(s.relationships, user, id).value;
    var deleted := s.(relationships := DeleteRelationship(s.relationships, user, id));
    assert Sound(cfg, deleted);
    hide Sound;
    TwoKicksExpel(cfg, deleted, user, row.peerId);
  }

  /** The step is a request with the administrator's key to suspend an existing `user`. */
  predicate SuspendedBy(cfg: Config, s: State, e: Event, user: string) {
    e.Suspends? && e.user == user && e.adminKey == cfg.adminKey && user in s.users
  }

  /** The step kicks the user: a suspension of the user, or a revocation of a row with the user
      at either end. */
  ghost predicate Kicks(cfg: Config, s: State, e: Event, user: string) {
    || SuspendedBy(cfg, s, e, user)
    || (e.Revokes? && Revoke(cfg, s, e.auth, e.id).result.Ok? && user in EndsOf(s, e.auth.claims.sub, e.id))
  }

  /** The two ends of the row. */
  function EndsOf(s: State, user: string, id: string): (ends: set<string>) {
    match FindRelationship(s.relationships, user, id)
    case None => {}
    case Some(row) => {row.userId, row.peerId}
  }

  lemma SuspendAges(cfg: Config, s: State, e: Event, user: string)
    requires e.Suspends? && user in s.users
    ensures var r := Suspend(cfg, s, e.adminKey, e.user, e.reason).state;
            && user in r.users
            && r.users[user].tokensValidFrom
               == if SuspendedBy(cfg, s, e, user) then s.now else s.users[user].tokensValidFrom
  {
    hide Kick;
  }

  lemma AccountAges(cfg: Config, s: State, e: Event, user: string)
    requires IsAccount(e) && Allowed(s, e) && UsersSound(s) && user in s.users
    ensures var r := AfterAccount(cfg, s, e);
            && user in r.users
            && r.users[user].tokensValidFrom
               == if SuspendedBy(cfg, s, e, user) then s.now else s.users[user].tokensValidFrom
  {
    hide RegistrationPolicy, DecodeKey, Suspend;
    if e.Suspends? {
      SuspendAges(cfg, s, e, user);
    }
  }

  lemma RevokeAges(cfg: Config, s: State, e: Event, user: string)
    requires IsRelationship(e) && Sound(cfg, s) && user in s.users
    ensures var r := AfterRelationship(cfg, s, e);
            && user in r.users
            && r.users[user].tokensValidFrom == if Kicks(cfg, s, e, user) then s.now else s.users[user].tokensValidFrom
  {
    hide Kick, FindRelationship, DeleteRelationship, Sound;
    if e.Revokes? && Revoke(cfg, s, e.auth, e.id).result.Ok? {
      RevocationKicksBoth(cfg, s, e.auth, e.id);
    }
  }

  /** A kick sets the user's age limit to the present second; nothing else changes it. */
  lemma ValidFromExact(cfg: Config, s: State, e: Event, user: string)
    requires Allowed(s, e) && Sound(cfg, s) && user in s.users
    ensures var r := After(cfg, s, e);
            && user in r.users
            && r.users[user].tokensValidFrom == if Kicks(cfg, s, e, user) then s.now else s.users[user].tokensValidFrom
  {
    hide AfterAccount, AfterAuth, AfterExchange, AfterRelationship, AfterBroker, Suspend, Revoke, EndsOf;
    if IsAccount(e) {
      AccountAges(cfg, s, e, user);
    } else if IsRelationship(e) {
      RevokeAges(cfg, s, e, user);
    }
  }

  /** Whatever is open afterwards was open before, as the same connection. */
  ghost predicate OnlyCloses(s: State, r: State) {
    forall k | k in r.live :: k in s.live && r.live[k] == s.live[k]
  }

  lemma KickOnlyCloses(s: State, user: string)
    ensures OnlyCloses(s, Kick(s, user))
  {
    hide DeviceIds, DevicesOf;
  }

  lemma AccountOnlyCloses(cfg: Config, s: State, e: Event)
    requires IsAccount(e)
    ensures OnlyCloses(s, AfterAccount(cfg, s, e))
  {
    hide Register, Kick;
    if e.Suspends? {
      KickOnlyCloses(SetSuspended(s, e.user, true, e.reason).state, e.user);
    }
  }

  lemma RelationshipOnlyCloses(cfg: Config, s: State, e: Event)
    requires IsRelationship(e)
    ensures OnlyCloses(s, AfterRelationship(cfg, s, e))
  {
    hide Kick, FindRelationship, DeleteRelationship;
    if e.Revokes? && Revoke(cfg, s, e.auth, e.id).result.Ok? {
      var user := e.auth.claims.sub;
      var deleted := s.(relationships := DeleteRelationship(s.relationships, user, e.id));
      KickOnlyCloses(deleted, user);
      KickOnlyCloses(Kick(deleted, user), FindRelationship(s.relationships, user, e.id).value.peerId);
    }
  }

  /** The connection was open before, or has just been admitted. */
  ghost predicate OldOrAdmitted(cfg: Config, s: State, e: Event, r: State, k: string)
    requires k in r.live
  {
    || (k in s.live && r.live[k] == s.live[k])
    || (e.Connects? && Authenticate(cfg, s, e.clientId, e.password) == Some(r.live[k]))
  }

  lemma BrokerLiveStep(cfg: Config, s: State, e: Event, k: string)
    requires IsBroker(e) && k in AfterBroker(cfg, s, e).live
    ensures OldOrAdmitted(cfg, s, e, AfterBroker(cfg, s, e), k)
  {
    hide Authenticate;
  }

  lemma LiveStep(cfg: Config, s: State, e: Event, k: string)
    requires k in After(cfg, s, e).live
    ensures OldOrAdmitted(cfg, s, e, After(cfg, s, e), k)
  {
    hide AfterAccount, AfterAuth, AfterExchange, AfterRelationship, AfterBroker, Authenticate;
    if IsAccount(e) {
      AccountOnlyCloses(cfg, s, e);
    } else if IsRelationship(e) {
      RelationshipOnlyCloses(cfg, s, e);
    } else if IsBroker(e) {
      BrokerLiveStep(cfg, s, e, k);
    }
  }
}
