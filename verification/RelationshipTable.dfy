/** The relationship table along runs: ids stay unique, so a revocation removes one row and
    takes exactly that row's topics from its owner and nothing from anyone else. */
module RelationshipTable {
  import opened Types
  import opened Tables
  import opened Spec
  import opened Machine
  import opened Replies

  ghost predicate RowsSound(s: State) {
    && UniqueRelationshipIds(s.relationships)
    && forall x | x in s.relationships :: x.relationshipId in s.usedIds
  }

  lemma CreateKeepsRows(cfg: Config, s: State, auth: Token, peer: string, pubs: seq<string>,
                        subs: seq<string>, id: string)
    requires RowsSound(s) && Fresh(s, id)
    ensures RowsSound(CreateRelationship(cfg, s, auth, peer, pubs, subs, id).state)
  {
    var r := CreateRelationship(cfg, s, auth, peer, pubs, subs, id).state;
    if r != s {
      assert r.relationships == s.relationships + [r.relationships[|s.relationships|]];
      forall i | 0 <= i < |s.relationships|
        ensures s.relationships[i].relationshipId != id
      {
        assert s.relationships[i] in s.relationships;
      }
    }
  }

  /** A revocation succeeds exactly for a genuine caller who owns a row of that id, and then
      deletes by id. */
  lemma RevokeDeletes(cfg: Config, s: State, auth: Token, id: string)
    ensures var o := Revoke(cfg, s, auth, id);
            && o.state.usedIds == s.usedIds
            && (o.result.Err? ==> o.state == s)
            && (o.result.Ok? <==> AuthUser(cfg, s.now, auth).Ok? && FindRelationship(s.relationships, auth.claims.sub, id).Some?)
            && (o.result.Ok? ==> o.state.relationships == DeleteRelationship(s.relationships, auth.claims.sub, id))
  {
    hide Kick, FindRelationship, DeleteRelationship;
  }

  lemma RelationshipKeepsRows(cfg: Config, s: State, e: Event)
    requires IsRelationship(e) && Allowed(s, e) && RowsSound(s)
    ensures RowsSound(AfterRelationship(cfg, s, e))
  {
    hide CreateRelationship, Revoke, UniqueRelationshipIds;
    match e
    case CreatesRelationship(auth, peer, pubs, subs, id) => CreateKeepsRows(cfg, s, auth, peer, pubs, subs, id);
    case ListsRelationships(_) =>
    case Revokes(auth, id) =>
      RevokeDeletes(cfg, s, auth, id);
      if Revoke(cfg, s, auth, id).result.Ok? {
        DeleteKeepsUnique(s.relationships, auth.claims.sub, id);
      }
  }

  /** Only relationship requests touch the rows. */
  lemma RowsFrame(cfg: Config, s: State, e: Event)
    ensures var r := After(cfg, s, e);
            if IsRelationship(e) then r == AfterRelationship(cfg, s, e)
            else r.relationships == s.relationships && s.usedIds <= r.usedIds
  {
    hide AfterAccount, AfterAuth, AfterExchange, AfterRelationship, AfterBroker, Restart;
    if IsAccount(e) {
      assert After(cfg, s, e) == AfterAccount(cfg, s, e);
    } else if IsAuth(e) {
      assert After(cfg, s, e) == AfterAuth(cfg, s, e);
    } else if IsExchange(e) {
      assert After(cfg, s, e) == AfterExchange(cfg, s, e);
    }
  }

  lemma RowsStep(cfg: Config, s: State, e: Event)
    requires Allowed(s, e) && RowsSound(s)
    ensures RowsSound(After(cfg, s, e))
  {
    hide After, AfterRelationship, Allowed, IsRelationship;
    RowsFrame(cfg, s, e);
    if IsRelationship(e) {
      RelationshipKeepsRows(cfg, s, e);
    }
  }

  /** Relationship ids are unique in every reachable state. */
  lemma {:induction false} RunRowsSound(p: Path, k: nat)
    requires p.IsRun() && k < |p.states|
    ensures RowsSound(p.states[k])
  {
    hide After, Allowed;
    if k > 0 {
      RunRowsSound(p, k - 1);
      assert p.Steps(k - 1);
      RowsStep(p.cfg, p.states[k - 1], p.events[k - 1]);
    }
  }

  /** A revocation takes one row's topics, with multiplicity, out of what its owner's next
      token will list in each direction, and leaves every other user's rows as they were. */
  ghost predicate TakesOneRow(before: seq<Relationship>, after: seq<Relationship>, row: Relationship) {
    && row in before
    && (forall x :: x in after <==> x in before && x != row)
    && (forall way: Direction ::
          Aggregate(before, row.userId, way) == Aggregate(after, row.userId, way) + multiset(TopicsOf(row, way)))
    && (forall other | other != row.userId :: RelationshipsOf(after, other) == RelationshipsOf(before, other))
  }

  lemma DeleteTakesOneRow(rows: seq<Relationship>, user: string, id: string)
    requires UniqueRelationshipIds(rows) && FindRelationship(rows, user, id).Some?
    ensures TakesOneRow(rows, DeleteRelationship(rows, user, id), FindRelationship(rows, user, id).value)
  {
    hide UniqueRelationshipIds, Aggregate, RelationshipsOf, TopicsOf;
    OnlyRow(rows, user, id);
    forall way: Direction
      ensures Aggregate(rows, user, way)
           == Aggregate(DeleteRelationship(rows, user, id), user, way)
              + multiset(TopicsOf(FindRelationship(rows, user, id).value, way))
    {
      DeleteTakesItsOwn(rows, user, id, way);
    }
    forall other | other != user
      ensures RelationshipsOf(DeleteRelationship(rows, user, id), other) == RelationshipsOf(rows, other)
    {
      DeleteSparesOthers(rows, user, id, other);
    }
  }

  /** In every run a successful revocation takes exactly the caller's one row of that id. */
  lemma RevocationTakesOneRow(p: Path, k: nat) returns (row: Relationship)
    requires p.IsRun() && k < |p.events| && p.events[k].Revokes?
    requires Revoke(p.cfg, p.states[k], p.events[k].auth, p.events[k].id).result.Ok?
    ensures p.events[k].auth.Signed? && Matches(row, p.events[k].auth.claims.sub, p.events[k].id)
    ensures TakesOneRow(p.states[k].relationships, p.states[k + 1].relationships, row)
  {
    hide Revoke, TakesOneRow, UniqueRelationshipIds, Allowed;
    var s, e := p.states[k], p.events[k];
    RunRowsSound(p, k);
    assert p.Steps(k);
    RevokeDeletes(p.cfg, s, e.auth, e.id);
    row := FindRelationship(s.relationships, e.auth.claims.sub, e.id).value;
    DeleteTakesOneRow(s.relationships, e.auth.claims.sub, e.id);
  }

  /** With unique ids, deleting by id deletes the one row that was found. */
  lemma OnlyRow(rows: seq<Relationship>, user: string, id: string)
    requires UniqueRelationshipIds(rows) && FindRelationship(rows, user, id).Some?
    ensures var row := FindRelationship(rows, user, id).value;
            forall x :: x in DeleteRelationship(rows, user, id) <==> x in rows && x != row
  {
    var row := FindRelationship(rows, user, id).value;
    forall x | x in rows && Matches(x, user, id) ensures x == row {
      var i :| 0 <= i < |rows| && rows[i] == x;
      var j :| 0 <= j < |rows| && rows[j] == row;
      assert i == j;
    }
  }

  // ── The table told from the run ─────────────────────────────────────────

  /** The step is an accepted request to create this row. */
  predicate Creates(cfg: Config, s: State, e: Event, row: Relationship) {
    && e.CreatesRelationship? && Bearer(cfg, s.now, e.auth)
    && row.relationshipId == e.id && row.userId == e.auth.claims.sub && row.peerId == e.peer
    && row.publishTopics == e.pubs && row.subscribeTopics == e.subs && row.createdAt == s.now
  }

  /** The step is an accepted request by the owner to revoke this row. */
  predicate RevokesRow(cfg: Config, s: State, e: Event, row: Relationship) {
    e.Revokes? && Bearer(cfg, s.now, e.auth) && e.auth.claims.sub == row.userId && e.id == row.relationshipId
  }

  lemma RequestRow(cfg: Config, s: State, e: Event, row: Relationship)
    requires IsRelationship(e)
    ensures row in AfterRelationship(cfg, s, e).relationships
            <==> Creates(cfg, s, e, row) || (row in s.relationships && !RevokesRow(cfg, s, e, row))
  {
    hide CreateRelationship, Revoke, Bearer;
    match e
    case CreatesRelationship(auth, peer, pubs, subs, id) => CreateReplies(cfg, s, auth, peer, pubs, subs, id);
    case ListsRelationships(_) =>
    case Revokes(auth, id) =>
      RevokeDeletes(cfg, s, auth, id);
      CallerIff(cfg, s.now, auth);
      hide AuthUser;
      if row in s.relationships && Bearer(cfg, s.now, auth) {
        assert FindRelationship(s.relationships, auth.claims.sub, id).None? ==> !Matches(row, auth.claims.sub, id);
      }
  }

  /** Exactly which rows a step leaves. */
  lemma RowStep(cfg: Config, s: State, e: Event, row: Relationship)
    ensures row in After(cfg, s, e).relationships
            <==> Creates(cfg, s, e, row) || (row in s.relationships && !RevokesRow(cfg, s, e, row))
  {
    hide After, AfterRelationship, Bearer;
    RowsFrame(cfg, s, e);
    if IsRelationship(e) {
      RequestRow(cfg, s, e, row);
    }
  }

  /** The request at step `r` created the row, and its owner has not revoked it before step `k`. */
  ghost predicate KeptSince(p: Path, r: nat, k: nat, row: Relationship)
    requires |p.states| == |p.events| + 1 && k <= |p.events|
  {
    && r < k && Creates(p.cfg, p.states[r], p.events[r], row)
    && forall i :: r < i < k ==> !RevokesRow(p.cfg, p.states[i], p.events[i], row)
  }

  /** The table in every reachable state: exactly the rows that some request created and their
      owners have not revoked since. */
  lemma {:induction false} RowsFromHistory(p: Path, k: nat, row: Relationship)
    requires p.IsRun() && k < |p.states|
    ensures row in p.states[k].relationships <==> exists r: nat :: KeptSince(p, r, k, row)
  {
    hide After, Allowed, Creates, RevokesRow;
    if k > 0 {
      RowsFromHistory(p, k - 1, row);
      assert p.Steps(k - 1);
      RowStep(p.cfg, p.states[k - 1], p.events[k - 1], row);
      forall r: nat | r < k - 1 && KeptSince(p, r, k, row)
        ensures KeptSince(p, r, k - 1, row) && !RevokesRow(p.cfg, p.states[k - 1], p.events[k - 1], row)
      {
      }
      if Creates(p.cfg, p.states[k - 1], p.events[k - 1], row) {
        assert KeptSince(p, k - 1, k, row);
      } else if row in p.states[k].relationships {
        var r: nat :| KeptSince(p, r, k - 1, row);
        assert KeptSince(p, r, k, row);
      }
    }
  }

  /** In every run a user is shown exactly the rows the user created and has not revoked. */
  lemma ListedFromHistory(p: Path, k: nat, row: Relationship)
    requires p.IsRun() && k < |p.events| && p.events[k].ListsRelationships? && Bearer(p.cfg, p.states[k].now, p.events[k].auth)
    ensures var reply := ListRelationships(p.cfg, p.states[k], p.events[k].auth).result;
            && reply.Ok?
            && (row in reply.value
                <==> row.userId == p.events[k].auth.claims.sub && exists r: nat :: KeptSince(p, r, k, row))
  {
    hide After, Allowed, ListRelationships, KeptSince, Bearer;
    ListReplies(p.cfg, p.states[k], p.events[k].auth);
    RowsFromHistory(p, k, row);
  }
}
