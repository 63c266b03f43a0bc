/** The queries and updates of the SQL tables, as functions on rows, and what they mean. */
module Tables {
  import opened Types

  // ── Devices ─────────────────────────────────────────────────────────────

  /** Rows of one user, in table order. */
  function DevicesOf(rows: seq<Device>, user: string): (r: seq<Device>)
    ensures forall d :: d in r <==> d in rows && d.userId == user
  {
    if rows == [] then []
    else
      var rest := DevicesOf(rows[1..], user);
      if rows[0].userId == user then [rows[0]] + rest else rest
  }

  function FindDevice(rows: seq<Device>, id: string): (r: Option<Device>)
    ensures r.Some? ==> r.value in rows && r.value.deviceId == id
    ensures r.None? ==> forall d | d in rows :: d.deviceId != id
  {
    if rows == [] then None
    else if rows[0].deviceId == id then Some(rows[0])
    else FindDevice(rows[1..], id)
  }

  function DeviceIds(rows: seq<Device>): (ids: set<string>) {
    set d | d in rows :: d.deviceId
  }

  predicate Owns(rows: seq<Device>, user: string, id: string) {
    exists d :: d in rows && d.userId == user && d.deviceId == id
  }

  // ── Relationships ───────────────────────────────────────────────────────

  function RelationshipsOf(rows: seq<Relationship>, user: string): (r: seq<Relationship>)
    ensures forall x :: x in r <==> x in rows && x.userId == user
  {
    if rows == [] then []
    else
      var rest := RelationshipsOf(rows[1..], user);
      if rows[0].userId == user then [rows[0]] + rest else rest
  }

  predicate Matches(row: Relationship, user: string, id: string) {
    row.relationshipId == id && row.userId == user
  }

  function FindRelationship(rows: seq<Relationship>, user: string, id: string): (r: Option<Relationship>)
    ensures r.Some? ==> r.value in rows && Matches(r.value, user, id)
    ensures r.None? ==> forall x | x in rows :: !Matches(x, user, id)
  {
    if rows == [] then None
    else if Matches(rows[0], user, id) then Some(rows[0])
    else FindRelationship(rows[1..], user, id)
  }

  function DeleteRelationship(rows: seq<Relationship>, user: string, id: string): (r: seq<Relationship>)
    ensures forall x :: x in r <==> x in rows && !Matches(x, user, id)
  {
    if rows == [] then []
    else
      var rest := DeleteRelationship(rows[1..], user, id);
      if Matches(rows[0], user, id) then rest else [rows[0]] + rest
  }

  ghost predicate UniqueRelationshipIds(rows: seq<Relationship>) {
    forall i, j :: 0 <= i < j < |rows| ==> rows[i].relationshipId != rows[j].relationshipId
  }

  datatype Direction = Publish | Subscribe

  function TopicsOf(row: Relationship, way: Direction): (topics: seq<string>) {
    if way.Publish? then row.publishTopics else row.subscribeTopics
  }

  /** Some current row of the user lists the topic. */
  predicate ListsFor(rows: seq<Relationship>, user: string, topic: string, way: Direction) {
    exists x :: x in rows && x.userId == user && topic in TopicsOf(x, way)
  }

  /** Some current row of the user lists the topic for subscription. */
  predicate Lists(rows: seq<Relationship>, user: string, topic: string) {
    ListsFor(rows, user, topic, Subscribe)
  }

  /** The topics of all rows, joined in order. */
  function Topics(rows: seq<Relationship>, way: Direction): (topics: seq<string>) {
    if rows == [] then [] else TopicsOf(rows[0], way) + Topics(rows[1..], way)
  }

  lemma {:induction false} TopicsMember(rows: seq<Relationship>, way: Direction, topic: string)
    ensures topic in Topics(rows, way) <==> exists x :: x in rows && topic in TopicsOf(x, way)
  {
    if rows != [] {
      TopicsMember(rows[1..], way, topic);
      if topic in TopicsOf(rows[0], way) {
        assert rows[0] in rows;
      }
    }
  }

  /** A topic is in the aggregate exactly when some current row of the user lists it. */
  lemma AggregateIsLists(rows: seq<Relationship>, user: string, topic: string, way: Direction)
    ensures topic in Topics(RelationshipsOf(rows, user), way) <==> ListsFor(rows, user, topic, way)
  {
    TopicsMember(RelationshipsOf(rows, user), way, topic);
  }

  /** The aggregate with multiplicities. */
  ghost function Aggregate(rows: seq<Relationship>, user: string, way: Direction): (m: multiset<string>) {
    multiset(Topics(RelationshipsOf(rows, user), way))
  }

  /** Multiplicities add up: a row contributes its own topics to its owner and nothing to
      anyone else. */
  lemma AggregateAddsUp(row: Relationship, rest: seq<Relationship>, user: string, way: Direction)
    ensures Aggregate([row] + rest, user, way)
         == Aggregate(rest, user, way) + (if row.userId == user then multiset(TopicsOf(row, way)) else multiset{})
  {
    assert ([row] + rest)[1..] == rest;
    var mine := RelationshipsOf(rest, user);
    assert ([row] + mine)[1..] == mine;
  }

  lemma {:induction false} NothingToDelete(rows: seq<Relationship>, user: string, id: string)
    requires forall x | x in rows :: !Matches(x, user, id)
    ensures DeleteRelationship(rows, user, id) == rows
  {
    if rows != [] {
      NothingToDelete(rows[1..], user, id);
    }
  }

  /** Deleting one row takes exactly its own topics out of its owner's aggregate. */
  lemma {:induction false} DeleteTakesItsOwn(rows: seq<Relationship>, user: string, id: string, way: Direction)
    requires UniqueRelationshipIds(rows)
    requires FindRelationship(rows, user, id).Some?
    ensures Aggregate(rows, user, way)
         == Aggregate(DeleteRelationship(rows, user, id), user, way)
            + multiset(TopicsOf(FindRelationship(rows, user, id).value, way))
  {
    hide Aggregate, RelationshipsOf, TopicsOf;
    var head, tail := rows[0], rows[1..];
    assert rows == [head] + tail;
    AggregateAddsUp(head, tail, user, way);
    if Matches(head, user, id) {
      forall x | x in tail ensures !Matches(x, user, id) {
        var j :| 0 <= j < |tail| && tail[j] == x;
        assert rows[j + 1] == x;
      }
      NothingToDelete(tail, user, id);
      assert DeleteRelationship(rows, user, id) == tail;
    } else {
      assert DeleteRelationship(rows, user, id) == [head] + DeleteRelationship(tail, user, id);
      DeleteTakesItsOwn(tail, user, id, way);
      AggregateAddsUp(head, DeleteRelationship(tail, user, id), user, way);
    }
  }

  /** Deleting a row changes no other user's aggregate. */
  lemma {:induction false} DeleteSparesOthers(rows: seq<Relationship>, user: string, id: string, other: string)
    requires other != user
    ensures RelationshipsOf(DeleteRelationship(rows, user, id), other) == RelationshipsOf(rows, other)
  {
    if rows != [] {
      var head, rest := rows[0], DeleteRelationship(rows[1..], user, id);
      DeleteSparesOthers(rows[1..], user, id, other);
      assert ([head] + rest)[1..] == rest;
    }
  }

  lemma {:induction false} DeleteKeepsUnique(rows: seq<Relationship>, user: string, id: string)
    requires UniqueRelationshipIds(rows)
    ensures UniqueRelationshipIds(DeleteRelationship(rows, user, id))
  {
    if rows != [] {
      DeleteKeepsUnique(rows[1..], user, id);
      var rest := DeleteRelationship(rows[1..], user, id);
      if !Matches(rows[0], user, id) {
        forall j | 0 <= j < |rest| ensures rest[j].relationshipId != rows[0].relationshipId {
          assert rest[j] in rows[1..];
        }
      }
    }
  }

  lemma NoTopics(way: Direction)
    ensures Topics([], way) == []
  {
  }

  /** One round of the aggregation loop. */
  lemma TopicsFrom(rels: seq<Relationship>, i: nat, way: Direction, done: seq<string>)
    requires i < |rels| && done + Topics(rels[i..], way) == Topics(rels, way)
    ensures done + TopicsOf(rels[i], way) + Topics(rels[i + 1..], way) == Topics(rels, way)
  {
    assert rels[i..][0] == rels[i] && rels[i..][1..] == rels[i + 1..];
    assert Topics(rels[i..], way) == TopicsOf(rels[i], way) + Topics(rels[i + 1..], way);
    assert done + (TopicsOf(rels[i], way) + Topics(rels[i + 1..], way))
        == done + TopicsOf(rels[i], way) + Topics(rels[i + 1..], way);
  }

  lemma AggregatesAreLists(rows: seq<Relationship>, user: string)
    ensures forall t, way :: t in Topics(RelationshipsOf(rows, user), way) <==> ListsFor(rows, user, t, way)
  {
    forall t, way ensures t in Topics(RelationshipsOf(rows, user), way) <==> ListsFor(rows, user, t, way) {
      AggregateIsLists(rows, user, t, way);
    }
  }

  lemma {:induction false} DeleteShrinks(rows: seq<Relationship>, user: string, id: string)
    ensures |DeleteRelationship(rows, user, id)| <= |rows|
    ensures |DeleteRelationship(rows, user, id)| == |rows| <==> FindRelationship(rows, user, id).None?
  {
    if rows != [] {
      DeleteShrinks(rows[1..], user, id);
    }
  }

  // ── Pending exchanges ───────────────────────────────────────────────────

  /** The same offer: everything but the answer. */
  predicate SameOffer(a: Exchange, b: Exchange) {
    a.(responderKey := None) == b.(responderKey := None)
  }

  function Expired(table: map<string, Exchange>, now: nat): (ids: set<string>) {
    set id | id in table && table[id].expiresAt < now
  }

  // ── Registration tokens ─────────────────────────────────────────────────

  predicate Usable(row: RegToken, hash: seq<byte>, now: nat) {
    row.tokenHash == hash && row.expiresAt > now && row.uses < row.maxUses
  }

  function CountUsable(rows: seq<RegToken>, hash: seq<byte>, now: nat): (n: nat) {
    if rows == [] then 0
    else (if Usable(rows[0], hash, now) then 1 else 0) + CountUsable(rows[1..], hash, now)
  }

  /** Counts one use on every row that can still be used. */
  function Consume(rows: seq<RegToken>, hash: seq<byte>, now: nat): (r: seq<RegToken>)
    ensures |r| == |rows|
    ensures forall i :: 0 <= i < |rows| ==>
              r[i] == if Usable(rows[i], hash, now) then rows[i].(uses := rows[i].uses + 1) else rows[i]
  {
    if rows == [] then []
    else
      [if Usable(rows[0], hash, now) then rows[0].(uses := rows[0].uses + 1) else rows[0]]
      + Consume(rows[1..], hash, now)
  }

  function Allowance(row: RegToken): (n: nat) {
    if row.maxUses > 0 then row.maxUses else 0
  }

  function TotalUses(rows: seq<RegToken>): (n: int) {
    if rows == [] then 0 else rows[0].uses + TotalUses(rows[1..])
  }

  function TotalAllowance(rows: seq<RegToken>): (n: nat) {
    if rows == [] then 0 else Allowance(rows[0]) + TotalAllowance(rows[1..])
  }

  ghost predicate WithinAllowance(rows: seq<RegToken>) {
    forall i :: 0 <= i < |rows| ==> 0 <= rows[i].uses <= Allowance(rows[i])
  }

  /** Consuming counts every affected row once and never passes a row's allowance. */
  lemma {:induction false} ConsumeCounts(rows: seq<RegToken>, hash: seq<byte>, now: nat)
    ensures TotalUses(Consume(rows, hash, now)) == TotalUses(rows) + CountUsable(rows, hash, now)
    ensures TotalAllowance(Consume(rows, hash, now)) == TotalAllowance(rows)
    ensures WithinAllowance(rows) ==> WithinAllowance(Consume(rows, hash, now))
  {
    if rows != [] {
      ConsumeCounts(rows[1..], hash, now);
      assert Consume(rows, hash, now)[1..] == Consume(rows[1..], hash, now);
    }
  }

  lemma {:induction false} AppendToken(rows: seq<RegToken>, row: RegToken)
    ensures TotalUses(rows + [row]) == TotalUses(rows) + row.uses
    ensures TotalAllowance(rows + [row]) == TotalAllowance(rows) + Allowance(row)
  {
    if rows == [] {
      assert rows + [row] == [row];
    } else {
      AppendToken(rows[1..], row);
      assert (rows + [row])[1..] == rows[1..] + [row];
    }
  }

  lemma {:induction false} UsesWithinAllowance(rows: seq<RegToken>)
    requires WithinAllowance(rows)
    ensures 0 <= TotalUses(rows) <= TotalAllowance(rows)
  {
    if rows != [] {
      UsesWithinAllowance(rows[1..]);
    }
  }

  // ── How many attempts one token admits ──────────────────────────────────

  /** The hash belongs to row `i` alone. */
  ghost predicate OnlyToken(rows: seq<RegToken>, hash: seq<byte>, i: nat) {
    && i < |rows|
    && forall j :: 0 <= j < |rows| ==> (rows[j].tokenHash == hash <==> j == i)
  }

  lemma {:induction false} NoneUsable(rows: seq<RegToken>, hash: seq<byte>, now: nat)
    requires forall j :: 0 <= j < |rows| ==> rows[j].tokenHash != hash
    ensures CountUsable(rows, hash, now) == 0
  {
    if rows != [] {
      NoneUsable(rows[1..], hash, now);
    }
  }

  lemma {:induction false} OneUsable(rows: seq<RegToken>, hash: seq<byte>, i: nat, now: nat)
    requires OnlyToken(rows, hash, i)
    ensures CountUsable(rows, hash, now) == if Usable(rows[i], hash, now) then 1 else 0
  {
    if i == 0 {
      NoneUsable(rows[1..], hash, now);
    } else {
      OneUsable(rows[1..], hash, i - 1, now);
    }
  }

  /** Attempts that succeed when the hash is presented at the given times, in turn. */
  function Successes(rows: seq<RegToken>, hash: seq<byte>, times: seq<nat>): (n: nat)
    decreases |times|
  {
    if times == [] then 0
    else (if CountUsable(rows, hash, times[0]) == 0 then 0 else 1)
         + Successes(Consume(rows, hash, times[0]), hash, times[1..])
  }

  function InTime(times: seq<nat>, expiresAt: nat): (n: nat) {
    if times == [] then 0 else (if times[0] < expiresAt then 1 else 0) + InTime(times[1..], expiresAt)
  }

  function Min(a: int, b: int): (m: int) {
    if a < b then a else b
  }

  /** Of the attempts made before the expiry exactly as many succeed as uses are left; the
      others, and all later ones, fail without costing a use. */
  lemma {:induction false} SuccessesAreExact(rows: seq<RegToken>, hash: seq<byte>, i: nat, times: seq<nat>)
    requires OnlyToken(rows, hash, i)
    ensures var left := rows[i].maxUses - rows[i].uses;
            Successes(rows, hash, times) == if left <= 0 then 0 else Min(left, InTime(times, rows[i].expiresAt))
    decreases |times|
  {
    if times != [] {
      OneUsable(rows, hash, i, times[0]);
      SuccessesAreExact(Consume(rows, hash, times[0]), hash, i, times[1..]);
    }
  }
}
