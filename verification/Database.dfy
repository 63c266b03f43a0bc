/** The SQL tables and the statements that read and change them. */
module Database {
  import opened Types
  import opened Tables

  class Database {
    var users: map<string, User>
    var devices: seq<Device>
    var relationships: seq<Relationship>
    var pendingExchanges: map<string, Exchange>
    var registrationTokens: seq<RegToken>

    /** After the migrations on an empty file. */
    constructor ()
      ensures users == map[] && devices == [] && relationships == []
      ensures pendingExchanges == map[] && registrationTokens == []
    {
      users, devices, relationships := map[], [], [];
      pendingExchanges, registrationTokens := map[], [];
    }

    // ── Users ─────────────────────────────────────────────────────────────

    method CreateUser(userId: string, now: nat)
      modifies this`users
      ensures users == old(users)[userId := User(now, false, None, 0)]
    {
      users := users[userId := User(now, false, None, 0)];
    }

    function GetUser(userId: string): (r: Result<User>)
      reads this`users
      ensures r.Ok? <==> userId in users
      ensures r.Ok? ==> r.value == users[userId]
      ensures r.Err? ==> r.error == NotFound
    {
      if userId in users then Ok(users[userId]) else Err(NotFound)
    }

    method InvalidateTokens(userId: string, now: nat)
      modifies this`users
      ensures users == if userId in old(users)
                       then old(users)[userId := old(users)[userId].(tokensValidFrom := now)]
                       else old(users)
    {
      if userId in users {
        users := users[userId := users[userId].(tokensValidFrom := now)];
      }
    }

    method SetSuspended(userId: string, suspended: bool, reason: Option<string>) returns (r: Result<()>)
      modifies this`users
      ensures r == if userId in old(users) then Ok(()) else Err(NotFound)
      ensures users == if userId in old(users)
                       then old(users)[userId := old(users)[userId].(suspended := suspended, suspendReason := reason)]
                       else old(users)
    {
      var rows := 0;
      if userId in users {
        users := users[userId := users[userId].(suspended := suspended, suspendReason := reason)];
        rows := 1;
      }
      if rows == 0 { r := Err(NotFound); } else { r := Ok(()); }
    }

    // ── Devices ───────────────────────────────────────────────────────────

    method CreateDevice(deviceId: string, userId: string, pubkey: seq<byte>, now: nat) returns (d: Device)
      modifies this`devices
      ensures d == Device(deviceId, userId, pubkey, now)
      ensures devices == old(devices) + [d]
    {
      d := Device(deviceId, userId, pubkey, now);
      devices := devices + [d];
    }

    function GetDeviceByUser(userId: string): (r: seq<Device>)
      reads this`devices
      ensures forall d :: d in r <==> d in devices && d.userId == userId
    {
      DevicesOf(devices, userId)
    }

    // ── Relationships ─────────────────────────────────────────────────────

    method CreateRelationship(relationshipId: string, userId: string, peerId: string, pubs: seq<string>,
                              subs: seq<string>, now: nat) returns (row: Relationship)
      modifies this`relationships
      ensures row == Relationship(relationshipId, userId, peerId, pubs, subs, now)
      ensures relationships == old(relationships) + [row]
    {
      row := Relationship(relationshipId, userId, peerId, pubs, subs, now);
      relationships := relationships + [row];
    }

    function ListRelationships(userId: string): (r: seq<Relationship>)
      reads this`relationships
      ensures forall x :: x in r <==> x in relationships && x.userId == userId
    {
      RelationshipsOf(relationships, userId)
    }

    function GetRelationship(userId: string, relationshipId: string): (r: Result<Relationship>)
      reads this`relationships
      ensures r.Ok? ==> r.value in relationships && Matches(r.value, userId, relationshipId)
      ensures r.Err? ==> r.error == NotFound && forall x | x in relationships :: !Matches(x, userId, relationshipId)
    {
      match FindRelationship(relationships, userId, relationshipId)
      case None => Err(NotFound)
      case Some(row) => Ok(row)
    }

    method DeleteRelationship(userId: string, relationshipId: string) returns (r: Result<()>)
      modifies this`relationships
      ensures relationships == Tables.DeleteRelationship(old(relationships), userId, relationshipId)
      ensures r.Ok? <==> |relationships| < |old(relationships)|
      ensures r.Err? ==> r.error == NotFound
    {
      var left := Tables.DeleteRelationship(relationships, userId, relationshipId);
      DeleteShrinks(relationships, userId, relationshipId);
      var rows := |relationships| - |left|;
      relationships := left;
      if rows == 0 { r := Err(NotFound); } else { r := Ok(()); }
    }

    /** Aggregates a user's topics over all of the user's rows. */
    method UserTopics(userId: string) returns (pubTopics: seq<string>, subTopics: seq<string>)
      ensures pubTopics == Topics(RelationshipsOf(relationships, userId), Publish)
      ensures subTopics == Topics(RelationshipsOf(relationships, userId), Subscribe)
      ensures forall t :: t in pubTopics <==> ListsFor(relationships, userId, t, Publish)
      ensures forall t :: t in subTopics <==> ListsFor(relationships, userId, t, Subscribe)
    {
      var rels := ListRelationships(userId);
      hide RelationshipsOf, ListsFor, Topics;
      pubTopics, subTopics := [], [];
      for i := 0 to |rels|
        invariant pubTopics + Topics(rels[i..], Publish) == Topics(rels, Publish)
        invariant subTopics + Topics(rels[i..], Subscribe) == Topics(rels, Subscribe)
      {
        TopicsFrom(rels, i, Publish, pubTopics);
        TopicsFrom(rels, i, Subscribe, subTopics);
        pubTopics := pubTopics + rels[i].publishTopics;
        subTopics := subTopics + rels[i].subscribeTopics;
      }
      NoTopics(Publish);
      NoTopics(Subscribe);
      assert rels[|rels|..] == [] && pubTopics + [] == pubTopics && subTopics + [] == subTopics;
      AggregatesAreLists(relationships, userId);
    }

    // ── Pending exchanges ─────────────────────────────────────────────────

    method CreateExchange(exchangeId: string, initiatorId: string, responderId: string, initiatorKey: seq<byte>, now: nat)
      modifies this`pendingExchanges
      ensures pendingExchanges
           == old(pendingExchanges)[exchangeId :=
                Exchange(initiatorId, responderId, initiatorKey, None, now, now + EXCHANGE_TTL_SECS)]
    {
      var expiresAt := now + EXCHANGE_TTL_SECS;
      var row := Exchange(initiatorId, responderId, initiatorKey, None, now, expiresAt);
      pendingExchanges := pendingExchanges[exchangeId := row];
    }

    function GetExchange(exchangeId: string): (r: Result<Exchange>)
      reads this`pendingExchanges
      ensures r.Ok? <==> exchangeId in pendingExchanges
      ensures r.Ok? ==> r.value == pendingExchanges[exchangeId]
      ensures r.Err? ==> r.error == NotFound
    {
      if exchangeId in pendingExchanges then Ok(pendingExchanges[exchangeId]) else Err(NotFound)
    }

    /** An update: it never creates a record. */
    method SetResponderPubkey(exchangeId: string, key: seq<byte>) returns (r: Result<()>)
      modifies this`pendingExchanges
      ensures r == if exchangeId in old(pendingExchanges) then Ok(()) else Err(NotFound)
      ensures pendingExchanges.Keys == old(pendingExchanges).Keys
      ensures exchangeId in old(pendingExchanges) ==>
                pendingExchanges == old(pendingExchanges)[exchangeId :=
                                      old(pendingExchanges)[exchangeId].(responderKey := Some(key))]
      ensures exchangeId !in old(pendingExchanges) ==> pendingExchanges == old(pendingExchanges)
    {
      if exchangeId in pendingExchanges {
        pendingExchanges := pendingExchanges[exchangeId := pendingExchanges[exchangeId].(responderKey := Some(key))];
        r := Ok(());
      } else {
        r := Err(NotFound);
      }
    }

    method DeleteExchange(exchangeId: string)
      modifies this`pendingExchanges
      ensures pendingExchanges == old(pendingExchanges) - {exchangeId}
    {
      pendingExchanges := pendingExchanges - {exchangeId};
    }

    /** Deletes the records past their expiry and reports how many. */
    method PurgeExpiredExchanges(now: nat) returns (n: nat)
      modifies this`pendingExchanges
      ensures pendingExchanges == old(pendingExchanges) - Expired(old(pendingExchanges), now)
      ensures n == |Expired(old(pendingExchanges), now)|
    {
      var gone := Expired(pendingExchanges, now);
      n := |gone|;
      pendingExchanges := pendingExchanges - gone;
    }

    // ── Registration tokens ───────────────────────────────────────────────

    method CreateRegistrationToken(tokenId: string, tokenHash: seq<byte>, now: nat, expiresIn: nat, maxUses: int)
      modifies this`registrationTokens
      ensures registrationTokens
           == old(registrationTokens) + [RegToken(tokenId, tokenHash, now, now + expiresIn, maxUses, 0)]
    {
      registrationTokens := registrationTokens + [RegToken(tokenId, tokenHash, now, now + expiresIn, maxUses, 0)];
    }

    method ConsumeRegistrationToken(tokenHash: seq<byte>, now: nat) returns (r: Result<()>)
      modifies this`registrationTokens
      ensures registrationTokens == Consume(old(registrationTokens), tokenHash, now)
      ensures r == if CountUsable(old(registrationTokens), tokenHash, now) == 0 then Err(Forbidden) else Ok(())
      ensures TotalUses(registrationTokens)
           == TotalUses(old(registrationTokens)) + CountUsable(old(registrationTokens), tokenHash, now)
    {
      var rows := CountUsable(registrationTokens, tokenHash, now);
      ConsumeCounts(registrationTokens, tokenHash, now);
      registrationTokens := Consume(registrationTokens, tokenHash, now);
      if rows == 0 { r := Err(Forbidden); } else { r := Ok(()); }
    }
  }
}
