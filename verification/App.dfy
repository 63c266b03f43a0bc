/** The shared application state and the broker's connections. */
module App {
  import opened Types
  import opened Tables
  import opened Spec
  import opened AuthInvariant
  import Database

  /** The part of the MQTT broker that matters here: its open connections. The claims beside
      a client id record what the connection was admitted with. */
  class Broker {
    var live: map<string, Claims>
    var closing: multiset<string>

    constructor ()
      ensures live == map[] && closing == multiset{}
    {
      live, closing := map[], multiset{};
    }

    /** Opens a connection, closing an older one of the same client id. */
    method Accept(clientId: string, claims: Claims)
      modifies this
      ensures live == old(live)[clientId := claims]
      ensures closing == old(closing) + multiset(old(live).Keys * {clientId})
    {
      Kick(clientId);
      assert old(live)[clientId := claims] == live[clientId := claims];
      live := live[clientId := claims];
    }

    method Kick(clientId: string)
      modifies this
      ensures live == old(live) - {clientId}
      ensures closing == old(closing) + multiset(old(live).Keys * {clientId})
    {
      if clientId in live {
        assert live.Keys * {clientId} == {clientId};
        live, closing := live - {clientId}, closing + multiset{clientId};
      } else {
        assert live.Keys * {clientId} == {};
      }
    }

    /** The kick loop over a user's devices. */
    method KickDevices(devices: seq<Device>)
      modifies this
      ensures live == old(live) - DeviceIds(devices)
      ensures closing == old(closing) + multiset(old(live).Keys * DeviceIds(devices))
    {
      hide DeviceIds;
      NoIds(devices);
      for i := 0 to |devices|
        invariant live == old(live) - DeviceIds(devices[..i])
        invariant closing == old(closing) + multiset(old(live).Keys * DeviceIds(devices[..i]))
      {
        OneMoreId(devices, i);
        OneMoreClosed(old(live), DeviceIds(devices[..i]), devices[i].deviceId);
        Kick(devices[i].deviceId);
      }
      assert devices[..|devices|] == devices;
    }
  }

  lemma NoIds(devices: seq<Device>)
    ensures DeviceIds(devices[..0]) == {}
  {
  }

  lemma OneMoreId(devices: seq<Device>, i: nat)
    requires i < |devices|
    ensures DeviceIds(devices[..i + 1]) == DeviceIds(devices[..i]) + {devices[i].deviceId}
  {
    assert devices[..i + 1] == devices[..i] + [devices[i]];
  }

  lemma OneMoreClosed(live: map<string, Claims>, done: set<string>, id: string)
    ensures (live - done) - {id} == live - (done + {id})
    ensures multiset(live.Keys * done) + multiset((live - done).Keys * {id}) == multiset(live.Keys * (done + {id}))
  {
    var a, b := live.Keys * done, (live - done).Keys * {id};
    assert live.Keys * (done + {id}) == a + b;
    DisjointUnion(a, b);
  }

  lemma DisjointUnion(a: set<string>, b: set<string>)
    requires a !! b
    ensures multiset(a) + multiset(b) == multiset(a + b)
  {
  }

  class AppState {
    const cfg: Config
    const db: Database.Database
    const broker: Broker
    var now: nat // the system clock
    var challenges: map<string, Challenge>
    var sessions: map<string, Claims>
    ghost var issued: set<Claims>
    ghost var usedIds: set<string>

    constructor (cfg: Config, now: nat)
      ensures this.cfg == cfg && fresh(db) && fresh(broker)
      ensures Model() == Boot(now)
    {
      this.cfg := cfg;
      db := new Database.Database();
      broker := new Broker();
      this.now, challenges, sessions := now, map[], map[];
      issued, usedIds := {}, {};
    }

    ghost function Model(): (s: State)
      reads this, db, broker
    {
      State(now, db.users, db.devices, db.relationships, db.pendingExchanges, db.registrationTokens,
            challenges, sessions, broker.live, broker.closing, issued, usedIds)
    }

    function NotifyTopic(userId: string): (topic: string)
    {
      Spec.NotifyTopic(cfg, userId)
    }

    /** Signs claims for a device. */
    method IssueJwt(userId: string, deviceId: string, pubTopics: seq<string>, subTopics: seq<string>, notify: string)
        returns (token: Token)
      modifies this`issued
      ensures token == Signed(Claims(userId, deviceId, now + cfg.jwtTtl, now, pubTopics, subTopics, notify))
      ensures issued == old(issued) + {token.claims}
    {
      var claims := Claims(userId, deviceId, now + cfg.jwtTtl, now, pubTopics, subTopics, notify);
      token := Signed(claims);
      issued := issued + {claims};
    }

    /** Invalidates a user's tokens and closes the user's connections, device by device. */
    method KickUser(userId: string)
      modifies db`users, broker
      ensures Model() == Spec.Kick(old(Model()), userId)
      ensures Sound(cfg, old(Model())) ==>
                forall k :: k in broker.live <==> k in old(broker.live) && old(broker.live)[k].sub != userId
    {
      if Sound(cfg, Model()) {
        KickIsExact(cfg, Model(), userId);
      }
      hide Sound;
      db.InvalidateTokens(userId, now);
      var devices := db.GetDeviceByUser(userId);
      broker.KickDevices(devices);
    }
  }
}
