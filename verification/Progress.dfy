/** The counterpart of the safety results: honest parties get through. */
module Progress {
  import opened Types
  import opened Tables
  import opened Spec
  import opened Machine
  import opened AuthInvariant
  import opened ExchangeLifecycle
  import opened SharedSecrets
  import opened EndToEnd
  import Base64Url

  // ── Prolonging a run ────────────────────────────────────────────────────

  /** The state at the end of a path. */
  function Last(p: Path): (s: State)
    requires |p.states| == |p.events| + 1
  {
    p.states[|p.events|]
  }

  /** The second path goes on where the first one ends. */
  ghost predicate Extends(p: Path, q: Path) {
    && p.IsRun() && q.IsRun() && p.cfg == q.cfg
    && p.states <= q.states && p.events <= q.events
  }

  /** The path prolonged by one event. */
  function Then(p: Path, e: Event): (q: Path)
    requires |p.states| == |p.events| + 1
  {
    Path(p.cfg, p.states + [After(p.cfg, p.states[|p.events|], e)], p.events + [e])
  }

  lemma ThenIsRun(p: Path, e: Event)
    requires p.IsRun() && Allowed(p.states[|p.events|], e)
    ensures Then(p, e).IsRun()
  {
    hide After, Allowed;
    var q := Then(p, e);
    forall i: nat | i < |q.events| ensures q.Steps(i) {
      if i < |p.events| {
        assert p.Steps(i);
      }
    }
  }

  lemma ExtendsTransitive(p: Path, q: Path, r: Path)
    requires Extends(p, q) && Extends(q, r)
    ensures Extends(p, r)
  {
  }

  /** Nothing that happened is changed by what comes after. */
  lemma ExtendsKeeps(p: Path, q: Path)
    requires Extends(p, q)
    ensures p.IsRun() && q.IsRun()
    ensures q.cfg == p.cfg && |p.events| <= |q.events| && |p.states| == |p.events| + 1 && |q.states| == |q.events| + 1
    ensures forall i :: 0 <= i < |p.events| ==> q.events[i] == p.events[i]
    ensures forall i :: 0 <= i < |p.states| ==> q.states[i] == p.states[i]
  {
  }

  lemma ThenExtends(p: Path, e: Event)
    requires p.IsRun() && Allowed(Last(p), e)
    ensures Extends(p, Then(p, e)) && Last(Then(p, e)) == After(p.cfg, Last(p), e)
  {
    hide After, Allowed;
    ThenIsRun(p, e);
  }

  // ── From registration to the first subscription ─────────────────────────

  lemma {:induction false} NewDeviceIsFound(rows: seq<Device>, row: Device)
    requires forall d | d in rows :: d.deviceId != row.deviceId
    ensures FindDevice(DevicesOf(rows + [row], row.userId), row.deviceId) == Some(row)
  {
    if rows == [] {
      assert rows + [row] == [row];
      assert [row][1..] == [];
    } else {
      NewDeviceIsFound(rows[1..], row);
      assert (rows + [row])[1..] == rows[1..] + [row];
      assert (rows + [row])[0] == rows[0];
      var rest := DevicesOf(rows[1..] + [row], row.userId);
      assert ([rows[0]] + rest)[1..] == rest;
    }
  }

  /** What a successful registration leaves: an active user with that one key on file. */
  lemma RegistrationFiles(cfg: Config, s: State, pubkey: string, regToken: Option<string>, hook: Result<()>,
                          user: string, device: string)
    requires DevicesSound(s) && Fresh(s, device)
    requires Register(cfg, s, pubkey, regToken, hook, user, device).result.Ok?
    ensures DecodeKey(pubkey).Ok?
    ensures var r := Register(cfg, s, pubkey, regToken, hook, user, device).state;
            CanLogIn(cfg, r, user, device, DecodeKey(pubkey).value) && r.users[user].tokensValidFrom == 0
  {
    hide RegistrationPolicy, DecodeKey, FindDevice, DevicesOf;
    var r := Register(cfg, s, pubkey, regToken, hook, user, device).state;
    var row := Device(device, user, DecodeKey(pubkey).value, s.now);
    assert r.devices == s.devices + [row];
    NewDeviceIsFound(s.devices, row);
  }

  /** The user is active and the device is on file with the key. */
  predicate CanLogIn(cfg: Config, s: State, user: string, device: string, key: seq<byte>) {
    && user in s.users && !s.users[user].suspended
    && |key| == 32 && cfg.crypto.edKeyValid(key)
    && var d := FindDevice(DevicesOf(s.devices, user), device);
       d.Some? && d.value.pubkey == key
  }

  /** Signing the challenge with the key on file yields a token: the snapshot of the table. */
  lemma LoginSucceeds(cfg: Config, s: State, user: string, device: string, key: seq<byte>, nonce: seq<byte>, sig: seq<byte>)
    requires CanLogIn(cfg, s, user, device, key) && |sig| == 64 && cfg.crypto.edVerify(key, nonce, sig)
    ensures var challenged := AskChallenge(s, user, nonce);
            var o := Verify(cfg, challenged.state, user, device, Base64Url.Encode(sig));
            && challenged.result == Ok(Base64Url.Encode(nonce))
            && o.result == Ok(Signed(Snapshot(cfg, s, user, device)))
            && o.state == s.(challenges := o.state.challenges, issued := s.issued + {Snapshot(cfg, s, user, device)})
  {
    Base64Url.DecodeIffEncode(Base64Url.Encode(sig), sig);
    hide FindDevice, DevicesOf, RelationshipsOf, Topics, NotifyTopic, Base64Url.Decode, Base64Url.Encode;
  }

  /** A user who has just registered a key, asks for a challenge and signs it with that key is
      issued a token for the registered device; the broker admits the device with it and
      grants the user's notification topic. */
  lemma RegisteredUserGetsIn(cfg: Config, s: State, pubkey: string, regToken: Option<string>, hook: Result<()>,
                             user: string, device: string, nonce: seq<byte>, sig: seq<byte>)
    requires DevicesSound(s) && Fresh(s, device)
    requires Register(cfg, s, pubkey, regToken, hook, user, device).result.Ok?
    requires DecodeKey(pubkey).Ok? && |sig| == 64 && cfg.crypto.edVerify(DecodeKey(pubkey).value, nonce, sig)
    ensures var registered := Register(cfg, s, pubkey, regToken, hook, user, device).state;
            var challenged := AskChallenge(registered, user, nonce);
            var o := Verify(cfg, challenged.state, user, device, Base64Url.Encode(sig));
            && challenged.result == Ok(Base64Url.Encode(nonce))
            && o.result == Ok(Signed(Snapshot(cfg, registered, user, device)))
            && Granted(Connect(cfg, o.state, device, Some(o.result.value)), device, NotifyTopic(cfg, user))
  {
    hide Register, DecodeKey, NotifyTopic, Verify, AskChallenge, RelationshipsOf, Topics, FindDevice, DevicesOf;
    RegistrationFiles(cfg, s, pubkey, regToken, hook, user, device);
    var registered := Register(cfg, s, pubkey, regToken, hook, user, device).state;
    LoginSucceeds(cfg, registered, user, device, DecodeKey(pubkey).value, nonce, sig);
    assert NotifyTopic(cfg, user) in Snapshot(cfg, registered, user, device).subTopics;
  }

  // ── A handshake that goes through ───────────────────────────────────────

  /** The token is the server's own and has not expired. */
  ghost predicate SpeaksFor(cfg: Config, s: State, token: Token, user: string) {
    Genuine(s, token) && AuthUser(cfg, s.now, token) == Ok(user)
  }

  /** The record right after the offer, and right after the answer. */
  function OfferedRecord(cfg: Config, s: State, alice: string, bob: string, x: seq<byte>): Exchange {
    Exchange(alice, bob, cfg.crypto.x25519Public(x), None, s.now, s.now + EXCHANGE_TTL_SECS)
  }

  lemma OfferSucceeds(cfg: Config, s: State, auth: Token, alice: string, bob: string, x: seq<byte>, id: string)
    requires Lawful(cfg.crypto) && SpeaksFor(cfg, s, auth, alice) && bob in s.users && id !in s.exchanges
    ensures var e := Initiates(auth, bob, Base64Url.ClientEncode(cfg.crypto.x25519Public(x)), id);
            && Opens(cfg, s, e, id)
            && After(cfg, s, e) == s.(exchanges := s.exchanges[id := OfferedRecord(cfg, s, alice, bob, x)],
                                      usedIds := s.usedIds + {id})
  {
    KeyTextDecodes(cfg.crypto, x);
    hide DecodeKey, AfterAccount, AfterAuth, AfterRelationship, AfterBroker;
  }

  lemma FetchSucceeds(cfg: Config, s: State, auth: Token, user: string, id: string)
    requires SpeaksFor(cfg, s, auth, user) && id in s.exchanges
    requires user == s.exchanges[id].initiatorId || user == s.exchanges[id].responderId
    ensures GetExchange(cfg, s, auth, id).result == Ok(View(id, s.exchanges[id]))
    ensures s.exchanges[id].responderKey.None? ==> After(cfg, s, GetsExchange(auth, id)) == s
  {
    hide AfterAccount, AfterAuth, AfterRelationship, AfterBroker, View;
  }

  lemma AnswerSucceeds(cfg: Config, s: State, auth: Token, bob: string, y: seq<byte>, id: string)
    requires Lawful(cfg.crypto) && SpeaksFor(cfg, s, auth, bob) && id in s.exchanges
    requires s.exchanges[id].responderId == bob && s.exchanges[id].responderKey.None?
    ensures var key := Base64Url.ClientEncode(cfg.crypto.x25519Public(y));
            && Respond(cfg, s, auth, id, key).result.Ok?
            && After(cfg, s, Responds(auth, id, key))
               == s.(exchanges := s.exchanges[id :=
                       s.exchanges[id].(responderKey := Some(cfg.crypto.x25519Public(y)))])
  {
    KeyTextDecodes(cfg.crypto, y);
    hide DecodeKey, AfterAccount, AfterAuth, AfterRelationship, AfterBroker, View;
  }

  /** The four requests of a handshake. */
  function Script(cfg: Config, tokenA: Token, x: seq<byte>, bob: string, tokenB: Token, y: seq<byte>, id: string)
      : (script: seq<Event>)
    ensures |script| == 4
  {
    [Initiates(tokenA, bob, Base64Url.ClientEncode(cfg.crypto.x25519Public(x)), id),
     GetsExchange(tokenB, id),
     Responds(tokenB, id, Base64Url.ClientEncode(cfg.crypto.x25519Public(y))),
     GetsExchange(tokenA, id)]
  }

  /** The four requests succeed one after the other, passing through `s1` and `s2`. */
  ghost predicate Succeeds(cfg: Config, s: State, s1: State, s2: State, script: seq<Event>)
    requires |script| == 4
  {
    && script[0].Initiates? && script[1].GetsExchange? && script[2].Responds? && script[3].GetsExchange?
    && Allowed(s, script[0]) && Allowed(s1, script[1]) && Allowed(s1, script[2]) && Allowed(s2, script[3])
    && After(cfg, s, script[0]) == s1 && After(cfg, s1, script[1]) == s1 && After(cfg, s1, script[2]) == s2
    && Opens(cfg, s, script[0], script[0].id)
    && GetExchange(cfg, s1, script[1].auth, script[1].id).result.Ok?
    && Respond(cfg, s1, script[2].auth, script[2].id, script[2].key).result.Ok?
    && var last := GetExchange(cfg, s2, script[3].auth, script[3].id).result;
       last.Ok? && last.value.responderKey.Some?
  }

  lemma ScriptSucceeds(cfg: Config, s: State, alice: string, tokenA: Token, x: seq<byte>, bob: string, tokenB: Token,
                       y: seq<byte>, id: string) returns (s1: State, s2: State)
    requires Lawful(cfg.crypto) && SpeaksFor(cfg, s, tokenA, alice) && SpeaksFor(cfg, s, tokenB, bob)
    requires bob in s.users && Fresh(s, id) && id !in s.exchanges
    ensures Succeeds(cfg, s, s1, s2, Script(cfg, tokenA, x, bob, tokenB, y, id))
    ensures s1.now == s2.now == s.now
  {
    hide After, Opens, Lawful, GetExchange, Respond, AuthUser, Base64Url.ClientEncode;
    var script := Script(cfg, tokenA, x, bob, tokenB, y, id);
    OfferSucceeds(cfg, s, tokenA, alice, bob, x, id);
    s1 := After(cfg, s, script[0]);
    FetchSucceeds(cfg, s1, tokenB, bob, id);
    AnswerSucceeds(cfg, s1, tokenB, bob, y, id);
    s2 := After(cfg, s1, script[2]);
    FetchSucceeds(cfg, s2, tokenA, alice, id);
  }

  /** A run prolonged by a script that succeeds. */
  lemma ThenScript(p: Path, s1: State, s2: State, script: seq<Event>) returns (q: Path)
    requires p.IsRun() && |script| == 4 && Succeeds(p.cfg, p.states[|p.events|], s1, s2, script)
    ensures q.IsRun() && q.cfg == p.cfg
    ensures q.events == p.events + script
    ensures |q.states| == |p.states| + 4 && p.states <= q.states
    ensures var n := |p.events|; q.states[n + 1] == s1 && q.states[n + 2] == s1 && q.states[n + 3] == s2
  {
    hide After, Allowed, Opens, GetExchange, Respond;
    ThenIsRun(p, script[0]);
    var p1 := Then(p, script[0]);
    ThenIsRun(p1, script[1]);
    var p2 := Then(p1, script[1]);
    ThenIsRun(p2, script[2]);
    var p3 := Then(p2, script[2]);
    ThenIsRun(p3, script[3]);
    q := Then(p3, script[3]);
    assert q.events == p.events + script;
  }

  /** Any run in which two users hold usable tokens can be continued by a complete handshake
      between them, whatever else has happened. */
  lemma HandshakeSucceeds(p: Path, alice: string, tokenA: Token, x: seq<byte>, bob: string, tokenB: Token, y: seq<byte>,
                          id: string) returns (q: Path, h: Handshake)
    requires p.IsRun() && Lawful(p.cfg.crypto)
    requires var s := p.states[|p.events|];
             SpeaksFor(p.cfg, s, tokenA, alice) && SpeaksFor(p.cfg, s, tokenB, bob) && Fresh(s, id)
    ensures q.IsRun() && q.cfg == p.cfg && p.events <= q.events && p.states <= q.states
    ensures h.id == id && h.alice == alice && h.bob == bob && h.x == x && h.y == y
    ensures q.events == p.events + Script(p.cfg, tokenA, x, bob, tokenB, y, id)
    ensures Completed(q, h)
  {
    hide After, Allowed, Opens, GetExchange, Respond, Base64Url.ClientEncode;
    var n := |p.events|;
    var s := p.states[n];
    RunKeeps(p, n);
    RunSound(p, n);
    assert bob in s.users by { assert tokenB.claims in s.issued; }
    hide Inv, ExchangesSound, Lawful;
    var script := Script(p.cfg, tokenA, x, bob, tokenB, y, id);
    var s1, s2 := ScriptSucceeds(p.cfg, s, alice, tokenA, x, bob, tokenB, y, id);
    q := ThenScript(p, s1, s2, script);
    h := Handshake(id, alice, x, n, n + 3, bob, y, n + 1, n + 2);
    assert q.states[n] == s;
    assert q.events[n] == script[0] && q.events[n + 1] == script[1];
    assert q.events[n + 2] == script[2] && q.events[n + 3] == script[3];
  }
}
