/** The promise of the whole system is kept: two users can always get from a handshake to each
    other's topic. */
module Routing {
  import opened Types
  import opened Tables
  import opened Spec
  import opened Machine
  import opened Revocation
  import opened SharedSecrets
  import opened EndToEnd
  import opened Progress
  import opened ClientRuns
  import opened Boundary
  import Replies

  /** The part of the state that logging in and creating rows depends on. */
  predicate SameAccounts(s: State, r: State) {
    r.now == s.now && r.users == s.users && r.devices == s.devices && s.issued <= r.issued
  }

  // ── A handshake leaves the accounts alone ───────────────────────────────

  lemma ExchangeUses(cfg: Config, s: State, e: Event, id: string)
    requires IsExchange(e) && (e.Initiates? ==> e.id == id)
    ensures var r := After(cfg, s, e);
            SameAccounts(s, r) && r.relationships == s.relationships && r.usedIds <= s.usedIds + {id}
  {
    hide AfterAccount, AfterAuth, AfterRelationship, AfterBroker, DecodeKey, View;
  }

  lemma {:induction false} ScriptUses(q: Path, n: nat, k: nat, id: string)
    requires q.Valid() && n <= k < |q.states|
    requires forall i :: n <= i < k ==> IsExchange(q.events[i]) && (q.events[i].Initiates? ==> q.events[i].id == id)
    ensures var s, r := q.states[n], q.states[k];
            SameAccounts(s, r) && r.relationships == s.relationships && r.usedIds <= s.usedIds + {id}
  {
    hide After, Allowed;
    if n < k {
      ScriptUses(q, n, k - 1, id);
      assert q.Steps(k - 1);
      ExchangeUses(q.cfg, q.states[k - 1], q.events[k - 1], id);
    }
  }

  // ── Registering the row ─────────────────────────────────────────────────

  /** The client's row is accepted and stored as sent. */
  lemma RowRuns(p: Path, auth: Token, me: string, secret: SharedSecret, rowId: string)
    requires p.IsRun() && SpeaksFor(p.cfg, Last(p), auth, me) && Fresh(Last(p), rowId)
    ensures var e := RowEvent(p.cfg, auth, me, secret, rowId);
            var q := Then(p, e);
            var row := Relationship(rowId, me, secret.peerId, e.pubs, e.subs, Last(p).now);
            && Extends(p, q) && RegistersRow(q, |p.events|, me, secret)
            && Last(q).relationships == Last(p).relationships + [row]
            && SameAccounts(Last(p), Last(q)) && Last(q).usedIds == Last(p).usedIds + {rowId}
  {
    hide After, OutboundTopic, InboundTopic;
    var e := RowEvent(p.cfg, auth, me, secret, rowId);
    AfterRequests(p.cfg, Last(p), auth, rowId, "", e.peer, e.pubs, e.subs);
    ThenExtends(p, e);
  }

  // ── From a row to its topic ─────────────────────────────────────────────

  /** Log in and subscribe. */
  function Fetches(p: Path, me: string, device: string, nonce: seq<byte>, sig: seq<byte>, topic: string): (q: Path)
    requires |p.states| == |p.events| + 1
    ensures q.cfg == p.cfg && |q.states| == |q.events| + 1 && |q.events| == |p.events| + 4
  {
    Boundary.Subscribe(Login(p, me, device, nonce, sig), Snapshot(p.cfg, Last(p), me, device), topic)
  }

  /** A user with a row that lists the topic gets it. */
  lemma FetchesTopic(p: Path, row: Relationship, device: string, nonce: seq<byte>, sig: seq<byte>, topic: string)
    requires p.IsRun() && CanSign(p.cfg, Last(p), row.userId, device, nonce, sig)
    requires row in Last(p).relationships && topic in row.subscribeTopics
    ensures var q := Fetches(p, row.userId, device, nonce, sig, topic);
            && Extends(p, q) && SameAccounts(Last(p), Last(q)) && Last(q).relationships == Last(p).relationships
            && GrantedTo(q.states[|p.events| + 3], q.events[|p.events| + 3], row.userId, topic)
  {
    hide After, CanSign, Snapshot, Extends, Login, Boundary.Subscribe, GrantedTo, Authenticate, NotifyTopic;
    var cfg, s, me := p.cfg, Last(p), row.userId;
    var c := Snapshot(cfg, s, me, device);
    SignersAreActive(cfg, s, me, device, nonce, sig);
    AgeLimitIsPast(p, me);
    FreshToken(cfg, s, me, device);
    TokenListsPeer(cfg, s, row, device, topic);
    LoginRuns(p, me, device, nonce, sig);
    var p1 := Login(p, me, device, nonce, sig);
    ExtendsKeeps(p, p1);
    SubscribeRuns(p1, c, topic);
    ExtendsTransitive(p, p1, Boundary.Subscribe(p1, c, topic));
  }

  // ── Both directions ─────────────────────────────────────────────────────

  /** A user with a token, an ephemeral key, an id for a row, and a device that can log in. */
  datatype Party = Party(id: string, token: Token, private: seq<byte>, rowId: string, device: string,
                         nonce: seq<byte>, sig: seq<byte>)

  ghost predicate Ready(cfg: Config, s: State, u: Party) {
    SpeaksFor(cfg, s, u.token, u.id) && CanSign(cfg, s, u.id, u.device, u.nonce, u.sig)
  }

  lemma StaysReady(cfg: Config, s: State, r: State, u: Party)
    requires Ready(cfg, s, u) && SameAccounts(s, r)
    ensures Ready(cfg, r, u)
  {
    CanSignStays(cfg, s, r, u.id, u.device, u.nonce, u.sig);
    hide CanSign;
  }

  lemma RegisteredStays(p: Path, q: Path, r: nat, me: string, secret: SharedSecret)
    requires Extends(p, q) && RegistersRow(p, r, me, secret)
    ensures RegistersRow(q, r, me, secret)
  {
    hide After, OutboundTopic, InboundTopic;
  }

  lemma SecretsReached(p: Path, a: Party, b: Party, id: string)
      returns (q: Path, h: Handshake, atA: SharedSecret, atB: SharedSecret)
    requires p.IsRun() && Lawful(p.cfg.crypto) && Ready(p.cfg, Last(p), a) && Ready(p.cfg, Last(p), b)
    requires Fresh(Last(p), id)
    ensures Extends(p, q) && SameAccounts(Last(p), Last(q)) && |q.events| == |p.events| + 4
    ensures Last(q).usedIds <= Last(p).usedIds + {id}
    ensures Completed(q, h) && h.alice == a.id && h.bob == b.id && h.x == a.private && h.y == b.private
    ensures CompleteSecret(q.cfg.crypto, h.x, Reply(q, h.collect)) == Some(atA)
    ensures RespondSecret(q.cfg.crypto, h.y, Reply(q, h.fetch)) == Some(atB)
    ensures SameMaterial(atA, atB) && atA.peerId == b.id && atB.peerId == a.id
  {
    hide After, Allowed, CanSign, Offered, Answered, GetExchange, CompleteSecret, RespondSecret, SameMaterial, SpeaksFor,
      Fresh;
    var n := |p.events|;
    q, h := HandshakeSucceeds(p, a.id, a.token, a.private, b.id, b.token, b.private, id);
    ScriptUses(q, n, n + 4, id);
    KeyAgreement(q, h);
    atA := CompleteSecret(q.cfg.crypto, h.x, Reply(q, h.collect)).value;
    atB := RespondSecret(q.cfg.crypto, h.y, Reply(q, h.fetch)).value;
  }

  /** A handshake and both rows, in every run with two users who are ready. */
  lemma RowsReached(p: Path, a: Party, b: Party, id: string)
      returns (q: Path, h: Handshake, atA: SharedSecret, atB: SharedSecret, rowA: Relationship, rowB: Relationship)
    requires p.IsRun() && Lawful(p.cfg.crypto) && Ready(p.cfg, Last(p), a) && Ready(p.cfg, Last(p), b)
    requires Fresh(Last(p), id) && Fresh(Last(p), a.rowId) && Fresh(Last(p), b.rowId)
    requires id != a.rowId && id != b.rowId && a.rowId != b.rowId
    ensures Extends(p, q) && SameAccounts(Last(p), Last(q)) && |q.events| == |p.events| + 6
    ensures Completed(q, h) && h.alice == a.id && h.bob == b.id && h.x == a.private && h.y == b.private
    ensures CompleteSecret(q.cfg.crypto, h.x, Reply(q, h.collect)) == Some(atA)
    ensures RespondSecret(q.cfg.crypto, h.y, Reply(q, h.fetch)) == Some(atB)
    ensures RegistersRow(q, |p.events| + 4, a.id, atA) && RegistersRow(q, |p.events| + 5, b.id, atB)
    ensures rowA in Last(q).relationships && rowA.userId == a.id && rowA.subscribeTopics == q.events[|p.events| + 5].pubs
    ensures rowB in Last(q).relationships && rowB.userId == b.id && rowB.subscribeTopics == q.events[|p.events| + 4].pubs
  {
    hide After, Allowed, Extends, CanSign, OutboundTopic, InboundTopic, Completed, Offered, Answered, Fetched, Reply,
      CompleteSecret, RespondSecret, RegistersRow, SameMaterial, Lawful;
    var n, cfg := |p.events|, p.cfg;
    var q0, h0, a0, b0 := SecretsReached(p, a, b, id);
    h, atA, atB := h0, a0, b0;
    ExtendsKeeps(p, q0);
    TopicsMirror(cfg.crypto, a.id, b.id, atA, atB);
    var eA, eB := RowEvent(cfg, a.token, a.id, atA, a.rowId), RowEvent(cfg, b.token, b.id, atB, b.rowId);
    StaysReady(cfg, Last(p), Last(q0), a);
    RowRuns(q0, a.token, a.id, atA, a.rowId);
    var q1 := Then(q0, eA);
    ExtendsKeeps(q0, q1);
    StaysReady(cfg, Last(p), Last(q1), b);
    RowRuns(q1, b.token, b.id, atB, b.rowId);
    q := Then(q1, eB);
    ExtendsKeeps(q1, q);
    ExtendsTransitive(q0, q1, q);
    ExtendsTransitive(p, q0, q);
    StillCompleted(q0, q, h);
    RegisteredStays(q1, q, n + 4, a.id, atA);
    rowA := Relationship(a.rowId, a.id, atA.peerId, eA.pubs, eA.subs, Last(q0).now);
    rowB := Relationship(b.rowId, b.id, atB.peerId, eB.pubs, eB.subs, Last(q1).now);
    assert q.events[n + 4] == eA && q.events[n + 5] == eB;
  }

  lemma StillCompleted(p: Path, q: Path, h: Handshake)
    requires Extends(p, q) && Completed(p, h)
    ensures Completed(q, h) && Reply(q, h.fetch) == Reply(p, h.fetch) && Reply(q, h.collect) == Reply(p, h.collect)
  {
    hide After, Offered, Answered, Fetched, Reply, Extends;
    StillHappened(p, q, h);
    ExtendsKeeps(p, q);
  }

  /** Two rows registered one after the other, and each user granted, soon after, the topic the
      other's row publishes to. */
  ghost predicate Routes(q: Path, n: nat, a: string, atA: SharedSecret, b: string, atB: SharedSecret)
    requires |q.states| == |q.events| + 1
  {
    && n + 13 < |q.events|
    && RegistersRow(q, n + 4, a, atA) && RegistersRow(q, n + 5, b, atB)
    && GrantedTo(q.states[n + 9], q.events[n + 9], b, q.events[n + 4].pubs[0])
    && GrantedTo(q.states[n + 13], q.events[n + 13], a, q.events[n + 5].pubs[0])
  }

  /** In every run with two users who hold good tokens and can log in, whatever else happened:
      they can complete a handshake, register their rows, log in again, and each be granted the
      very topic the other registered for publishing. */
  lemma RoutingReached(p: Path, a: Party, b: Party, id: string)
      returns (q: Path, h: Handshake, atA: SharedSecret, atB: SharedSecret)
    requires p.IsRun() && Lawful(p.cfg.crypto) && Ready(p.cfg, Last(p), a) && Ready(p.cfg, Last(p), b)
    requires Fresh(Last(p), id) && Fresh(Last(p), a.rowId) && Fresh(Last(p), b.rowId)
    requires id != a.rowId && id != b.rowId && a.rowId != b.rowId
    ensures Extends(p, q) && |q.events| == |p.events| + 14
    ensures Completed(q, h) && h.alice == a.id && h.bob == b.id && h.x == a.private && h.y == b.private
    ensures CompleteSecret(q.cfg.crypto, h.x, Reply(q, h.collect)) == Some(atA)
    ensures RespondSecret(q.cfg.crypto, h.y, Reply(q, h.fetch)) == Some(atB)
    ensures |q.states| == |q.events| + 1 && Routes(q, |p.events|, a.id, atA, b.id, atB)
  {
    hide After, Allowed, Extends, CanSign, Completed, Reply, CompleteSecret, RespondSecret, GrantedTo, Lawful, Fetches,
      OutboundTopic, InboundTopic, By, SpeaksFor, Fresh;
    var n, cfg := |p.events|, p.cfg;
    var q1, h1, a1, b1, rowA, rowB := RowsReached(p, a, b, id);
    h, atA, atB := h1, a1, b1;
    ExtendsKeeps(p, q1);
    var toB, toA := q1.events[n + 4].pubs[0], q1.events[n + 5].pubs[0];
    hide RegistersRow;
    StaysReady(cfg, Last(p), Last(q1), b);
    FetchesTopic(q1, rowB, b.device, b.nonce, b.sig, toB);
    var q2 := Fetches(q1, b.id, b.device, b.nonce, b.sig, toB);
    ExtendsKeeps(q1, q2);
    StaysReady(cfg, Last(p), Last(q1), a);
    StaysReady(cfg, Last(q1), Last(q2), a);
    FetchesTopic(q2, rowA, a.device, a.nonce, a.sig, toA);
    q := Fetches(q2, a.id, a.device, a.nonce, a.sig, toA);
    ExtendsKeeps(q2, q);
    ExtendsTransitive(q1, q2, q);
    ExtendsTransitive(p, q1, q);
    StillCompleted(q1, q, h);
    RegisteredStays(q1, q, n + 4, a.id, atA);
    RegisteredStays(q1, q, n + 5, b.id, atB);
  }
}
