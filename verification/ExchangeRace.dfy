/** The exchange table when handlers interleave: `respond` reads the record and writes the
    key in separate steps, `get` reads and discards in separate steps, and any number of
    requests and purges run in between. */
module ExchangeRace {
  import opened Types
  import opened Tables
  import opened Spec

  /** A `respond` request that has passed its checks and has yet to write. */
  datatype Attempt = Attempt(exchangeId: string, user: string, key: seq<byte>)

  datatype Race = Race(
    now: nat,
    table: map<string, Exchange>,
    writing: map<nat, Attempt>,     // requests between their read and their write
    discarding: multiset<string>,   // requests between their read and their delete
    usedIds: set<string>,           // history: exchange ids drawn
    submitted: set<Attempt>)        // history: attempts that passed their checks

  datatype Move =
    | Waits(seconds: nat)
    | Offers(initiator: string, responder: string, key: string, id: string)
    | RespondReads(request: nat, user: string, id: string, key: string)
    | RespondWrites(request: nat)
    | GetReads(user: string, id: string)
    | GetDeletes(id: string)
    | PurgesTable

  /** The checks `respond` makes on what it read. */
  function RespondChecks(table: map<string, Exchange>, user: string, id: string, key: string): (r: Result<seq<byte>>) {
    if id !in table then Err(NotFound)
    else if table[id].responderId != user then Err(Forbidden)
    else if table[id].responderKey.Some? then Err(Conflict)
    else DecodeKey(key)
  }

  /** The update statement: it touches the record if there is one. */
  function Write(table: map<string, Exchange>, a: Attempt): (r: map<string, Exchange>) {
    if a.exchangeId in table
    then table[a.exchangeId := table[a.exchangeId].(responderKey := Some(a.key))]
    else table
  }

  function Next(s: Race, m: Move): (r: Race) {
    match m
    case Waits(seconds) => s.(now := s.now + seconds)
    case Offers(initiator, responder, key, id) =>
      (match DecodeKey(key)
       case Err(_) => s
       case Ok(pub) =>
         s.(table := s.table[id := Exchange(initiator, responder, pub, None, s.now, s.now + EXCHANGE_TTL_SECS)],
            usedIds := s.usedIds + {id}))
    case RespondReads(request, user, id, key) =>
      (match RespondChecks(s.table, user, id, key)
       case Err(_) => s
       case Ok(pub) =>
         var a := Attempt(id, user, pub);
         s.(writing := s.writing[request := a], submitted := s.submitted + {a}))
    case RespondWrites(request) =>
      if request in s.writing
      then s.(table := Write(s.table, s.writing[request]), writing := s.writing - {request})
      else s
    case GetReads(user, id) =>
      if id in s.table && s.table[id].initiatorId == user && s.table[id].responderKey.Some?
      then s.(discarding := s.discarding + multiset{id})
      else s
    case GetDeletes(id) => s.(table := s.table - {id}, discarding := s.discarding - multiset{id})
    case PurgesTable => s.(table := s.table - Expired(s.table, s.now))
  }

  predicate Possible(s: Race, m: Move) {
    match m
    case Offers(_, _, _, id) => id !in s.usedIds
    case RespondReads(request, _, _, _) => request !in s.writing
    case RespondWrites(request) => request in s.writing
    case GetDeletes(id) => id in s.discarding
    case _ => true
  }

  function Start(now: nat): (s: Race) {
    Race(now, map[], map[], multiset{}, {}, {})
  }

  datatype Interleaving = Interleaving(states: seq<Race>, moves: seq<Move>) {

    ghost predicate Steps(i: nat)
      requires |states| == |moves| + 1 && i < |moves|
    {
      Possible(states[i], moves[i]) && states[i + 1] == Next(states[i], moves[i])
    }

    /** A stretch of an interleaving, from any state. */
    ghost predicate Links() {
      && |states| == |moves| + 1
      && forall i :: 0 <= i < |moves| ==> Steps(i)
    }

    ghost predicate Valid() {
      Links() && states[0] == Start(states[0].now)
    }
  }

  // ── Undisturbed, the two halves are the atomic handler ──────────────────

  /** The read half followed at once by the write half does what the atomic handler does. */
  lemma AtomicRespondIsReadThenWrite(cfg: Config, s: State, auth: Token, id: string, key: string, race: Race, request: nat)
    requires race.table == s.exchanges && AuthUser(cfg, s.now, auth).Ok? && request !in race.writing
    ensures var user := AuthUser(cfg, s.now, auth).value;
            var read := Next(race, RespondReads(request, user, id, key));
            var written := Next(read, RespondWrites(request));
            var o := Respond(cfg, s, auth, id, key);
            && written.table == o.state.exchanges
            && (o.result.Ok? <==> RespondChecks(race.table, user, id, key).Ok?)
            && (o.result.Err? ==> RespondChecks(race.table, user, id, key) == Err(o.result.error))
  {
  }

  // ── What every interleaving keeps ───────────────────────────────────────

  /** A stored answer is a 32-byte key that the named responder submitted for this record. */
  ghost predicate AnswersGenuine(s: Race) {
    forall id | id in s.table ::
      var ex := s.table[id];
      && id in s.usedIds
      && |ex.initiatorKey| == 32
      && (ex.responderKey.Some? ==>
            Attempt(id, ex.responderId, ex.responderKey.value) in s.submitted && |ex.responderKey.value| == 32)
  }

  /** A pending write is for a record that was seen to name this user as responder; that
      record is unchanged in this respect, or gone. */
  ghost predicate WritesGenuine(s: Race) {
    forall q | q in s.writing ::
      var a := s.writing[q];
      && a in s.submitted && |a.key| == 32 && a.exchangeId in s.usedIds
      && (a.exchangeId in s.table ==> s.table[a.exchangeId].responderId == a.user)
  }

  ghost predicate RaceInv(s: Race) {
    AnswersGenuine(s) && WritesGenuine(s)
  }

  lemma NextKeeps(s: Race, m: Move)
    requires RaceInv(s) && Possible(s, m)
    ensures RaceInv(Next(s, m))
  {
    hide DecodeKey;
  }

  lemma {:induction false} StretchKeeps(p: Interleaving, k: nat)
    requires p.Links() && k < |p.states| && RaceInv(p.states[0])
    ensures RaceInv(p.states[k])
  {
    hide Next, Possible;
    if k > 0 {
      StretchKeeps(p, k - 1);
      assert p.Steps(k - 1);
      NextKeeps(p.states[k - 1], p.moves[k - 1]);
    }
  }

  lemma InterleavingKeeps(p: Interleaving, k: nat)
    requires p.Valid() && k < |p.states|
    ensures RaceInv(p.states[k])
  {
    StretchKeeps(p, k);
  }

  /** One move leaves a record's offer alone, and brings back no record whose id was used. */
  lemma OfferStep(s: Race, m: Move, id: string)
    requires RaceInv(s) && Possible(s, m) && id in s.usedIds
    ensures var r := Next(s, m);
            id in r.usedIds && (id in r.table ==> id in s.table && SameOffer(s.table[id], r.table[id]))
  {
    hide DecodeKey;
  }

  /** Under any interleaving: a later sighting of a record shows the same offer, a record
      once gone is never recreated (in particular not by a late write), and any stored answer
      is a 32-byte key that the record's responder submitted for it. */
  lemma {:induction false} InterleavingSafety(p: Interleaving, i: nat, k: nat, id: string)
    requires p.Valid() && i <= k < |p.states|
    requires id in p.states[i].usedIds && id in p.states[k].table
    ensures id in p.states[i].table && SameOffer(p.states[i].table[id], p.states[k].table[id])
    ensures var ex := p.states[k].table[id];
            ex.responderKey.Some? ==>
              Attempt(id, ex.responderId, ex.responderKey.value) in p.states[k].submitted
              && |ex.responderKey.value| == 32
    decreases k - i
  {
    hide Next, Possible;
    InterleavingKeeps(p, k);
    if i < k {
      InterleavingKeeps(p, i);
      assert p.Steps(i);
      OfferStep(p.states[i], p.moves[i], id);
      InterleavingSafety(p, i + 1, k, id);
    }
  }

  // ── Exactly when an answer is overwritten ───────────────────────────────

  /** The move writes an answer for `id`. */
  ghost predicate WritesTo(s: Race, m: Move, id: string) {
    m.RespondWrites? && m.request in s.writing && s.writing[m.request].exchangeId == id
  }

  /** Step `i` is the read of the request that writes at step `k`. */
  ghost predicate ReadOf(p: Interleaving, i: nat, k: nat)
    requires |p.states| == |p.moves| + 1
  {
    && i < k < |p.moves|
    && p.moves[i].RespondReads? && p.moves[k].RespondWrites? && p.moves[i].request == p.moves[k].request
    && RespondChecks(p.states[i].table, p.moves[i].user, p.moves[i].id, p.moves[i].key).Ok?
    && forall j :: i < j < k ==> p.moves[j] != p.moves[k]
  }

  lemma AnswerStep(s: Race, m: Move, id: string)
    requires RaceInv(s) && Possible(s, m) && id in s.table && id in Next(s, m).table
    ensures var r := Next(s, m);
            && (WritesTo(s, m, id) ==> r.table[id].responderKey.Some?)
            && (!WritesTo(s, m, id) ==> r.table[id] == s.table[id])
  {
    hide DecodeKey;
  }

  /** A record unanswered at step `i` is answered at step `k` exactly when some request wrote
      to it in between. */
  lemma {:induction false} AnsweredIffWritten(p: Interleaving, i: nat, k: nat, id: string)
    requires p.Valid() && i <= k < |p.states|
    requires id in p.states[i].table && id in p.states[k].table && p.states[i].table[id].responderKey.None?
    ensures p.states[k].table[id].responderKey.Some?
            <==> exists j :: i <= j < k && WritesTo(p.states[j], p.moves[j], id)
  {
    hide Next, Possible, WritesTo;
    if i < k {
      InterleavingKeeps(p, i);
      InterleavingKeeps(p, k - 1);
      UsedGrow(p, i, k - 1, id);
      InterleavingSafety(p, k - 1, k, id);
      AnsweredIffWritten(p, i, k - 1, id);
      assert p.Steps(k - 1);
      AnswerStep(p.states[k - 1], p.moves[k - 1], id);
      if WritesTo(p.states[k - 1], p.moves[k - 1], id) {
        assert i <= k - 1 < k;
      }
      if p.states[k - 1].table[id].responderKey.Some? {
        StaysAnswered(p, k - 1, id);
      }
    }
  }

  lemma UsedGrow(p: Interleaving, i: nat, k: nat, id: string)
    requires p.Valid() && i <= k < |p.states| && id in p.states[i].usedIds
    ensures id in p.states[k].usedIds
  {
    hide Next, Possible;
    if i < k {
      UsedGrow(p, i, k - 1, id);
      InterleavingKeeps(p, k - 1);
      assert p.Steps(k - 1);
      OfferStep(p.states[k - 1], p.moves[k - 1], id);
    }
  }

  lemma StaysAnswered(p: Interleaving, k: nat, id: string)
    requires p.Valid() && k < |p.moves| && id in p.states[k].table && id in p.states[k + 1].table
    requires p.states[k].table[id].responderKey.Some?
    ensures p.states[k + 1].table[id].responderKey.Some?
  {
    hide Next, Possible, WritesTo;
    InterleavingKeeps(p, k);
    assert p.Steps(k);
    AnswerStep(p.states[k], p.moves[k], id);
  }

  /** A write replaces an answer already stored if and only if another request wrote to the
      same record between this request's read and its write. */
  lemma OverwritesIff(p: Interleaving, i: nat, k: nat)
    requires p.Valid() && ReadOf(p, i, k) && p.moves[i].id in p.states[k].table
    ensures p.states[k].table[p.moves[i].id].responderKey.Some?
            <==> exists j :: i < j < k && WritesTo(p.states[j], p.moves[j], p.moves[i].id)
  {
    hide Next, Possible, WritesTo, DecodeKey;
    var id := p.moves[i].id;
    AnsweredIffWritten(p, i, k, id);
    assert !WritesTo(p.states[i], p.moves[i], id) by { ReadsDoNotWrite(p.states[i], p.moves[i], id); }
  }

  lemma ReadsDoNotWrite(s: Race, m: Move, id: string)
    requires m.RespondReads?
    ensures !WritesTo(s, m, id)
  {
  }

  /** The overlap does happen: two requests of one responder both pass their checks, both
      succeed, and the record ends up with the second key, not the one the first was told it
      had stored. */
  lemma OverlapOverwrites(s: Race, id: string, user: string, first: string, second: string)
    requires id in s.table && s.table[id].responderId == user && s.table[id].responderKey.None?
    requires DecodeKey(first).Ok? && DecodeKey(second).Ok? && first != second
    requires 0 !in s.writing && 1 !in s.writing
    ensures var a := Next(s, RespondReads(0, user, id, first));
            var b := Next(a, RespondReads(1, user, id, second));
            var c := Next(b, RespondWrites(0));
            var d := Next(c, RespondWrites(1));
            && Possible(s, RespondReads(0, user, id, first)) && Possible(a, RespondReads(1, user, id, second))
            && Possible(b, RespondWrites(0)) && Possible(c, RespondWrites(1))
            && c.table[id].responderKey == Some(DecodeKey(first).value)
            && d.table[id].responderKey == Some(DecodeKey(second).value)
            && d.table[id].responderKey != c.table[id].responderKey
  {
    hide DecodeKey;
  }

  // ── What a responder can do about it ────────────────────────────────────

  /** An answer by `user` to the record is between its read and its write. */
  predicate Pending(s: Race, id: string, user: string) {
    exists q :: q in s.writing && s.writing[q].exchangeId == id && s.writing[q].user == user
  }

  predicate PendingFor(s: Race, id: string) {
    exists q :: q in s.writing && s.writing[q].exchangeId == id
  }

  /** The move starts an answer by `user` to the record. */
  predicate Starts(m: Move, id: string, user: string) {
    m.RespondReads? && m.id == id && m.user == user
  }

  /** At most one answer is on its way, and none while one is stored. */
  ghost predicate Single(s: Race, id: string) {
    && (forall q, r | q in s.writing && r in s.writing && s.writing[q].exchangeId == s.writing[r].exchangeId == id :: q == r)
    && (PendingFor(s, id) && id in s.table ==> s.table[id].responderKey.None?)
  }

  /** A pending answer to a stored record is by the record's own responder. */
  lemma PendingIsResponders(s: Race, id: string)
    requires RaceInv(s) && id in s.table
    ensures PendingFor(s, id) <==> Pending(s, id, s.table[id].responderId)
  {
  }

  lemma SingleStep(s: Race, m: Move, id: string)
    requires RaceInv(s) && Possible(s, m) && Single(s, id)
    requires id in s.table && Starts(m, id, s.table[id].responderId) ==> !Pending(s, id, s.table[id].responderId)
    ensures Single(Next(s, m), id)
  {
    hide DecodeKey;
    if id in s.table {
      PendingIsResponders(s, id);
    }
  }

  /** The responder named in the record starts no answer while one of its own is pending. */
  ghost predicate OneAtATime(p: Interleaving, to: nat, id: string)
    requires |p.states| == |p.moves| + 1 && to <= |p.moves|
  {
    forall j :: 0 <= j < to && id in p.states[j].table ==>
      var user := p.states[j].table[id].responderId;
      Starts(p.moves[j], id, user) ==> !Pending(p.states[j], id, user)
  }

  lemma {:induction false} SingleAlong(p: Interleaving, k: nat, id: string)
    requires p.Links() && k < |p.states| && RaceInv(p.states[0]) && Single(p.states[0], id)
    requires OneAtATime(p, k, id)
    ensures Single(p.states[k], id)
  {
    hide Next, Possible, Single, Starts, Pending;
    if k > 0 {
      SingleAlong(p, k - 1, id);
      StretchKeeps(p, k - 1);
      assert p.Steps(k - 1);
      SingleStep(p.states[k - 1], p.moves[k - 1], id);
    }
  }

  /** A responder who sends one answer at a time is safe: under every interleaving each write
      to the stored record finds it unanswered. */
  lemma OneAtATimeIsSafe(p: Interleaving, k: nat, id: string)
    requires p.Valid() && k < |p.moves| && OneAtATime(p, k, id)
    requires WritesTo(p.states[k], p.moves[k], id) && id in p.states[k].table
    ensures p.states[k].table[id].responderKey.None?
  {
    hide Next, Possible;
    SingleAlong(p, k, id);
    assert PendingFor(p.states[k], id);
  }

  /** Then every record is answered at most once. */
  lemma OneAtATimeAnswersOnce(p: Interleaving, j: nat, k: nat, id: string)
    requires p.Valid() && j < k < |p.moves| && OneAtATime(p, k, id)
    requires WritesTo(p.states[j], p.moves[j], id) && WritesTo(p.states[k], p.moves[k], id)
    ensures id !in p.states[j].table || id !in p.states[k].table
  {
    hide Next, Possible, WritesTo, OneAtATime;
    if id in p.states[j].table && id in p.states[k].table {
      OneAtATimeIsSafe(p, k, id);
      InterleavingKeeps(p, j);
      assert p.Steps(j);
      UsedGrow(p, j, j + 1, id);
      InterleavingSafety(p, j + 1, k, id);
      AnswerStep(p.states[j], p.moves[j], id);
      AnsweredStays(p, j + 1, k, id);
    }
  }

  lemma {:induction false} AnsweredStays(p: Interleaving, i: nat, k: nat, id: string)
    requires p.Valid() && i <= k < |p.states| && id in p.states[i].table && id in p.states[k].table
    requires p.states[i].table[id].responderKey.Some?
    ensures p.states[k].table[id].responderKey.Some?
  {
    hide Next, Possible;
    if i < k {
      InterleavingKeeps(p, i);
      UsedGrow(p, i, k - 1, id);
      InterleavingSafety(p, k - 1, k, id);
      AnsweredStays(p, i, k - 1, id);
      StaysAnswered(p, k - 1, id);
    }
  }

  /** Some continuation in which nobody starts another answer to the record replaces a stored
      one. */
  ghost predicate CanOverwrite(s: Race, id: string) {
    exists p: Interleaving, k: nat :: Overwrites(s, p, k, id)
  }

  ghost predicate Overwrites(s: Race, p: Interleaving, k: nat, id: string) {
    && p.Links() && p.states[0] == s && k < |p.moves|
    && (forall j :: 0 <= j < k ==> !(p.moves[j].RespondReads? && p.moves[j].id == id))
    && WritesTo(p.states[k], p.moves[k], id) && id in p.states[k].table
    && p.states[k].table[id].responderKey.Some?
  }

  /** Two pending answers, written one after the other. */
  lemma TwoPendingOverwrite(s: Race, id: string, q: nat, r: nat)
    requires RaceInv(s) && id in s.table && q in s.writing && r in s.writing && q != r
    requires s.writing[q].exchangeId == s.writing[r].exchangeId == id
    ensures CanOverwrite(s, id)
  {
    var first, second := RespondWrites(q), RespondWrites(r);
    var s1 := Next(s, first);
    var p := Interleaving([s, s1, Next(s1, second)], [first, second]);
    assert p.Steps(0) && p.Steps(1);
    assert Overwrites(s, p, 1, id);
  }

  /** Exactly when it is unsafe to start an answer: the answer just started, or another, can
      come to overwrite if and only if an earlier answer by the same responder is pending. */
  lemma StartIsUnsafeIff(s: Race, m: Move)
    requires RaceInv(s) && Possible(s, m) && m.RespondReads?
    requires RespondChecks(s.table, m.user, m.id, m.key).Ok?
    ensures CanOverwrite(Next(s, m), m.id) <==> Pending(s, m.id, m.user)
  {
    hide DecodeKey;
    var r, id := Next(s, m), m.id;
    NextKeeps(s, m);
    PendingIsResponders(s, id);
    if Pending(s, id, m.user) {
      var q :| q in s.writing && s.writing[q].exchangeId == id && s.writing[q].user == m.user;
      TwoPendingOverwrite(r, id, q, m.request);
    } else {
      assert Single(r, id);
      NoOverwrite(r, id);
    }
  }

  lemma NoOverwrite(s: Race, id: string)
    requires RaceInv(s) && Single(s, id)
    ensures !CanOverwrite(s, id)
  {
    hide Next, Possible;
    if CanOverwrite(s, id) {
      var p: Interleaving, k: nat :| Overwrites(s, p, k, id);
      SingleAlong(p, k, id);
    }
  }

  // ── Discard after delivery ──────────────────────────────────────────────

  /** The move takes the record out of the table. */
  predicate Removes(s: Race, m: Move, id: string) {
    m == GetDeletes(id) || (m.PurgesTable? && id in Expired(s.table, s.now))
  }

  lemma RemoveStep(s: Race, m: Move, id: string)
    requires Possible(s, m) && id in s.table
    ensures id in Next(s, m).table <==> !Removes(s, m, id)
  {
    hide DecodeKey;
  }

  /** A record is still there if and only if nothing has removed it since. */
  lemma {:induction false} PresentIffNotRemoved(p: Interleaving, i: nat, k: nat, id: string)
    requires p.Valid() && i <= k < |p.states| && id in p.states[i].table
    ensures id in p.states[k].table <==> forall j :: i <= j < k ==> !Removes(p.states[j], p.moves[j], id)
  {
    hide Next, Possible, Removes;
    if i < k {
      PresentIffNotRemoved(p, i, k - 1, id);
      assert p.Steps(k - 1);
      InterleavingKeeps(p, i);
      UsedGrow(p, i, k - 1, id);
      if id in p.states[k - 1].table {
        RemoveStep(p.states[k - 1], p.moves[k - 1], id);
      } else if id in p.states[k].table {
        InterleavingSafety(p, k - 1, k, id);
      }
    }
  }

  /** The move, if it finds the record, answers a party of `ex` with it: a fetch by initiator
      or responder, or the end of a `respond`. */
  ghost predicate Requests(ex: Exchange, s: Race, m: Move, id: string) {
    || (m.GetReads? && m.id == id && (m.user == ex.initiatorId || m.user == ex.responderId))
    || WritesTo(s, m, id)
  }

  /** The reply to the move shows the record. */
  ghost predicate Shows(s: Race, m: Move, id: string) {
    id in s.table && Requests(s.table[id], s, m, id)
  }

  /** The initiator reads the answered record, and is to discard it. */
  predicate Delivers(s: Race, m: Move, id: string) {
    && m.GetReads? && m.id == id && id in s.table
    && m.user == s.table[id].initiatorId && s.table[id].responderKey.Some?
  }

  /** Under every interleaving, after the delivery the record is shown again if and only if one
      of its parties asks before its deletion or purge. */
  lemma ShownAgainIff(p: Interleaving, i: nat, k: nat, id: string)
    requires p.Valid() && i < k < |p.moves| && Delivers(p.states[i], p.moves[i], id)
    ensures Shows(p.states[k], p.moves[k], id)
            <==> && Requests(p.states[i].table[id], p.states[k], p.moves[k], id)
                 && forall j :: i < j < k ==> !Removes(p.states[j], p.moves[j], id)
  {
    hide Next, Possible, Removes;
    InterleavingKeeps(p, i);
    PresentIffNotRemoved(p, i, k, id);
    assert !Removes(p.states[i], p.moves[i], id) by { ReadsDoNotRemove(p.states[i], p.moves[i], id); }
    if id in p.states[k].table {
      InterleavingSafety(p, i, k, id);
    }
  }

  lemma ReadsDoNotRemove(s: Race, m: Move, id: string)
    requires m.GetReads?
    ensures !Removes(s, m, id)
  {
  }

  /** The deletion stays due until it is done, so that a delivered record goes with it. */
  lemma {:induction false} DeletionStaysDue(p: Interleaving, i: nat, k: nat, id: string)
    requires p.Valid() && i < k < |p.states| && Delivers(p.states[i], p.moves[i], id)
    ensures id in p.states[k].discarding || exists j :: i < j < k && p.moves[j] == GetDeletes(id)
  {
    assert p.Steps(k - 1);
    if i < k - 1 {
      DeletionStaysDue(p, i, k - 1, id);
      hide DecodeKey, RespondChecks, Write;
      if id in p.states[k - 1].discarding && p.moves[k - 1] == GetDeletes(id) {
        assert i < k - 1 < k;
      }
    }
  }

  // ── The other atomic handlers ───────────────────────────────────────────

  /** The atomic fetch shows the record exactly when the read does, and is the read followed at
      once by the deletion if the read delivers, and the read alone if not. */
  lemma AtomicGetIsReadThenDelete(cfg: Config, s: State, auth: Token, id: string, race: Race)
    requires race.table == s.exchanges && AuthUser(cfg, s.now, auth).Ok?
    ensures var read := GetReads(AuthUser(cfg, s.now, auth).value, id);
            var r, o := Next(race, read), GetExchange(cfg, s, auth, id);
            && (o.result.Ok? <==> Shows(race, read, id))
            && r.table == race.table
            && (Delivers(race, read, id) ==>
                  Possible(r, GetDeletes(id)) && Next(r, GetDeletes(id)) == race.(table := o.state.exchanges))
            && (!Delivers(race, read, id) ==> r == race && o.state.exchanges == race.table)
  {
    var read := GetReads(AuthUser(cfg, s.now, auth).value, id);
    if Delivers(race, read, id) {
      assert race.discarding + multiset{id} - multiset{id} == race.discarding;
    }
  }

  lemma AtomicInitiateIsOffer(cfg: Config, s: State, auth: Token, peer: string, key: string, id: string, race: Race)
    requires race.table == s.exchanges && race.now == s.now && AuthUser(cfg, s.now, auth).Ok? && peer in s.users
    ensures Next(race, Offers(AuthUser(cfg, s.now, auth).value, peer, key, id)).table
         == Initiate(cfg, s, auth, peer, key, id).state.exchanges
  {
  }

  lemma AtomicPurgeIsPurge(s: State, race: Race)
    requires race.table == s.exchanges && race.now == s.now
    ensures Next(race, PurgesTable).table == Purge(s).state.exchanges
  {
  }
}
