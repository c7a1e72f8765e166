/** A cached, budgeted request (`request_json` of app/adapters/discovery_base.py, lines 60-73). */
module Discovery {
  import opened Basics
  import opened Ordering
  import opened SourceCache
  import opened Streams

  /** A decoded payload; `null` is a legal JSON value and is not the absence of an entry. */
  datatype Json = Null | Document(content: string)

  datatype Reply = Hit(value: Json) | Fetched(value: Json) | Refused | FetchFailed

  /** One request: its key, the clock at each locked section, and what the server would return. */
  datatype Request = Request(key: string, lookedAt: real, acquiredAt: real, answer: Option<Json>, storedAt: real)

  datatype Client = Client(items: map<string, Entry<Json>>, ledger: Ledger)

  datatype Served = Served(client: Client, reply: Reply)

  datatype Limits = Limits(ttl: real, limit: int, window: real) {
    predicate Valid() { ttl > 0.0 && limit >= 1 && window > 0.0 }
  }

  function Serve(c: Client, r: Request, limits: Limits): Served {
    var looked := Look(c.items, r.key, r.lookedAt);
    if looked.found.Some? && looked.found.value != Null then
      Served(Client(looked.items, c.ledger), Hit(looked.found.value))
    else
      var ledger := Attempt(c.ledger, limits.limit, limits.window, r.acquiredAt);
      if !Granted(c.ledger, limits.limit, limits.window, r.acquiredAt) then
        Served(Client(looked.items, ledger), Refused)
      else
        match r.answer
        case None => Served(Client(looked.items, ledger), FetchFailed)
        case Some(payload) =>
          Served(Client(Put(looked.items, r.key, payload, limits.ttl, r.storedAt), ledger), Fetched(payload))
  }

  /** The adapter holding the shared cache and budget. */
  class DiscoveryAdapter {
    const cache: AsyncTtlCache<Json>
    const budget: SlidingWindowBudget

    constructor (ttl: real, limit: int, window: real)
      requires ttl > 0.0 && limit >= 1 && window > 0.0
      ensures cache.ttlSeconds == ttl && budget.maxRequests == limit && budget.windowSeconds == window
      ensures cache.items == map[] && budget.requests == []
      ensures fresh(cache) && fresh(budget)
    {
      cache := new AsyncTtlCache<Json>(ttl);
      budget := new SlidingWindowBudget(limit, window);
    }

    /** The three awaited steps in sequence. The ghost history is every grant made so far. */
    method RequestJson(r: Request, ghost history: seq<real>) returns (reply: Reply)
      modifies cache`items, budget`requests
      ensures var limits := Limits(cache.ttlSeconds, budget.maxRequests, budget.windowSeconds);
              var served := Serve(Client(old(cache.items), Ledger(old(budget.requests), history)), r, limits);
              && reply == served.reply
              && cache.items == served.client.items
              && budget.requests == served.client.ledger.queue
    {
      hide TryAcquire;
      var cached := cache.Get(r.key, r.lookedAt);
      if cached.Some? && cached.value != Null {
        return Hit(cached.value);
      }
      var granted := budget.Acquire(r.acquiredAt);
      if !granted {
        return Refused;
      }
      match r.answer {
        case None => return FetchFailed;
        case Some(payload) =>
          cache.Set(r.key, payload, r.storedAt);
          return Fetched(payload);
      }
    }
  }

  // ----- Runs of requests

  datatype Session = Session(client: Client, replies: seq<Reply>)

  function Play(requests: seq<Request>, limits: Limits): Session {
    if requests == [] then Session(Client(map[], Ledger([], [])), [])
    else
      var before := Play(requests[..|requests| - 1], limits);
      var served := Serve(before.client, requests[|requests| - 1], limits);
      Session(served.client, before.replies + [served.reply])
  }

  // ----- Interleaved requests

  /** One atomic section of the request `id`: its lookup, its turn at the budget, or the arrival of
      the server's answer with the store that follows. */
  datatype Move =
    | Asks(id: nat, key: string, at: real)
    | Acquires(id: nat, at: real)
    | Answers(id: nat, answer: Option<Json>, at: real)

  /** Where an open request waits: for the budget after a miss, or for the server. */
  datatype Phase = Missed(key: string) | Calling(key: string)

  /** What a move did; a move of a request that is not waiting for it does nothing. */
  datatype Note = Idle | Waits | Calls | Replied(key: string, reply: Reply)

  datatype Room = Room(client: Client, open: map<nat, Phase>, notes: seq<Note>) {
    function Noted(note: Note): Room { this.(notes := notes + [note]) }
  }

  function Step(room: Room, move: Move, limits: Limits): Room {
    match move
    case Asks(id, key, at) => StepAsks(room, id, key, at)
    case Acquires(id, at) => StepAcquires(room, id, at, limits)
    case Answers(id, answer, at) => StepAnswers(room, id, answer, at, limits.ttl)
  }

  function StepAsks(room: Room, id: nat, key: string, at: real): Room {
    if id in room.open then room.Noted(Idle)
    else
      var looked := Look(room.client.items, key, at);
      var after := room.(client := room.client.(items := looked.items));
      if looked.found.Some? && looked.found.value != Null then after.Noted(Replied(key, Hit(looked.found.value)))
      else after.(open := room.open[id := Missed(key)]).Noted(Waits)
  }

  function StepAcquires(room: Room, id: nat, at: real, limits: Limits): Room {
    if id !in room.open || !room.open[id].Missed? then room.Noted(Idle)
    else
      var key, ledger := room.open[id].key, room.client.ledger;
      var after := room.(client := room.client.(ledger := Attempt(ledger, limits.limit, limits.window, at)));
      if Granted(ledger, limits.limit, limits.window, at) then
        after.(open := room.open[id := Calling(key)]).Noted(Calls)
      else after.(open := room.open - {id}).Noted(Replied(key, Refused))
  }

  function StepAnswers(room: Room, id: nat, answer: Option<Json>, at: real, ttl: real): Room {
    if id !in room.open || !room.open[id].Calling? then room.Noted(Idle)
    else
      var key, items := room.open[id].key, room.client.items;
      var after := room.(open := room.open - {id});
      match answer
      case None => after.Noted(Replied(key, FetchFailed))
      case Some(payload) =>
        after.(client := room.client.(items := Put(items, key, payload, ttl, at))).Noted(Replied(key, Fetched(payload)))
  }

  function Run(moves: seq<Move>, limits: Limits): Room {
    if moves == [] then Room(Client(map[], Ledger([], [])), map[], [])
    else Step(Run(moves[..|moves| - 1], limits), moves[|moves| - 1], limits)
  }

  /** One clock, read once in every section, that never goes back. */
  ghost predicate ClockForward(moves: seq<Move>) {
    forall i, j :: 0 <= i <= j < |moves| ==> moves[i].at <= moves[j].at
  }

  lemma StepNotes(room: Room, move: Move, limits: Limits)
    ensures var notes := Step(room, move, limits).notes;
            |notes| == |room.notes| + 1 && notes[..|room.notes|] == room.notes
  {
    hide Look, Attempt, Granted, Put;
  }

  /** Every move leaves one note and the notes of a prefix are a prefix. */
  lemma {:induction false} NotesGrow(moves: seq<Move>, limits: Limits, n: nat)
    requires n <= |moves|
    ensures |Run(moves, limits).notes| == |moves|
    ensures Run(moves[..n], limits).notes == Run(moves, limits).notes[..n]
    decreases |moves|
  {
    hide Step;
    if moves != [] {
      var last := |moves| - 1;
      NotesGrow(moves[..last], limits, if n <= last then n else last);
      StepNotes(Run(moves[..last], limits), moves[last], limits);
      if n <= last {
        assert moves[..last][..n] == moves[..n];
      } else {
        assert moves[..n] == moves;
      }
    }
  }

  // ----- The budget over a run

  predicate TriesBudget(note: Note) { note == Calls || (note.Replied? && note.reply == Refused) }

  /** The moments at which the moves whose note satisfies `p` were made. */
  function TimesOf(moves: seq<Move>, notes: seq<Note>, p: Note -> bool): seq<real>
    requires |moves| == |notes|
  {
    if moves == [] then []
    else
      var last := |moves| - 1;
      TimesOf(moves[..last], notes[..last], p) + if p(notes[last]) then [moves[last].at] else []
  }

  /** The moments at which requests of a run were sent to the server. */
  function CallTimes(moves: seq<Move>, notes: seq<Note>): seq<real>
    requires |moves| == |notes|
  {
    TimesOf(moves, notes, (note: Note) => note == Calls)
  }

  /** A move either tries the budget, and is granted exactly when the request goes out, or leaves
      the ledger alone. */
  lemma StepLedger(room: Room, move: Move, limits: Limits)
    ensures var after := Step(room, move, limits);
            var note := after.notes[|room.notes|];
            var ledger := room.client.ledger;
            && after.notes == room.notes + [note]
            && (note == Calls <==> TriesBudget(note) && Granted(ledger, limits.limit, limits.window, move.at))
            && after.client.ledger == if TriesBudget(note) then Attempt(ledger, limits.limit, limits.window, move.at) else ledger
  {
    hide Look, Attempt, Granted, Put;
  }

  /** The ledger of a run is the ledger of its attempts, and its grants are the calls. */
  lemma {:induction false} LedgerOfRun(moves: seq<Move>, limits: Limits)
    ensures var room := Run(moves, limits);
            && |room.notes| == |moves|
            && room.client.ledger == AfterAll(TimesOf(moves, room.notes, TriesBudget), limits.limit, limits.window)
            && room.client.ledger.history == CallTimes(moves, room.notes)
  {
    hide Step, TriesBudget, TryAcquire;
    if moves != [] {
      var last := |moves| - 1;
      var before, after := Run(moves[..last], limits), Run(moves, limits);
      LedgerOfRun(moves[..last], limits);
      StepLedger(before, moves[last], limits);
      assert after.notes[..last] == before.notes;
      var tries, now := TimesOf(moves[..last], before.notes, TriesBudget), moves[last].at;
      assert (tries + [now])[..|tries|] == tries;
      assert tries + [] == tries;
    }
  }

  lemma {:induction false} TimesAscend(moves: seq<Move>, notes: seq<Note>, p: Note -> bool)
    requires |moves| == |notes| && ClockForward(moves)
    ensures Ascending(TimesOf(moves, notes, p))
    ensures forall x :: x in TimesOf(moves, notes, p) ==> moves != [] && x <= moves[|moves| - 1].at
  {
    if moves != [] {
      var last := |moves| - 1;
      TimesAscend(moves[..last], notes[..last], p);
      var times := TimesOf(moves[..last], notes[..last], p);
      assert forall i :: 0 <= i < |times| ==> times[i] in times;
      assert last > 0 ==> moves[last - 1].at <= moves[last].at;
    }
  }

  /** However the sections of any number of requests interleave, no window holds more network calls
      than the limit. */
  lemma NetworkBound(moves: seq<Move>, limits: Limits, t: real)
    requires limits.Valid() && ClockForward(moves)
    ensures |Run(moves, limits).notes| == |moves|
    ensures Tally(CallTimes(moves, Run(moves, limits).notes), Within(limits.window, t)) <= limits.limit
  {
    hide Run, AfterAll, TimesOf, CallTimes;
    LedgerOfRun(moves, limits);
    var notes := Run(moves, limits).notes;
    TimesAscend(moves, notes, TriesBudget);
    WindowBound(TimesOf(moves, notes, TriesBudget), limits.limit, limits.window, t);
  }

  // ----- The cache over a run

  predicate Fetches(note: Note, key: string) { note.Replied? && note.key == key && note.reply.Fetched? }

  /** What a move did to the cache. */
  function OpOf(move: Move, note: Note): CacheOp<Json> {
    if note.Replied? && note.reply.Fetched? then Stored(note.key, note.reply.value, move.at)
    else if move.Asks? && note != Idle then Looked(move.key, move.at)
    else Passed(move.at)
  }

  function Ops(moves: seq<Move>, notes: seq<Note>): seq<CacheOp<Json>>
    requires |moves| == |notes|
  {
    seq(|moves|, i requires 0 <= i < |moves| => OpOf(moves[i], notes[i]))
  }

  lemma StepItems(room: Room, move: Move, limits: Limits)
    ensures var after := Step(room, move, limits);
            var note := after.notes[|room.notes|];
            && after.notes == room.notes + [note]
            && after.client.items == Apply(room.client.items, OpOf(move, note), limits.ttl)
  {
    hide Attempt, Granted, Look, Put;
  }

  lemma {:induction false} ItemsOfRun(moves: seq<Move>, limits: Limits)
    ensures var room := Run(moves, limits);
            && |room.notes| == |moves|
            && room.client.items == ItemsAfter(Ops(moves, room.notes), limits.ttl)
  {
    hide Step, Apply, OpOf;
    if moves != [] {
      var last := |moves| - 1;
      var before, after := Run(moves[..last], limits), Run(moves, limits);
      ItemsOfRun(moves[..last], limits);
      StepItems(before, moves[last], limits);
      assert Ops(moves, after.notes)[..last] == Ops(moves[..last], before.notes);
    }
  }

  /** Note `i` stored the payload `v` of the key, and no later note before `n` stored another. */
  ghost predicate LastFetch(notes: seq<Note>, key: string, v: Json, i: int, n: int) {
    && 0 <= i < n <= |notes| && notes[i] == Replied(key, Fetched(v))
    && forall j :: i < j < n ==> !Fetches(notes[j], key)
  }

  lemma FetchGoverns(moves: seq<Move>, notes: seq<Note>, key: string, i: int)
    requires |moves| == |notes|
    ensures Governs(Ops(moves, notes), key, i) <==>
              0 <= i < |notes| && Fetches(notes[i], key) && LastFetch(notes, key, notes[i].reply.value, i, |notes|)
  {
    var ops := Ops(moves, notes);
    forall j | 0 <= j < |ops|
      ensures !ops[j].Cleared? && (ops[j].Stored? && ops[j].key == key <==> Fetches(notes[j], key))
    {
      assert ops[j] == OpOf(moves[j], notes[j]);
    }
  }

  /** A lookup after a run finds `v` exactly when `v` is the last payload stored for the key and it
      has not expired. */
  lemma LookFinds(moves: seq<Move>, notes: seq<Note>, ttl: real, key: string, at: real, v: Json)
    requires |moves| == |notes| && ClockForward(moves) && (moves != [] ==> moves[|moves| - 1].at <= at)
    ensures Look(ItemsAfter(Ops(moves, notes), ttl), key, at).found == Some(v) <==>
              exists i :: LastFetch(notes, key, v, i, |moves|) && moves[i].at + ttl > at
  {
    hide ItemsAfter, Look, Governs, Fetches;
    var ops := Ops(moves, notes);
    assert forall i :: 0 <= i < |ops| ==> ops[i].at == moves[i].at;
    LookupExact(ops, ttl, key, at);
    var found := Look(ItemsAfter(ops, ttl), key, at).found;
    forall i
      ensures Governs(ops, key, i) ==>
                0 <= i < |ops| && ops[i].Stored? && LastFetch(notes, key, ops[i].value, i, |moves|)
      ensures LastFetch(notes, key, v, i, |moves|) && moves[i].at + ttl > at ==> found == Some(v)
    {
      FetchGoverns(moves, notes, key, i);
      if LastFetch(notes, key, v, i, |moves|) {
        FetchedFetches(notes[i], key, v);
        assert ops[i] == OpOf(moves[i], notes[i]);
      } else if Governs(ops, key, i) {
        assert ops[i] == OpOf(moves[i], notes[i]);
      }
    }
  }

  lemma FetchedFetches(note: Note, key: string, v: Json)
    requires note == Replied(key, Fetched(v))
    ensures Fetches(note, key)
  {
  }

  /** Over every interleaving, the lookup of a request that is not under way is answered from the
      cache with `v` exactly when `v` is not null and is the last payload fetched for the key, by
      any request, and the time to live has not passed since it was stored. */
  lemma ServedFromCache(moves: seq<Move>, limits: Limits, n: nat, v: Json)
    requires ClockForward(moves) && n < |moves| && moves[n].Asks?
    requires moves[n].id !in Run(moves[..n], limits).open
    ensures var notes := Run(moves, limits).notes;
            && |notes| == |moves|
            && (notes[n] == Replied(moves[n].key, Hit(v)) <==>
                  v != Null && exists i :: LastFetch(notes, moves[n].key, v, i, n) && moves[i].at + limits.ttl > moves[n].at)
  {
    hide LastFetch, Run, Step;
    var before, notes := Run(moves[..n], limits), Run(moves, limits).notes;
    var key, at := moves[n].key, moves[n].at;
    NotesGrow(moves, limits, n);
    NotesGrow(moves, limits, n + 1);
    RunStep(moves, limits, n);
    LookNoted(before, moves[n], limits, v);
    assert notes[n] == notes[..n + 1][n];
    LookAnswers(moves[..n], limits, key, at, v);
    forall i ensures LastFetch(notes, key, v, i, n) <==> LastFetch(before.notes, key, v, i, n) {
      FetchOfPrefix(notes, key, v, i, n);
    }
    forall i ensures LastFetch(notes, key, v, i, n) ==> 0 <= i < n {
      FetchInRange(notes, key, v, i, n);
    }
  }

  lemma LookAnswers(moves: seq<Move>, limits: Limits, key: string, at: real, v: Json)
    requires ClockForward(moves) && (moves != [] ==> moves[|moves| - 1].at <= at)
    ensures var room := Run(moves, limits);
            && |room.notes| == |moves|
            && (Look(room.client.items, key, at).found == Some(v) <==>
                  exists i :: LastFetch(room.notes, key, v, i, |moves|) && moves[i].at + limits.ttl > at)
  {
    hide Run, Look, ItemsAfter, LastFetch, Ops;
    ItemsOfRun(moves, limits);
    var notes := Run(moves, limits).notes;
    forall i ensures LastFetch(notes, key, v, i, |moves|) ==> 0 <= i < |moves| {
      FetchInRange(notes, key, v, i, |moves|);
    }
    LookFinds(moves, notes, limits.ttl, key, at, v);
  }

  lemma RunStep(moves: seq<Move>, limits: Limits, n: nat)
    requires n < |moves|
    ensures Run(moves[..n + 1], limits) == Step(Run(moves[..n], limits), moves[n], limits)
  {
    hide Step;
    assert moves[..n + 1][..n] == moves[..n];
  }

  lemma FetchInRange(notes: seq<Note>, key: string, v: Json, i: int, n: int)
    ensures LastFetch(notes, key, v, i, n) ==> 0 <= i < n <= |notes|
  {
  }

  lemma LookNoted(room: Room, move: Move, limits: Limits, v: Json)
    requires move.Asks? && move.id !in room.open
    ensures var notes := Step(room, move, limits).notes;
            && |notes| == |room.notes| + 1
            && (notes[|room.notes|] == Replied(move.key, Hit(v)) <==>
                  v != Null && Look(room.client.items, move.key, move.at).found == Some(v))
  {
    hide Look;
  }

  lemma FetchOfPrefix(notes: seq<Note>, key: string, v: Json, i: int, n: nat)
    requires n <= |notes|
    ensures LastFetch(notes, key, v, i, n) <==> LastFetch(notes[..n], key, v, i, n)
  {
    assert forall j :: 0 <= j < n ==> notes[..n][j] == notes[j];
  }

  // ----- One request at a time

  function MovesFor(id: nat, r: Request): seq<Move> {
    [Asks(id, r.key, r.lookedAt), Acquires(id, r.acquiredAt), Answers(id, r.answer, r.storedAt)]
  }

  function MovesOf(requests: seq<Request>): seq<Move> {
    if requests == [] then []
    else MovesOf(requests[..|requests| - 1]) + MovesFor(0, requests[|requests| - 1])
  }

  /** What the three sections of a request leave when nothing comes between them. */
  function NotesFor(key: string, reply: Reply): seq<Note> {
    match reply
    case Hit(_) => [Replied(key, reply), Idle, Idle]
    case Refused => [Waits, Replied(key, reply), Idle]
    case _ => [Waits, Calls, Replied(key, reply)]
  }

  function Steps(room: Room, m: seq<Move>, limits: Limits): Room
    requires |m| == 3
  {
    Step(Step(Step(room, m[0], limits), m[1], limits), m[2], limits)
  }

  /** `Serve` is the three moves of one request, whatever other requests are under way. */
  lemma ServeIsThreeMoves(room: Room, id: nat, r: Request, limits: Limits)
    requires id !in room.open
    ensures var served := Serve(room.client, r, limits);
            Steps(room, MovesFor(id, r), limits) == Room(served.client, room.open, room.notes + NotesFor(r.key, served.reply))
  {
    hide Look, Attempt, Granted, Put;
    var asked := StepAsks(room, id, r.key, r.lookedAt);
    var acquired := StepAcquires(asked, id, r.acquiredAt, limits);
    var served := Serve(room.client, r, limits);
    assert room.open[id := Missed(r.key)] - {id} == room.open;
    if served.reply.Hit? {
      assert acquired == asked.Noted(Idle);
    } else if served.reply == Refused {
      assert acquired.open == room.open;
    } else {
      assert acquired.open == room.open[id := Calling(r.key)];
      assert acquired.open - {id} == room.open;
    }
  }

  lemma RunThree(moves: seq<Move>, m: seq<Move>, limits: Limits)
    requires |m| == 3
    ensures Run(moves + m, limits) == Steps(Run(moves, limits), m, limits)
  {
    hide Step;
    var all, n := moves + m, |moves|;
    assert all[..n] == moves && all[..n + 3] == all;
    RunStep(all, limits, n);
    RunStep(all, limits, n + 1);
    RunStep(all, limits, n + 2);
  }

  /** Three notes for each request, those of its reply. */
  ghost predicate Aligned(requests: seq<Request>, replies: seq<Reply>, notes: seq<Note>) {
    && |replies| == |requests| && |notes| == 3 * |requests|
    && forall k :: 0 <= k < |requests| ==> notes[3 * k..3 * k + 3] == NotesFor(requests[k].key, replies[k])
  }

  lemma AlignedGrows(requests: seq<Request>, replies: seq<Reply>, notes: seq<Note>, r: Request, reply: Reply)
    requires Aligned(requests, replies, notes)
    ensures Aligned(requests + [r], replies + [reply], notes + NotesFor(r.key, reply))
  {
    hide NotesFor;
    NotesForLength(r.key, reply);
    var n, last := |requests|, NotesFor(r.key, reply);
    var more := notes + last;
    forall k | 0 <= k < n + 1
      ensures more[3 * k..3 * k + 3] == NotesFor((requests + [r])[k].key, (replies + [reply])[k])
    {
      if k < n {
        SliceKept(notes, last, 3 * k, 3 * k + 3);
        assert (requests + [r])[k] == requests[k] && (replies + [reply])[k] == replies[k];
      } else {
        SliceAdded(notes, last);
      }
    }
  }

  lemma SliceKept<T>(a: seq<T>, b: seq<T>, lo: nat, hi: nat)
    requires lo <= hi <= |a|
    ensures (a + b)[lo..hi] == a[lo..hi]
  {
  }

  lemma SliceAdded<T>(a: seq<T>, b: seq<T>)
    ensures (a + b)[|a|..|a| + |b|] == b
  {
  }

  lemma NotesForLength(key: string, reply: Reply)
    ensures |NotesFor(key, reply)| == 3
  {
  }

  /** A run of whole requests is the interleaving without overlap. */
  lemma {:induction false} PlayIsRun(requests: seq<Request>, limits: Limits)
    ensures var room, session := Run(MovesOf(requests), limits), Play(requests, limits);
            room.client == session.client && room.open == map[] && Aligned(requests, session.replies, room.notes)
  {
    hide Serve, Step, Steps, NotesFor, MovesFor, Aligned;
    if requests == [] {
      AlignedEmpty();
    } else {
      var last := |requests| - 1;
      var front, r := requests[..last], requests[last];
      PlayIsRun(front, limits);
      var room, before := Run(MovesOf(front), limits), Play(front, limits);
      MovesForLength(0, r);
      RunThree(MovesOf(front), MovesFor(0, r), limits);
      ServeIsThreeMoves(room, 0, r, limits);
      AlignedGrows(front, before.replies, room.notes, r, Serve(before.client, r, limits).reply);
      assert front + [r] == requests;
    }
  }

  lemma AlignedEmpty()
    ensures Aligned([], [], [])
  {
  }

  lemma MovesForLength(id: nat, r: Request)
    ensures |MovesFor(id, r)| == 3
  {
  }

  /** One clock through all requests: looked up, then acquired, then stored, then the next. */
  ghost predicate InOrder(requests: seq<Request>) {
    && (forall i :: 0 <= i < |requests| ==> requests[i].lookedAt <= requests[i].acquiredAt <= requests[i].storedAt)
    && (forall i, j :: 0 <= i < j < |requests| ==> requests[i].storedAt <= requests[j].lookedAt)
  }

  lemma {:induction false} MovesAt(requests: seq<Request>, k: nat)
    requires k < |requests|
    ensures |MovesOf(requests)| == 3 * |requests| && MovesOf(requests)[3 * k..3 * k + 3] == MovesFor(0, requests[k])
  {
    hide MovesFor;
    var last := |requests| - 1;
    var front, m := requests[..last], MovesOf(requests);
    MovesForLength(0, requests[last]);
    if last > 0 {
      MovesAt(front, if k < last then k else 0);
    }
    assert m[..3 * last] == MovesOf(front);
    if k < last {
      assert m[3 * k..3 * k + 3] == MovesOf(front)[3 * k..3 * k + 3];
    }
  }

  /** The move at `i` lies within the span of its request. */
  lemma MoveSpan(requests: seq<Request>, i: nat)
    requires InOrder(requests) && i < 3 * |requests|
    ensures |MovesOf(requests)| == 3 * |requests|
    ensures requests[i / 3].lookedAt <= MovesOf(requests)[i].at <= requests[i / 3].storedAt
    ensures MovesOf(requests)[i] == MovesFor(0, requests[i / 3])[i % 3]
  {
    var k := i / 3;
    MovesAt(requests, k);
    assert MovesOf(requests)[i] == MovesOf(requests)[3 * k..3 * k + 3][i % 3];
  }

  lemma MovesInOrder(requests: seq<Request>)
    requires InOrder(requests)
    ensures ClockForward(MovesOf(requests))
  {
    hide MovesOf, MovesFor;
    var m := MovesOf(requests);
    if requests == [] {
      NoMoves();
    } else {
      MoveSpan(requests, 0);
    }
    forall i, j | 0 <= i <= j < |m| ensures m[i].at <= m[j].at {
      MoveSpan(requests, i);
      MoveSpan(requests, j);
      if i / 3 == j / 3 {
        SpanAscends(requests[i / 3], i % 3, j % 3);
      }
    }
  }

  lemma NoMoves()
    ensures MovesOf([]) == []
  {
  }

  lemma SpanAscends(r: Request, i: nat, j: nat)
    requires r.lookedAt <= r.acquiredAt <= r.storedAt && i <= j < 3
    ensures MovesFor(0, r)[i].at <= MovesFor(0, r)[j].at
  {
  }

  /** Request `i` fetched the payload `v` of the key, and no later one before `n` fetched another. */
  ghost predicate LastFetched(requests: seq<Request>, replies: seq<Reply>, key: string, v: Json, i: int, n: int) {
    && 0 <= i < n <= |requests| && |replies| == |requests| && requests[i].key == key && replies[i] == Fetched(v)
    && forall j :: i < j < n ==> !(requests[j].key == key && replies[j].Fetched?)
  }

  lemma NoteAt(requests: seq<Request>, replies: seq<Reply>, notes: seq<Note>, i: nat)
    requires Aligned(requests, replies, notes) && i < |notes|
    ensures |replies| == |requests| && |notes| == 3 * |requests|
    ensures notes[i] == NotesFor(requests[i / 3].key, replies[i / 3])[i % 3]
  {
    var k := i / 3;
    assert notes[i] == notes[3 * k..3 * k + 3][i % 3];
    assert requests[k] == requests[i / 3];
  }

  /** Only the third note of a request can be a fetch, and it is exactly when its reply is. */
  lemma NoteFetches(requests: seq<Request>, replies: seq<Reply>, notes: seq<Note>, key: string, i: nat)
    requires Aligned(requests, replies, notes) && i < |notes|
    ensures |replies| == |requests| && |notes| == 3 * |requests|
    ensures Fetches(notes[i], key) <==> i % 3 == 2 && requests[i / 3].key == key && replies[i / 3].Fetched?
    ensures Fetches(notes[i], key) ==> notes[i] == Replied(key, replies[i / 3])
  {
    NoteAt(requests, replies, notes, i);
  }

  lemma FetchOfRequest(requests: seq<Request>, replies: seq<Reply>, notes: seq<Note>, key: string, v: Json, i: int, n: nat)
    requires Aligned(requests, replies, notes) && n <= |requests|
    ensures LastFetch(notes, key, v, i, 3 * n) ==> i % 3 == 2 && LastFetched(requests, replies, key, v, i / 3, n)
  {
    hide Aligned, Fetches;
    if LastFetch(notes, key, v, i, 3 * n) {
      FetchedFetches(notes[i], key, v);
      NoteFetches(requests, replies, notes, key, i);
      forall j | i / 3 < j < n ensures !(requests[j].key == key && replies[j].Fetched?) {
        NoteFetches(requests, replies, notes, key, 3 * j + 2);
        assert (3 * j + 2) / 3 == j;
      }
    }
  }

  lemma RequestOfFetch(requests: seq<Request>, replies: seq<Reply>, notes: seq<Note>, key: string, v: Json, i: int, n: nat)
    requires Aligned(requests, replies, notes) && n <= |requests| && LastFetched(requests, replies, key, v, i, n)
    ensures LastFetch(notes, key, v, 3 * i + 2, 3 * n)
  {
    assert |notes| == 3 * |requests|;
    hide Aligned, Fetches;
    assert (3 * i + 2) / 3 == i;
    NoteFetches(requests, replies, notes, key, 3 * i + 2);
    forall j | 3 * i + 2 < j < 3 * n ensures !Fetches(notes[j], key) {
      NoteFetches(requests, replies, notes, key, j);
    }
  }

  /** One request at a time: reply `n` is a cache hit with `v` exactly when `v` is not null, the last
      payload fetched for the key was `v`, and the time to live has not passed since it was stored. */
  lemma ServedExactly(requests: seq<Request>, limits: Limits, n: nat, v: Json)
    requires InOrder(requests) && n < |requests|
    ensures var replies := Play(requests, limits).replies;
            && |replies| == |requests|
            && (replies[n] == Hit(v) <==>
                  v != Null && exists i :: LastFetched(requests, replies, requests[n].key, v, i, n)
                                           && requests[i].storedAt + limits.ttl > requests[n].lookedAt)
  {
    hide Play, Run, Step, Aligned, LastFetch, LastFetched, MovesOf, ClockForward, InOrder;
    var moves, replies := MovesOf(requests), Play(requests, limits).replies;
    var notes, key := Run(moves, limits).notes, requests[n].key;
    PlayIsRun(requests, limits);
    MovesInOrder(requests);
    MoveSpan(requests, 3 * n);
    PrefixMoves(requests, n);
    PlayIsRun(requests[..n], limits);
    ServedFromCache(moves, limits, 3 * n, v);
    NoteAt(requests, replies, notes, 3 * n);
    FreshFetches(requests, replies, notes, limits.ttl, key, v, n);
  }

  /** A fresh last fetch among the notes of a run is one among its replies. */
  lemma FreshFetches(requests: seq<Request>, replies: seq<Reply>, notes: seq<Note>, ttl: real, key: string, v: Json, n: nat)
    requires Aligned(requests, replies, notes) && InOrder(requests) && n < |requests|
    ensures |MovesOf(requests)| == |notes|
    ensures (exists i :: LastFetch(notes, key, v, i, 3 * n) && MovesOf(requests)[i].at + ttl > requests[n].lookedAt)
       <==> (exists i :: LastFetched(requests, replies, key, v, i, n) && requests[i].storedAt + ttl > requests[n].lookedAt)
  {
    assert |notes| == 3 * |requests|;
    hide Aligned, InOrder, LastFetch, LastFetched, MovesOf;
    PrefixMoves(requests, n);
    forall i ensures LastFetch(notes, key, v, i, 3 * n) ==>
        0 <= i < 3 * n && LastFetched(requests, replies, key, v, i / 3, n) && MovesOf(requests)[i].at == requests[i / 3].storedAt
    {
      FetchToRequest(requests, replies, notes, key, v, i, n);
    }
    forall i ensures LastFetched(requests, replies, key, v, i, n) ==>
        0 <= i < n && LastFetch(notes, key, v, 3 * i + 2, 3 * n) && MovesOf(requests)[3 * i + 2].at == requests[i].storedAt
    {
      RequestToFetch(requests, replies, notes, key, v, i, n);
    }
  }

  lemma FetchToRequest(requests: seq<Request>, replies: seq<Reply>, notes: seq<Note>, key: string, v: Json, i: int, n: nat)
    requires Aligned(requests, replies, notes) && InOrder(requests) && n < |requests| && |MovesOf(requests)| == 3 * |requests|
    ensures LastFetch(notes, key, v, i, 3 * n) ==>
              0 <= i < 3 * n && LastFetched(requests, replies, key, v, i / 3, n) && MovesOf(requests)[i].at == requests[i / 3].storedAt
  {
    hide Aligned, InOrder, LastFetch, LastFetched, MovesOf;
    FetchInRange(notes, key, v, i, 3 * n);
    if LastFetch(notes, key, v, i, 3 * n) {
      FetchOfRequest(requests, replies, notes, key, v, i, n);
      MoveSpan(requests, i);
    }
  }

  lemma RequestToFetch(requests: seq<Request>, replies: seq<Reply>, notes: seq<Note>, key: string, v: Json, i: int, n: nat)
    requires Aligned(requests, replies, notes) && InOrder(requests) && n < |requests| && |MovesOf(requests)| == 3 * |requests|
    ensures LastFetched(requests, replies, key, v, i, n) ==>
              0 <= i < n && LastFetch(notes, key, v, 3 * i + 2, 3 * n) && MovesOf(requests)[3 * i + 2].at == requests[i].storedAt
  {
    hide Aligned, InOrder, LastFetch, LastFetched, MovesOf;
    FetchedInRange(requests, replies, key, v, i, n);
    if LastFetched(requests, replies, key, v, i, n) {
      RequestOfFetch(requests, replies, notes, key, v, i, n);
      MoveSpan(requests, 3 * i + 2);
    }
  }

  lemma FetchedInRange(requests: seq<Request>, replies: seq<Reply>, key: string, v: Json, i: int, n: int)
    ensures LastFetched(requests, replies, key, v, i, n) ==> 0 <= i < n <= |requests|
  {
  }

  lemma {:induction false} PrefixMoves(requests: seq<Request>, n: nat)
    requires n <= |requests|
    ensures |MovesOf(requests)| == 3 * |requests| && MovesOf(requests)[..3 * n] == MovesOf(requests[..n])
  {
    hide MovesFor;
    if n == |requests| {
      assert requests[..n] == requests;
      if n > 0 {
        MovesAt(requests, 0);
      }
    } else {
      var last := |requests| - 1;
      PrefixMoves(requests[..last], n);
      MovesForLength(0, requests[last]);
      assert requests[..last][..n] == requests[..n];
    }
  }

  /** A null payload is stored and then fetched again. */
  lemma NullFetchedTwice()
    ensures var first := Request("new-listings", 0.0, 0.0, Some(Null), 0.0);
            var second := Request("new-listings", 1.0, 1.0, Some(Null), 1.0);
            Play([first, second], Limits(60.0, 10, 60.0)).replies == [Fetched(Null), Fetched(Null)]
  {
    var first := Request("new-listings", 0.0, 0.0, Some(Null), 0.0);
    var second := Request("new-listings", 1.0, 1.0, Some(Null), 1.0);
    var limits, both := Limits(60.0, 10, 60.0), [first, second];
    assert both[..1] == [first] && [first][..0] == [];
    var start := Play([], limits).client;
    var once := Serve(start, first, limits);
    assert once.reply == Fetched(Null) && once.client.ledger.queue == [0.0];
    assert Play([first], limits) == Session(once.client, [once.reply]);
    var twice := Serve(once.client, second, limits);
    assert Prune([0.0], 1.0 - 60.0) == [0.0];
    assert twice.reply == Fetched(Null);
    assert Play(both, limits).replies == [once.reply] + [twice.reply];
  }

  // ----- What each section of a request does

  /** A request waiting for the budget goes out exactly when fewer calls than the limit lie in the
      window that ends now, and is refused otherwise. */
  lemma GrantedExactly(moves: seq<Move>, limits: Limits, id: nat, at: real)
    requires limits.Valid() && ClockForward(moves + [Acquires(id, at)])
    requires id in Run(moves, limits).open && Run(moves, limits).open[id].Missed?
    ensures var room, after := Run(moves, limits), Run(moves + [Acquires(id, at)], limits);
            && |room.notes| == |moves|
            && after.notes == room.notes + [if Tally(CallTimes(moves, room.notes), Within(limits.window, at)) < limits.limit
                                            then Calls else Replied(room.open[id].key, Refused)]
  {
    hide CallTimes, Tally, Attempt, Granted, AfterAll, TimesOf;
    var room, more := Run(moves, limits), moves + [Acquires(id, at)];
    assert more[..|moves|] == moves;
    assert forall i :: 0 <= i < |moves| ==> more[i] == moves[i];
    assert moves != [] ==> more[|moves| - 1].at <= more[|moves|].at;
    LedgerOfRun(moves, limits);
    TimesAscend(moves, room.notes, TriesBudget);
    GrantOfTimes(TimesOf(moves, room.notes, TriesBudget), limits, at);
  }

  lemma GrantOfTimes(times: seq<real>, limits: Limits, at: real)
    requires limits.Valid() && Ascending(times) && forall x :: x in times ==> x <= at
    ensures var l := AfterAll(times, limits.limit, limits.window);
            Granted(l, limits.limit, limits.window, at) <==> Tally(l.history, Within(limits.window, at)) < limits.limit
  {
    hide Tally, Faithful, AfterAll, Granted;
    BudgetFaithful(times, limits.limit, limits.window);
    var l := AfterAll(times, limits.limit, limits.window);
    if times == [] {
      NothingGranted(limits, at);
      EmptyFaithful(limits.window, at);
      AcquireExact(l, limits.limit, limits.window, at, at);
    } else {
      assert times[|times| - 1] in times;
      AcquireExact(l, limits.limit, limits.window, times[|times| - 1], at);
    }
  }

  lemma NothingGranted(limits: Limits, at: real)
    ensures AfterAll([], limits.limit, limits.window) == Ledger([], [])
  {
  }

  /** An answer ends the request of the call it belongs to: a payload is stored and returned, an
      error is passed on; nothing else is touched. */
  lemma AnsweredExactly(room: Room, limits: Limits, id: nat, answer: Option<Json>, at: real)
    requires id in room.open && room.open[id].Calling?
    ensures var after, key := Step(room, Answers(id, answer, at), limits), room.open[id].key;
            && id !in after.open && (forall other :: other != id ==> (other in after.open <==> other in room.open))
            && (forall other :: other in after.open ==> after.open[other] == room.open[other])
            && after.client.ledger == room.client.ledger
            && (answer.None? ==> after.client.items == room.client.items && after.notes == room.notes + [Replied(key, FetchFailed)])
            && (answer.Some? ==>
                  && after.notes == room.notes + [Replied(key, Fetched(answer.value))]
                  && key in after.client.items && after.client.items[key] == Entry(answer.value, at + limits.ttl)
                  && after.client.items - {key} == room.client.items - {key})
  {
  }
}
