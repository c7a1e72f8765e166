/** The request budget and the TTL cache, against their full histories
    (app/adapters/source_cache.py). */
module SourceCache {
  import opened Basics
  import opened Ordering
  import opened Streams

  // ----- The sliding-window budget

  /** Drops the leading grants at or before the boundary. */
  function Prune(queue: seq<real>, boundary: real): seq<real> {
    if queue != [] && queue[0] <= boundary then Prune(queue[1..], boundary) else queue
  }

  datatype Verdict = Verdict(queue: seq<real>, granted: bool)

  function TryAcquire(queue: seq<real>, limit: int, window: real, now: real): Verdict {
    var kept := Prune(queue, now - window);
    if |kept| >= limit then Verdict(kept, false) else Verdict(kept + [now], true)
  }

  class SlidingWindowBudget {
    const maxRequests: int
    const windowSeconds: real
    var requests: seq<real>

    constructor (maxRequests: int, windowSeconds: real)
      requires maxRequests >= 1 && windowSeconds > 0.0
      ensures this.maxRequests == maxRequests && this.windowSeconds == windowSeconds && requests == []
    {
      this.maxRequests, this.windowSeconds, requests := maxRequests, windowSeconds, [];
    }

    /** The locked section, with its pruning loop; `false` stands for the raised error. */
    method Acquire(now: real) returns (granted: bool)
      modifies this`requests
      ensures Verdict(requests, granted) == TryAcquire(old(requests), maxRequests, windowSeconds, now)
    {
      var boundary := now - windowSeconds;
      while requests != [] && requests[0] <= boundary
        invariant Prune(requests, boundary) == Prune(old(requests), boundary)
        decreases |requests|
      {
        requests := requests[1..];
      }
      if |requests| >= maxRequests {
        return false;
      }
      requests := requests + [now];
      return true;
    }
  }

  /** The queue the object keeps, beside every grant it ever made. */
  datatype Ledger = Ledger(queue: seq<real>, history: seq<real>)

  function Attempt(l: Ledger, limit: int, window: real, now: real): Ledger {
    var v := TryAcquire(l.queue, limit, window, now);
    Ledger(v.queue, if v.granted then l.history + [now] else l.history)
  }

  function Granted(l: Ledger, limit: int, window: real, now: real): bool {
    TryAcquire(l.queue, limit, window, now).granted
  }

  function AfterAll(times: seq<real>, limit: int, window: real): Ledger {
    if times == [] then Ledger([], [])
    else Attempt(AfterAll(times[..|times| - 1], limit, window), limit, window, times[|times| - 1])
  }

  function Later(boundary: real): real -> bool { (g: real) => g > boundary }

  function Within(window: real, t: real): real -> bool { (g: real) => t - window < g <= t }

  lemma {:induction false} PruneIsFilter(s: seq<real>, boundary: real)
    requires Ascending(s)
    ensures Prune(s, boundary) == Filter(s, Later(boundary))
  {
    if s != [] {
      AscendingTail(s);
      if s[0] <= boundary {
        PruneIsFilter(s[1..], boundary);
      } else {
        FilterSuffix(s, Later(boundary), 0);
      }
    }
  }

  lemma {:induction false} FilterTwice(s: seq<real>, a: real, b: real)
    requires a <= b
    ensures Filter(Filter(s, Later(a)), Later(b)) == Filter(s, Later(b))
  {
    if s != [] {
      FilterTwice(s[1..], a, b);
      var rest := Filter(s[1..], Later(a));
      assert ([s[0]] + rest)[1..] == rest;
      assert [] + rest == rest;
    }
  }

  lemma {:induction false} FilterAscends(s: seq<real>, p: real -> bool)
    requires Ascending(s)
    ensures Ascending(Filter(s, p))
  {
    if s != [] {
      AscendingTail(s);
      FilterAscends(s[1..], p);
      var rest := Filter(s[1..], p);
      forall i | 0 <= i < |rest| ensures s[0] <= rest[i] {
        assert rest[i] in s;
        AscendingHead(s, rest[i]);
      }
    }
  }

  lemma {:induction false} FilterCounts(s: seq<real>, window: real, now: real)
    requires forall i :: 0 <= i < |s| ==> s[i] <= now
    ensures |Filter(s, Later(now - window))| == Tally(s, Within(window, now))
  {
    if s != [] {
      FilterCounts(s[1..], window, now);
    }
  }

  /** With a clock that never goes back, the queue is exactly the recent part of the history. */
  ghost predicate Faithful(l: Ledger, window: real, last: real) {
    && Ascending(l.history)
    && (forall i :: 0 <= i < |l.history| ==> l.history[i] <= last)
    && l.queue == Filter(l.history, Later(last - window))
  }

  /** The budget grants a request exactly when fewer than the limit were granted in the full
      history within the window ending now, and it stays faithful. */
  lemma AcquireExact(l: Ledger, limit: int, window: real, last: real, now: real)
    requires limit >= 1 && window > 0.0 && last <= now && Faithful(l, window, last)
    ensures Granted(l, limit, window, now) <==> Tally(l.history, Within(window, now)) < limit
    ensures Faithful(Attempt(l, limit, window, now), window, now)
  {
    hide Filter, Prune, Tally;
    var recent := Filter(l.history, Later(now - window));
    FilterAscends(l.history, Later(last - window));
    PruneIsFilter(l.queue, now - window);
    FilterTwice(l.history, last - window, now - window);
    FilterCounts(l.history, window, now);
    assert Prune(l.queue, now - window) == recent;
    if Granted(l, limit, window, now) {
      FilterAppend(l.history, [now], Later(now - window));
      assert Later(now - window)(now);
      FilterSuffix([now], Later(now - window), 0);
    }
  }

  lemma {:induction false} BudgetFaithful(times: seq<real>, limit: int, window: real)
    requires limit >= 1 && window > 0.0 && Ascending(times)
    ensures times == [] ==> AfterAll(times, limit, window).history == []
    ensures times != [] ==> Faithful(AfterAll(times, limit, window), window, times[|times| - 1])
  {
    hide Faithful, Attempt;
    if times != [] {
      var n := |times|;
      var front := times[..n - 1];
      BudgetFaithful(front, limit, window);
      if front == [] {
        EmptyFaithful(window, times[n - 1]);
        AcquireExact(AfterAll(front, limit, window), limit, window, times[n - 1], times[n - 1]);
      } else {
        assert times[n - 2] <= times[n - 1];
        AcquireExact(AfterAll(front, limit, window), limit, window, times[n - 2], times[n - 1]);
      }
    }
  }

  lemma EmptyFaithful(window: real, last: real)
    ensures Faithful(Ledger([], []), window, last)
  {
  }

  /** No window of that length, wherever it ends, ever holds more than the limit. */
  lemma {:induction false} WindowBound(times: seq<real>, limit: int, window: real, t: real)
    requires limit >= 1 && window > 0.0 && Ascending(times)
    ensures Tally(AfterAll(times, limit, window).history, Within(window, t)) <= limit
    decreases |times|
  {
    hide Faithful;
    if times != [] {
      var n := |times|;
      var front, now := times[..n - 1], times[n - 1];
      var l := AfterAll(front, limit, window);
      WindowBound(front, limit, window, t);
      BudgetFaithful(front, limit, window);
      if Granted(l, limit, window, now) {
        TallyAppend(l.history, [now], Within(window, t));
        assert [now][1..] == [];
        if Within(window, t)(now) {
          GrantFits(l, front, limit, window, now, t);
        }
      }
    }
  }

  /** A grant inside the window ending at `t` found fewer than the limit there. */
  lemma GrantFits(l: Ledger, front: seq<real>, limit: int, window: real, now: real, t: real)
    requires limit >= 1 && window > 0.0 && Granted(l, limit, window, now) && t - window < now <= t
    requires front == [] ==> l == Ledger([], [])
    requires front != [] ==> front[|front| - 1] <= now && Faithful(l, window, front[|front| - 1])
    ensures Tally(l.history, Within(window, t)) < limit
  {
    if front != [] {
      AcquireExact(l, limit, window, front[|front| - 1], now);
      TallyImplies(l.history, Within(window, t), Within(window, now));
    }
  }

  // ----- The TTL cache

  datatype Entry<V> = Entry(value: V, expiresAt: real)

  datatype Lookup<V> = Lookup(items: map<string, Entry<V>>, found: Option<V>)

  /** `get`: an expired entry is removed on the way. */
  function Look<V>(items: map<string, Entry<V>>, key: string, now: real): Lookup<V> {
    if key !in items then Lookup(items, None)
    else if items[key].expiresAt <= now then Lookup(items - {key}, None)
    else Lookup(items, Some(items[key].value))
  }

  function Put<V>(items: map<string, Entry<V>>, key: string, value: V, ttl: real, now: real): map<string, Entry<V>> {
    items[key := Entry(value, now + ttl)]
  }

  class AsyncTtlCache<V> {
    const ttlSeconds: real
    var items: map<string, Entry<V>>

    constructor (ttlSeconds: real)
      requires ttlSeconds > 0.0
      ensures this.ttlSeconds == ttlSeconds && items == map[]
    {
      this.ttlSeconds, items := ttlSeconds, map[];
    }

    method Get(key: string, now: real) returns (found: Option<V>)
      modifies this`items
      ensures Lookup(items, found) == Look(old(items), key, now)
    {
      if key !in items {
        return None;
      }
      if items[key].expiresAt <= now {
        items := items - {key};
        return None;
      }
      return Some(items[key].value);
    }

    method Set(key: string, value: V, now: real)
      modifies this`items
      ensures items == Put(old(items), key, value, ttlSeconds, now)
    {
      items := items[key := Entry(value, now + ttlSeconds)];
    }

    method Clear()
      modifies this`items
      ensures items == map[]
    {
      items := map[];
    }
  }

  /** What happened to the cache, with the clock reading of each operation; `Passed` is a moment at
      which it was not touched. */
  datatype CacheOp<V> =
    | Stored(key: string, value: V, at: real)
    | Looked(key: string, at: real)
    | Cleared(at: real)
    | Passed(at: real)

  function Apply<V>(items: map<string, Entry<V>>, op: CacheOp<V>, ttl: real): map<string, Entry<V>> {
    match op
    case Stored(key, value, at) => Put(items, key, value, ttl, at)
    case Looked(key, at) => Look(items, key, at).items
    case Cleared(_) => map[]
    case Passed(_) => items
  }

  function ItemsAfter<V>(ops: seq<CacheOp<V>>, ttl: real): map<string, Entry<V>> {
    if ops == [] then map[] else Apply(ItemsAfter(ops[..|ops| - 1], ttl), ops[|ops| - 1], ttl)
  }

  /** The store at `i` is the last one of the key and nothing cleared the cache since. */
  ghost predicate Governs<V>(ops: seq<CacheOp<V>>, key: string, i: int) {
    && 0 <= i < |ops| && ops[i].Stored? && ops[i].key == key
    && forall j :: i < j < |ops| ==> !ops[j].Cleared? && !(ops[j].Stored? && ops[j].key == key)
  }

  ghost predicate ClockForward<V>(ops: seq<CacheOp<V>>) {
    forall i, j :: 0 <= i <= j < |ops| ==> ops[i].at <= ops[j].at
  }

  /** An entry is the governing store; a governing store without an entry has expired. */
  ghost predicate ItemsFaithful<V>(items: map<string, Entry<V>>, ops: seq<CacheOp<V>>, ttl: real, last: real) {
    && (forall key :: key in items ==> exists i :: Governs(ops, key, i) && items[key] == Entry(ops[i].value, ops[i].at + ttl))
    && (forall key, i :: Governs(ops, key, i) && key !in items ==> ops[i].at + ttl <= last)
  }

  lemma GovernsUnique<V>(ops: seq<CacheOp<V>>, key: string, i: int, j: int)
    requires Governs(ops, key, i) && Governs(ops, key, j)
    ensures i == j
  {
  }

  lemma GovernsExtends<V>(ops: seq<CacheOp<V>>, op: CacheOp<V>, key: string, i: int)
    ensures Governs(ops + [op], key, i) <==>
              if op.Stored? && op.key == key then i == |ops|
              else !op.Cleared? && Governs(ops, key, i)
  {
    var more := ops + [op];
    assert forall j :: 0 <= j < |ops| ==> more[j] == ops[j];
    assert more[|ops|] == op;
  }

  lemma ApplyFaithful<V>(items: map<string, Entry<V>>, ops: seq<CacheOp<V>>, op: CacheOp<V>, ttl: real, last: real)
    requires ItemsFaithful(items, ops, ttl, last) && last <= op.at
    ensures ItemsFaithful(Apply(items, op, ttl), ops + [op], ttl, op.at)
  {
    var after, more := Apply(items, op, ttl), ops + [op];
    assert forall j :: 0 <= j < |ops| ==> more[j] == ops[j];
    assert more[|ops|] == op;
    forall key | key in after
      ensures exists i :: Governs(more, key, i) && after[key] == Entry(more[i].value, more[i].at + ttl)
    {
      if op.Stored? && op.key == key {
        GovernsExtends(ops, op, key, |ops|);
      } else {
        var i :| Governs(ops, key, i) && items[key] == Entry(ops[i].value, ops[i].at + ttl);
        GovernsExtends(ops, op, key, i);
        assert Governs(more, key, i);
        GovernsInRange(ops, key, i);
      }
    }
    forall key, i | Governs(more, key, i) && key !in after ensures more[i].at + ttl <= op.at {
      GovernsExtends(ops, op, key, i);
      GovernsInRange(ops, key, i);
      if key in items {
        var k :| Governs(ops, key, k) && items[key] == Entry(ops[k].value, ops[k].at + ttl);
        GovernsUnique(ops, key, i, k);
      }
    }
  }

  lemma GovernsInRange<V>(ops: seq<CacheOp<V>>, key: string, i: int)
    requires Governs(ops, key, i)
    ensures 0 <= i < |ops| && ops[i].Stored?
  {
  }

  lemma {:induction false} CacheFaithful<V>(ops: seq<CacheOp<V>>, ttl: real)
    requires ClockForward(ops)
    ensures ops != [] ==> ItemsFaithful(ItemsAfter(ops, ttl), ops, ttl, ops[|ops| - 1].at)
  {
    hide ItemsFaithful, Apply;
    if ops != [] {
      var n := |ops|;
      var front, op := ops[..n - 1], ops[n - 1];
      CacheFaithful(front, ttl);
      assert ops == front + [op];
      if front == [] {
        EmptyItemsFaithful(ttl, op);
        ApplyFaithful(map[], front, op, ttl, op.at);
      } else {
        assert front[n - 2].at <= op.at by { assert ops[n - 2].at <= ops[n - 1].at; }
        ApplyFaithful(ItemsAfter(front, ttl), front, op, ttl, front[n - 2].at);
      }
    }
  }

  lemma EmptyItemsFaithful<V>(ttl: real, op: CacheOp<V>)
    ensures ItemsFaithful<V>(map[], [], ttl, op.at)
  {
  }

  /** A lookup finds a value exactly when the last store of the key, not cleared since, has not
      expired: removing expired entries early never changes an answer. */
  lemma LookupExact<V>(ops: seq<CacheOp<V>>, ttl: real, key: string, now: real)
    requires ClockForward(ops) && (ops != [] ==> ops[|ops| - 1].at <= now)
    ensures var found := Look(ItemsAfter(ops, ttl), key, now).found;
            && (found.Some? <==> exists i :: Governs(ops, key, i) && ops[i].at + ttl > now)
            && (forall i :: Governs(ops, key, i) && ops[i].at + ttl > now ==> found == Some(ops[i].value))
  {
    var items := ItemsAfter(ops, ttl);
    if ops != [] {
      CacheFaithful(ops, ttl);
      if key in items {
        var k :| Governs(ops, key, k) && items[key] == Entry(ops[k].value, ops[k].at + ttl);
        forall i | Governs(ops, key, i) ensures i == k { GovernsUnique(ops, key, i, k); }
      }
    }
  }
}
