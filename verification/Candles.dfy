/** Closed OHLCV candles, streams and batches (app/candles/models.py). */
module Candles {
  import opened Streams

  datatype Source = Bybit

  datatype Interval = M5 | M15 | H4 | D1

  /** Interval length in seconds. */
  function Duration(i: Interval): (d: int)
    ensures d > 0
  {
    match i
    case M5 => 300
    case M15 => 900
    case H4 => 14400
    case D1 => 86400
  }

  const BPS: real := 10000.0

  /** The smallest price the evidence records accept. */
  const FLOOR: real := 0.000000000000000001

  datatype RawCandle = RawCandle(
    source: Source, symbol: string, interval: Interval, openTime: int,
    open: real, high: real, low: real, close: real, volume: real)
  {
    function CloseTime(): int { openTime + Duration(interval) }

    predicate Valid() {
      && symbol != ""
      && 0.0 < low <= open <= high
      && low <= close <= high
      && volume >= 0.0
    }

    predicate Trades(src: Source, sym: string, i: Interval) {
      source == src && symbol == sym && interval == i
    }
  }

  /** A candle the constructor accepted; its close time is a function of its open time. */
  type Candle = c: RawCandle | c.Valid()
    witness RawCandle(Bybit, "X", H4, 0, 1.0, 1.0, 1.0, 1.0, 0.0)

  predicate Chronological(s: seq<Candle>) {
    forall i, j :: 0 <= i < j < |s| ==> s[i].openTime < s[j].openTime
  }

  predicate Uniform(s: seq<Candle>, source: Source, symbol: string, interval: Interval) {
    forall i :: 0 <= i < |s| ==> s[i].Trades(source, symbol, interval)
  }

  /** A stream of one market and interval in strict time order. */
  predicate Stream(s: seq<Candle>, source: Source, symbol: string, interval: Interval) {
    Uniform(s, source, symbol, interval) && Chronological(s)
  }

  lemma SameOpenSameIndex(s: seq<Candle>, i: nat, j: nat)
    requires Chronological(s) && i < |s| && j < |s| && s[i].openTime == s[j].openTime
    ensures i == j
  {
  }

  lemma StreamCons(c: Candle, rest: seq<Candle>, source: Source, symbol: string, interval: Interval)
    requires Stream(rest, source, symbol, interval) && c.Trades(source, symbol, interval)
    requires forall d :: d in rest ==> c.openTime < d.openTime
    ensures Stream([c] + rest, source, symbol, interval)
  {
  }

  lemma StreamTail(s: seq<Candle>, source: Source, symbol: string, interval: Interval)
    requires s != [] && Stream(s, source, symbol, interval)
    ensures Stream(s[1..], source, symbol, interval) && s[0].Trades(source, symbol, interval)
    ensures forall d :: d in s[1..] ==> s[0].openTime < d.openTime
  {
  }

  /** Any selection from a stream is a stream. */
  lemma {:induction false} FilterStream(s: seq<Candle>, p: Candle -> bool, source: Source, symbol: string, interval: Interval)
    requires Stream(s, source, symbol, interval)
    ensures Stream(Filter(s, p), source, symbol, interval)
    decreases |s|
  {
    if s == [] {
    } else {
      hide Stream;
      StreamTail(s, source, symbol, interval);
      FilterStream(s[1..], p, source, symbol, interval);
      StreamCons(s[0], Filter(s[1..], p), source, symbol, interval);
      assert [] + Filter(s[1..], p) == Filter(s[1..], p);
    }
  }

  /** The check written in every engine: one pass comparing each candle with its predecessor. */
  method CheckStream(s: seq<Candle>, source: Source, symbol: string, interval: Interval)
      returns (ok: bool)
    ensures ok == Stream(s, source, symbol, interval)
  {
    for n := 0 to |s|
      invariant forall i :: 0 <= i < n ==> s[i].Trades(source, symbol, interval)
      invariant forall i, j :: 0 <= i < j < n ==> s[i].openTime < s[j].openTime
    {
      if !s[n].Trades(source, symbol, interval) {
        return false;
      }
      if n > 0 && s[n].openTime <= s[n - 1].openTime {
        return false;
      }
    }
    return true;
  }

  datatype RawBatch = RawBatch(
    source: Source, symbol: string, interval: Interval, fetchedAt: int, candles: seq<Candle>)
  {
    predicate Valid() {
      && symbol != ""
      && Stream(candles, source, symbol, interval)
      && forall c :: c in candles ==> c.CloseTime() <= fetchedAt
    }
  }

  type Batch = b: RawBatch | b.Valid() witness RawBatch(Bybit, "X", H4, 0, [])

  /** The highest high of a non-empty stretch. */
  function HighestHigh(s: seq<Candle>): real
    requires s != []
  {
    if |s| == 1 then s[0].high
    else
      var m := HighestHigh(s[1..]);
      if s[0].high >= m then s[0].high else m
  }

  lemma {:induction false} HighestHighIsMaximum(s: seq<Candle>)
    requires s != []
    ensures forall i :: 0 <= i < |s| ==> s[i].high <= HighestHigh(s)
    ensures exists i :: 0 <= i < |s| && s[i].high == HighestHigh(s)
  {
    if |s| > 1 {
      HighestHighIsMaximum(s[1..]);
      var k :| 0 <= k < |s[1..]| && s[1..][k].high == HighestHigh(s[1..]);
      assert s[k + 1].high == HighestHigh(s[1..]);
      forall i | 0 <= i < |s| ensures s[i].high <= HighestHigh(s) {
        if i > 0 { assert s[i] == s[1..][i - 1]; }
      }
    }
  }

  function LowestLow(s: seq<Candle>): real
    requires s != []
  {
    if |s| == 1 then s[0].low
    else
      var m := LowestLow(s[1..]);
      if s[0].low <= m then s[0].low else m
  }

  lemma {:induction false} LowestLowIsMinimum(s: seq<Candle>)
    requires s != []
    ensures forall i :: 0 <= i < |s| ==> LowestLow(s) <= s[i].low
    ensures exists i :: 0 <= i < |s| && s[i].low == LowestLow(s)
  {
    if |s| > 1 {
      LowestLowIsMinimum(s[1..]);
      var k :| 0 <= k < |s[1..]| && s[1..][k].low == LowestLow(s[1..]);
      assert s[k + 1].low == LowestLow(s[1..]);
      forall i | 0 <= i < |s| ensures LowestLow(s) <= s[i].low {
        if i > 0 { assert s[i] == s[1..][i - 1]; }
      }
    }
  }

  function TotalVolume(s: seq<Candle>): (v: real)
    ensures v >= 0.0
  {
    if s == [] then 0.0 else s[0].volume + TotalVolume(s[1..])
  }
}
