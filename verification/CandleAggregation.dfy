/** As-of aggregation of one-minute candles into coarser ones (`_closed_mtf_layers_from_1m`). */
module CandleAggregation {
  import opened Market
  import opened Options
  import Sorting

  const MINUTE := 60000
  const KEPT := 64

  datatype Row = Row(openTs: int, open: real, high: real, low: real, close: real, volume: real, closeTs: int)

  // ---------- The closed source ----------

  /** Candles by timestamp, the last one of a timestamp winning, closed at decision time `t`. */
  function ClosedSource(candles: seq<Candle>, t: int): map<int, Candle> {
    if candles == [] then map[]
    else
      var last, m := candles[|candles| - 1], ClosedSource(candles[..|candles| - 1], t);
      if last.timestamp + MINUTE - 1 <= t then m[last.timestamp := last] else m
  }

  /** An earlier decision sees exactly the candles of a later one that had closed by then. */
  lemma {:induction false} SourceIsAsOf(candles: seq<Candle>, t1: int, t2: int, ts: int)
    requires t1 <= t2
    ensures ts in ClosedSource(candles, t1) <==> ts in ClosedSource(candles, t2) && ts + MINUTE - 1 <= t1
    ensures ts in ClosedSource(candles, t1) ==> ClosedSource(candles, t1)[ts] == ClosedSource(candles, t2)[ts]
  {
    if candles != [] {
      SourceIsAsOf(candles[..|candles| - 1], t1, t2, ts);
    }
  }

  // ---------- One bucket ----------

  predicate Filled(m: map<int, Candle>, start: int, n: nat) {
    n == 0 || (Filled(m, start, n - 1) && start + (n - 1) * MINUTE in m)
  }

  function Bucket(m: map<int, Candle>, start: int, n: nat): (b: seq<Candle>)
    requires Filled(m, start, n)
    ensures |b| == n
  {
    if n == 0 then [] else Bucket(m, start, n - 1) + [m[start + (n - 1) * MINUTE]]
  }

  function High(b: seq<Candle>): real
    requires b != []
  {
    var last := b[|b| - 1].high;
    if |b| == 1 then last
    else
      var before := High(b[..|b| - 1]);
      if last > before then last else before
  }

  function Low(b: seq<Candle>): real
    requires b != []
  {
    var last := b[|b| - 1].low;
    if |b| == 1 then last
    else
      var before := Low(b[..|b| - 1]);
      if last < before then last else before
  }

  function Volume(b: seq<Candle>): real {
    if b == [] then 0.0 else Volume(b[..|b| - 1]) + b[|b| - 1].volume
  }

  function RowOf(b: seq<Candle>, start: int, step: int): Row
    requires b != []
  {
    Row(start, b[0].open, High(b), Low(b), b[|b| - 1].close, Volume(b), start + step - 1)
  }

  /** Floor division: the start of the bucket that holds a timestamp. */
  function BucketStart(ts: int, step: int): int
    requires step > 0
  {
    ts / step * step
  }

  /** A step of `n` minutes gives a row at an aligned start once the bucket is over and complete. */
  predicate Emitted(m: map<int, Candle>, start: int, n: nat, t: int)
    requires n > 0
  {
    BucketStart(start, n * MINUTE) == start && start + n * MINUTE - 1 <= t && Filled(m, start, n)
  }

  // ---------- The aggregation ----------

  ghost predicate Ascending(rows: seq<Row>) {
    forall i, j :: 0 <= i < j < |rows| ==> rows[i].openTs < rows[j].openTs
  }

  ghost predicate Listed(rows: seq<Row>, start: int) {
    exists i :: 0 <= i < |rows| && rows[i].openTs == start
  }

  predicate FromBucket(row: Row, m: map<int, Candle>, n: nat, t: int)
    requires n > 0
  {
    Emitted(m, row.openTs, n, t) && row == RowOf(Bucket(m, row.openTs, n), row.openTs, n * MINUTE)
  }

  /** One row for each emitted bucket, in time order. */
  ghost predicate Aggregates(rows: seq<Row>, m: map<int, Candle>, n: nat, t: int)
    requires n > 0
  {
    && Ascending(rows)
    && (forall i :: 0 <= i < |rows| ==> FromBucket(rows[i], m, n, t))
    && (forall start :: Emitted(m, start, n, t) ==> Listed(rows, start))
  }

  predicate Earlier(a: int, b: int) {
    a < b
  }

  lemma {:induction false} FilledFirst(m: map<int, Candle>, start: int, n: nat)
    requires n > 0 && Filled(m, start, n)
    ensures start in m
  {
    if n > 1 {
      FilledFirst(m, start, n - 1);
    }
  }

  lemma MultipleIsAligned(q: int, step: int)
    requires step > 0
    ensures BucketStart(q * step, step) == q * step
  {
    var r, rest := q * step / step, q * step % step;
    assert (q - r) * step == rest;
    SmallMultiple(q - r, step);
  }

  lemma SmallMultiple(k: int, step: int)
    requires 0 <= k * step < step
    ensures k == 0
  {
    assert k >= 1 ==> k * step >= step;
    assert k <= -1 ==> k * step <= -step;
  }

  /** The rows built from the first `k` bucket starts. */
  ghost predicate Built(rows: seq<Row>, m: map<int, Candle>, n: nat, t: int, starts: seq<int>)
    requires n > 0
  {
    && Ascending(rows)
    && (forall i :: 0 <= i < |rows| ==> rows[i].openTs in starts && FromBucket(rows[i], m, n, t))
    && (forall j :: 0 <= j < |starts| && Emitted(m, starts[j], n, t) ==> Listed(rows, starts[j]))
  }

  lemma ListedMore(rows: seq<Row>, row: Row, start: int)
    requires Listed(rows, start) || row.openTs == start
    ensures Listed(rows + [row], start)
  {
    var all := rows + [row];
    if Listed(rows, start) {
      var i :| 0 <= i < |rows| && rows[i].openTs == start;
      assert all[i].openTs == start;
    } else {
      assert all[|rows|].openTs == start;
    }
  }

  lemma AscendingMore(rows: seq<Row>, row: Row, starts: seq<int>)
    requires Ascending(rows) && Sorting.Sorted(starts + [row.openTs], Earlier)
    requires forall i :: 0 <= i < |rows| ==> rows[i].openTs in starts
    ensures Ascending(rows + [row])
  {
    var all := starts + [row.openTs];
    forall i | 0 <= i < |rows| ensures rows[i].openTs < row.openTs {
      var j :| 0 <= j < |starts| && starts[j] == rows[i].openTs;
      assert all[j] < all[|starts|];
    }
  }

  lemma BuiltStep(rows: seq<Row>, m: map<int, Candle>, n: nat, t: int, starts: seq<int>, row: Row)
    requires n > 0 && Built(rows, m, n, t, starts) && Sorting.Sorted(starts + [row.openTs], Earlier)
    requires FromBucket(row, m, n, t)
    ensures Built(rows + [row], m, n, t, starts + [row.openTs])
  {
    hide FromBucket;
    hide Emitted;
    AscendingMore(rows, row, starts);
    hide Ascending;
    hide Listed;
    var all := starts + [row.openTs];
    forall j | 0 <= j < |all| && Emitted(m, all[j], n, t) ensures Listed(rows + [row], all[j]) {
      ListedMore(rows, row, all[j]);
    }
  }

  lemma BuiltSkip(rows: seq<Row>, m: map<int, Candle>, n: nat, t: int, starts: seq<int>, start: int)
    requires n > 0 && Built(rows, m, n, t, starts) && !Emitted(m, start, n, t)
    ensures Built(rows, m, n, t, starts + [start])
  {
    var all := starts + [start];
    forall j | 0 <= j < |all| && Emitted(m, all[j], n, t) ensures Listed(rows, all[j]) {
      assert j < |starts|;
    }
  }

  lemma EarlierIsStrict()
    ensures Sorting.StrictOrder(Earlier)
  {
  }

  lemma NothingBuilt(m: map<int, Candle>, n: nat, t: int)
    requires n > 0
    ensures Built([], m, n, t, [])
  {
  }

  lemma NextStart(starts: seq<int>, k: nat)
    requires k < |starts| && Sorting.Sorted(starts, Earlier)
    ensures starts[..k + 1] == starts[..k] + [starts[k]] && Sorting.Sorted(starts[..k + 1], Earlier)
  {
  }

  /** Every emitted bucket starts at one of the starts that occur in the source. */
  lemma BuiltIsAggregated(rows: seq<Row>, m: map<int, Candle>, n: nat, t: int, starts: seq<int>, keys: set<int>)
    requires n > 0 && Built(rows, m, n, t, starts)
    requires keys == (set ts | ts in m :: BucketStart(ts, n * MINUTE)) && forall start :: start in starts <==> start in keys
    ensures Aggregates(rows, m, n, t)
  {
    hide Filled, Bucket, BucketStart;
    forall start | Emitted(m, start, n, t) ensures Listed(rows, start) {
      FilledFirst(m, start, n);
      assert start in keys && start in starts;
    }
  }

  /** The loop over the bucket starts that occur in the source, before the last rows are kept. */
  method Aggregate(m: map<int, Candle>, n: nat, t: int) returns (rows: seq<Row>)
    requires n > 0
    ensures Aggregates(rows, m, n, t)
  {
    hide Built, Aggregates, Filled, Bucket, High, Low, Volume, BucketStart, Sorting.Sorted, Sorting.StrictOrder, Earlier;
    EarlierIsStrict();
    var step := n * MINUTE;
    var keys := set ts | ts in m :: BucketStart(ts, step);
    var starts := Sorting.SortSet(keys, Earlier);
    rows := [];
    NothingBuilt(m, n, t);
    for k := 0 to |starts|
      invariant Built(rows, m, n, t, starts[..k])
    {
      var start := starts[k];
      NextStart(starts, k);
      StartIsAligned(m, start, step, keys);
      if start + step - 1 <= t && Filled(m, start, n) {
        var row := RowOf(Bucket(m, start, n), start, step);
        BuiltStep(rows, m, n, t, starts[..k], row);
        rows := rows + [row];
      } else {
        BuiltSkip(rows, m, n, t, starts[..k], start);
      }
    }
    assert starts[..|starts|] == starts;
    BuiltIsAggregated(rows, m, n, t, starts, keys);
  }

  lemma StartIsAligned(m: map<int, Candle>, start: int, step: int, keys: set<int>)
    requires step > 0 && keys == (set ts | ts in m :: BucketStart(ts, step)) && start in keys
    ensures BucketStart(start, step) == start
  {
    var ts :| ts in m && start == BucketStart(ts, step);
    MultipleIsAligned(ts / step, step);
  }

  // ---------- No look-ahead ----------

  lemma {:induction false} FilledAsOf(candles: seq<Candle>, t1: int, t2: int, start: int, n: nat)
    requires t1 <= t2 && start + n * MINUTE - 1 <= t1
    ensures var m1, m2 := ClosedSource(candles, t1), ClosedSource(candles, t2);
            (Filled(m1, start, n) <==> Filled(m2, start, n)) && (Filled(m1, start, n) ==> Bucket(m1, start, n) == Bucket(m2, start, n))
  {
    if n > 0 {
      SourceIsAsOf(candles, t1, t2, start + (n - 1) * MINUTE);
      FilledAsOf(candles, t1, t2, start, n - 1);
    }
  }

  ghost predicate Among(a: seq<Row>, b: seq<Row>) {
    forall row :: row in a ==> row in b
  }

  lemma HasEntry(a: seq<Row>, b: seq<Row>)
    requires Among(a, b) && a != []
    ensures b != []
  {
    assert a[0] in b;
  }

  lemma LastIsLast(a: seq<Row>, b: seq<Row>)
    requires Ascending(a) && Ascending(b) && a != [] && b != [] && Among(a, b) && Among(b, a)
    ensures a[|a| - 1] == b[|b| - 1]
  {
    assert a[|a| - 1] in b && b[|b| - 1] in a;
    var k :| 0 <= k < |a| && a[k] == b[|b| - 1];
    var j :| 0 <= j < |b| && b[j] == a[|a| - 1];
  }

  lemma InitEntries(a: seq<Row>, b: seq<Row>)
    requires Ascending(a) && Ascending(b) && a != [] && b != [] && Among(a, b) && a[|a| - 1] == b[|b| - 1]
    ensures Among(a[..|a| - 1], b[..|b| - 1])
  {
    var initA, initB := a[..|a| - 1], b[..|b| - 1];
    forall row | row in initA ensures row in initB {
      var k :| 0 <= k < |initA| && initA[k] == row;
      assert a[k].openTs < a[|a| - 1].openTs && a[k] in b;
      var j :| 0 <= j < |b| && b[j] == row;
      assert initB[j] == row;
    }
  }

  lemma AscendingInit(a: seq<Row>)
    requires Ascending(a) && a != []
    ensures Ascending(a[..|a| - 1])
  {
  }

  /** Two ascending lists with the same entries are equal. */
  lemma {:induction false} SameEntries(a: seq<Row>, b: seq<Row>)
    requires Ascending(a) && Ascending(b) && Among(a, b) && Among(b, a)
    ensures a == b
    decreases |a|
  {
    hide Ascending;
    if a != [] || b != [] {
      if a != [] {
        HasEntry(a, b);
      } else {
        HasEntry(b, a);
      }
      LastIsLast(a, b);
      InitEntries(a, b);
      InitEntries(b, a);
      AscendingInit(a);
      AscendingInit(b);
      SameEntries(a[..|a| - 1], b[..|b| - 1]);
      assert a == a[..|a| - 1] + [a[|a| - 1]] && b == b[..|b| - 1] + [b[|b| - 1]];
    }
  }

  /** How many rows open within a limit. */
  function Within(b: seq<Row>, limit: int): (n: nat)
    ensures n <= |b|
  {
    if b == [] || b[|b| - 1].openTs <= limit then |b| else Within(b[..|b| - 1], limit)
  }

  lemma {:induction false} WithinIsPrefix(b: seq<Row>, limit: int)
    requires Ascending(b)
    ensures forall j :: 0 <= j < |b| ==> (b[j].openTs <= limit <==> j < Within(b, limit))
  {
    if b != [] && b[|b| - 1].openTs > limit {
      var b' := b[..|b| - 1];
      WithinIsPrefix(b', limit);
      forall j | 0 <= j < |b'| ensures b[j].openTs <= limit <==> j < Within(b, limit) {
        assert b'[j] == b[j];
      }
    }
  }

  lemma RowAsOf(candles: seq<Candle>, n: nat, t1: int, t2: int, row: Row)
    requires n > 0 && t1 <= t2 && row.openTs + n * MINUTE - 1 <= t1
    ensures FromBucket(row, ClosedSource(candles, t1), n, t1) <==> FromBucket(row, ClosedSource(candles, t2), n, t2)
  {
    FilledAsOf(candles, t1, t2, row.openTs, n);
  }

  lemma RowIsUnique(rows: seq<Row>, m: map<int, Candle>, n: nat, t: int, row: Row)
    requires n > 0 && Aggregates(rows, m, n, t) && FromBucket(row, m, n, t)
    ensures row in rows
  {
    assert Listed(rows, row.openTs);
    var i :| 0 <= i < |rows| && rows[i].openTs == row.openTs;
    assert rows[i] == row;
  }

  /** The entries of both lists that open within the limit are the same. */
  lemma SameWithin(candles: seq<Candle>, n: nat, t1: int, t2: int, rows1: seq<Row>, rows2: seq<Row>, k: nat)
    requires n > 0 && t1 <= t2 && k <= |rows2|
    requires Aggregates(rows1, ClosedSource(candles, t1), n, t1) && Aggregates(rows2, ClosedSource(candles, t2), n, t2)
    requires forall j :: 0 <= j < |rows2| ==> (rows2[j].openTs <= t1 - n * MINUTE + 1 <==> j < k)
    ensures Among(rows1, rows2[..k]) && Among(rows2[..k], rows1)
  {
    forall row | row in rows1 ensures row in rows2[..k] {
      RowAsOf(candles, n, t1, t2, row);
      RowIsUnique(rows2, ClosedSource(candles, t2), n, t2, row);
      var j :| 0 <= j < |rows2| && rows2[j] == row;
      assert rows2[..k][j] == row;
    }
    forall row | row in rows2[..k] ensures row in rows1 {
      RowAsOf(candles, n, t1, t2, row);
      RowIsUnique(rows1, ClosedSource(candles, t1), n, t1, row);
    }
  }

  /** No look-ahead: the rows at a decision are a prefix of those at any later one, and the rest of
      those close after the decision. */
  lemma NoLookAhead(candles: seq<Candle>, n: nat, t1: int, t2: int, rows1: seq<Row>, rows2: seq<Row>)
    requires n > 0 && t1 <= t2
    requires Aggregates(rows1, ClosedSource(candles, t1), n, t1) && Aggregates(rows2, ClosedSource(candles, t2), n, t2)
    ensures |rows1| <= |rows2| && rows1 == rows2[..|rows1|]
    ensures forall j :: 0 <= j < |rows2| ==> (rows2[j].closeTs <= t1 <==> j < |rows1|)
  {
    var k := Within(rows2, t1 - n * MINUTE + 1);
    WithinIsPrefix(rows2, t1 - n * MINUTE + 1);
    SameWithin(candles, n, t1, t2, rows1, rows2, k);
    SameEntries(rows1, rows2[..k]);
  }

  // ---------- One layer ----------

  function Kept(rows: seq<Row>): seq<Row> {
    if |rows| <= KEPT then rows else rows[|rows| - KEPT..]
  }

  predicate Supported(step: Option<int>) {
    step.Some? && step.value >= MINUTE && step.value % MINUTE == 0
  }

  /** The rows of one timeframe: none for a step that is not made of whole minutes, otherwise the last
      rows of the one list that aggregates the closed source. */
  method Layer(candles: seq<Candle>, step: Option<int>, t: int) returns (rows: seq<Row>)
    ensures !Supported(step) ==> rows == []
    ensures Supported(step) ==>
              forall all :: Aggregates(all, ClosedSource(candles, t), step.value / MINUTE, t) ==> rows == Kept(all)
    ensures Supported(step) ==> exists all :: Aggregates(all, ClosedSource(candles, t), step.value / MINUTE, t)
  {
    if !Supported(step) {
      return [];
    }
    var n := step.value / MINUTE;
    var built := Aggregate(ClosedSource(candles, t), n, t);
    forall all | Aggregates(all, ClosedSource(candles, t), n, t) ensures all == built {
      NoLookAhead(candles, n, t, t, all, built);
      NoLookAhead(candles, n, t, t, built, all);
    }
    rows := Kept(built);
  }

  // ---------- Nesting ----------

  lemma {:induction false} HighAppend(a: seq<Candle>, b: seq<Candle>)
    requires a != [] && b != []
    ensures High(a + b) == if High(b) > High(a) then High(b) else High(a)
    ensures Low(a + b) == if Low(b) < Low(a) then Low(b) else Low(a)
    ensures Volume(a + b) == Volume(a) + Volume(b)
  {
    var init := b[..|b| - 1];
    assert (a + b)[..|a + b| - 1] == a + init;
    if |b| == 1 {
      assert a + init == a && init == [];
    } else {
      HighAppend(a, init);
    }
  }

  lemma {:induction false} BucketSplits(m: map<int, Candle>, start: int, n: nat, k: nat)
    requires Filled(m, start, n + k)
    ensures Filled(m, start, n) && Filled(m, start + n * MINUTE, k)
    ensures Bucket(m, start, n + k) == Bucket(m, start, n) + Bucket(m, start + n * MINUTE, k)
  {
    if k > 0 {
      BucketSplits(m, start, n, k - 1);
      assert start + (n + k - 1) * MINUTE == start + n * MINUTE + (k - 1) * MINUTE;
    }
  }

  /** Two adjacent rows as one. */
  function Join(a: Row, b: Row): Row {
    Row(a.openTs, a.open, if b.high > a.high then b.high else a.high, if b.low < a.low then b.low else a.low,
        b.close, a.volume + b.volume, b.closeTs)
  }

  /** Where the `j`-th bucket of `f` minutes from `start` on begins. */
  function FineStart(start: int, f: nat, j: nat): int {
    start + j * (f * MINUTE)
  }

  /** The `c` buckets of `f` minutes from `start` on are all complete. */
  predicate AllFilled(m: map<int, Candle>, start: int, f: nat, c: nat) {
    c == 0 || (AllFilled(m, start, f, c - 1) && Filled(m, FineStart(start, f, c - 1), f))
  }

  /** Their rows, joined. */
  function Joined(m: map<int, Candle>, start: int, f: nat, c: nat): Row
    requires f > 0 && c > 0 && AllFilled(m, start, f, c)
  {
    var last := FineStart(start, f, c - 1);
    var row := RowOf(Bucket(m, last, f), last, f * MINUTE);
    if c == 1 then row else Join(Joined(m, start, f, c - 1), row)
  }

  lemma OneMore(start: int, f: nat, c: nat)
    requires f > 0 && c > 1
    ensures c * f == (c - 1) * f + f && (c - 1) * f > 0
    ensures FineStart(start, f, c - 1) == start + (c - 1) * f * MINUTE
  {
  }

  lemma RowsJoin(m: map<int, Candle>, start: int, n: nat, f: nat)
    requires n > 0 && f > 0 && Filled(m, start, n + f)
    ensures Filled(m, start, n) && Filled(m, start + n * MINUTE, f)
    ensures var next := start + n * MINUTE;
            RowOf(Bucket(m, start, n + f), start, (n + f) * MINUTE)
            == Join(RowOf(Bucket(m, start, n), start, n * MINUTE), RowOf(Bucket(m, next, f), next, f * MINUTE))
  {
    BucketSplits(m, start, n, f);
    HighAppend(Bucket(m, start, n), Bucket(m, start + n * MINUTE, f));
  }

  lemma {:induction false} BucketsNest(m: map<int, Candle>, start: int, f: nat, c: nat)
    requires f > 0 && c > 0 && Filled(m, start, c * f)
    ensures c * f > 0 && AllFilled(m, start, f, c)
    ensures Joined(m, start, f, c) == RowOf(Bucket(m, start, c * f), start, c * f * MINUTE)
  {
    if c == 1 {
      assert FineStart(start, f, 0) == start && AllFilled(m, start, f, 0);
    } else {
      OneMore(start, f, c);
      RowsJoin(m, start, (c - 1) * f, f);
      BucketsNest(m, start, f, c - 1);
    }
  }

  lemma {:induction false} AllFilledAt(m: map<int, Candle>, start: int, f: nat, c: nat, j: nat)
    requires j < c && AllFilled(m, start, f, c)
    ensures Filled(m, FineStart(start, f, j), f)
  {
    if j < c - 1 {
      AllFilledAt(m, start, f, c - 1, j);
    }
  }

  lemma FineIsAligned(start: int, step: int, c: int, j: int)
    requires step > 0 && c * step > 0 && BucketStart(start, c * step) == start
    ensures BucketStart(start + j * step, step) == start + j * step
  {
    var q := start / (c * step);
    assert start + j * step == (q * c + j) * step;
    MultipleIsAligned(q * c + j, step);
  }

  /** Nesting: whenever a coarse bucket is emitted, each finer bucket inside it is, and the finer rows
      join to the coarse one. */
  lemma CoarseIsJoinOfFine(m: map<int, Candle>, start: int, f: nat, c: nat, t: int)
    requires f > 0 && c > 0 && c * f > 0 && Emitted(m, start, c * f, t)
    ensures forall j :: 0 <= j < c ==> Emitted(m, FineStart(start, f, j), f, t)
    ensures AllFilled(m, start, f, c)
    ensures Joined(m, start, f, c) == RowOf(Bucket(m, start, c * f), start, c * f * MINUTE)
  {
    BucketsNest(m, start, f, c);
    forall j | 0 <= j < c ensures Emitted(m, FineStart(start, f, j), f, t) {
      AllFilledAt(m, start, f, c, j);
      assert c * f * MINUTE == c * (f * MINUTE);
      FineIsAligned(start, f * MINUTE, c, j);
      FineEndsInside(f * MINUTE, c, j);
    }
  }

  lemma FineEndsInside(step: int, c: int, j: int)
    requires step > 0 && 0 <= j < c
    ensures j * step + step <= c * step
  {
    assert (j + 1) * step <= c * step;
  }
}
