/** The rows of a layer, told by the candles of the source alone. */
module CandleRows {
  import opened Market
  import opened Options
  import opened CandleAggregation

  /** Where the `j`-th minute from `start` on begins, in milliseconds. */
  function MinuteAt(start: int, j: int): int {
    start + j * 60000
  }

  // ---------- The source ----------

  /** The candle counts for its timestamp: no later one in the list has the same. */
  ghost predicate LastOf(candles: seq<Candle>, i: int) {
    0 <= i < |candles| && forall j :: i < j < |candles| ==> candles[j].timestamp != candles[i].timestamp
  }

  /** The closed source holds a timestamp exactly when a candle of it has closed by the decision, and under it the
      last such candle of the list. */
  lemma {:induction false} SourceExactly(candles: seq<Candle>, t: int, ts: int)
    ensures var m := ClosedSource(candles, t);
            && (ts in m <==> ts + 59999 <= t && exists i :: 0 <= i < |candles| && candles[i].timestamp == ts)
            && (ts in m ==> exists i :: LastOf(candles, i) && candles[i].timestamp == ts && candles[i] == m[ts])
  {
    if candles != [] {
      var init, last := candles[..|candles| - 1], candles[|candles| - 1];
      SourceExactly(init, t, ts);
      assert candles[|candles| - 1] == last;
      if last.timestamp == ts {
        assert LastOf(candles, |candles| - 1);
      } else if ts in ClosedSource(init, t) {
        var i :| LastOf(init, i) && init[i].timestamp == ts && init[i] == ClosedSource(init, t)[ts];
        assert LastOf(candles, i) && candles[i] == init[i];
      }
    }
  }

  lemma SourceAt(candles: seq<Candle>, t: int, ts: int) returns (k: int)
    requires ts in ClosedSource(candles, t)
    ensures 0 <= k < |candles| && LastOf(candles, k) && candles[k].timestamp == ts && candles[k] == ClosedSource(candles, t)[ts]
  {
    SourceExactly(candles, t, ts);
    hide ClosedSource;
    k :| LastOf(candles, k) && candles[k].timestamp == ts && candles[k] == ClosedSource(candles, t)[ts];
  }

  // ---------- One bucket ----------

  ghost predicate Complete(m: map<int, Candle>, start: int, n: nat) {
    forall j :: 0 <= j < n ==> MinuteAt(start, j) in m
  }

  lemma {:induction false} FilledIsComplete(m: map<int, Candle>, start: int, n: nat)
    ensures Filled(m, start, n) <==> Complete(m, start, n)
  {
    if n > 0 {
      FilledIsComplete(m, start, n - 1);
      assert MinuteAt(start, n - 1) == start + (n - 1) * MINUTE;
    }
  }

  lemma {:induction false} BucketAt(m: map<int, Candle>, start: int, n: nat, j: nat)
    requires Filled(m, start, n) && j < n
    ensures MinuteAt(start, j) in m && Bucket(m, start, n)[j] == m[MinuteAt(start, j)]
  {
    if j < n - 1 {
      BucketAt(m, start, n - 1, j);
    }
  }

  lemma {:induction false} HighBounds(b: seq<Candle>)
    requires b != []
    ensures forall j :: 0 <= j < |b| ==> b[j].high <= High(b)
    ensures exists j :: 0 <= j < |b| && b[j].high == High(b)
  {
    var k := |b| - 1;
    if k == 0 || b[k].high > High(b[..k]) {
      assert b[k].high == High(b);
    }
    if k > 0 {
      HighBounds(b[..k]);
      var i :| 0 <= i < k && b[..k][i].high == High(b[..k]);
      assert b[i] == b[..k][i];
      forall j | 0 <= j < |b| ensures b[j].high <= High(b) {
        assert j < k ==> b[..k][j] == b[j];
      }
    }
  }

  lemma {:induction false} LowBounds(b: seq<Candle>)
    requires b != []
    ensures forall j :: 0 <= j < |b| ==> Low(b) <= b[j].low
    ensures exists j :: 0 <= j < |b| && b[j].low == Low(b)
  {
    var k := |b| - 1;
    if k == 0 || b[k].low < Low(b[..k]) {
      assert b[k].low == Low(b);
    }
    if k > 0 {
      LowBounds(b[..k]);
      var i :| 0 <= i < k && b[..k][i].low == Low(b[..k]);
      assert b[i] == b[..k][i];
      forall j | 0 <= j < |b| ensures Low(b) <= b[j].low {
        assert j < k ==> b[..k][j] == b[j];
      }
    }
  }

  // ---------- The rows ----------

  /** The row takes its opening from the first candle of its minutes and its close from the last; its high and low
      are the least bounds of all of them. */
  ghost predicate Reads(row: Row, m: map<int, Candle>, n: nat)
    requires n > 0
  {
    && Complete(m, row.openTs, n)
    && MinuteAt(row.openTs, 0) in m && row.open == m[MinuteAt(row.openTs, 0)].open
    && MinuteAt(row.openTs, n - 1) in m && row.close == m[MinuteAt(row.openTs, n - 1)].close
    && (forall j :: 0 <= j < n ==> row.low <= m[MinuteAt(row.openTs, j)].low && m[MinuteAt(row.openTs, j)].high <= row.high)
    && (exists j :: 0 <= j < n && m[MinuteAt(row.openTs, j)].high == row.high)
    && (exists j :: 0 <= j < n && m[MinuteAt(row.openTs, j)].low == row.low)
    && row.closeTs == row.openTs + n * 60000 - 1
  }

  lemma BucketReads(m: map<int, Candle>, start: int, n: nat)
    requires n > 0 && Filled(m, start, n)
    ensures Reads(RowOf(Bucket(m, start, n), start, n * MINUTE), m, n)
  {
    hide High, Low, Filled, Bucket;
    var b := Bucket(m, start, n);
    FilledIsComplete(m, start, n);
    forall j | 0 <= j < n ensures b[j] == m[MinuteAt(start, j)] {
      BucketAt(m, start, n, j);
    }
    HighBounds(b);
    LowBounds(b);
    var h :| 0 <= h < n && b[h].high == High(b);
    assert m[MinuteAt(start, h)].high == High(b);
    var l :| 0 <= l < n && b[l].low == Low(b);
    assert m[MinuteAt(start, l)].low == Low(b);
  }

  /** Every row of an aggregation reads its own minutes so, and had closed by the decision. */
  lemma RowsRead(rows: seq<Row>, m: map<int, Candle>, n: nat, t: int, i: nat)
    requires n > 0 && Aggregates(rows, m, n, t) && i < |rows|
    ensures Reads(rows[i], m, n) && rows[i].closeTs <= t
  {
    hide Reads, Ascending, Filled, Bucket, High, Low;
    assert FromBucket(rows[i], m, n, t);
    BucketReads(m, rows[i].openTs, n);
    assert rows[i].closeTs <= t;
  }

  /** A row of one minute is its candle, volume included. With the join of finer rows this gives every volume. */
  lemma MinuteIsCandle(rows: seq<Row>, m: map<int, Candle>, t: int, i: nat)
    requires Aggregates(rows, m, 1, t) && i < |rows|
    ensures var start := rows[i].openTs;
            && start in m
            && rows[i] == Row(start, m[start].open, m[start].high, m[start].low, m[start].close, m[start].volume, start + 59999)
  {
    hide Ascending;
    var start := rows[i].openTs;
    assert FromBucket(rows[i], m, 1, t);
    assert Filled(m, start, 0) && Bucket(m, start, 0) == [];
    assert Bucket(m, start, 1) == [m[start]];
    assert Volume([m[start]]) == m[start].volume by {
      assert [m[start]][..0] == [];
    }
  }

  lemma AlignedExactly(start: int, step: int)
    requires step > 0
    ensures BucketStart(start, step) == start <==> start % step == 0
    ensures BucketStart(start, step) <= start < BucketStart(start, step) + step
  {
    assert start == start / step * step + start % step;
  }

  /** A row opens at a time exactly when the time is a multiple of the step, all minutes of the step are in the source
      and the step is over by the decision. */
  lemma OpensExactly(rows: seq<Row>, m: map<int, Candle>, n: nat, t: int, start: int)
    requires n > 0 && Aggregates(rows, m, n, t)
    ensures (exists i :: 0 <= i < |rows| && rows[i].openTs == start)
            <==> start % (n * 60000) == 0 && Complete(m, start, n) && start + n * 60000 - 1 <= t
  {
    hide Ascending, Filled, RowOf, BucketStart;
    FilledIsComplete(m, start, n);
    AlignedExactly(start, n * MINUTE);
    if i :| 0 <= i < |rows| && rows[i].openTs == start {
      assert FromBucket(rows[i], m, n, t);
    }
    if start % (n * 60000) == 0 && Complete(m, start, n) && start + n * 60000 - 1 <= t {
      assert Emitted(m, start, n, t);
      assert Listed(rows, start);
    }
  }

  /** A timeframe has rows exactly when its step is known and made of one or more whole minutes. */
  lemma SupportedExactly(step: Option<int>)
    ensures Supported(step) <==> exists n :: n >= 1 && step == Some(MinuteAt(0, n))
    ensures forall n :: n >= 1 && step == Some(MinuteAt(0, n)) ==> step.value / MINUTE == n
  {
    if Supported(step) {
      assert step == Some(MinuteAt(0, step.value / MINUTE));
    }
  }

  /** A layer keeps the last 64 rows. */
  lemma KeptIsEnd(all: seq<Row>)
    ensures |Kept(all)| == if |all| < 64 then |all| else 64
    ensures Kept(all) == all[|all| - |Kept(all)|..]
  {
    assert all[0..] == all;
  }

  lemma ReadsAt(row: Row, m: map<int, Candle>, n: nat, j: nat)
    requires n > 0 && Reads(row, m, n) && j < n
    ensures MinuteAt(row.openTs, j) in m
    ensures var c := m[MinuteAt(row.openTs, j)];
            && row.low <= c.low && c.high <= row.high && (j == 0 ==> c.open == row.open) && (j == n - 1 ==> c.close == row.close)
  {
  }

  /** In a layer each row reads the last candle that the list holds for each of its minutes. */
  lemma LayerReads(candles: seq<Candle>, n: nat, t: int, all: seq<Row>, i: nat, j: nat) returns (k: int)
    requires n > 0 && Aggregates(all, ClosedSource(candles, t), n, t) && i < |Kept(all)| && j < n
    ensures 0 <= k < |candles| && LastOf(candles, k)
    ensures var row, c := Kept(all)[i], candles[k];
            && c.timestamp == MinuteAt(row.openTs, j) && row.low <= c.low && c.high <= row.high
            && (j == 0 ==> c.open == row.open) && (j == n - 1 ==> c.close == row.close)
  {
    hide Aggregates, LastOf, Reads, ClosedSource;
    KeptIsEnd(all);
    var at := |all| - |Kept(all)| + i;
    assert Kept(all)[i] == all[at];
    hide Kept;
    var m, ts := ClosedSource(candles, t), MinuteAt(all[at].openTs, j);
    RowsRead(all, m, n, t, at);
    ReadsAt(all[at], m, n, j);
    k := SourceAt(candles, t, ts);
  }
}
