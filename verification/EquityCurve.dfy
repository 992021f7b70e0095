/** The equity curve of the accepted trades (`_accepted_terminal_rows_for_risk`,
    `build_equity_curve_metrics`). */
module EquityCurve {
  import opened Options
  import Sorting
  import Symbols

  datatype Stage = POSITION_CLOSED | OPEN_AT_END | TP_HIT | SL_HIT | EARLIER

  /** A lifecycle row. A closing time of 0, an empty reject reason and an empty position id stand for
      missing ones; a missing cash result is one that is not a finite number. */
  datatype Row = Row(
    timestamp: int, closed: int, symbol: string, side: string, stage: Stage,
    reject: string, position: string, pnl: Option<real>)

  // ---------- Which rows count, in which order ----------

  predicate Counts(row: Row) {
    row.reject == [] && row.stage != EARLIER
  }

  function Counting(rows: seq<Row>): seq<Row> {
    if rows == [] then []
    else Counting(rows[..|rows| - 1]) + if Counts(rows[|rows| - 1]) then [rows[|rows| - 1]] else []
  }

  datatype Key = Key(time: int, symbol: string, side: string)

  function KeyOf(row: Row): Key {
    Key(if row.closed != 0 then row.closed else row.timestamp, row.symbol, row.side)
  }

  predicate Before(a: Key, b: Key) {
    a.time < b.time || (a.time == b.time && (Symbols.Less(a.symbol, b.symbol)
      || (a.symbol == b.symbol && Symbols.Less(a.side, b.side))))
  }

  lemma BeforeIsTotal(a: Key, b: Key)
    ensures a == b || Before(a, b) || Before(b, a)
    ensures !(Before(a, b) && Before(b, a)) && !Before(a, a)
  {
    Symbols.LessIsTotal(a.symbol, b.symbol);
    Symbols.LessIsTotal(a.side, b.side);
  }

  lemma BeforeIsTransitive(a: Key, b: Key, c: Key)
    requires Before(a, b) && Before(b, c)
    ensures Before(a, c)
  {
    if Symbols.Less(a.symbol, b.symbol) && Symbols.Less(b.symbol, c.symbol) {
      Symbols.LessIsTransitive(a.symbol, b.symbol, c.symbol);
    }
    if Symbols.Less(a.side, b.side) && Symbols.Less(b.side, c.side) {
      Symbols.LessIsTransitive(a.side, b.side, c.side);
    }
  }

  predicate Earlier(a: Row, b: Row) {
    Before(KeyOf(a), KeyOf(b))
  }

  lemma EarlierIsWeakOrder()
    ensures Sorting.WeakOrder(Earlier)
  {
    forall a, b | Earlier(a, b) ensures !Earlier(b, a) {
      BeforeIsTotal(KeyOf(a), KeyOf(b));
    }
    forall a, b, c | !Earlier(b, a) && !Earlier(c, b) ensures !Earlier(c, a) {
      NotBeforeIsTransitive(KeyOf(a), KeyOf(b), KeyOf(c));
    }
  }

  function InTimeOrder(rows: seq<Row>): seq<Row> {
    Sorting.Arranged(rows, Earlier)
  }

  /** The rows of one key, in list order. */
  function OfKey(rows: seq<Row>, key: Key): seq<Row> {
    if rows == [] then []
    else OfKey(rows[..|rows| - 1], key) + if KeyOf(rows[|rows| - 1]) == key then [rows[|rows| - 1]] else []
  }

  lemma OneMoreOfKey(rows: seq<Row>, row: Row, key: Key)
    ensures OfKey(rows + [row], key) == OfKey(rows, key) + if KeyOf(row) == key then [row] else []
  {
    assert (rows + [row])[..|rows|] == rows;
  }

  lemma EarlierHasOtherKey(a: Row, b: Row)
    requires Earlier(a, b)
    ensures KeyOf(a) != KeyOf(b)
  {
    BeforeIsTotal(KeyOf(a), KeyOf(b));
  }

  lemma {:induction false} PlacedOfKey(rows: seq<Row>, row: Row, key: Key)
    ensures OfKey(Sorting.Placed(rows, Earlier, row), key) == OfKey(rows + [row], key)
  {
    hide OfKey, KeyOf, Earlier;
    if rows != [] && Earlier(row, rows[|rows| - 1]) {
      var init, last := rows[..|rows| - 1], rows[|rows| - 1];
      assert rows == init + [last];
      EarlierHasOtherKey(row, last);
      PlacedOfKey(init, row, key);
      OneMoreOfKey(init, row, key);
      OneMoreOfKey(init, last, key);
      OneMoreOfKey(rows, row, key);
      OneMoreOfKey(Sorting.Placed(init, Earlier, row), last, key);
    }
  }

  /** The order is a stable sort: in key order, with the rows of each key as they were. */
  lemma {:induction false} TimeOrderIsStable(rows: seq<Row>, key: Key)
    ensures Sorting.InOrder(InTimeOrder(rows), Earlier)
    ensures OfKey(InTimeOrder(rows), key) == OfKey(rows, key)
  {
    hide Sorting.WeakOrder, Sorting.Placed, Earlier, OfKey;
    EarlierIsWeakOrder();
    Sorting.ArrangedInOrder(rows, Earlier);
    ArrangedOfKey(rows, key);
  }

  lemma {:induction false} ArrangedOfKey(rows: seq<Row>, key: Key)
    ensures OfKey(InTimeOrder(rows), key) == OfKey(rows, key)
  {
    hide Sorting.Placed, KeyOf;
    if rows != [] {
      var init, last := rows[..|rows| - 1], rows[|rows| - 1];
      ArrangedOfKey(init, key);
      PlacedOfKey(InTimeOrder(init), last, key);
      OneMoreOfKey(InTimeOrder(init), last, key);
    }
  }

  lemma NotBeforeIsTransitive(a: Key, b: Key, c: Key)
    requires !Before(b, a) && !Before(c, b)
    ensures !Before(c, a)
  {
    BeforeIsTotal(a, b);
    BeforeIsTotal(b, c);
    BeforeIsTotal(a, c);
    if Before(a, b) && Before(b, c) {
      BeforeIsTransitive(a, b, c);
    }
  }

  lemma EarlierComesFirst(rows: seq<Row>, i: nat, j: nat)
    requires i < j < |InTimeOrder(rows)|
    ensures !Before(KeyOf(InTimeOrder(rows)[j]), KeyOf(InTimeOrder(rows)[i]))
  {
    EarlierIsWeakOrder();
    Sorting.ArrangedInOrder(rows, Earlier);
    Sorting.InOrderAt(InTimeOrder(rows), Earlier, i, j);
  }

  // ---------- Each position once ----------

  predicate Holds(rows: seq<Row>, position: string) {
    rows != [] && (rows[|rows| - 1].position == position || Holds(rows[..|rows| - 1], position))
  }

  /** The first row of each position, and every row that names none. */
  function Once(rows: seq<Row>): seq<Row> {
    if rows == [] then []
    else
      var init, last := rows[..|rows| - 1], rows[|rows| - 1];
      Once(init) + if last.position == [] || !Holds(init, last.position) then [last] else []
  }

  function OfPosition(rows: seq<Row>, position: string): seq<Row> {
    if rows == [] then []
    else
      var last := rows[|rows| - 1];
      OfPosition(rows[..|rows| - 1], position) + if last.position == position then [last] else []
  }

  lemma {:induction false} HoldsIsOfPosition(rows: seq<Row>, position: string)
    ensures Holds(rows, position) <==> OfPosition(rows, position) != []
  {
    if rows != [] {
      HoldsIsOfPosition(rows[..|rows| - 1], position);
    }
  }

  function FirstOnly(all: seq<Row>, position: string): seq<Row> {
    if position == [] || all == [] then all else [all[0]]
  }

  lemma OneMoreOfPosition(rows: seq<Row>, row: Row, position: string)
    ensures row.position != position ==> OfPosition(rows + [row], position) == OfPosition(rows, position)
    ensures row.position == position ==> OfPosition(rows + [row], position) == OfPosition(rows, position) + [row]
  {
    assert (rows + [row])[..|rows|] == rows;
  }

  lemma OneMoreOnce(rows: seq<Row>, row: Row)
    ensures row.position == [] || !Holds(rows, row.position) ==> Once(rows + [row]) == Once(rows) + [row]
    ensures row.position != [] && Holds(rows, row.position) ==> Once(rows + [row]) == Once(rows)
  {
    assert (rows + [row])[..|rows|] == rows;
  }

  /** Each position is counted once, by its first row; rows without a position are all counted. */
  lemma {:induction false} EachPositionOnce(rows: seq<Row>, position: string)
    ensures OfPosition(Once(rows), position) == FirstOnly(OfPosition(rows, position), position)
  {
    if rows != [] {
      hide Once;
      hide OfPosition;
      hide Holds;
      var init, last := rows[..|rows| - 1], rows[|rows| - 1];
      assert rows == init + [last];
      EachPositionOnce(init, position);
      OneMoreOfPosition(init, last, position);
      OneMoreOnce(init, last);
      OneMoreOfPosition(Once(init), last, position);
      HoldsIsOfPosition(init, position);
    }
  }

  /** The loop over the sorted rows with its set of keys seen. */
  method KeepFirst(ordered: seq<Row>) returns (unique: seq<Row>)
    ensures unique == Once(ordered)
  {
    unique := [];
    var seen: set<string> := {};
    for k := 0 to |ordered|
      invariant unique == Once(ordered[..k])
      invariant forall p :: p in seen <==> p != [] && Holds(ordered[..k], p)
    {
      var row := ordered[k];
      assert ordered[..k + 1][..k] == ordered[..k];
      if row.position == [] {
        unique := unique + [row];
      } else if row.position !in seen {
        unique := unique + [row];
        seen := seen + {row.position};
      }
    }
    assert ordered[..|ordered|] == ordered;
  }

  function AcceptedTerminal(rows: seq<Row>): seq<Row> {
    Once(InTimeOrder(Counting(rows)))
  }

  // ---------- Definitions the one-pass loop is measured against ----------

  datatype Outcome = WIN | LOSS | FLAT

  function Cash(row: Row): real {
    if row.pnl.Some? then row.pnl.value else 0.0
  }

  function OutcomeOf(row: Row): Outcome {
    if Cash(row) > 0.0 then WIN else if Cash(row) < 0.0 then LOSS else FLAT
  }

  /** The first `k` results are all known. */
  predicate Known(rows: seq<Row>, k: nat)
    requires k <= |rows|
  {
    k == 0 || (Known(rows, k - 1) && rows[k - 1].pnl.Some?)
  }

  /** The equity after `k` trades. */
  function Equity(initial: real, rows: seq<Row>, k: nat): real
    requires k <= |rows|
  {
    if k == 0 then initial else Equity(initial, rows, k - 1) + Cash(rows[k - 1])
  }

  ghost predicate IsPeak(initial: real, rows: seq<Row>, k: nat, peak: real)
    requires k <= |rows|
  {
    && (forall i :: 0 <= i <= k ==> Equity(initial, rows, i) <= peak)
    && (exists i :: 0 <= i <= k && Equity(initial, rows, i) == peak)
  }

  /** The lowest change from an equity to the same or a later one, the initial balance included. */
  ghost predicate IsDrawdown(initial: real, rows: seq<Row>, k: nat, d: real)
    requires k <= |rows|
  {
    && (forall i, j :: 0 <= i <= j <= k ==> d <= Equity(initial, rows, j) - Equity(initial, rows, i))
    && (exists i, j :: 0 <= i <= j <= k && d == Equity(initial, rows, j) - Equity(initial, rows, i))
  }

  function Peak(initial: real, rows: seq<Row>, k: nat): real
    requires k <= |rows|
  {
    var equity := Equity(initial, rows, k);
    if k == 0 || equity > Peak(initial, rows, k - 1) then equity else Peak(initial, rows, k - 1)
  }

  function Percent(drawdown: real, peak: real): real {
    if peak != 0.0 then drawdown / peak * 100.0 else 0.0
  }

  /** Hundredths of the peak; none of a peak of zero. */
  lemma PercentScale(drawdown: real, peak: real)
    ensures Percent(drawdown, peak) * peak == (if peak == 0.0 then 0.0 else 100.0 * drawdown)
    ensures peak == 0.0 ==> Percent(drawdown, peak) == 0.0
    ensures peak > 0.0 ==> (Percent(drawdown, peak) >= -100.0 <==> peak + drawdown >= 0.0)
  {
    if peak != 0.0 {
      var share := drawdown / peak;
      assert share * peak == drawdown;
      if peak > 0.0 && share >= -1.0 {
        assert (share + 1.0) * peak >= 0.0;
      } else if peak > 0.0 {
        assert (-1.0 - share) * peak > 0.0;
      }
    }
  }

  function PercentAt(initial: real, rows: seq<Row>, k: nat): real
    requires k <= |rows|
  {
    Percent(Equity(initial, rows, k) - Peak(initial, rows, k), Peak(initial, rows, k))
  }

  ghost predicate IsLowestPercent(initial: real, rows: seq<Row>, k: nat, p: real)
    requires k <= |rows|
  {
    && (forall i :: 0 <= i <= k ==> p <= PercentAt(initial, rows, i))
    && (exists i :: 0 <= i <= k && p == PercentAt(initial, rows, i))
  }

  predicate Run(rows: seq<Row>, i: nat, j: nat, o: Outcome)
    requires i <= j <= |rows|
  {
    forall m :: i <= m < j ==> OutcomeOf(rows[m]) == o
  }

  /** `n` is the length of the longest run that ends after `k` trades. */
  predicate IsTrailing(rows: seq<Row>, k: nat, o: Outcome, n: nat)
    requires k <= |rows|
  {
    n <= k && Run(rows, k - n, k, o) && (n < k ==> OutcomeOf(rows[k - n - 1]) != o)
  }

  /** `n` is the length of the longest run anywhere in the first `k` trades. */
  ghost predicate IsLongest(rows: seq<Row>, k: nat, o: Outcome, n: nat)
    requires k <= |rows|
  {
    && (exists i, j :: 0 <= i <= j <= k && Run(rows, i, j, o) && j - i == n)
    && (forall i, j :: 0 <= i <= j <= k && Run(rows, i, j, o) ==> j - i <= n)
  }

  /** The sum of the amounts of one sign. */
  function Gross(rows: seq<Row>, k: nat, o: Outcome): (sum: real)
    requires k <= |rows|
    ensures sum >= 0.0
  {
    if k == 0 then 0.0
    else Gross(rows, k - 1, o) + if OutcomeOf(rows[k - 1]) == o then Abs(Cash(rows[k - 1])) else 0.0
  }

  function Abs(x: real): real {
    if x < 0.0 then -x else x
  }

  // ---------- One step of each ----------

  lemma {:induction false} PeakIsHighest(initial: real, rows: seq<Row>, k: nat)
    requires k <= |rows|
    ensures IsPeak(initial, rows, k, Peak(initial, rows, k))
  {
    if k == 0 {
      assert Equity(initial, rows, 0) == Peak(initial, rows, 0);
    } else {
      PeakIsHighest(initial, rows, k - 1);
      assert Equity(initial, rows, k) <= Peak(initial, rows, k);
    }
  }

  lemma DrawdownStep(initial: real, rows: seq<Row>, k: nat, d: real)
    requires k < |rows| && IsDrawdown(initial, rows, k, d)
    ensures var now := Equity(initial, rows, k + 1) - Peak(initial, rows, k + 1);
            IsDrawdown(initial, rows, k + 1, if now < d then now else d)
  {
    hide Peak;
    hide Equity;
    PeakIsHighest(initial, rows, k + 1);
    var peak := Peak(initial, rows, k + 1);
    var top :| 0 <= top <= k + 1 && Equity(initial, rows, top) == peak;
    forall i, j | 0 <= i <= j <= k + 1
      ensures d <= Equity(initial, rows, j) - Equity(initial, rows, i)
              || Equity(initial, rows, k + 1) - peak <= Equity(initial, rows, j) - Equity(initial, rows, i) {
      assert Equity(initial, rows, i) <= peak;
    }
  }

  lemma PercentStep(initial: real, rows: seq<Row>, k: nat, p: real)
    requires k < |rows| && IsLowestPercent(initial, rows, k, p)
    ensures var now := PercentAt(initial, rows, k + 1);
            IsLowestPercent(initial, rows, k + 1, if now < p then now else p)
  {
    hide PercentAt;
  }

  lemma TrailingStep(rows: seq<Row>, k: nat, o: Outcome, n: nat)
    requires k < |rows| && IsTrailing(rows, k, o, n)
    ensures IsTrailing(rows, k + 1, o, if OutcomeOf(rows[k]) == o then n + 1 else 0)
  {
  }

  lemma LongestStep(rows: seq<Row>, k: nat, o: Outcome, n: nat, longest: nat)
    requires k < |rows| && IsTrailing(rows, k + 1, o, n) && IsLongest(rows, k, o, longest)
    ensures IsLongest(rows, k + 1, o, if n > longest then n else longest)
  {
    hide OutcomeOf;
    var r := if n > longest then n else longest;
    forall i, j | 0 <= i <= j <= k + 1 && Run(rows, i, j, o) ensures j - i <= r {
    }
    if n > longest {
      assert Run(rows, k + 1 - n, k + 1, o);
    }
  }

  lemma {:induction false} GrossSplits(initial: real, rows: seq<Row>, k: nat)
    requires k <= |rows|
    ensures Gross(rows, k, WIN) - Gross(rows, k, LOSS) == Equity(initial, rows, k) - initial
  {
    if k > 0 {
      GrossSplits(initial, rows, k - 1);
    }
  }

  // ---------- The one pass ----------

  datatype Factor = Ratio(value: real) | Infinite

  function ProfitFactor(profit: real, loss: real): Factor {
    if loss != 0.0 then Ratio(profit / loss) else if profit != 0.0 then Infinite else Ratio(0.0)
  }

  datatype Point = Point(
    index: nat, row: Row, equity: Option<real>, peak: Option<real>, drawdown: Option<real>, percent: Option<real>)

  datatype Metrics =
    | COMPLETE(drawdown: real, percent: real, losses: nat, wins: nat, factor: Factor, ending: real)
    | INCOMPLETE

  /** The curve's point of the `k`-th trade: unavailable once a result is unknown. */
  function PointAt(initial: real, rows: seq<Row>, k: nat): Point
    requires 0 < k <= |rows|
  {
    if Known(rows, k) then
      var equity, peak := Equity(initial, rows, k), Peak(initial, rows, k);
      Point(k, rows[k - 1], Some(equity), Some(peak), Some(equity - peak), Some(PercentAt(initial, rows, k)))
    else Point(k, rows[k - 1], None, None, None, None)
  }

  function Curve(initial: real, rows: seq<Row>, k: nat): seq<Point>
    requires k <= |rows|
  {
    if k == 0 then [] else Curve(initial, rows, k - 1) + [PointAt(initial, rows, k)]
  }

  ghost predicate Extremes(initial: real, rows: seq<Row>, k: nat, drawdown: real, percent: real)
    requires k <= |rows|
  {
    IsDrawdown(initial, rows, k, drawdown) && IsLowestPercent(initial, rows, k, percent)
  }

  ghost predicate Level(initial: real, rows: seq<Row>, k: nat, equity: real, peak: real)
    requires k <= |rows|
  {
    Known(rows, k) && equity == Equity(initial, rows, k) && peak == Peak(initial, rows, k)
  }

  /** The equity part of one turn of the loop, for a known result. */
  method AddTrade(ghost initial: real, ghost rows: seq<Row>, k: nat, row: Row, equity: real, peak: real,
                  drawdown: real, percent: real)
    returns (equity': real, peak': real, drawdown': real, percent': real, point: Point)
    requires k < |rows| && row == rows[k] && row.pnl.Some? && Level(initial, rows, k, equity, peak)
    requires Extremes(initial, rows, k, drawdown, percent)
    ensures Level(initial, rows, k + 1, equity', peak') && Extremes(initial, rows, k + 1, drawdown', percent')
    ensures point == PointAt(initial, rows, k + 1)
  {
    hide Extremes;
    equity' := equity + row.pnl.value;
    peak' := if equity' > peak then equity' else peak;
    var below := equity' - peak';
    var share := Percent(below, peak');
    ExtremesStep(initial, rows, k, drawdown, percent);
    drawdown' := if below < drawdown then below else drawdown;
    percent' := if share < percent then share else percent;
    point := Point(k + 1, row, Some(equity'), Some(peak'), Some(below), Some(share));
  }

  /** The gross sums and the streaks that are still running. */
  ghost predicate Tallied(rows: seq<Row>, k: nat, profit: real, loss: real, losses: nat, wins: nat)
    requires k <= |rows|
  {
    && profit == Gross(rows, k, WIN)
    && loss == Gross(rows, k, LOSS)
    && IsTrailing(rows, k, LOSS, losses)
    && IsTrailing(rows, k, WIN, wins)
  }

  ghost predicate Longest(rows: seq<Row>, k: nat, losses: nat, wins: nat)
    requires k <= |rows|
  {
    IsLongest(rows, k, LOSS, losses) && IsLongest(rows, k, WIN, wins)
  }

  lemma Start(initial: real, rows: seq<Row>)
    ensures Level(initial, rows, 0, initial, initial) && Extremes(initial, rows, 0, 0.0, 0.0)
    ensures Known(rows, 0) && Curve(initial, rows, 0) == []
    ensures Tallied(rows, 0, 0.0, 0.0, 0, 0) && Longest(rows, 0, 0, 0)
  {
    assert Equity(initial, rows, 0) - Equity(initial, rows, 0) == 0.0;
    assert PercentAt(initial, rows, 0) == 0.0;
    assert Run(rows, 0, 0, WIN) && Run(rows, 0, 0, LOSS);
  }

  function Max(a: nat, b: nat): nat {
    if a > b then a else b
  }

  method Tally(ghost rows: seq<Row>, ghost k: nat, pnl: real, profit: real, loss: real, losses: nat, wins: nat)
    returns (profit': real, loss': real, losses': nat, wins': nat)
    requires k < |rows| && rows[k].pnl == Some(pnl) && Tallied(rows, k, profit, loss, losses, wins)
    ensures Tallied(rows, k + 1, profit', loss', losses', wins')
  {
    profit', loss', losses', wins' := profit, loss, 0, 0;
    if pnl > 0.0 {
      profit', wins' := profit + pnl, wins + 1;
    } else if pnl < 0.0 {
      loss', losses' := loss + Abs(pnl), losses + 1;
    }
    TrailingStep(rows, k, LOSS, losses);
    TrailingStep(rows, k, WIN, wins);
  }

  lemma LongestSteps(rows: seq<Row>, k: nat, losses: nat, wins: nat, profit: real, loss: real, l: nat, w: nat)
    requires k < |rows| && Longest(rows, k, losses, wins) && Tallied(rows, k + 1, profit, loss, l, w)
    ensures Longest(rows, k + 1, Max(losses, l), Max(wins, w))
  {
    LongestStep(rows, k, LOSS, l, losses);
    LongestStep(rows, k, WIN, w, wins);
  }

  lemma ExtremesStep(initial: real, rows: seq<Row>, k: nat, d: real, p: real)
    requires k < |rows| && Extremes(initial, rows, k, d, p)
    ensures var below := Equity(initial, rows, k + 1) - Peak(initial, rows, k + 1);
            var share := PercentAt(initial, rows, k + 1);
            Extremes(initial, rows, k + 1, if below < d then below else d, if share < p then share else p)
  {
    DrawdownStep(initial, rows, k, d);
    PercentStep(initial, rows, k, p);
  }

  /** What the metrics promise about the trades in curve order. */
  ghost predicate Summarizes(metrics: Metrics, initial: real, rows: seq<Row>) {
    if !Known(rows, |rows|) then metrics == INCOMPLETE
    else
      && metrics.COMPLETE?
      && metrics.ending == Equity(initial, rows, |rows|)
      && Extremes(initial, rows, |rows|, metrics.drawdown, metrics.percent)
      && Longest(rows, |rows|, metrics.losses, metrics.wins)
      && metrics.factor == ProfitFactor(Gross(rows, |rows|, WIN), Gross(rows, |rows|, LOSS))
  }

  lemma OneMoreKnown(initial: real, rows: seq<Row>, k: nat)
    requires k < |rows|
    ensures Known(rows, k + 1) <==> Known(rows, k) && rows[k].pnl.Some?
    ensures Curve(initial, rows, k + 1) == Curve(initial, rows, k) + [PointAt(initial, rows, k + 1)]
    ensures !Known(rows, k + 1) ==> PointAt(initial, rows, k + 1) == Point(k + 1, rows[k], None, None, None, None)
  {
  }

  lemma Unavailable(initial: real, rows: seq<Row>)
    requires !Known(rows, |rows|)
    ensures Summarizes(INCOMPLETE, initial, rows)
  {
  }

  lemma Conclude(metrics: Metrics, initial: real, rows: seq<Row>, peak: real, profit: real, loss: real, l: nat, w: nat)
    requires metrics.COMPLETE? && Level(initial, rows, |rows|, metrics.ending, peak)
    requires Extremes(initial, rows, |rows|, metrics.drawdown, metrics.percent)
    requires Tallied(rows, |rows|, profit, loss, l, w) && metrics.factor == ProfitFactor(profit, loss)
    requires Longest(rows, |rows|, metrics.losses, metrics.wins)
    ensures Summarizes(metrics, initial, rows)
  {
  }

  method Measure(rows: seq<Row>, initial: real) returns (curve: seq<Point>, metrics: Metrics)
    ensures curve == Curve(initial, rows, |rows|)
    ensures Summarizes(metrics, initial, rows)
  {
    var equity := Some(initial);
    var peak, drawdown, percent := initial, 0.0, 0.0;
    var losses, wins, currentLosses, currentWins := 0, 0, 0, 0;
    var profit, loss := 0.0, 0.0;
    curve := [];
    Start(initial, rows);
    hide *;
    for k := 0 to |rows|
      invariant curve == Curve(initial, rows, k)
      invariant equity.Some? <==> Known(rows, k)
      invariant equity.Some? ==> Level(initial, rows, k, equity.value, peak)
      invariant equity.Some? ==> Extremes(initial, rows, k, drawdown, percent)
      invariant equity.Some? ==> Tallied(rows, k, profit, loss, currentLosses, currentWins)
      invariant equity.Some? ==> Longest(rows, k, losses, wins)
    {
      var row := rows[k];
      var point: Point;
      OneMoreKnown(initial, rows, k);
      if row.pnl.None? || equity.None? {
        equity := None;
        point := Point(k + 1, row, None, None, None, None);
      } else {
        var now;
        now, peak, drawdown, percent, point :=
          AddTrade(initial, rows, k, row, equity.value, peak, drawdown, percent);
        equity := Some(now);
        profit, loss, currentLosses, currentWins :=
          Tally(rows, k, row.pnl.value, profit, loss, currentLosses, currentWins);
        LongestSteps(rows, k, losses, wins, profit, loss, currentLosses, currentWins);
        losses, wins := Max(losses, currentLosses), Max(wins, currentWins);
      }
      curve := curve + [point];
    }
    if equity.None? {
      metrics := INCOMPLETE;
      Unavailable(initial, rows);
    } else {
      metrics := COMPLETE(drawdown, percent, losses, wins, ProfitFactor(profit, loss), equity.value);
      Conclude(metrics, initial, rows, peak, profit, loss, currentLosses, currentWins);
    }
  }

  /** The whole computation over a lifecycle log. */
  method BuildMetrics(rows: seq<Row>, initial: real) returns (curve: seq<Point>, metrics: Metrics)
    ensures curve == Curve(initial, AcceptedTerminal(rows), |AcceptedTerminal(rows)|)
    ensures Summarizes(metrics, initial, AcceptedTerminal(rows))
  {
    var trades := KeepFirst(InTimeOrder(Counting(rows)));
    curve, metrics := Measure(trades, initial);
  }

  // ---------- What the metrics mean ----------

  /** With a losing trade the profit factor exceeds one exactly when the run gained. */
  lemma FactorTellsGain(metrics: Metrics, initial: real, rows: seq<Row>, i: nat)
    requires Summarizes(metrics, initial, rows) && metrics.COMPLETE?
    requires i < |rows| && OutcomeOf(rows[i]) == LOSS
    ensures metrics.factor.Ratio? && (metrics.factor.value > 1.0 <==> metrics.ending > initial)
  {
    GrossSplits(initial, rows, |rows|);
    LossShows(rows, |rows|, i);
    var profit, loss := Gross(rows, |rows|, WIN), Gross(rows, |rows|, LOSS);
    RatioAboveOne(profit, loss);
  }

  /** Without one it is infinite exactly when the run gained, and zero otherwise. */
  lemma FactorWithoutLoss(metrics: Metrics, initial: real, rows: seq<Row>)
    requires Summarizes(metrics, initial, rows) && metrics.COMPLETE?
    requires forall i :: 0 <= i < |rows| ==> OutcomeOf(rows[i]) != LOSS
    ensures if metrics.ending > initial then metrics.factor.Infinite? else metrics.factor == Ratio(0.0) && metrics.ending == initial
  {
    GrossSplits(initial, rows, |rows|);
    NoLossNoGross(rows, |rows|);
  }

  lemma {:induction false} NoLossNoGross(rows: seq<Row>, k: nat)
    requires k <= |rows| && forall i :: 0 <= i < k ==> OutcomeOf(rows[i]) != LOSS
    ensures Gross(rows, k, LOSS) == 0.0
  {
    if k > 0 {
      NoLossNoGross(rows, k - 1);
    }
  }

  lemma {:induction false} LossShows(rows: seq<Row>, k: nat, i: nat)
    requires i < k <= |rows| && OutcomeOf(rows[i]) == LOSS
    ensures Gross(rows, k, LOSS) > 0.0
  {
    if i < k - 1 {
      LossShows(rows, k - 1, i);
    }
  }

  lemma RatioAboveOne(a: real, b: real)
    requires b > 0.0
    ensures a / b > 1.0 <==> a > b
  {
    assert a == a / b * b;
  }

  lemma {:induction false} CurveAt(initial: real, rows: seq<Row>, n: nat, k: nat)
    requires k < n <= |rows|
    ensures |Curve(initial, rows, n)| == n && Curve(initial, rows, n)[k] == PointAt(initial, rows, k + 1)
  {
    if k < n - 1 {
      CurveAt(initial, rows, n - 1, k);
    } else if n > 1 {
      CurveAt(initial, rows, n - 1, n - 2);
    }
  }

  /** One unknown result makes its own and every later point of the curve and all the metrics
      unavailable; without one all of them are there. */
  lemma UnknownSpreads(initial: real, rows: seq<Row>, k: nat, metrics: Metrics)
    requires k < |rows| && Summarizes(metrics, initial, rows)
    ensures |Curve(initial, rows, |rows|)| == |rows|
    ensures Curve(initial, rows, |rows|)[k].equity.None? <==> exists i :: 0 <= i <= k && rows[i].pnl.None?
    ensures metrics.INCOMPLETE? <==> exists i :: 0 <= i < |rows| && rows[i].pnl.None?
  {
    CurveAt(initial, rows, |rows|, k);
    KnownMeansAll(rows, k + 1);
    KnownMeansAll(rows, |rows|);
  }

  lemma {:induction false} KnownMeansAll(rows: seq<Row>, k: nat)
    requires k <= |rows|
    ensures Known(rows, k) <==> forall i :: 0 <= i < k ==> rows[i].pnl.Some?
  {
    if k > 0 {
      KnownMeansAll(rows, k - 1);
    }
  }
}
