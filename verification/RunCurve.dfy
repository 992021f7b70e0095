/** The equity curve of a backtest's own log has one point for each trade. */
module RunCurve {
  import opened Options
  import opened Market
  import opened TradeSimulation
  import opened Lifecycle
  import opened BacktestRun
  import E = EquityCurve
  import Sorting

  // ---------- The log's rows as rows of the curve ----------

  /** How position ids and sides are written; the source's hashes are taken to be injective. */
  datatype Names = Names(position: PositionId -> string, side: Side -> string)

  ghost predicate Proper(names: Names) {
    && (forall p :: names.position(p) != [])
    && (forall p, q :: names.position(p) == names.position(q) ==> p == q)
  }

  function CurveRow(row: LifecycleRow, names: Names): E.Row {
    E.Row(row.at, if row.status.POSITION_CLOSED? then row.at else 0, row.signal.symbol, names.side(row.side),
          if row.status.POSITION_CLOSED? then E.POSITION_CLOSED else E.EARLIER,
          if row.reject.Some? then row.reject.value else [],
          if row.position.Some? then names.position(row.position.value) else [], row.pnl)
  }

  function CurveRows(log: seq<LifecycleRow>, names: Names): seq<E.Row> {
    if log == [] then [] else CurveRows(log[..|log| - 1], names) + [CurveRow(log[|log| - 1], names)]
  }

  // ---------- Closing rows ----------

  predicate Closes(row: LifecycleRow) {
    row.status.POSITION_CLOSED? ==> row.reject.None? && row.close.Some? && row.position.Some?
  }

  /** Every closing row names its reason and its position. */
  predicate WellClosed(log: seq<LifecycleRow>) {
    log == [] || (WellClosed(log[..|log| - 1]) && Closes(log[|log| - 1]))
  }

  /** Closing rows of a position. */
  function ClosedOf(log: seq<LifecycleRow>, p: PositionId): nat {
    if log == [] then 0 else ClosedOf(log[..|log| - 1], p) + ClosesPosition(log[|log| - 1], p)
  }

  function ClosesPosition(row: LifecycleRow, p: PositionId): nat {
    if row.status.POSITION_CLOSED? && row.position == Some(p) then 1 else 0
  }

  /** Every position is closed at most once, and only for a signal seen. */
  ghost predicate ClosedOnce(log: seq<LifecycleRow>, seen: set<SignalId>) {
    WellClosed(log) && forall p :: ClosedOf(log, p) <= if p.signal in seen then 1 else 0
  }

  lemma {:induction false} ClosedOfAppend(a: seq<LifecycleRow>, b: seq<LifecycleRow>, p: PositionId)
    ensures ClosedOf(a + b, p) == ClosedOf(a, p) + ClosedOf(b, p)
    ensures WellClosed(a + b) <==> WellClosed(a) && WellClosed(b)
  {
    if b == [] {
      assert a + b == a;
    } else {
      ClosedOfAppend(a, b[..|b| - 1], p);
      assert (a + b)[..|a + b| - 1] == a + b[..|b| - 1];
    }
  }

  /** Rows of one signal that hold a closing row at most at their end. */
  predicate OpenRows(rows: seq<LifecycleRow>) {
    rows == [] || (OpenRows(rows[..|rows| - 1]) && !rows[|rows| - 1].status.POSITION_CLOSED?)
  }

  lemma {:induction false} OpenRowsCloseNothing(rows: seq<LifecycleRow>, p: PositionId)
    requires OpenRows(rows)
    ensures ClosedOf(rows, p) == 0 && WellClosed(rows)
  {
    if rows != [] {
      OpenRowsCloseNothing(rows[..|rows| - 1], p);
    }
  }

  lemma OpenMore(rows: seq<LifecycleRow>, row: LifecycleRow)
    requires OpenRows(rows) && !row.status.POSITION_CLOSED?
    ensures OpenRows(rows + [row])
  {
    assert (rows + [row])[..|rows|] == rows;
  }

  lemma ThreeOpen(a: LifecycleRow, b: LifecycleRow, c: LifecycleRow)
    requires !a.status.POSITION_CLOSED? && !b.status.POSITION_CLOSED? && !c.status.POSITION_CLOSED?
    ensures OpenRows([a, b, c])
  {
    OpenMore([], a);
    OpenMore([a], b);
    OpenMore([a, b], c);
    assert [] + [a] == [a] && [a] + [b] == [a, b] && [a, b] + [c] == [a, b, c];
  }

  lemma RowsClose(c: Candidate, cs: seq<Candle>, r: Result, pnl: (real, CloseReason) -> Option<real>, p: PositionId)
    requires r.exit <= |cs| && cs != []
    ensures WellClosed(Rows(c, cs, r, pnl)) && ClosedOf(Rows(c, cs, r, pnl), p) <= if p.signal == c.signal then 1 else 0
  {
    RowsSplit(c, cs, r, pnl);
    var a, o, m, last := AcceptedRows(c), OpeningRows(c), MiddleRows(c, r), LastRow(c, cs, r, pnl);
    ThreeOpen(a[0], a[1], a[2]);
    ThreeOpen(o[0], o[1], o[2]);
    assert OpenRows(a) && OpenRows(m);
    assert Closes(last) && ClosesPosition(last, p) <= if p.signal == c.signal then 1 else 0;
    hide AcceptedRows, OpeningRows, MiddleRows, LastRow, Rows;
    OpenRowsCloseNothing(a, p);
    OpenRowsCloseNothing(m, p);
    ClosedOfAppend(a, m, p);
    ClosedOfAppend(a + m, [last], p);
    assert [last][..0] == [];
  }

  lemma OpenRowKeepsClosedOnce(log: seq<LifecycleRow>, row: LifecycleRow, seen: set<SignalId>)
    requires ClosedOnce(log, seen) && !row.status.POSITION_CLOSED?
    ensures ClosedOnce(log + [row], seen)
  {
    assert (log + [row])[..|log|] == log;
  }

  lemma TradeKeepsClosedOnce(log: seq<LifecycleRow>, c: Candidate, cs: seq<Candle>, r: Result,
                             pnl: (real, CloseReason) -> Option<real>, seen: set<SignalId>)
    requires ClosedOnce(log, seen) && c.signal !in seen && r.exit <= |cs| && cs != []
    ensures ClosedOnce(log + Rows(c, cs, r, pnl), seen + {c.signal})
  {
    hide Rows;
    forall p ensures ClosedOf(log + Rows(c, cs, r, pnl), p) <= if p.signal in seen + {c.signal} then 1 else 0
             ensures WellClosed(log + Rows(c, cs, r, pnl)) {
      RowsClose(c, cs, r, pnl, p);
      ClosedOfAppend(log, Rows(c, cs, r, pnl), p);
    }
    var any: PositionId := PositionOf(c);
    assert ClosedOf(log + Rows(c, cs, r, pnl), any) <= 1;
  }

  lemma LedKeepsClosedOnce(setup: Setup, b: Book, f: Feed, r: Result, b': Book, seen: set<SignalId>)
    requires ClosedOnce(b.lifecycle, seen) && f.candidate.signal !in seen && Led(setup, b, f, r, b')
    ensures ClosedOnce(b'.lifecycle, seen + {f.candidate.signal})
  {
    var j, created := Judged(setup, b.stats, f), Created(f.candidate);
    hide Rows, StatsAfter, Judged, ClosedOnce;
    if f.selector.None? {
      OpenRowKeepsClosedOnce(b.lifecycle, created, seen);
    }
    if j.TakeUp? {
      assert r.exit <= |f.candles[f.idx..]|;
      hide FirstTouch;
      if f.selector.None? {
        TradeKeepsClosedOnce(b.lifecycle + [created], f.candidate, f.candles[f.idx..], r, setup.pnl, seen);
      } else {
        SelectorRefuses(setup, b.stats, f);
      }
    } else {
      var before := b.lifecycle + if f.selector.Some? then [] else [created];
      assert f.selector.Some? ==> before == b.lifecycle;
      if j.Refuse? {
        JudgedOpenly(setup, b.stats, f);
        OpenRowKeepsClosedOnce(before, RefusalRow(f.candidate, j.state, j.reason), seen);
      } else {
        SelectorRefuses(setup, b.stats, f);
      }
      MoreSeen(b'.lifecycle, seen, f.candidate.signal);
    }
  }

  lemma SelectorRefuses(setup: Setup, s: Stats, f: Feed)
    ensures f.selector.Some? ==> Judged(setup, s, f).Refuse?
  {
  }

  lemma JudgedOpenly(setup: Setup, s: Stats, f: Feed)
    ensures Judged(setup, s, f).Refuse? ==> !Judged(setup, s, f).state.POSITION_CLOSED?
  {
  }

  lemma MoreSeen(log: seq<LifecycleRow>, seen: set<SignalId>, id: SignalId)
    requires ClosedOnce(log, seen)
    ensures ClosedOnce(log, seen + {id})
  {
  }

  /** In the log of every run each position is closed at most once. */
  lemma {:induction false} RanClosesOnce(setup: Setup, feeds: seq<Feed>, b: Book, b': Book, seen: set<SignalId>)
    requires Ran(setup, feeds, b, b') && Admissible(feeds, seen) && ClosedOnce(b.lifecycle, seen)
    ensures ClosedOnce(b'.lifecycle, seen + Fed(feeds))
  {
    hide ClosedOnce, Led;
    if feeds == [] {
      assert seen + Fed(feeds) == seen;
    } else {
      var init, last := feeds[..|feeds| - 1], feeds[|feeds| - 1];
      var m, r :| Ran(setup, init, b, m) && Led(setup, m, last, r, b');
      RanClosesOnce(setup, init, b, m, seen);
      LedKeepsClosedOnce(setup, m, last, r, b', seen + Fed(init));
      assert seen + Fed(feeds) == seen + Fed(init) + {last.candidate.signal};
    }
  }

  // ---------- Points of the curve ----------

  lemma CountingMore(rows: seq<E.Row>, row: E.Row)
    ensures E.Counting(rows + [row]) == if E.Counts(row) then E.Counting(rows) + [row] else E.Counting(rows)
  {
    assert (rows + [row])[..|rows|] == rows;
  }

  lemma RowCounts(row: LifecycleRow, names: Names)
    requires Closes(row)
    ensures E.Counts(CurveRow(row, names)) <==> row.status.POSITION_CLOSED?
    ensures ClosedIn(row, TP_HIT) + ClosedIn(row, SL_HIT) + ClosedIn(row, TIMEOUT) == if row.status.POSITION_CLOSED? then 1 else 0
  {
    if row.status.POSITION_CLOSED? {
      var why := row.close.value;
      assert why.TP_HIT? || why.SL_HIT? || why.TIMEOUT?;
    }
  }

  lemma {:induction false} CountingCounts(log: seq<LifecycleRow>, names: Names)
    requires WellClosed(log)
    ensures |E.Counting(CurveRows(log, names))| == Closings(log)
  {
    if log != [] {
      CountingCounts(log[..|log| - 1], names);
      CountingMore(CurveRows(log[..|log| - 1], names), CurveRow(log[|log| - 1], names));
      RowCounts(log[|log| - 1], names);
      hide E.Counting, E.Counts, ClosedIn, CurveRow, Closes;
    }
  }

  lemma ClosingPosition(row: LifecycleRow, names: Names, p: PositionId)
    requires Closes(row) && Proper(names) && row.status.POSITION_CLOSED?
    ensures CurveRow(row, names).position == names.position(p) <==> ClosesPosition(row, p) == 1
  {
  }

  lemma {:induction false} CountingOfPosition(log: seq<LifecycleRow>, names: Names, p: PositionId)
    requires WellClosed(log) && Proper(names)
    ensures |E.OfPosition(E.Counting(CurveRows(log, names)), names.position(p))| == ClosedOf(log, p)
  {
    if log != [] {
      var init, last := log[..|log| - 1], log[|log| - 1];
      CountingOfPosition(init, names, p);
      CountingMore(CurveRows(init, names), CurveRow(last, names));
      RowCounts(last, names);
      if last.status.POSITION_CLOSED? {
        ClosingPosition(last, names, p);
        E.OneMoreOfPosition(E.Counting(CurveRows(init, names)), CurveRow(last, names), names.position(p));
      }
      hide E.Counting, E.OfPosition, E.Counts, CurveRow, Proper, Closes;
    }
  }

  lemma {:induction false} CountingIsNamed(log: seq<LifecycleRow>, names: Names, position: string)
    requires WellClosed(log) && Proper(names) && E.OfPosition(E.Counting(CurveRows(log, names)), position) != []
    ensures exists p :: names.position(p) == position
  {
    if log != [] {
      var init, last := log[..|log| - 1], log[|log| - 1];
      CountingMore(CurveRows(init, names), CurveRow(last, names));
      RowCounts(last, names);
      E.OneMoreOfPosition(E.Counting(CurveRows(init, names)), CurveRow(last, names), position);
      if E.OfPosition(E.Counting(CurveRows(init, names)), position) != [] {
        CountingIsNamed(init, names, position);
      } else {
        assert names.position(last.position.value) == position;
      }
    }
  }

  /** No position of the list is named twice, and each is named. */
  ghost predicate NamedOnce(rows: seq<E.Row>) {
    forall position :: |E.OfPosition(rows, position)| <= if position == [] then 0 else 1
  }

  lemma CountingNamesOnce(log: seq<LifecycleRow>, names: Names, seen: set<SignalId>)
    requires ClosedOnce(log, seen) && Proper(names)
    ensures NamedOnce(E.Counting(CurveRows(log, names)))
  {
    var rows := E.Counting(CurveRows(log, names));
    forall position ensures |E.OfPosition(rows, position)| <= if position == [] then 0 else 1 {
      if E.OfPosition(rows, position) != [] {
        CountingIsNamed(log, names, position);
        var p :| names.position(p) == position;
        CountingOfPosition(log, names, p);
      }
    }
  }

  lemma {:induction false} PlacedCounts(rows: seq<E.Row>, row: E.Row, position: string)
    ensures var placed := Sorting.Placed(rows, E.Earlier, row);
            && |placed| == |rows| + 1
            && |E.OfPosition(placed, position)| == |E.OfPosition(rows, position)| + if row.position == position then 1 else 0
  {
    hide E.Earlier;
    if rows != [] && E.Earlier(row, rows[|rows| - 1]) {
      var init, last := rows[..|rows| - 1], rows[|rows| - 1];
      PlacedCounts(init, row, position);
      E.OneMoreOfPosition(Sorting.Placed(init, E.Earlier, row), last, position);
    } else {
      E.OneMoreOfPosition(rows, row, position);
    }
  }

  lemma {:induction false} TimeOrderCounts(rows: seq<E.Row>, position: string)
    ensures |E.InTimeOrder(rows)| == |rows|
    ensures |E.OfPosition(E.InTimeOrder(rows), position)| == |E.OfPosition(rows, position)|
  {
    hide Sorting.Placed;
    if rows != [] {
      TimeOrderCounts(rows[..|rows| - 1], position);
      PlacedCounts(E.InTimeOrder(rows[..|rows| - 1]), rows[|rows| - 1], position);
    }
  }

  lemma NamedOnceBefore(rows: seq<E.Row>)
    requires NamedOnce(rows) && rows != []
    ensures NamedOnce(rows[..|rows| - 1]) && !E.Holds(rows[..|rows| - 1], rows[|rows| - 1].position)
  {
    var init, last := rows[..|rows| - 1], rows[|rows| - 1];
    assert rows == init + [last];
    E.HoldsIsOfPosition(init, last.position);
    forall position ensures |E.OfPosition(init, position)| <= if position == [] then 0 else 1 {
      E.OneMoreOfPosition(init, last, position);
    }
    E.OneMoreOfPosition(init, last, last.position);
    hide E.OfPosition, E.Holds;
  }

  lemma {:induction false} OnceKeepsAll(rows: seq<E.Row>)
    requires NamedOnce(rows)
    ensures E.Once(rows) == rows
  {
    if rows != [] {
      NamedOnceBefore(rows);
      OnceKeepsAll(rows[..|rows| - 1]);
      assert rows == rows[..|rows| - 1] + [rows[|rows| - 1]];
    }
  }

  /** The curve of a run's log has exactly one point for each trade that hit its target or its stop or
      was open at the end. */
  lemma CurveHasOnePointPerTrade(setup: Setup, feeds: seq<Feed>, start: Book, b: Book, names: Names)
    requires start.lifecycle == [] && Admissible(feeds, {}) && Ran(setup, feeds, start, b) && Proper(names)
    ensures var c := DerivedCounts(b.lifecycle);
            |E.AcceptedTerminal(CurveRows(b.lifecycle, names))| == c.tpHits + c.slHits + c.openAtEnd
  {
    NothingClosed();
    RanClosesOnce(setup, feeds, start, b, {});
    var rows := E.Counting(CurveRows(b.lifecycle, names));
    CountingCounts(b.lifecycle, names);
    CountingNamesOnce(b.lifecycle, names, {} + Fed(feeds));
    hide E.Counting, E.InTimeOrder, E.OfPosition, CurveRows, Ran, Signals, Rejections, Keys, Closed;
    forall position ensures |E.OfPosition(E.InTimeOrder(rows), position)| <= if position == [] then 0 else 1 {
      TimeOrderCounts(rows, position);
    }
    TimeOrderCounts(rows, []);
    OnceKeepsAll(E.InTimeOrder(rows));
  }

  lemma NothingClosed()
    ensures ClosedOnce([], {})
  {
  }
}
