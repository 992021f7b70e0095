/** The order of the trades on the equity curve and which rows of the log they are, told by the rows' own fields. */
module CurveOrder {
  import opened EquityCurve
  import Sorting
  import Symbols

  /** When a trade ended: at its recorded closing time, or at the row's own time when none is recorded. */
  predicate EndsAt(row: Row, time: int) {
    if row.closed == 0 then time == row.timestamp else time == row.closed
  }

  /** By the end of the trade, then by symbol, then by side. */
  ghost predicate NotAfter(a: Row, b: Row) {
    forall s, t :: EndsAt(a, s) && EndsAt(b, t) ==>
      && s <= t
      && (s == t ==> a.symbol == b.symbol || Symbols.Less(a.symbol, b.symbol))
      && (s == t && a.symbol == b.symbol ==> a.side == b.side || Symbols.Less(a.side, b.side))
  }

  lemma KeysCompare(a: Row, b: Row)
    ensures !Before(KeyOf(b), KeyOf(a)) <==> NotAfter(a, b)
  {
    hide Symbols.Less;
    Symbols.LessIsTotal(a.symbol, b.symbol);
    Symbols.LessIsTotal(a.side, b.side);
    assert EndsAt(a, if a.closed == 0 then a.timestamp else a.closed);
    assert EndsAt(b, if b.closed == 0 then b.timestamp else b.closed);
  }

  lemma {:induction false} PlaceInFull(rows: seq<Row>, i: nat) returns (k: nat)
    requires i < |Once(rows)|
    ensures k < |rows| && rows[k] == Once(rows)[i]
  {
    var init := rows[..|rows| - 1];
    if i < |Once(init)| {
      k := PlaceInFull(init, i);
    } else {
      k := |rows| - 1;
    }
  }

  /** Leaving out repetitions leaves the order alone. */
  lemma {:induction false} PlacesInFull(rows: seq<Row>, i: nat, j: nat) returns (k: nat, m: nat)
    requires i < j < |Once(rows)|
    ensures k < m < |rows| && rows[k] == Once(rows)[i] && rows[m] == Once(rows)[j]
  {
    var init := rows[..|rows| - 1];
    if j < |Once(init)| {
      k, m := PlacesInFull(init, i, j);
    } else {
      k := PlaceInFull(init, i);
      m := |rows| - 1;
    }
  }

  /** The curve goes through the trades in the order in which they ended. */
  lemma TradesInTimeOrder(rows: seq<Row>, i: nat, j: nat)
    requires i < j < |AcceptedTerminal(rows)|
    ensures NotAfter(AcceptedTerminal(rows)[i], AcceptedTerminal(rows)[j])
  {
    hide Once, Before, KeyOf, NotAfter, Counting, Sorting.Arranged;
    var k, m := PlacesInFull(InTimeOrder(Counting(rows)), i, j);
    EarlierComesFirst(Counting(rows), k, m);
    KeysCompare(AcceptedTerminal(rows)[i], AcceptedTerminal(rows)[j]);
  }

  lemma {:induction false} CountingExactly(rows: seq<Row>, row: Row)
    ensures row in Counting(rows) <==> row in rows && row.reject == "" && row.stage in {POSITION_CLOSED, OPEN_AT_END, TP_HIT, SL_HIT}
  {
    if rows != [] {
      var init, last := rows[..|rows| - 1], rows[|rows| - 1];
      CountingExactly(init, row);
      assert rows == init + [last];
    }
  }

  lemma InOrderMembers(rows: seq<Row>, row: Row)
    ensures row in InTimeOrder(rows) <==> row in rows
  {
    Sorting.ArrangedKeeps(rows, Earlier);
    assert row in multiset(InTimeOrder(rows)) <==> row in multiset(rows);
  }

  lemma {:induction false} FirstIsThere(rows: seq<Row>, row: Row)
    ensures row in OfPosition(rows, row.position) <==> row in rows
  {
    if rows != [] {
      FirstIsThere(rows[..|rows| - 1], row);
      assert rows == rows[..|rows| - 1] + [rows[|rows| - 1]];
    }
  }

  /** Only ends of trades that were not rejected are on the curve, all of them that name no position, and of the others
      one for each position. */
  lemma TradesExactly(rows: seq<Row>, row: Row)
    ensures row in AcceptedTerminal(rows) ==> row in rows && row.reject == "" && row.stage in {POSITION_CLOSED, OPEN_AT_END, TP_HIT, SL_HIT}
    ensures row in rows && row.reject == "" && row.stage != EARLIER && row.position == "" ==> row in AcceptedTerminal(rows)
    ensures row in rows && row.reject == "" && row.stage != EARLIER && row.position != "" ==>
              |OfPosition(AcceptedTerminal(rows), row.position)| == 1
  {
    hide Once, OfPosition, Sorting.Arranged, Counting;
    var ordered := InTimeOrder(Counting(rows));
    CountingExactly(rows, row);
    InOrderMembers(Counting(rows), row);
    if row in AcceptedTerminal(rows) {
      var i :| 0 <= i < |Once(ordered)| && Once(ordered)[i] == row;
      var k := PlaceInFull(ordered, i);
    }
    EachPositionOnce(ordered, row.position);
    FirstIsThere(ordered, row);
    FirstIsThere(Once(ordered), row);
  }
}
