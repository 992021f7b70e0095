/** The lifecycle log of a backtest: the rows that one accepted candidate writes, and the totals
    that are derived from the whole log afterwards. */
module Lifecycle {
  import opened Options
  import opened Market
  import opened TradeSimulation

  // ---------- Rows of one candidate ----------

  function Row(c: Candidate, status: Status, price: real, order: Option<OrderId>, position: Option<PositionId>): (row: LifecycleRow)
    ensures row.status == status && row.at == c.signal.timestamp && row.signal == c.signal && row.order == order
    ensures KeyOf(row) == Key(order, c.signal, c.signal)
  {
    LifecycleRow(c.signal.timestamp, c.signal, c.side, status, None, None, order, position, price, 0.0, 0.0, None)
  }

  function OrderOf(c: Candidate): OrderId {
    OrderId(c.signal, c.plan)
  }

  function PositionOf(c: Candidate): PositionId {
    PositionId(c.signal, c.side)
  }

  function Distance(a: real, b: real): real {
    var d := if a < b then b - a else a - b;
    if d > 0.000000001 then d else 0.000000001
  }

  function ReasonOf(o: Outcome): CloseReason {
    if o.ClosedTp? then TP_HIT else if o.ClosedSl? then SL_HIT else TIMEOUT
  }

  /** The row of a closed position: at its bracket, or at the last close when the list ended. */
  function ClosingRow(c: Candidate, cs: seq<Candle>, r: Result, pnl: (real, CloseReason) -> Option<real>): LifecycleRow
    requires r.exit <= |cs| && cs != []
  {
    var price := if r.outcome.ClosedTp? then c.plan.tp else if r.outcome.ClosedSl? then c.plan.sl else cs[|cs| - 1].close;
    LifecycleRow(cs[if r.exit < |cs| then r.exit else |cs| - 1].timestamp, c.signal, c.side, POSITION_CLOSED, None,
                 Some(ReasonOf(r.outcome)), Some(OrderOf(c)), Some(PositionOf(c)), price,
                 r.mfe / Distance(c.plan.tp, c.plan.entry), r.mae / Distance(c.plan.entry, c.plan.sl),
                 pnl(price, ReasonOf(r.outcome)))
  }

  /** All rows of an accepted candidate; the entry and timeout rows carry no order. */
  function Rows(c: Candidate, cs: seq<Candle>, r: Result, pnl: (real, CloseReason) -> Option<real>): seq<LifecycleRow>
    requires r.exit <= |cs| && cs != []
  {
    AcceptedRows(c) + if r.outcome.NotTriggered? then [Row(c, ENTRY_TIMEOUT, 0.0, None, None)] else TradeRows(c, ClosingRow(c, cs, r, pnl))
  }

  function AcceptedRows(c: Candidate): seq<LifecycleRow> {
    [Row(c, SIGNAL_CREATED, 0.0, None, None), Row(c, SIGNAL_ACCEPTED, 0.0, None, None), Row(c, WAITING_ENTRY_ZONE, 0.0, None, None)]
  }

  function OpeningRows(c: Candidate): seq<LifecycleRow> {
    [Row(c, ENTRY_TRIGGERED, c.plan.entry, None, None),
     Row(c, ORDER_PLACED, c.plan.entry, Some(OrderOf(c)), None),
     Row(c, POSITION_OPENED, c.plan.entry, Some(OrderOf(c)), Some(PositionOf(c)))]
  }

  function TradeRows(c: Candidate, closing: LifecycleRow): seq<LifecycleRow> {
    OpeningRows(c) + [closing]
  }

  /** A distance that is never less than a billionth. */
  predicate IsSpan(span: real, difference: real) {
    span >= difference && span >= -difference && span >= 0.000000001 && span in {difference, -difference, 0.000000001}
  }

  lemma SpanExists(difference: real) returns (span: real)
    ensures IsSpan(span, difference)
  {
    span := Distance(difference, 0.0);
  }

  /** The last row of a closed position is priced at the bracket that was touched, or at the last close, carries the
      time of the candle, and measures the best excursion against the way to the target and the worst one against
      the way to the stop. */
  lemma ClosingExactly(c: Candidate, cs: seq<Candle>, r: Result, pnl: (real, CloseReason) -> Option<real>, reach: real, risk: real)
    requires r.exit <= |cs| && cs != [] && !r.outcome.NotTriggered?
    requires IsSpan(reach, c.plan.tp - c.plan.entry) && IsSpan(risk, c.plan.sl - c.plan.entry)
    ensures var rows := Rows(c, cs, r, pnl);
            var row := rows[6];
            && |rows| == 7 && row.status == POSITION_CLOSED && row.close.Some?
            && (r.outcome == ClosedTp ==> row.close.value == TP_HIT && row.price == c.plan.tp)
            && (r.outcome == ClosedSl ==> row.close.value == SL_HIT && row.price == c.plan.sl)
            && (r.outcome != ClosedTp && r.outcome != ClosedSl ==> row.close.value == TIMEOUT && row.price == cs[|cs| - 1].close)
            && (r.exit < |cs| ==> row.at == cs[r.exit].timestamp) && (r.exit == |cs| ==> row.at == cs[|cs| - 1].timestamp)
            && row.mfe * reach == r.mfe && row.mae * risk == r.mae
            && row.pnl == pnl(row.price, row.close.value)
  {
    assert Distance(c.plan.tp, c.plan.entry) == reach && Distance(c.plan.entry, c.plan.sl) == risk;
  }

  /** What an accepted candidate goes through, in this order. */
  lemma StatusesInOrder(c: Candidate, cs: seq<Candle>, r: Result, pnl: (real, CloseReason) -> Option<real>)
    requires r.exit <= |cs| && cs != []
    ensures var rows := Rows(c, cs, r, pnl);
            && |rows| == (if r.outcome.NotTriggered? then 4 else 7)
            && rows[0].status == SIGNAL_CREATED && rows[1].status == SIGNAL_ACCEPTED && rows[2].status == WAITING_ENTRY_ZONE
            && (if |rows| == 4 then rows[3].status == ENTRY_TIMEOUT
                else rows[3].status == ENTRY_TRIGGERED && rows[4].status == ORDER_PLACED && rows[5].status == POSITION_OPENED
                     && rows[3].price == rows[4].price == rows[5].price == c.plan.entry
                     && rows[4].order == rows[5].order == rows[6].order == Some(OrderId(c.signal, c.plan))
                     && rows[5].position == rows[6].position == Some(PositionId(c.signal, c.side)))
  {
  }

  method SimulateCandidate(c: Candidate, candles: seq<Candle>, idx: nat, pnl: (real, CloseReason) -> Option<real>)
    returns (rows: seq<LifecycleRow>, r: Result)
    requires idx < |candles|
    ensures FirstTouch(candles[idx..], c.plan, c.side.LONG?, c.immediate, r)
    ensures rows == Rows(c, candles[idx..], r, pnl)
  {
    r := Simulate(candles, idx, c.plan, c.side, c.immediate);
    var cs := candles[idx..];
    rows := AcceptedRows(c);
    if r.outcome.NotTriggered? {
      rows := rows + [Row(c, ENTRY_TIMEOUT, 0.0, None, None)];
      return;
    }
    rows := rows + TradeRows(c, ClosingRow(c, cs, r, pnl));
  }

  // ---------- Totals derived from the log ----------

  datatype Key = Key(order: Option<OrderId>, at: SignalId, signal: SignalId)

  /** A row without an order is keyed by its own symbol and timestamp. */
  function KeyOf(row: LifecycleRow): Key {
    if row.order.Some? then Key(row.order, row.signal, row.signal)
    else Key(None, SignalId(row.signal.symbol, row.at), row.signal)
  }

  /** Symbol and timestamp of the rows that introduce a signal. */
  function Signals(rows: seq<LifecycleRow>): set<SignalId> {
    if rows == [] then {} else Signals(rows[..|rows| - 1]) + SignalIn(rows[|rows| - 1])
  }

  function SignalIn(row: LifecycleRow): set<SignalId> {
    if row.status.SIGNAL_CREATED? || row.status.SYMBOL_REJECTED? then {SignalId(row.signal.symbol, row.at)} else {}
  }

  predicate IsRejection(s: Status) {
    s.SYMBOL_REJECTED? || s.SIGNAL_REJECTED? || s.ORDER_REJECTED?
  }

  function Rejections(rows: seq<LifecycleRow>): nat {
    if rows == [] then 0 else Rejections(rows[..|rows| - 1]) + if IsRejection(rows[|rows| - 1].status) then 1 else 0
  }

  /** Keys of the rows of one status. */
  function Keys(rows: seq<LifecycleRow>, s: Status): set<Key> {
    if rows == [] then {} else Keys(rows[..|rows| - 1], s) + KeyIn(rows[|rows| - 1], s)
  }

  function KeyIn(row: LifecycleRow, s: Status): set<Key> {
    if row.status == s then {KeyOf(row)} else {}
  }

  function Closed(rows: seq<LifecycleRow>, why: CloseReason): nat {
    if rows == [] then 0 else Closed(rows[..|rows| - 1], why) + ClosedIn(rows[|rows| - 1], why)
  }

  function ClosedIn(row: LifecycleRow, why: CloseReason): nat {
    if row.status.POSITION_CLOSED? && row.close == Some(why) then 1 else 0
  }

  datatype Counts = Counts(candidates: int, accepted: int, rejected: int, orders: int, triggered: int, notTriggered: int,
                           openAtEnd: int, tpHits: int, slHits: int)

  /** `_derive_backtest_counts`. */
  function DerivedCounts(rows: seq<LifecycleRow>): Counts {
    var candidates, rejected := |Signals(rows)|, Rejections(rows);
    var waiting, triggered, placed := Keys(rows, WAITING_ENTRY_ZONE), Keys(rows, ENTRY_TRIGGERED), Keys(rows, ORDER_PLACED);
    Counts(candidates, candidates - rejected, rejected, |placed|, |triggered|, |waiting - (triggered + placed)|,
           Closed(rows, TIMEOUT), Closed(rows, TP_HIT), Closed(rows, SL_HIT))
  }

  // ---------- Logs appended to ----------

  lemma {:induction false} SignalsAppend(a: seq<LifecycleRow>, b: seq<LifecycleRow>)
    ensures Signals(a + b) == Signals(a) + Signals(b) && Rejections(a + b) == Rejections(a) + Rejections(b)
  {
    if b == [] {
      assert a + b == a;
    } else {
      SignalsAppend(a, b[..|b| - 1]);
      assert (a + b)[..|a + b| - 1] == a + b[..|b| - 1];
    }
  }

  lemma {:induction false} KeysAppend(a: seq<LifecycleRow>, b: seq<LifecycleRow>, s: Status)
    ensures Keys(a + b, s) == Keys(a, s) + Keys(b, s)
  {
    if b == [] {
      assert a + b == a;
    } else {
      KeysAppend(a, b[..|b| - 1], s);
      assert (a + b)[..|a + b| - 1] == a + b[..|b| - 1];
    }
  }

  lemma {:induction false} ClosedAppend(a: seq<LifecycleRow>, b: seq<LifecycleRow>, why: CloseReason)
    ensures Closed(a + b, why) == Closed(a, why) + Closed(b, why)
  {
    if b == [] {
      assert a + b == a;
    } else {
      ClosedAppend(a, b[..|b| - 1], why);
      assert (a + b)[..|a + b| - 1] == a + b[..|b| - 1];
    }
  }

  lemma OneRow(row: LifecycleRow)
    ensures Signals([row]) == SignalIn(row) && Rejections([row]) == if IsRejection(row.status) then 1 else 0
    ensures forall s :: Keys([row], s) == KeyIn(row, s)
    ensures forall why :: Closed([row], why) == ClosedIn(row, why)
  {
    assert [row][..0] == [];
  }

  lemma ThreeRows(a: LifecycleRow, b: LifecycleRow, c: LifecycleRow)
    ensures Signals([a, b, c]) == SignalIn(a) + SignalIn(b) + SignalIn(c)
    ensures Rejections([a, b, c]) == (if IsRejection(a.status) then 1 else 0) + (if IsRejection(b.status) then 1 else 0)
                                     + (if IsRejection(c.status) then 1 else 0)
  {
    OneRow(a);
    OneRow(b);
    OneRow(c);
    SignalsAppend([a], [b]);
    SignalsAppend([a] + [b], [c]);
    assert [a, b, c] == [a] + [b] + [c];
  }

  lemma ThreeKeys(a: LifecycleRow, b: LifecycleRow, c: LifecycleRow, s: Status)
    ensures Keys([a, b, c], s) == KeyIn(a, s) + KeyIn(b, s) + KeyIn(c, s)
  {
    OneRow(a);
    OneRow(b);
    OneRow(c);
    KeysAppend([a], [b], s);
    KeysAppend([a] + [b], [c], s);
    assert [a, b, c] == [a] + [b] + [c];
  }

  lemma ThreeClosed(a: LifecycleRow, b: LifecycleRow, c: LifecycleRow, why: CloseReason)
    ensures Closed([a, b, c], why) == ClosedIn(a, why) + ClosedIn(b, why) + ClosedIn(c, why)
  {
    OneRow(a);
    OneRow(b);
    OneRow(c);
    ClosedAppend([a], [b], why);
    ClosedAppend([a] + [b], [c], why);
    assert [a, b, c] == [a] + [b] + [c];
  }

  // ---------- What the rows of an accepted candidate say ----------

  function LastRow(c: Candidate, cs: seq<Candle>, r: Result, pnl: (real, CloseReason) -> Option<real>): LifecycleRow
    requires r.exit <= |cs| && cs != []
  {
    if r.outcome.NotTriggered? then Row(c, ENTRY_TIMEOUT, 0.0, None, None) else ClosingRow(c, cs, r, pnl)
  }

  function MiddleRows(c: Candidate, r: Result): seq<LifecycleRow> {
    if r.outcome.NotTriggered? then [] else OpeningRows(c)
  }

  lemma RowsSplit(c: Candidate, cs: seq<Candle>, r: Result, pnl: (real, CloseReason) -> Option<real>)
    requires r.exit <= |cs| && cs != []
    ensures Rows(c, cs, r, pnl) == AcceptedRows(c) + MiddleRows(c, r) + [LastRow(c, cs, r, pnl)]
  {
    assert AcceptedRows(c) + [] == AcceptedRows(c);
    assert r.outcome.NotTriggered? || AcceptedRows(c) + (OpeningRows(c) + [LastRow(c, cs, r, pnl)])
                                      == AcceptedRows(c) + OpeningRows(c) + [LastRow(c, cs, r, pnl)];
  }

  lemma RowsSignals(c: Candidate, cs: seq<Candle>, r: Result, pnl: (real, CloseReason) -> Option<real>)
    requires r.exit <= |cs| && cs != []
    ensures Signals(Rows(c, cs, r, pnl)) == {c.signal} && Rejections(Rows(c, cs, r, pnl)) == 0
  {
    RowsSplit(c, cs, r, pnl);
    var a, o := AcceptedRows(c), OpeningRows(c);
    ThreeRows(a[0], a[1], a[2]);
    ThreeRows(o[0], o[1], o[2]);
    OneRow(LastRow(c, cs, r, pnl));
    SignalsAppend(a, MiddleRows(c, r));
    SignalsAppend(a + MiddleRows(c, r), [LastRow(c, cs, r, pnl)]);
    assert SignalId(c.signal.symbol, c.signal.timestamp) == c.signal;
  }

  lemma AcceptedKeys(c: Candidate, s: Status)
    requires s == WAITING_ENTRY_ZONE || s == ENTRY_TRIGGERED || s == ORDER_PLACED
    ensures Keys(AcceptedRows(c), s) == if s.WAITING_ENTRY_ZONE? then {Key(None, c.signal, c.signal)} else {}
    ensures Keys(OpeningRows(c), s) == (if s.ENTRY_TRIGGERED? then {Key(None, c.signal, c.signal)} else {})
                                       + if s.ORDER_PLACED? then {Key(Some(OrderOf(c)), c.signal, c.signal)} else {}
  {
    var a, o := AcceptedRows(c), OpeningRows(c);
    ThreeKeys(a[0], a[1], a[2], s);
    ThreeKeys(o[0], o[1], o[2], s);
    assert SignalId(c.signal.symbol, c.signal.timestamp) == c.signal;
    hide Keys;
  }

  lemma RowsKeys(c: Candidate, cs: seq<Candle>, r: Result, pnl: (real, CloseReason) -> Option<real>, s: Status)
    requires r.exit <= |cs| && cs != []
    ensures Keys(Rows(c, cs, r, pnl), s) == Keys(AcceptedRows(c), s) + Keys(MiddleRows(c, r), s) + KeyIn(LastRow(c, cs, r, pnl), s)
  {
    RowsSplit(c, cs, r, pnl);
    hide *;
    var a, m, last := AcceptedRows(c), MiddleRows(c, r), LastRow(c, cs, r, pnl);
    OneRow(last);
    KeysAppend(a, m, s);
    KeysAppend(a + m, [last], s);
  }

  lemma RowsClosed(c: Candidate, cs: seq<Candle>, r: Result, pnl: (real, CloseReason) -> Option<real>, why: CloseReason)
    requires r.exit <= |cs| && cs != []
    ensures Closed(Rows(c, cs, r, pnl), why) == if !r.outcome.NotTriggered? && ReasonOf(r.outcome) == why then 1 else 0
  {
    RowsSplit(c, cs, r, pnl);
    var a, o := AcceptedRows(c), OpeningRows(c);
    ThreeClosed(a[0], a[1], a[2], why);
    ThreeClosed(o[0], o[1], o[2], why);
    OneRow(LastRow(c, cs, r, pnl));
    ClosedAppend(a, MiddleRows(c, r), why);
    ClosedAppend(a + MiddleRows(c, r), [LastRow(c, cs, r, pnl)], why);
  }

  // ---------- Balance ----------

  function Closings(rows: seq<LifecycleRow>): nat {
    Closed(rows, TP_HIT) + Closed(rows, SL_HIT) + Closed(rows, TIMEOUT)
  }

  /** The sets and counts that the totals are taken from. */
  datatype Tally = Tally(signals: set<SignalId>, rejections: nat, waiting: set<Key>, triggered: set<Key>, placed: set<Key>,
                         closings: nat)

  function TallyOf(rows: seq<LifecycleRow>): Tally {
    Tally(Signals(rows), Rejections(rows), Keys(rows, WAITING_ENTRY_ZONE), Keys(rows, ENTRY_TRIGGERED), Keys(rows, ORDER_PLACED),
          Closings(rows))
  }

  /** Waiting and triggered keys are of signals seen, placed keys of their orders. */
  ghost predicate Shaped(t: Tally, seen: set<SignalId>) {
    && t.signals == seen
    && (forall k :: k in t.waiting ==> k.order.None? && k.at == k.signal && k.signal in seen)
    && (forall k :: k in t.placed ==> k.order.Some? && k.signal in seen)
    && t.triggered <= t.waiting
  }

  ghost predicate Counted(t: Tally, seen: nat, others: nat) {
    |t.placed| == |t.triggered| == t.closings && seen == t.rejections + |t.waiting| + others
  }

  ghost predicate BalancedTally(t: Tally, seen: set<SignalId>, others: nat) {
    Shaped(t, seen) && Counted(t, |seen|, others)
  }

  lemma OneMore<T>(s: set<T>, x: T)
    requires x !in s
    ensures |s + {x}| == |s| + 1
  {
  }

  /** A log in which every signal was written once: rejected, accepted, or neither (`others`). */
  ghost predicate Balanced(rows: seq<LifecycleRow>, seen: set<SignalId>, others: nat) {
    BalancedTally(TallyOf(rows), seen, others)
  }

  lemma UntriggeredCount(t: Tally, seen: set<SignalId>, others: nat)
    requires BalancedTally(t, seen, others)
    ensures |t.waiting - (t.triggered + t.placed)| == |t.waiting| - |t.triggered|
  {
    assert t.waiting - (t.triggered + t.placed) == t.waiting - t.triggered;
    assert t.waiting == t.triggered + (t.waiting - t.triggered);
  }

  /** The totals of such a log balance, except that a signal with neither outcome is counted as
      accepted: they balance exactly when there is none. */
  lemma TotalsBalance(rows: seq<LifecycleRow>, seen: set<SignalId>, others: nat)
    requires Balanced(rows, seen, others)
    ensures var c := DerivedCounts(rows);
            && c.accepted == c.tpHits + c.slHits + c.openAtEnd + c.notTriggered + others
            && (c.accepted == c.tpHits + c.slHits + c.openAtEnd + c.notTriggered <==> others == 0)
            && c.accepted == |Keys(rows, WAITING_ENTRY_ZONE)| + others
            && c.orders == c.triggered == c.tpHits + c.slHits + c.openAtEnd
            && c.rejected == c.candidates - c.accepted
  {
    UntriggeredCount(TallyOf(rows), seen, others);
  }

  function Accepting(t: Tally, id: SignalId, order: OrderId, triggered: bool): Tally {
    var w, p := {Key(None, id, id)}, {Key(Some(order), id, id)};
    if triggered then Tally(t.signals + {id}, t.rejections, t.waiting + w, t.triggered + w, t.placed + p, t.closings + 1)
    else Tally(t.signals + {id}, t.rejections, t.waiting + w, t.triggered, t.placed, t.closings)
  }

  /** One more accepted signal, with an order placed and closed when it triggered. */
  lemma AcceptTally(t: Tally, seen: set<SignalId>, others: nat, id: SignalId, order: OrderId, triggered: bool)
    requires BalancedTally(t, seen, others) && id !in seen
    ensures BalancedTally(Accepting(t, id, order, triggered), seen + {id}, others)
  {
    var w, p := Key(None, id, id), Key(Some(order), id, id);
    assert w !in t.waiting && w !in t.triggered && p !in t.placed;
    OneMore(seen, id);
    OneMore(t.waiting, w);
    OneMore(t.triggered, w);
    OneMore(t.placed, p);
  }

  lemma KeysOfAccepted(rows: seq<LifecycleRow>, created: LifecycleRow, c: Candidate, cs: seq<Candle>, r: Result,
                       pnl: (real, CloseReason) -> Option<real>, s: Status)
    requires r.exit <= |cs| && cs != [] && created.status.SIGNAL_CREATED?
    requires s == WAITING_ENTRY_ZONE || s == ENTRY_TRIGGERED || s == ORDER_PLACED
    ensures Keys(rows + [created] + Rows(c, cs, r, pnl), s)
            == Keys(rows, s) + (if s.WAITING_ENTRY_ZONE? then {Key(None, c.signal, c.signal)}
                                else if r.outcome.NotTriggered? then {}
                                else if s.ENTRY_TRIGGERED? then {Key(None, c.signal, c.signal)}
                                else {Key(Some(OrderOf(c)), c.signal, c.signal)})
  {
    OneRow(created);
    KeysAppend(rows, [created], s);
    KeysAppend(rows + [created], Rows(c, cs, r, pnl), s);
    RowsKeys(c, cs, r, pnl, s);
    AcceptedKeys(c, s);
    hide Keys, AcceptedRows, OpeningRows, Rows;
  }

  lemma ClosingsOfAccepted(rows: seq<LifecycleRow>, created: LifecycleRow, c: Candidate, cs: seq<Candle>, r: Result,
                           pnl: (real, CloseReason) -> Option<real>, why: CloseReason)
    requires r.exit <= |cs| && cs != [] && created.status.SIGNAL_CREATED?
    ensures Closed(rows + [created] + Rows(c, cs, r, pnl), why)
            == Closed(rows, why) + if !r.outcome.NotTriggered? && ReasonOf(r.outcome) == why then 1 else 0
  {
    OneRow(created);
    ClosedAppend(rows, [created], why);
    ClosedAppend(rows + [created], Rows(c, cs, r, pnl), why);
    RowsClosed(c, cs, r, pnl, why);
  }

  lemma SignalsOfAccepted(rows: seq<LifecycleRow>, created: LifecycleRow, c: Candidate, cs: seq<Candle>, r: Result,
                          pnl: (real, CloseReason) -> Option<real>)
    requires r.exit <= |cs| && cs != []
    requires created.status.SIGNAL_CREATED? && SignalId(created.signal.symbol, created.at) == c.signal
    ensures Signals(rows + [created] + Rows(c, cs, r, pnl)) == Signals(rows) + {c.signal}
    ensures Rejections(rows + [created] + Rows(c, cs, r, pnl)) == Rejections(rows)
  {
    OneRow(created);
    SignalsAppend(rows, [created]);
    SignalsAppend(rows + [created], Rows(c, cs, r, pnl));
    RowsSignals(c, cs, r, pnl);
  }

  lemma TallyOfAccepted(rows: seq<LifecycleRow>, created: LifecycleRow, c: Candidate, cs: seq<Candle>, r: Result,
                        pnl: (real, CloseReason) -> Option<real>, log: seq<LifecycleRow>)
    requires r.exit <= |cs| && cs != [] && log == rows + [created] + Rows(c, cs, r, pnl)
    requires created.status.SIGNAL_CREATED? && SignalId(created.signal.symbol, created.at) == c.signal
    ensures TallyOf(log) == Accepting(TallyOf(rows), c.signal, OrderOf(c), !r.outcome.NotTriggered?)
  {
    SignalsOfAccepted(rows, created, c, cs, r, pnl);
    KeysOfAccepted(rows, created, c, cs, r, pnl, WAITING_ENTRY_ZONE);
    KeysOfAccepted(rows, created, c, cs, r, pnl, ENTRY_TRIGGERED);
    KeysOfAccepted(rows, created, c, cs, r, pnl, ORDER_PLACED);
    ClosingsOfAccepted(rows, created, c, cs, r, pnl, TP_HIT);
    ClosingsOfAccepted(rows, created, c, cs, r, pnl, SL_HIT);
    ClosingsOfAccepted(rows, created, c, cs, r, pnl, TIMEOUT);
  }

  /** Accepting a new signal, whose creation was logged before, keeps the balance. */
  lemma AcceptedKeepsBalance(rows: seq<LifecycleRow>, seen: set<SignalId>, others: nat, created: LifecycleRow,
                             c: Candidate, cs: seq<Candle>, r: Result, pnl: (real, CloseReason) -> Option<real>)
    requires Balanced(rows, seen, others) && c.signal !in seen && r.exit <= |cs| && cs != []
    requires created.status.SIGNAL_CREATED? && SignalId(created.signal.symbol, created.at) == c.signal
    ensures Balanced(rows + [created] + Rows(c, cs, r, pnl), seen + {c.signal}, others)
    ensures Rejections(rows + [created] + Rows(c, cs, r, pnl)) == Rejections(rows)
  {
    TallyOfAccepted(rows, created, c, cs, r, pnl, rows + [created] + Rows(c, cs, r, pnl));
    AcceptTally(TallyOf(rows), seen, others, c.signal, OrderOf(c), !r.outcome.NotTriggered?);
  }

  /** A row that is neither of an order nor a closing one. */
  predicate Inert(row: LifecycleRow) {
    row.status.SIGNAL_CREATED? || IsRejection(row.status)
  }

  lemma TallyOfInert(rows: seq<LifecycleRow>, row: LifecycleRow)
    requires Inert(row)
    ensures var t := TallyOf(rows);
            TallyOf(rows + [row]) == t.(signals := t.signals + SignalIn(row), rejections := t.rejections + if IsRejection(row.status) then 1 else 0)
  {
    OneRow(row);
    SignalsAppend(rows, [row]);
    KeysAppend(rows, [row], WAITING_ENTRY_ZONE);
    KeysAppend(rows, [row], ENTRY_TRIGGERED);
    KeysAppend(rows, [row], ORDER_PLACED);
    ClosedAppend(rows, [row], TP_HIT);
    ClosedAppend(rows, [row], SL_HIT);
    ClosedAppend(rows, [row], TIMEOUT);
  }

  lemma IntroduceTally(t: Tally, t': Tally, seen: set<SignalId>, others: nat, id: SignalId, refused: bool)
    requires BalancedTally(t, seen, others) && id !in seen
    requires t' == t.(signals := t.signals + {id}, rejections := t.rejections + if refused then 1 else 0)
    ensures BalancedTally(t', seen + {id}, if refused then others else others + 1)
  {
    OneMore(seen, id);
  }

  lemma RejectTally(t: Tally, t': Tally, seen: set<SignalId>, others: nat)
    requires BalancedTally(t, seen, others + 1)
    requires t' == t.(rejections := t.rejections + 1)
    ensures BalancedTally(t', seen, others)
  {
  }

  lemma TallyOfRejection(rows: seq<LifecycleRow>, row: LifecycleRow)
    requires row.status.SIGNAL_REJECTED? || row.status.ORDER_REJECTED?
    ensures TallyOf(rows + [row]) == TallyOf(rows).(rejections := Rejections(rows) + 1)
  {
    TallyOfInert(rows, row);
    assert Signals(rows) + SignalIn(row) == Signals(rows);
  }

  /** So does a first row that rejects at once or leaves the signal without an outcome, ... */
  lemma IntroducedKeepsBalance(rows: seq<LifecycleRow>, seen: set<SignalId>, others: nat, row: LifecycleRow)
    requires Balanced(rows, seen, others) && SignalId(row.signal.symbol, row.at) !in seen
    requires row.status.SYMBOL_REJECTED? || row.status.SIGNAL_CREATED?
    ensures Balanced(rows + [row], seen + {SignalId(row.signal.symbol, row.at)}, if row.status.SYMBOL_REJECTED? then others else others + 1)
    ensures Rejections(rows + [row]) == Rejections(rows) + if row.status.SYMBOL_REJECTED? then 1 else 0
  {
    TallyOfInert(rows, row);
    IntroduceTally(TallyOf(rows), TallyOf(rows + [row]), seen, others, SignalId(row.signal.symbol, row.at), row.status.SYMBOL_REJECTED?);
  }

  /** ... and a rejection that gives such a signal its outcome. */
  lemma RejectedKeepsBalance(rows: seq<LifecycleRow>, seen: set<SignalId>, others: nat, row: LifecycleRow, log: seq<LifecycleRow>)
    requires Balanced(rows, seen, others + 1) && (row.status.SIGNAL_REJECTED? || row.status.ORDER_REJECTED?)
    requires log == rows + [row]
    ensures Balanced(log, seen, others) && Rejections(log) == Rejections(rows) + 1
  {
    var t, t' := TallyOf(rows), TallyOf(log);
    assert t' == t.(rejections := t.rejections + 1) by {
      TallyOfRejection(rows, row);
    }
    RejectTally(t, t', seen, others);
  }
}
