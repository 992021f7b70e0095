/** The trade simulator and the counterfactual of rejected signals: two loops for one first-touch
    reading of a candle list. */
module TradeSimulation {
  import opened Market

  // ---------- One candle ----------

  predicate Touches(c: Candle, p: Plan) {
    c.low <= p.entry <= c.high
  }

  predicate HitsTp(c: Candle, p: Plan, long: bool) {
    if long then c.high >= p.tp else c.low <= p.tp
  }

  predicate HitsSl(c: Candle, p: Plan, long: bool) {
    if long then c.low <= p.sl else c.high >= p.sl
  }

  predicate Hits(c: Candle, p: Plan, long: bool) {
    HitsTp(c, p, long) || HitsSl(c, p, long)
  }

  function Favorable(c: Candle, p: Plan, long: bool): real {
    if long then c.high - p.entry else p.entry - c.low
  }

  function Max(a: real, b: real): real {
    if b > a then b else a
  }

  /** The largest favorable excursion of candles `from..upTo`, at least zero. The adverse one is that
      of the other side. */
  function Excursion(cs: seq<Candle>, from: nat, upTo: nat, p: Plan, long: bool): real
    requires upTo <= |cs|
    decreases upTo
  {
    if upTo <= from then 0.0 else Max(Excursion(cs, from, upTo - 1, p, long), Favorable(cs[upTo - 1], p, long))
  }

  // ---------- First touch ----------

  datatype Outcome = NotTriggered | ClosedTp | ClosedSl | StillOpen

  /** `trigger` and `exit` are candle positions; a missing one is the length of the list. */
  datatype Result = Result(outcome: Outcome, trigger: nat, exit: nat, mfe: real, mae: real)

  /** The entry is the first candle that touches it (or the first candle, when the order does not
      wait); the exit is the first candle from there on that touches a bracket, the stop winning
      within a candle; the excursions are those of the candles from entry to exit. */
  predicate FirstTouch(cs: seq<Candle>, p: Plan, long: bool, immediate: bool, r: Result) {
    && r.trigger <= r.exit <= |cs|
    && (if immediate then r.trigger == 0 else forall i :: 0 <= i < r.trigger ==> !Touches(cs[i], p))
    && (r.trigger < |cs| ==> immediate || Touches(cs[r.trigger], p))
    && (forall i :: r.trigger <= i < r.exit ==> !Hits(cs[i], p, long))
    && (r.exit < |cs| ==> Hits(cs[r.exit], p, long))
    && r.outcome == (if r.trigger == |cs| then NotTriggered else if r.exit == |cs| then StillOpen
                     else if HitsSl(cs[r.exit], p, long) then ClosedSl else ClosedTp)
    && r.mfe == Excursion(cs, r.trigger, if r.exit < |cs| then r.exit + 1 else r.exit, p, long)
    && r.mae == Excursion(cs, r.trigger, if r.exit < |cs| then r.exit + 1 else r.exit, p, !long)
  }

  lemma FirstTouchIsUnique(cs: seq<Candle>, p: Plan, long: bool, immediate: bool, a: Result, b: Result)
    requires FirstTouch(cs, p, long, immediate, a) && FirstTouch(cs, p, long, immediate, b)
    ensures a == b
  {
    var entry := if a.trigger < b.trigger then a.trigger else b.trigger;
    assert entry < |cs| ==> immediate || Touches(cs[entry], p);
    assert a.trigger == b.trigger;
    var first := if a.exit < b.exit then a.exit else b.exit;
    assert first < |cs| ==> Hits(cs[first], p, long);
    assert a.exit == b.exit;
  }

  /** An excursion is the furthest that any of its candles goes from the entry to the good side, or nothing. */
  lemma {:induction false} ExcursionIsFurthest(cs: seq<Candle>, from: nat, upTo: nat, p: Plan, long: bool)
    requires upTo <= |cs|
    ensures var e := Excursion(cs, from, upTo, p, long);
            && e >= 0.0
            && (forall i :: from <= i < upTo ==> if long then cs[i].high <= p.entry + e else p.entry - e <= cs[i].low)
            && (e == 0.0 || exists i :: from <= i < upTo && if long then cs[i].high == p.entry + e else cs[i].low == p.entry - e)
  {
    if from < upTo {
      ExcursionIsFurthest(cs, from, upTo - 1, p, long);
      var e, last := Excursion(cs, from, upTo - 1, p, long), cs[upTo - 1];
      assert if long then last.high == p.entry + Favorable(last, p, long) else last.low == p.entry - Favorable(last, p, long);
    }
  }

  // ---------- The simulator ----------

  /** Waits for the entry, as the simulator's first loop does. */
  method FindEntry(candles: seq<Candle>, idx: nat, p: Plan) returns (j: nat)
    requires idx <= |candles|
    ensures idx <= j <= |candles|
    ensures forall i :: idx <= i < j ==> !Touches(candles[i], p)
    ensures j < |candles| ==> Touches(candles[j], p)
  {
    j := idx;
    while j < |candles|
      invariant idx <= j <= |candles|
      invariant forall i :: idx <= i < j ==> !Touches(candles[i], p)
    {
      if candles[j].low <= p.entry <= candles[j].high {
        break;
      }
      j := j + 1;
    }
  }

  /** One candle of the open trade: new excursions and which bracket it touches, the stop first. */
  method SimulatorBar(c: Candle, p: Plan, longSide: bool, mfe: real, mae: real) returns (mfe': real, mae': real, tp: bool, sl: bool)
    ensures mfe' == Max(mfe, Favorable(c, p, longSide)) && mae' == Max(mae, Favorable(c, p, !longSide))
    ensures sl == HitsSl(c, p, longSide) && tp == (HitsTp(c, p, longSide) && !sl)
  {
    if longSide {
      mfe', mae' := Max(mfe, c.high - p.entry), Max(mae, p.entry - c.low);
      tp, sl := c.high >= p.tp, c.low <= p.sl;
    } else {
      mfe', mae' := Max(mfe, p.entry - c.low), Max(mae, c.high - p.entry);
      tp, sl := c.low <= p.tp, c.high >= p.sl;
    }
    if sl && tp {
      tp := false;
    }
  }

  lemma NoExcursion(cs: seq<Candle>, from: nat, p: Plan)
    requires from <= |cs|
    ensures forall long :: Excursion(cs, from, from, p, long) == 0.0
  {
  }

  lemma ExcursionStep(cs: seq<Candle>, from: nat, k: nat, p: Plan, long: bool)
    requires from <= k < |cs|
    ensures Excursion(cs, from, k + 1, p, long) == Max(Excursion(cs, from, k, p, long), Favorable(cs[k], p, long))
  {
  }

  /** Both loops of the simulator; it takes every side but `LONG` for a short one. */
  method Simulate(candles: seq<Candle>, idx: nat, p: Plan, side: Side, immediate: bool) returns (r: Result)
    requires idx < |candles|
    ensures FirstTouch(candles[idx..], p, side.LONG?, immediate, r)
  {
    hide Excursion, Favorable, Max, HitsTp, HitsSl, Touches;
    var longSide := side.LONG?;
    var start := idx;
    if !immediate {
      start := FindEntry(candles, idx, p);
    }
    ghost var cs := candles[idx..];
    ghost var t := start - idx;
    NoExcursion(cs, t, p);
    if start == |candles| {
      return Result(NotTriggered, start - idx, start - idx, 0.0, 0.0);
    }
    var mfe, mae := 0.0, 0.0;
    var j := start;
    while j < |candles|
      invariant start <= j <= |candles|
      invariant forall i :: t <= i < j - idx ==> !Hits(cs[i], p, longSide)
      invariant mfe == Excursion(cs, t, j - idx, p, longSide) && mae == Excursion(cs, t, j - idx, p, !longSide)
    {
      var c := candles[j];
      assert c == cs[j - idx];
      ExcursionStep(cs, t, j - idx, p, longSide);
      ExcursionStep(cs, t, j - idx, p, !longSide);
      var hitTp, hitSl;
      mfe, mae, hitTp, hitSl := SimulatorBar(c, p, longSide, mfe, mae);
      if hitSl {
        return Result(ClosedSl, start - idx, j - idx, mfe, mae);
      }
      if hitTp {
        return Result(ClosedTp, start - idx, j - idx, mfe, mae);
      }
      j := j + 1;
    }
    r := Result(StillOpen, start - idx, |candles| - idx, mfe, mae);
  }

  // ---------- The counterfactual ----------

  datatype Verdict = UNKNOWN | WOULD_NOT_TRIGGER | WOULD_TP | WOULD_SL | WOULD_TIMEOUT
  datatype Shadow = Shadow(verdict: Verdict, triggered: bool, mfe: real, mae: real)

  /** What a first touch in the window means for a rejected signal. */
  function ShadowOf(r: Result, windowEndsEarly: bool): Shadow {
    Shadow(match r.outcome
           case NotTriggered => WOULD_NOT_TRIGGER
           case ClosedTp => WOULD_TP
           case ClosedSl => WOULD_SL
           case StillOpen => if windowEndsEarly then UNKNOWN else WOULD_TIMEOUT,
           !r.outcome.NotTriggered?, r.mfe, r.mae)
  }

  function Window(candles: seq<Candle>, idx: nat, bars: nat): seq<Candle>
    requires idx <= |candles|
  {
    if idx + bars <= |candles| then candles[idx..idx + bars] else candles[idx..]
  }

  /** The window: so many candles from the signal on, or as many as there are. */
  lemma WindowExactly(candles: seq<Candle>, idx: nat, bars: nat)
    requires idx <= |candles|
    ensures var w := Window(candles, idx, bars);
            && |w| == (if idx + bars <= |candles| then bars else |candles| - idx)
            && forall i :: 0 <= i < |w| ==> w[i] == candles[idx + i]
  {
  }

  method ShadowBar(c: Candle, p: Plan, side: Side, mfe: real, mae: real) returns (mfe': real, mae': real, tp: bool, sl: bool)
    ensures mfe' == Max(mfe, Favorable(c, p, !side.SHORT?)) && mae' == Max(mae, Favorable(c, p, side.SHORT?))
    ensures sl == HitsSl(c, p, !side.SHORT?) && tp == (HitsTp(c, p, !side.SHORT?) && !sl)
  {
    if side.SHORT? {
      mfe', mae' := Max(mfe, p.entry - c.low), Max(mae, c.high - p.entry);
      tp, sl := c.low <= p.tp, c.high >= p.sl;
    } else {
      mfe', mae' := Max(mfe, c.high - p.entry), Max(mae, p.entry - c.low);
      tp, sl := c.high >= p.tp, c.low <= p.sl;
    }
    if sl && tp {
      tp := false;
    }
  }

  /** The loop's variables tell a result apart from its positions. */
  predicate Tells(r: Result, triggered: bool, tp: bool, sl: bool, mfe: real, mae: real) {
    && triggered == !r.outcome.NotTriggered? && tp == r.outcome.ClosedTp? && sl == r.outcome.ClosedSl?
    && mfe == r.mfe && mae == r.mae
  }

  /** The counterfactual's one loop, with a flag for the entry. */
  method Scan(scan: seq<Candle>, p: Plan, side: Side)
    returns (triggered: bool, tp: bool, sl: bool, mfe: real, mae: real)
    ensures exists r :: FirstTouch(scan, p, !side.SHORT?, false, r) && Tells(r, triggered, tp, sl, mfe, mae)
  {
    triggered, tp, sl, mfe, mae := false, false, false, 0.0, 0.0;
    ghost var t: nat, long := |scan|, !side.SHORT?;
    var k := 0;
    while k < |scan| && !tp && !sl
      invariant k <= |scan| && t <= |scan|
      invariant triggered <==> t < k
      invariant triggered || (t == |scan| && !tp && !sl)
      invariant triggered ==> Touches(scan[t], p)
      invariant forall i :: 0 <= i < k && i < t ==> !Touches(scan[i], p)
      invariant forall i :: t <= i < (if tp || sl then k - 1 else k) ==> !Hits(scan[i], p, long)
      invariant tp || sl ==> Hits(scan[k - 1], p, long) && sl == HitsSl(scan[k - 1], p, long) && tp == !sl
      invariant mfe == Excursion(scan, t, k, p, long) && mae == Excursion(scan, t, k, p, !long)
    {
      var c := scan[k];
      if c.low <= p.entry <= c.high {
        if !triggered {
          t := k;
        }
        triggered := true;
      }
      if triggered {
        mfe, mae, tp, sl := ShadowBar(c, p, side, mfe, mae);
      }
      k := k + 1;
    }
    ghost var r := Result(if sl then ClosedSl else if tp then ClosedTp else if triggered then StillOpen else NotTriggered,
                          t, if tp || sl then k - 1 else k, mfe, mae);
    assert FirstTouch(scan, p, long, false, r) && Tells(r, triggered, tp, sl, mfe, mae);
  }

  /** It takes every side but `SHORT` for a long one. */
  method SimulateRejected(candles: seq<Candle>, idx: nat, p: Plan, side: Side, bars: nat) returns (s: Shadow, ghost r: Result)
    ensures idx >= |candles| ==> s == Shadow(UNKNOWN, false, 0.0, 0.0)
    ensures idx < |candles| ==>
      FirstTouch(Window(candles, idx, bars), p, !side.SHORT?, false, r) && s == ShadowOf(r, idx + bars > |candles|)
  {
    if idx >= |candles| {
      return Shadow(UNKNOWN, false, 0.0, 0.0), Result(NotTriggered, 0, 0, 0.0, 0.0);
    }
    var scan := Window(candles, idx, bars);
    var triggered, tp, sl, mfe, mae := Scan(scan, p, side);
    r :| FirstTouch(scan, p, !side.SHORT?, false, r) && Tells(r, triggered, tp, sl, mfe, mae);
    var verdict :=
      if !triggered then WOULD_NOT_TRIGGER
      else if tp then WOULD_TP
      else if sl then WOULD_SL
      else if |scan| < bars && idx + bars > |candles| then UNKNOWN
      else WOULD_TIMEOUT;
    s := Shadow(verdict, triggered, mfe, mae);
  }

  predicate Within(candles: seq<Candle>, idx: nat, bars: nat, i: int) {
    idx <= i < idx + bars && i < |candles|
  }

  /** The candle at `t` spans the entry, and the one at `x`, not before it, touches a bracket. */
  predicate Closes(candles: seq<Candle>, idx: nat, bars: nat, p: Plan, long: bool, t: int, x: int) {
    && Within(candles, idx, bars, t) && Within(candles, idx, bars, x) && t <= x
    && candles[t].low <= p.entry <= candles[t].high && Hits(candles[x], p, long)
  }

  /** A rejected signal would not have been triggered exactly when no candle within the bars spans its entry, and would
      have been closed exactly when one at or behind such a candle touches a bracket. */
  lemma RejectedExactly(candles: seq<Candle>, idx: nat, p: Plan, long: bool, bars: nat, r: Result)
    requires idx < |candles| && FirstTouch(Window(candles, idx, bars), p, long, false, r)
    ensures r.outcome.NotTriggered? <==> forall i :: Within(candles, idx, bars, i) ==> !(candles[i].low <= p.entry <= candles[i].high)
    ensures r.outcome.ClosedTp? || r.outcome.ClosedSl? <==> exists t, x :: Closes(candles, idx, bars, p, long, t, x)
  {
    hide Excursion, Hits;
    WindowExactly(candles, idx, bars);
    var w := Window(candles, idx, bars);
    hide Window;
    if r.trigger < |w| {
      assert Within(candles, idx, bars, idx + r.trigger) && candles[idx + r.trigger] == w[r.trigger];
    }
    if r.exit < |w| {
      assert Within(candles, idx, bars, idx + r.exit) && candles[idx + r.exit] == w[r.exit];
      assert Closes(candles, idx, bars, p, long, idx + r.trigger, idx + r.exit);
    }
    forall i | Within(candles, idx, bars, i) ensures 0 <= i - idx < |w| && w[i - idx] == candles[i] {
    }
    if t, x :| Closes(candles, idx, bars, p, long, t, x) {
      assert Touches(w[t - idx], p) && Hits(w[x - idx], p, long);
    }
  }

  // ---------- What both promise ----------

  /** What happens to an order and what is said of the same signal when it was rejected. */
  predicate Agree(r: Result, s: Shadow) {
    && (r.outcome.ClosedTp? <==> s.verdict.WOULD_TP?)
    && (r.outcome.ClosedSl? <==> s.verdict.WOULD_SL?)
    && (r.outcome.NotTriggered? <==> s.verdict.WOULD_NOT_TRIGGER?)
    && (r.outcome.StillOpen? <==> s.verdict.UNKNOWN? || s.verdict.WOULD_TIMEOUT?)
    && r.mfe == s.mfe && r.mae == s.mae
  }

  /** Two loops, one reading: whatever the simulator and the counterfactual report on a named side,
      with a window that reaches the end of the list, they agree. */
  lemma LoopsAgree(candles: seq<Candle>, idx: nat, p: Plan, side: Side, bars: nat, simulated: Result, shadowed: Result)
    requires idx < |candles| <= idx + bars && !side.OTHER?
    requires FirstTouch(candles[idx..], p, side.LONG?, false, simulated)
    requires FirstTouch(Window(candles, idx, bars), p, !side.SHORT?, false, shadowed)
    ensures simulated == shadowed && Agree(simulated, ShadowOf(shadowed, idx + bars > |candles|))
  {
    assert Window(candles, idx, bars) == candles[idx..];
    FirstTouchIsUnique(candles[idx..], p, side.LONG?, false, simulated, shadowed);
  }

  /** The two loops give the same outcome on all candle lists for this side. */
  ghost predicate SameReading(side: Side) {
    forall cs: seq<Candle>, p: Plan, a: Result, b: Result ::
      FirstTouch(cs, p, side.LONG?, false, a) && FirstTouch(cs, p, !side.SHORT?, false, b) ==> a.outcome == b.outcome
  }

  /** The named sides are exactly those on which the two loops read alike: for any other text the
      simulator goes short and the counterfactual long. */
  lemma SameReadingExactlyOnNamedSides(side: Side)
    ensures SameReading(side) <==> !side.OTHER?
  {
    if side.OTHER? {
      var cs, p := [Candle(0, 1.0, 2.0, 1.0, 1.5, 0.0)], Plan(1.0, 0.5, 2.0);
      var a := Result(ClosedSl, 0, 0, 0.0, 1.0);
      var b := Result(ClosedTp, 0, 0, 1.0, 0.0);
      assert Excursion(cs, 0, 0, p, true) == 0.0 && Excursion(cs, 0, 0, p, false) == 0.0;
      assert FirstTouch(cs, p, side.LONG?, false, a);
      assert FirstTouch(cs, p, !side.SHORT?, false, b);
    } else {
      forall cs: seq<Candle>, p: Plan, a: Result, b: Result
        | FirstTouch(cs, p, side.LONG?, false, a) && FirstTouch(cs, p, !side.SHORT?, false, b)
        ensures a.outcome == b.outcome
      {
        FirstTouchIsUnique(cs, p, side.LONG?, false, a, b);
      }
    }
  }

  lemma {:induction false} ExcursionOfPrefix(a: seq<Candle>, b: seq<Candle>, from: nat, upTo: nat, p: Plan, long: bool)
    requires upTo <= |a| && upTo <= |b| && forall i :: from <= i < upTo ==> a[i] == b[i]
    ensures Excursion(a, from, upTo, p, long) == Excursion(b, from, upTo, p, long)
  {
    if from < upTo {
      ExcursionOfPrefix(a, b, from, upTo - 1, p, long);
    }
  }

  /** A closed trade is decided by the candles up to its exit: no later candle changes it. */
  lemma ClosedIsFinal(cs: seq<Candle>, other: seq<Candle>, p: Plan, long: bool, immediate: bool, r: Result)
    requires FirstTouch(cs, p, long, immediate, r) && r.exit < |cs|
    requires r.exit < |other| && forall i :: 0 <= i <= r.exit ==> other[i] == cs[i]
    ensures FirstTouch(other, p, long, immediate, r)
  {
    ExcursionOfPrefix(cs, other, r.trigger, r.exit + 1, p, long);
    ExcursionOfPrefix(cs, other, r.trigger, r.exit + 1, p, !long);
    assert other[r.exit] == cs[r.exit] && other[r.trigger] == cs[r.trigger];
  }

  // ---------- Reflection ----------

  function Mirrored(c: Candle, axis: real): Candle {
    c.(open := axis - c.open, high := axis - c.low, low := axis - c.high, close := axis - c.close)
  }

  function MirroredPlan(p: Plan, axis: real): Plan {
    Plan(axis - p.entry, axis - p.sl, axis - p.tp)
  }

  function MirroredAll(cs: seq<Candle>, axis: real): (m: seq<Candle>)
    ensures |m| == |cs| && forall i :: 0 <= i < |cs| ==> m[i] == Mirrored(cs[i], axis)
  {
    if cs == [] then [] else MirroredAll(cs[..|cs| - 1], axis) + [Mirrored(cs[|cs| - 1], axis)]
  }

  lemma MirroredCandle(c: Candle, p: Plan, long: bool, axis: real)
    ensures var c', p' := Mirrored(c, axis), MirroredPlan(p, axis);
            && Touches(c', p') == Touches(c, p) && HitsTp(c', p', !long) == HitsTp(c, p, long)
            && HitsSl(c', p', !long) == HitsSl(c, p, long) && Favorable(c', p', !long) == Favorable(c, p, long)
  {
  }

  lemma {:induction false} MirroredExcursion(cs: seq<Candle>, from: nat, upTo: nat, p: Plan, long: bool, axis: real)
    requires upTo <= |cs|
    ensures Excursion(MirroredAll(cs, axis), from, upTo, MirroredPlan(p, axis), !long) == Excursion(cs, from, upTo, p, long)
  {
    if from < upTo {
      MirroredExcursion(cs, from, upTo - 1, p, long, axis);
      MirroredCandle(cs[upTo - 1], p, long, axis);
    }
  }

  /** Long and short are mirror images: reflecting all prices and swapping the side gives the same
      result. */
  lemma MirrorSwapsSides(cs: seq<Candle>, p: Plan, long: bool, immediate: bool, axis: real, r: Result)
    requires FirstTouch(cs, p, long, immediate, r)
    ensures FirstTouch(MirroredAll(cs, axis), MirroredPlan(p, axis), !long, immediate, r)
  {
    forall i | 0 <= i < |cs|
      ensures Touches(MirroredAll(cs, axis)[i], MirroredPlan(p, axis)) == Touches(cs[i], p)
      ensures Hits(MirroredAll(cs, axis)[i], MirroredPlan(p, axis), !long) == Hits(cs[i], p, long)
      ensures HitsSl(MirroredAll(cs, axis)[i], MirroredPlan(p, axis), !long) == HitsSl(cs[i], p, long)
    {
      MirroredCandle(cs[i], p, long, axis);
    }
    var upTo := if r.exit < |cs| then r.exit + 1 else r.exit;
    MirroredExcursion(cs, r.trigger, upTo, p, long, axis);
    MirroredExcursion(cs, r.trigger, upTo, p, !long, axis);
  }
}
