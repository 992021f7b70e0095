/** What a calibration run takes from its evidence, told by the observations themselves: which ones the windows
    hold, what the interval comes to, and when each state is proposed and stored. */
module CalibrationEvidence {
  import opened Options
  import opened Calibration
  import Sorting
  import Symbols

  // ---------- Sums and means ----------

  lemma {:induction false} SumAppend(a: seq<real>, b: seq<real>)
    ensures Sum(a + b) == Sum(a) + Sum(b)
  {
    if b == [] {
      assert a + b == a;
    } else {
      assert (a + b)[..|a + b| - 1] == a + b[..|b| - 1];
      SumAppend(a, b[..|b| - 1]);
    }
  }

  lemma SumOne(x: real)
    ensures Sum([x]) == x
  {
    assert [x][..0] == [];
  }

  lemma MeanTimes(v: seq<real>)
    requires v != []
    ensures Mean(v).Some? && Mean(v).value * |v| as real == Sum(v)
  {
  }

  /** The next average lies two parts of twenty-one from the old one towards the observation. */
  lemma EwmaMoves(v: seq<real>, x: real)
    ensures Ewma(v + [x]).Some?
    ensures v == [] ==> Ewma(v + [x]).value == x
    ensures v != [] ==> Ewma(v).Some? && 21.0 * (Ewma(v + [x]).value - Ewma(v).value) == 2.0 * (x - Ewma(v).value)
  {
    assert (v + [x])[..|v|] == v;
  }

  // ---------- The windows ----------

  /** The recent figures are those of the last twenty observations. */
  lemma RecentWindow(a: seq<real>, b: seq<real>, root: real -> real, ewma: Option<real>)
    requires |b| == 20
    ensures var s := Summary(a + b, root, ewma);
            s.recent == Mean(b) && s.recentSamples == 20 && s.samples == |a| + 20
  {
    hide Mean, Margin;
    assert Tail(a + b, RECENT_WINDOW) == b;
  }

  /** The long figures and the interval are those of the last hundred. */
  lemma LongWindow(a: seq<real>, b: seq<real>, root: real -> real, ewma: Option<real>)
    requires |b| == 100
    ensures var s := Summary(a + b, root, ewma);
            && s.long == Mean(b) && s.long.Some?
            && s.lower == Some(s.long.value - Margin(b, root)) && s.upper == Some(s.long.value + Margin(b, root))
  {
    hide Margin;
    assert Tail(a + b, LONG_WINDOW) == b;
  }

  /** Fewer observations are all taken. */
  lemma ShortWindows(v: seq<real>, root: real -> real, ewma: Option<real>)
    requires v != []
    ensures var s := Summary(v, root, ewma);
            && (|v| <= 20 ==> s.recent == Mean(v) && s.recentSamples == |v|)
            && (|v| <= 100 ==> s.long == Mean(v) && s.long.Some?)
            && (|v| <= 100 ==> s.lower == Some(s.long.value - Margin(v, root)) && s.upper == Some(s.long.value + Margin(v, root)))
  {
    hide Margin;
  }

  // ---------- The interval ----------

  ghost predicate SquareRoot(root: real -> real) {
    forall x :: x >= 0.0 ==> root(x) >= 0.0 && root(x) * root(x) == x
  }

  function Squares(v: seq<real>): seq<real> {
    seq(|v|, i requires 0 <= i < |v| => v[i] * v[i])
  }

  function Square(x: real): real {
    x * x
  }

  lemma SquaresMore(v: seq<real>)
    requires v != []
    ensures Sum(Squares(v)) == Sum(Squares(v[..|v| - 1])) + Square(v[|v| - 1])
  {
    var all, init := Squares(v), Squares(v[..|v| - 1]);
    assert |all| == |v| && |init| == |v| - 1;
    forall i | 0 <= i < |init| ensures init[i] == all[i] {
    }
    assert all[..|v| - 1] == init;
  }

  lemma DeviationsMore(v: seq<real>, m: real)
    requires v != []
    ensures SquaredDeviations(v, m) == SquaredDeviations(v[..|v| - 1], m) + Square(v[|v| - 1] - m)
  {
  }

  /** Squared deviations from `m` of `n` numbers with sum `s` and sum of squares `q`. */
  function Expanded(s: real, q: real, n: real, m: real): real {
    q - 2.0 * m * s + n * m * m
  }

  lemma OneDeviation(s: real, q: real, n: real, m: real, x: real)
    ensures Expanded(s, q, n, m) + Square(x - m) == Expanded(s + x, q + Square(x), n + 1.0, m)
  {
  }

  lemma SumMore(v: seq<real>)
    requires v != []
    ensures Sum(v) == Sum(v[..|v| - 1]) + v[|v| - 1]
  {
  }

  lemma {:induction false} DeviationsExpand(v: seq<real>, m: real)
    ensures SquaredDeviations(v, m) == Expanded(Sum(v), Sum(Squares(v)), |v| as real, m)
  {
    if v == [] {
      assert Squares(v) == [];
    } else {
      hide Expanded, Square, Squares, SquaredDeviations, Sum;
      var init, x := v[..|v| - 1], v[|v| - 1];
      DeviationsExpand(init, m);
      DeviationsMore(v, m);
      SquaresMore(v);
      SumMore(v);
      OneDeviation(Sum(init), Sum(Squares(init)), |init| as real, m, x);
      assert |v| as real == |init| as real + 1.0;
    }
  }

  lemma SquareIsNotNegative(x: real)
    ensures x * x >= 0.0
  {
    if x < 0.0 {
      assert -x * -x > 0.0;
    }
  }

  lemma {:induction false} DeviationsAreNotNegative(v: seq<real>, m: real)
    ensures SquaredDeviations(v, m) >= 0.0
  {
    if v != [] {
      DeviationsAreNotNegative(v[..|v| - 1], m);
      SquareIsNotNegative(v[|v| - 1] - m);
    }
  }

  lemma AboutTheMean(s: real, q: real, n: real, m: real)
    requires m * n == s
    ensures n * Expanded(s, q, n, m) == n * q - s * s
  {
    assert n * m * m == m * s;
    assert n * (m * s) == s * s;
  }

  /** The spread of the observations, from their number, sum and sum of squares. */
  function Spread(v: seq<real>): real {
    |v| as real * Sum(Squares(v)) - Sum(v) * Sum(v)
  }

  lemma DeviationsAreSpread(v: seq<real>)
    requires v != []
    ensures |v| as real * SquaredDeviations(v, Mean(v).value) == Spread(v)
  {
    hide Sum, SquaredDeviations, Squares;
    var m := Mean(v).value;
    DeviationsExpand(v, m);
    MeanTimes(v);
    AboutTheMean(Sum(v), Sum(Squares(v)), |v| as real, m);
  }

  lemma RootOfQuotient(r: real, d: real, n: real)
    requires n > 1.0 && r * r == d / (n - 1.0) / n
    ensures (2.58 * r) * (2.58 * r) * n * (n - 1.0) == 6.6564 * d
  {
    assert r * r * n == d / (n - 1.0);
    assert r * r * n * (n - 1.0) == d;
  }

  lemma TimesCount(m2: real, d: real, n: real, spread: real)
    requires m2 * n * (n - 1.0) == 6.6564 * d && n * d == spread
    ensures m2 * n * n * (n - 1.0) == 6.6564 * spread
  {
    assert m2 * n * n * (n - 1.0) == m2 * n * (n - 1.0) * n;
  }

  /** The margin of at least two observations is 2.58 standard errors. */
  lemma MarginExactly(v: seq<real>, root: real -> real)
    requires SquareRoot(root) && |v| >= 2
    ensures Margin(v, root) >= 0.0
    ensures var n := |v| as real;
            Margin(v, root) * Margin(v, root) * n * n * (n - 1.0) == 6.6564 * Spread(v)
  {
    hide Sum, SquaredDeviations, Spread;
    var n, d := |v| as real, SquaredDeviations(v, Mean(v).value);
    assert n - 1.0 == (|v| - 1) as real;
    DeviationsAreNotNegative(v, Mean(v).value);
    QuotientIsNotNegative(d, n);
    var r := root(d / (n - 1.0) / n);
    assert Margin(v, root) == 2.58 * r;
    RootOfQuotient(r, d, n);
    DeviationsAreSpread(v);
    TimesCount(Margin(v, root) * Margin(v, root), d, n, Spread(v));
  }

  lemma QuotientIsNotNegative(d: real, n: real)
    requires d >= 0.0 && n > 1.0
    ensures d / (n - 1.0) / n >= 0.0
  {
    Divided(d, n - 1.0);
    Divided(d / (n - 1.0), n);
  }

  lemma Divided(d: real, k: real)
    requires d >= 0.0 && k > 0.0
    ensures d / k >= 0.0
  {
  }

  /** One observation has no margin. */
  lemma MarginOfOne(x: real, root: real -> real)
    ensures Margin([x], root) == 0.0
  {
  }

  /** The sum is so far from zero that its square outweighs the spread. */
  predicate Confident(v: seq<real>) {
    Sum(v) * Sum(v) * (|v| as real - 1.0) > 6.6564 * Spread(v)
  }

  lemma Positive(a: real, b: real)
    requires a > 0.0 && b > 0.0
    ensures a * b > 0.0
  {
  }

  lemma SquaresCompare(a: real, b: real)
    requires a >= 0.0 && b >= 0.0
    ensures a > b <==> a * a > b * b
  {
    assert a * a - b * b == (a - b) * (a + b);
    if a > b {
      Positive(a - b, a + b);
    } else {
      assert (b - a) * (a + b) >= 0.0;
    }
  }

  lemma Scaled(a: real, b: real, k: real)
    requires k > 0.0
    ensures a > b <==> a * k > b * k
  {
    if a > b {
      assert (a - b) * k > 0.0;
    } else {
      assert (b - a) * k >= 0.0;
    }
  }

  /** A margin `m` is less than the size of the mean exactly when the sum is confident. */
  lemma MarginIsLess(s: real, m: real, n: real, spread: real)
    requires s >= 0.0 && m >= 0.0 && n > 1.0 && m * m * n * n * (n - 1.0) == 6.6564 * spread
    ensures s > m * n <==> s * s * (n - 1.0) > 6.6564 * spread
  {
    assert m * n >= 0.0;
    SquaresCompare(s, m * n);
    Scaled(s * s, m * n * (m * n), n - 1.0);
    assert m * n * (m * n) == m * m * n * n;
  }

  /** The interval lies above zero, or below, exactly when the sum does and is confident: no root is needed. */
  lemma IntervalExactly(v: seq<real>, root: real -> real)
    requires SquareRoot(root) && |v| >= 2
    ensures Mean(v).Some?
    ensures Mean(v).value - Margin(v, root) > 0.0 <==> Sum(v) > 0.0 && Confident(v)
    ensures Mean(v).value + Margin(v, root) < 0.0 <==> Sum(v) < 0.0 && Confident(v)
  {
    hide Sum, Spread, Margin;
    var n, m := |v| as real, Margin(v, root);
    MarginExactly(v, root);
    MeanTimes(v);
    Scaled(Mean(v).value, m, n);
    Scaled(-m, Mean(v).value, n);
    assert m * n >= 0.0;
    if Sum(v) >= 0.0 {
      MarginIsLess(Sum(v), m, n, Spread(v));
    } else {
      MarginIsLess(-Sum(v), m, n, Spread(v));
      assert (-Sum(v)) * (-Sum(v)) == Sum(v) * Sum(v);
    }
  }

  // ---------- Which rows count ----------

  /** The record speaks: it is attributable and complete with a result, nothing invalidates it, and it did not end,
      in letters of either size, in one of five ways. */
  predicate Sound(e: Row) {
    && e.attributable && e.complete && !e.invalidated && e.netR != None
    && !Symbols.InLetters(e.outcome, "AMBIGUOUS") && !Symbols.InLetters(e.outcome, "CANCELLED")
    && !Symbols.InLetters(e.outcome, "NO_FILL") && !Symbols.InLetters(e.outcome, "OPEN")
    && !Symbols.InLetters(e.outcome, "OPEN_AT_END")
  }

  lemma EligibleExactly(e: Row)
    ensures Eligible(e) <==> Sound(e)
  {
    hide Symbols.InLetters, Symbols.Upper;
    Symbols.UpperIsWord(e.outcome, "AMBIGUOUS");
    Symbols.UpperIsWord(e.outcome, "CANCELLED");
    Symbols.UpperIsWord(e.outcome, "NO_FILL");
    Symbols.UpperIsWord(e.outcome, "OPEN");
    Symbols.UpperIsWord(e.outcome, "OPEN_AT_END");
  }

  lemma AllSoundExactly(rows: seq<Row>)
    ensures AllEligible(rows) <==> forall i :: 0 <= i < |rows| ==> Sound(rows[i])
  {
    hide Sound, Eligible;
    forall i | 0 <= i < |rows| ensures Eligible(rows[i]) <==> Sound(rows[i]) {
      EligibleExactly(rows[i]);
    }
  }

  // ---------- Rows by time ----------

  /** The rows observed at a time or after it. */
  function Since(rows: seq<Row>, cutoff: string): seq<Row> {
    if rows == [] then []
    else Since(rows[..|rows| - 1], cutoff)
         + if Symbols.Less(rows[|rows| - 1].observedAt, cutoff) then [] else [rows[|rows| - 1]]
  }

  function Until(rows: seq<Row>, cutoff: string): seq<Row> {
    if rows == [] then []
    else Until(rows[..|rows| - 1], cutoff)
         + if Symbols.Less(rows[|rows| - 1].observedAt, cutoff) then [rows[|rows| - 1]] else []
  }

  lemma {:induction false} SidesOfCutoff(rows: seq<Row>, cutoff: string)
    ensures forall e :: e in Until(rows, cutoff) ==> Symbols.Less(e.observedAt, cutoff)
    ensures forall e :: e in Since(rows, cutoff) ==> !Symbols.Less(e.observedAt, cutoff)
  {
    hide Symbols.Less;
    if rows != [] {
      SidesOfCutoff(rows[..|rows| - 1], cutoff);
    }
  }

  lemma EarlierIsBefore(a: Row, b: Row, cutoff: string)
    requires Symbols.Less(a.observedAt, cutoff) && !Symbols.Less(b.observedAt, cutoff)
    ensures Before(a, b) && !Before(b, a)
  {
    hide Symbols.Less;
    Symbols.LessIsTotal(b.observedAt, cutoff);
    if b.observedAt != cutoff {
      Symbols.LessIsTransitive(a.observedAt, cutoff, b.observedAt);
    }
    Symbols.LessIsTotal(a.observedAt, b.observedAt);
  }

  lemma SameMembers(rows: seq<Row>, e: Row)
    ensures e in Ordered(rows) <==> e in rows
  {
    OrderedCounts(rows);
    assert e in multiset(Ordered(rows)) <==> e in multiset(rows);
  }

  /** Ordering puts what lies before a time in front of what does not. */
  lemma {:induction false} OrderedSplits(rows: seq<Row>, cutoff: string)
    ensures Ordered(rows) == Ordered(Until(rows, cutoff)) + Ordered(Since(rows, cutoff))
  {
    hide Before, Sorting.Placed, Symbols.Less;
    if rows != [] {
      var init, last := rows[..|rows| - 1], rows[|rows| - 1];
      OrderedSplits(init, cutoff);
      var early, late := Until(init, cutoff), Since(init, cutoff);
      SidesOfCutoff(init, cutoff);
      if Symbols.Less(last.observedAt, cutoff) {
        forall e | e in Ordered(late) ensures Before(last, e) {
          SameMembers(late, e);
          EarlierIsBefore(last, e, cutoff);
        }
        Sorting.PlacedBelow(Ordered(early), Ordered(late), Before, last);
        assert (early + [last])[..|early|] == early && late + [] == late;
      } else {
        forall e | e in Ordered(early) ensures !Before(last, e) {
          SameMembers(early, e);
          EarlierIsBefore(e, last, cutoff);
        }
        Sorting.PlacedAbove(Ordered(early), Ordered(late), Before, last);
        assert (late + [last])[..|late|] == late && early + [] == early;
      }
    }
  }

  lemma {:induction false} ValuesAppend(a: seq<Row>, b: seq<Row>)
    ensures Values(a + b) == Values(a) + Values(b)
  {
    hide Eligible;
    if b == [] {
      assert a + b == a;
    } else {
      assert (a + b)[..|a + b| - 1] == a + b[..|b| - 1];
      ValuesAppend(a, b[..|b| - 1]);
    }
  }

  lemma LatestValues(rows: seq<Row>, cutoff: string) returns (before: seq<real>, late: seq<real>)
    ensures late == Values(Ordered(Since(rows, cutoff))) && |late| == Count(Since(rows, cutoff))
    ensures Values(Ordered(rows)) == before + late
  {
    OrderedSplits(rows, cutoff);
    ValuesAppend(Ordered(Until(rows, cutoff)), Ordered(Since(rows, cutoff)));
    OrderedCounts(Since(rows, cutoff));
    before, late := Values(Ordered(Until(rows, cutoff))), Values(Ordered(Since(rows, cutoff)));
  }

  /** Twenty eligible rows from some time on fix the recent mean: whatever was observed earlier might as well be missing. */
  lemma RecentForgets(rows: seq<Row>, cutoff: string, root: real -> real)
    requires Count(Since(rows, cutoff)) >= 20
    ensures StatsOf(rows, root).recent == StatsOf(Since(rows, cutoff), root).recent
    ensures StatsOf(rows, root).recentSamples == StatsOf(Since(rows, cutoff), root).recentSamples == 20
  {
    hide Ordered, Values, Since, Ewma, Summary;
    var before, late := LatestValues(rows, cutoff);
    var k := |late| - 20;
    assert late == late[..k] + late[k..] && before + late == (before + late[..k]) + late[k..];
    RecentWindow(before + late[..k], late[k..], root, Ewma(before + late));
    RecentWindow(late[..k], late[k..], root, Ewma(late));
  }

  /** A hundred fix the long mean and the interval as well. */
  lemma LongForgets(rows: seq<Row>, cutoff: string, root: real -> real)
    requires Count(Since(rows, cutoff)) >= 100
    ensures var all, late := StatsOf(rows, root), StatsOf(Since(rows, cutoff), root);
            && all.recent == late.recent && all.recentSamples == late.recentSamples == 20
            && all.long == late.long && all.lower == late.lower && all.upper == late.upper && all.lower.Some? && all.upper.Some?
  {
    hide Ordered, Values, Since, Ewma, Summary, Margin, Count, Mean;
    RecentForgets(rows, cutoff, root);
    var before, late := LatestValues(rows, cutoff);
    var k := |late| - 100;
    assert late == late[..k] + late[k..] && before + late == (before + late[..k]) + late[k..];
    LongWindow(before + late[..k], late[k..], root, Ewma(before + late));
    LongWindow(late[..k], late[k..], root, Ewma(late));
  }

  /** Then the earlier rows change no proposal, except that one that is not eligible forbids relaxing. */
  lemma ProposalForgets(rows: seq<Row>, cutoff: string, root: real -> real, h: Health)
    requires Count(Since(rows, cutoff)) >= 100
    ensures var all, late := Proposed(StatsOf(rows, root), h, rows), Proposed(StatsOf(Since(rows, cutoff), root), h, Since(rows, cutoff));
            && (AllEligible(rows) == AllEligible(Since(rows, cutoff)) ==> all == late)
            && (all.0.TIGHT? <==> late.0.TIGHT?) && (all.0.NORMAL? <==> late.0.NORMAL?)
  {
    hide StatsOf, Since, AllEligible, Count, Values, Ordered;
    LongForgets(rows, cutoff, root);
    EnoughSamples(rows, root);
    EnoughSamples(Since(rows, cutoff), root);
    var before, late := LatestValues(rows, cutoff);
    assert |before + late| >= 100;
    OrderedCounts(rows);
    SameProposal(StatsOf(rows, root), StatsOf(Since(rows, cutoff), root), h, rows, Since(rows, cutoff));
  }

  lemma SameProposal(s: Stats, t: Stats, h: Health, rows: seq<Row>, late: seq<Row>)
    requires s.samples >= 30 && t.samples >= 30 && s.recentSamples == t.recentSamples == 20
    requires s.recent == t.recent && s.long == t.long && s.lower == t.lower && s.upper == t.upper
    requires s.recent.Some? && s.long.Some? && s.lower.Some? && s.upper.Some?
    ensures AllEligible(rows) == AllEligible(late) ==> Proposed(s, h, rows) == Proposed(t, h, late)
    ensures (Proposed(s, h, rows).0.TIGHT? <==> Proposed(t, h, late).0.TIGHT?) && (Proposed(s, h, rows).0.NORMAL? <==> Proposed(t, h, late).0.NORMAL?)
  {
    hide AllEligible;
  }

  // ---------- Any order of evidence ----------

  lemma {:induction false} PlacedMoments(rows: seq<Row>, e: Row)
    ensures var v, w := Values(Sorting.Placed(rows, Before, e)), Values(rows + [e]);
            Sum(v) == Sum(w) && Sum(Squares(v)) == Sum(Squares(w))
  {
    hide Eligible, Before, Sum, Squares, Values;
    if rows != [] && Before(e, rows[|rows| - 1]) {
      var init, last := rows[..|rows| - 1], rows[|rows| - 1];
      PlacedMoments(init, e);
      var placed := Sorting.Placed(init, Before, e);
      AppendMoments(placed, last);
      AppendMoments(init, e);
      AppendMoments(init, last);
      AppendMoments(rows, e);
      assert rows == init + [last];
    }
  }

  lemma AppendMoments(rows: seq<Row>, e: Row)
    ensures Sum(Values(rows + [e])) == Sum(Values(rows)) + if Eligible(e) then e.netR.value else 0.0
    ensures Sum(Squares(Values(rows + [e]))) == Sum(Squares(Values(rows))) + if Eligible(e) then Square(e.netR.value) else 0.0
  {
    hide Symbols.Upper, Squares, Square;
    assert (rows + [e])[..|rows|] == rows;
    if Eligible(e) {
      var v, x := Values(rows), e.netR.value;
      assert Values(rows + [e]) == v + [x] && (v + [x])[..|v|] == v;
      SquaresMore(v + [x]);
    } else {
      assert Values(rows) + [] == Values(rows);
    }
  }

  lemma {:induction false} OrderedMoments(rows: seq<Row>)
    ensures Sum(Values(Ordered(rows))) == Sum(Values(rows)) && Sum(Squares(Values(Ordered(rows)))) == Sum(Squares(Values(rows)))
  {
    hide Eligible, Before, Sorting.Placed, Sum, Squares, Values;
    if rows != [] {
      var init, last := rows[..|rows| - 1], rows[|rows| - 1];
      OrderedMoments(init);
      PlacedMoments(Ordered(init), last);
      AppendMoments(Ordered(init), last);
      AppendMoments(init, last);
      assert rows == init + [last];
    }
  }

  /** When exactly twenty eligible rows were observed from some time on, the recent mean is a twentieth of what they
      add up to, in whatever order the evidence comes. */
  lemma RecentIsTotal(rows: seq<Row>, cutoff: string, root: real -> real)
    requires Count(Since(rows, cutoff)) == 20
    ensures StatsOf(rows, root).recent.Some?
    ensures StatsOf(rows, root).recent.value * 20.0 == Sum(Values(Since(rows, cutoff)))
  {
    hide Ordered, Values, Since, Ewma, Summary;
    var before, late := LatestValues(rows, cutoff);
    RecentWindow(before, late, root, Ewma(before + late));
    MeanTimes(late);
    OrderedMoments(Since(rows, cutoff));
  }

  /** For exactly a hundred the sum and the sum of squares of their results decide the interval. */
  lemma IntervalIsTotal(rows: seq<Row>, cutoff: string, root: real -> real)
    requires SquareRoot(root) && Count(Since(rows, cutoff)) == 100
    ensures var s, v := StatsOf(rows, root), Values(Since(rows, cutoff));
            && s.lower.Some? && s.upper.Some? && |v| == 100
            && (s.lower.value > 0.0 <==> Sum(v) > 0.0 && Confident(v)) && (s.upper.value < 0.0 <==> Sum(v) < 0.0 && Confident(v))
  {
    hide Ordered, Values, Since, Ewma, Summary, Margin;
    var before, late := LatestValues(rows, cutoff);
    LongWindow(before, late, root, Ewma(before + late));
    IntervalExactly(late, root);
    OrderedMoments(Since(rows, cutoff));
    assert Spread(late) == Spread(Values(Since(rows, cutoff)));
  }

  // ---------- The proposal ----------

  /** The result of one evidence list, split into what the windows leave out and what they hold. */
  ghost predicate Windows(rows: seq<Row>, dropped: seq<real>, long: seq<real>, recent: seq<real>) {
    && Values(Ordered(rows)) == dropped + long && (|long| == 100 || (dropped == [] && 30 <= |long| < 100))
    && |recent| == 20 && recent == long[|long| - 20..]
  }

  /** Thirty eligible rows have windows. */
  lemma WindowsExist(rows: seq<Row>) returns (dropped: seq<real>, long: seq<real>, recent: seq<real>)
    requires Count(rows) >= 30
    ensures Windows(rows, dropped, long, recent)
  {
    hide Ordered, Values;
    OrderedCounts(rows);
    var v := Values(Ordered(rows));
    var k := if |v| < 100 then 0 else |v| - 100;
    dropped, long := v[..k], v[k..];
    recent := long[|long| - 20..];
  }

  /** Every proposal, from sums over the windows: confidence on one side of zero with the recent sum on the same side. */
  lemma ProposalExactly(rows: seq<Row>, root: real -> real, h: Health, dropped: seq<real>, long: seq<real>, recent: seq<real>)
    requires SquareRoot(root) && Windows(rows, dropped, long, recent)
    ensures var p := Proposed(StatsOf(rows, root), h, rows);
            var up, down := Sum(long) > 0.0 && Confident(long) && Sum(recent) > 0.0, Sum(long) < 0.0 && Confident(long) && Sum(recent) < 0.0;
            var sound := forall i :: 0 <= i < |rows| ==> Sound(rows[i]);
            && (p == (TIGHT, CONFIDENTLY_NEGATIVE) <==> down)
            && (p == (RELAXED, CONFIDENTLY_POSITIVE) <==> up && sound && h == Health(true, true, true, true))
            && (p == (FROZEN, INCOMPLETE_EVIDENCE) <==> up && !sound)
            && (p == (FROZEN, HEALTH_UNPROVEN) <==> up && sound && h != Health(true, true, true, true))
            && (p == (NORMAL, CONFIDENCE_OVERLAPS) <==> !up && !down)
  {
    WindowSigns(rows, root, dropped, long, recent);
    AllSoundExactly(rows);
    hide StatsOf, Sum, Confident, Sound, AllEligible, Windows;
  }

  lemma WindowSigns(rows: seq<Row>, root: real -> real, dropped: seq<real>, long: seq<real>, recent: seq<real>)
    requires SquareRoot(root) && Windows(rows, dropped, long, recent)
    ensures var s := StatsOf(rows, root);
            && s.samples >= 30 && s.recentSamples == 20 && s.recent.Some? && s.long.Some? && s.lower.Some? && s.upper.Some?
            && (s.recent.value > 0.0 <==> Sum(recent) > 0.0) && (s.recent.value < 0.0 <==> Sum(recent) < 0.0)
            && (s.long.value > 0.0 <==> Sum(long) > 0.0) && (s.long.value < 0.0 <==> Sum(long) < 0.0)
            && (s.lower.value > 0.0 <==> Sum(long) > 0.0 && Confident(long))
            && (s.upper.value < 0.0 <==> Sum(long) < 0.0 && Confident(long))
  {
    hide Ordered, Values, Ewma, Summary, Margin, Confident, Sum;
    var values, k := dropped + long, |long| - 20;
    assert values == (dropped + long[..k]) + recent;
    RecentWindow(dropped + long[..k], recent, root, Ewma(values));
    if |long| == 100 {
      LongWindow(dropped, long, root, Ewma(values));
    } else {
      assert values == long;
      ShortWindows(long, root, Ewma(values));
    }
    IntervalExactly(long, root);
    MeanSigns(long);
    MeanSigns(recent);
  }

  lemma MeanSigns(v: seq<real>)
    requires v != []
    ensures Mean(v).Some? && (Mean(v).value > 0.0 <==> Sum(v) > 0.0) && (Mean(v).value < 0.0 <==> Sum(v) < 0.0)
  {
    hide Sum;
    MeanTimes(v);
    Scaled(Mean(v).value, 0.0, |v| as real);
    Scaled(0.0, Mean(v).value, |v| as real);
  }

  // ---------- What is stored ----------

  /** Less than a day after the last adjustment, as far as both times are known. */
  predicate Recently(previous: Option<Entry>, now: Stamp) {
    && previous.Some? && previous.value.lastAdjusted.Some? && previous.value.lastAdjusted.value.Time? && now.Time?
    && 0.0 <= now.seconds - previous.value.lastAdjusted.value.seconds < 86400.0
  }

  predicate Was(previous: Option<Entry>, state: State) {
    previous.Some? && previous.value.state == state
  }

  /** Each state is stored in exactly these cases. */
  lemma StoredExactly(previous: Option<Entry>, run: Run)
    ensures var s, recently := Step(previous, run).state, Recently(previous, run.now);
            var waits := run.proposed in {TIGHT, RELAXED} && recently;
            && (s == TIGHT <==> run.proposed == TIGHT && !Was(previous, RELAXED) && (Was(previous, TIGHT) || !recently))
            && (s == RELAXED <==> run.proposed == RELAXED && !Was(previous, TIGHT) && (Was(previous, RELAXED) || !recently))
            && (s == NORMAL <==> run.proposed == NORMAL || (run.proposed == TIGHT && Was(previous, RELAXED))
                                 || (run.proposed == RELAXED && Was(previous, TIGHT)) || (waits && Was(previous, NORMAL)))
            && (s == FROZEN <==> run.proposed == FROZEN || (waits && Was(previous, FROZEN)))
            && (s == INSUFFICIENT_SAMPLE <==> run.proposed == INSUFFICIENT_SAMPLE || (waits && Was(previous, INSUFFICIENT_SAMPLE)))
  {
    hide ShadowValue;
  }

  /** The reasons tell why a proposal was not stored, and the time moves exactly on an entry. */
  lemma ReasonsExactly(previous: Option<Entry>, run: Run)
    requires run.reason !in {HYSTERESIS_OPPOSITE_STATE, ADJUSTMENT_COOLDOWN, NO_SAFE_NUMERIC_GATE}
    ensures var e := Step(previous, run);
            var held := e.state != run.proposed;
            && e.reasons != [] && e.reasons[0] == run.reason
            && (HYSTERESIS_OPPOSITE_STATE in e.reasons <==> held && !Was(previous, e.state) )
            && (ADJUSTMENT_COOLDOWN in e.reasons <==> held && Was(previous, e.state))
            && (NO_SAFE_NUMERIC_GATE in e.reasons <==> e.state == RELAXED && (run.gate == None || run.base == None))
            && e.base == run.base && e.hash == run.hash
            && e.lastAdjusted == if e.state in {TIGHT, RELAXED} && !Was(previous, e.state) then Some(run.now)
                                 else if previous == None then None else previous.value.lastAdjusted
  {
    hide ShadowValue;
  }

  /** An event is left out exactly when nothing but the time of adjustment would change. */
  lemma EmitsExactly(previous: Entry, next: Entry)
    ensures !Emits(Some(previous), next) <==> next == previous.(lastAdjusted := next.lastAdjusted)
    ensures Emits(None, next)
  {
  }

  /** Which gate a decision stands for, and when its base value may be moved. */
  lemma ThresholdExactly(path: string, reason: string, base: map<Gate, real>, gate: Gate, value: real)
    ensures var scored := path == "ACCEPTED" || reason == "LOW_SCORE" || reason == "LOW_CONFIDENCE" || reason == "MIN_TRADE_SCORE";
            var paid := !scored && (reason == "LOW_EFFECTIVE_RR" || reason == "RR_TOO_LOW");
            && (Threshold(path, reason, base).0 == Some(gate) <==> (gate == MIN_TRADE_SCORE && scored) || (gate == MIN_EFFECTIVE_RR && paid))
            && (Threshold(path, reason, base) == (Some(gate), Some(value)) <==>
                  && gate in base && base[gate] == value
                  && ((gate == MIN_TRADE_SCORE && scored && 0.0 <= value <= 1.0) || (gate == MIN_EFFECTIVE_RR && paid)))
  {
  }

  /** Rounding gives a whole number of the last decimal, and of two equally near ones the even. */
  lemma RoundedExactly(x: real) returns (k: int)
    ensures Rounded(x) * 100000000.0 == k as real
    ensures -0.5 <= k as real - x * 100000000.0 <= 0.5
    ensures k as real - x * 100000000.0 in {-0.5, 0.5} ==> k % 2 == 0
  {
    var n := (x * EIGHT_DECIMALS).Floor;
    var rest := x * EIGHT_DECIMALS - n as real;
    k := if rest < 0.5 || (rest == 0.5 && n % 2 == 0) then n else n + 1;
  }

  // ---------- The hash ----------

  /** The seven fields that the hash sees. */
  predicate Alike(a: Row, b: Row) {
    && a.runId == b.runId && a.decisionId == b.decisionId && a.outcome == b.outcome && a.netR == b.netR
    && a.attributable == b.attributable && a.complete == b.complete && a.invalidated == b.invalidated
  }

  lemma BothMore<T>(p: multiset<T>, a: T, q: multiset<T>, b: T, last: T)
    requires p + multiset{a} == q + multiset{b}
    ensures p + multiset{last} + multiset{a} == q + multiset{last} + multiset{b}
  {
    assert p + multiset{last} + multiset{a} == p + multiset{a} + multiset{last};
    assert q + multiset{last} + multiset{b} == q + multiset{b} + multiset{last};
  }

  lemma {:induction false} HashAt(rows: seq<Row>, i: nat, e: Row)
    requires i < |rows|
    ensures EvidenceHash(rows[i := e]) + multiset{FingerprintOf(rows[i])} == EvidenceHash(rows) + multiset{FingerprintOf(e)}
  {
    var k := |rows| - 1;
    if i < k {
      HashAt(rows[..k], i, e);
      assert rows[i := e][..k] == rows[..k][i := e] && rows[i := e][k] == rows[k] && rows[..k][i] == rows[i];
      var before, after := EvidenceHash(rows[..k]), EvidenceHash(rows[..k][i := e]);
      var a, b, last := FingerprintOf(rows[i]), FingerprintOf(e), FingerprintOf(rows[k]);
      assert EvidenceHash(rows[i := e]) == after + multiset{last} && EvidenceHash(rows) == before + multiset{last};
      BothMore(after, a, before, b, last);
    } else {
      assert rows[i := e][..k] == rows[..k];
    }
  }

  /** Another row in the place of one changes the hash exactly when they differ in one of the seven fields. */
  lemma HashTellsApart(rows: seq<Row>, i: nat, e: Row)
    requires i < |rows|
    ensures EvidenceHash(rows[i := e]) == EvidenceHash(rows) <==> Alike(rows[i], e)
  {
    HashAt(rows, i, e);
    var a, b, h, h' := FingerprintOf(rows[i]), FingerprintOf(e), EvidenceHash(rows), EvidenceHash(rows[i := e]);
    assert a == b <==> Alike(rows[i], e);
    if h == h' {
      assert (h' + multiset{a})[a] == (h + multiset{b})[a];
    }
    if a == b {
      assert h' == h' + multiset{a} - multiset{a} == h + multiset{b} - multiset{b} == h;
    }
  }
}
