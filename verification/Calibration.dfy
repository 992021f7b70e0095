/** The shadow calibration of decision thresholds: evidence statistics, the proposed state with its
    hysteresis and cooldown, and the scopes that a decision falls back through. */
module Calibration {
  import opened Options
  import Sorting
  import Symbols

  const MIN_SAMPLE := 30
  const RECENT_WINDOW := 20
  const LONG_WINDOW := 100
  const COOLDOWN_SECONDS := 86400.0

  datatype State = TIGHT | RELAXED | NORMAL | FROZEN | INSUFFICIENT_SAMPLE

  datatype Reason =
    | MINIMUM_SAMPLE | INCOMPLETE_EXPECTANCY | CONFIDENTLY_NEGATIVE | CONFIDENTLY_POSITIVE
    | INCOMPLETE_EVIDENCE | HEALTH_UNPROVEN | CONFIDENCE_OVERLAPS
    | HYSTERESIS_OPPOSITE_STATE | ADJUSTMENT_COOLDOWN | NO_SAFE_NUMERIC_GATE

  /** One evidence record. An empty text stands for a missing one. */
  datatype Row = Row(
    path: string, reason: string, symbol: string, regime: string, side: string,
    runId: string, decisionId: string, observedAt: string, outcome: string,
    netR: Option<real>, attributable: bool, complete: bool, invalidated: bool)

  /** External attestations; a missing one counts as not given. */
  datatype Health = Health(executionOk: bool, volatilityStable: bool, drawdownClear: bool, evidenceComplete: bool)

  predicate AllowsRelaxation(h: Health) {
    h.executionOk && h.volatilityStable && h.drawdownClear && h.evidenceComplete
  }

  predicate Eligible(e: Row) {
    && e.attributable && e.complete && !e.invalidated && e.netR.Some?
    && Symbols.Upper(e.outcome) !in {"AMBIGUOUS", "CANCELLED", "NO_FILL", "OPEN", "OPEN_AT_END"}
  }

  // ---------- Statistics ----------

  /** Order of (observation time, decision). */
  predicate Before(a: Row, b: Row) {
    Symbols.Less(a.observedAt, b.observedAt) || (a.observedAt == b.observedAt && Symbols.Less(a.decisionId, b.decisionId))
  }

  function Ordered(rows: seq<Row>): seq<Row> {
    Sorting.Arranged(rows, Before)
  }

  function Count(rows: seq<Row>): nat {
    if rows == [] then 0 else Count(rows[..|rows| - 1]) + if Eligible(rows[|rows| - 1]) then 1 else 0
  }

  function Values(rows: seq<Row>): (v: seq<real>)
    ensures |v| == Count(rows)
  {
    if rows == [] then []
    else Values(rows[..|rows| - 1]) + if Eligible(rows[|rows| - 1]) then [rows[|rows| - 1].netR.value] else []
  }

  function Tail(v: seq<real>, n: nat): seq<real> {
    if |v| <= n then v else v[|v| - n..]
  }

  function Sum(v: seq<real>): real {
    if v == [] then 0.0 else Sum(v[..|v| - 1]) + v[|v| - 1]
  }

  function Mean(v: seq<real>): Option<real> {
    if v == [] then None else Some(Sum(v) / |v| as real)
  }

  function SquaredDeviations(v: seq<real>, mean: real): real {
    if v == [] then 0.0
    else SquaredDeviations(v[..|v| - 1], mean) + (v[|v| - 1] - mean) * (v[|v| - 1] - mean)
  }

  /** Half the width of the confidence interval; `root` is the square root. */
  function Margin(v: seq<real>, root: real -> real): real
    requires v != []
  {
    if |v| < 2 then 0.0
    else
      var variance := SquaredDeviations(v, Mean(v).value) / (|v| - 1) as real;
      2.58 * root(variance / |v| as real)
  }

  const ALPHA: real := 2.0 / 21.0

  /** Twenty observations give roughly the time scale of the recent window. */
  function Ewma(v: seq<real>): Option<real> {
    if v == [] then None
    else
      var before := Ewma(v[..|v| - 1]);
      if before.None? then Some(v[|v| - 1]) else Some(ALPHA * v[|v| - 1] + (1.0 - ALPHA) * before.value)
  }

  datatype Stats = Stats(samples: nat, recentSamples: nat, recent: Option<real>, long: Option<real>,
                         lower: Option<real>, upper: Option<real>, ewma: Option<real>)

  function Summary(values: seq<real>, root: real -> real, ewma: Option<real>): Stats {
    var long, recent := Tail(values, LONG_WINDOW), Tail(values, RECENT_WINDOW);
    Stats(|values|, |recent|, Mean(recent), Mean(long),
          if long == [] then None else Some(Mean(long).value - Margin(long, root)),
          if long == [] then None else Some(Mean(long).value + Margin(long, root)),
          ewma)
  }

  function StatsOf(rows: seq<Row>, root: real -> real): Stats {
    Summary(Values(Ordered(rows)), root, Ewma(Values(Ordered(rows))))
  }

  method MovingAverage(values: seq<real>) returns (ewma: Option<real>)
    ensures ewma == Ewma(values)
  {
    ewma := None;
    for k := 0 to |values|
      invariant ewma == Ewma(values[..k])
    {
      var value := values[k];
      assert values[..k + 1][..k] == values[..k];
      ewma := if ewma.None? then Some(value) else Some(ALPHA * value + (1.0 - ALPHA) * ewma.value);
    }
    assert values[..|values|] == values;
  }

  method Statistics(rows: seq<Row>, root: real -> real) returns (s: Stats)
    ensures s == StatsOf(rows, root)
    ensures s.samples == Count(rows)
  {
    var values := Values(Ordered(rows));
    var ewma := MovingAverage(values);
    s := Summary(values, root, ewma);
    OrderedCounts(rows);
  }

  lemma AppendCount(rows: seq<Row>, e: Row)
    ensures Count(rows + [e]) == Count(rows) + if Eligible(e) then 1 else 0
  {
    assert (rows + [e])[..|rows|] == rows;
  }

  lemma {:induction false} PlacedCounts(rows: seq<Row>, e: Row)
    ensures Count(Sorting.Placed(rows, Before, e)) == Count(rows) + if Eligible(e) then 1 else 0
  {
    hide Eligible, Before;
    if rows == [] || !Before(e, rows[|rows| - 1]) {
      AppendCount(rows, e);
    } else {
      var init, last := rows[..|rows| - 1], rows[|rows| - 1];
      PlacedCounts(init, e);
      AppendCount(Sorting.Placed(init, Before, e), last);
    }
  }

  lemma {:induction false} ArrangedCounts(rows: seq<Row>)
    ensures Count(Ordered(rows)) == Count(rows)
  {
    hide Eligible, Sorting.Placed;
    if rows != [] {
      ArrangedCounts(rows[..|rows| - 1]);
      PlacedCounts(Ordered(rows[..|rows| - 1]), rows[|rows| - 1]);
    }
  }

  /** Ordering the evidence neither adds nor loses a row. */
  lemma OrderedCounts(rows: seq<Row>)
    ensures Count(Ordered(rows)) == Count(rows)
    ensures multiset(Ordered(rows)) == multiset(rows)
  {
    ArrangedCounts(rows);
    Sorting.ArrangedKeeps(rows, Before);
  }

  /** The moving average stays between any bounds of the observations. */
  lemma {:induction false} EwmaIsBounded(v: seq<real>, lo: real, hi: real)
    requires v != [] && forall i :: 0 <= i < |v| ==> lo <= v[i] <= hi
    ensures Ewma(v).Some? && lo <= Ewma(v).value <= hi
  {
    if |v| > 1 {
      EwmaIsBounded(v[..|v| - 1], lo, hi);
    }
  }

  // ---------- Proposed state ----------

  predicate AllEligible(rows: seq<Row>) {
    forall i :: 0 <= i < |rows| ==> Eligible(rows[i])
  }

  function Proposed(s: Stats, h: Health, rows: seq<Row>): (State, Reason) {
    if s.samples < MIN_SAMPLE || s.recentSamples < 10 then (INSUFFICIENT_SAMPLE, MINIMUM_SAMPLE)
    else if s.lower.None? || s.upper.None? || s.recent.None? || s.long.None? then (INSUFFICIENT_SAMPLE, INCOMPLETE_EXPECTANCY)
    else if s.upper.value < 0.0 && s.recent.value < 0.0 && s.long.value < 0.0 then (TIGHT, CONFIDENTLY_NEGATIVE)
    else if s.lower.value > 0.0 && s.recent.value > 0.0 && s.long.value > 0.0 then
      if !AllEligible(rows) then (FROZEN, INCOMPLETE_EVIDENCE)
      else if !AllowsRelaxation(h) then (FROZEN, HEALTH_UNPROVEN)
      else (RELAXED, CONFIDENTLY_POSITIVE)
    else (NORMAL, CONFIDENCE_OVERLAPS)
  }

  /** With thirty eligible rows the recent window is full and every statistic exists. */
  lemma EnoughSamples(rows: seq<Row>, root: real -> real)
    ensures var s := StatsOf(rows, root);
            s.samples == Count(rows)
            && (s.samples >= MIN_SAMPLE ==> s.recentSamples == RECENT_WINDOW && s.recent.Some? && s.long.Some? && s.lower.Some? && s.upper.Some?)
  {
    OrderedCounts(rows);
  }

  /** So a proposal lacks evidence exactly when fewer than thirty rows are eligible, and the check
      for missing statistics never decides. */
  lemma InsufficientIsTooFew(rows: seq<Row>, root: real -> real, h: Health)
    ensures Proposed(StatsOf(rows, root), h, rows).0.INSUFFICIENT_SAMPLE? <==> Count(rows) < MIN_SAMPLE
    ensures Proposed(StatsOf(rows, root), h, rows).1 != INCOMPLETE_EXPECTANCY
  {
    EnoughSamples(rows, root);
    ProposedBySamples(StatsOf(rows, root), h, rows);
  }

  lemma ProposedBySamples(s: Stats, h: Health, rows: seq<Row>)
    requires s.samples >= MIN_SAMPLE ==> s.recentSamples == RECENT_WINDOW && s.recent.Some? && s.long.Some? && s.lower.Some? && s.upper.Some?
    ensures Proposed(s, h, rows).0.INSUFFICIENT_SAMPLE? <==> s.samples < MIN_SAMPLE
    ensures Proposed(s, h, rows).1 != INCOMPLETE_EXPECTANCY
  {
  }

  lemma MarginIsWidth(v: seq<real>, root: real -> real)
    requires v != [] && forall x :: root(x) >= 0.0
    ensures Margin(v, root) >= 0.0
  {
    if |v| >= 2 {
      var variance := SquaredDeviations(v, Mean(v).value) / (|v| - 1) as real;
      assert root(variance / |v| as real) >= 0.0;
    }
  }

  /** With a square root that is never negative, the interval decides the long window's sign, so the
      proposal is tight or relaxed on the interval and the recent window alone. */
  lemma IntervalDecidesLong(rows: seq<Row>, root: real -> real, h: Health)
    requires forall x :: root(x) >= 0.0
    requires Count(rows) >= MIN_SAMPLE
    ensures var s := StatsOf(rows, root);
            && s.lower.Some? && s.upper.Some? && s.long.Some? && s.recent.Some?
            && s.lower.value <= s.long.value <= s.upper.value
            && (Proposed(s, h, rows).0.TIGHT? <==> s.upper.value < 0.0 && s.recent.value < 0.0)
            && (Proposed(s, h, rows).0.RELAXED? <==>
                  s.lower.value > 0.0 && s.recent.value > 0.0 && AllEligible(rows) && AllowsRelaxation(h))
  {
    EnoughSamples(rows, root);
    MarginIsWidth(Tail(Values(Ordered(rows)), LONG_WINDOW), root);
  }

  // ---------- Thresholds ----------

  datatype Gate = MIN_TRADE_SCORE | MIN_EFFECTIVE_RR

  /** The numeric gate that a decision stands for and its base value, when they are usable. */
  function Threshold(path: string, reason: string, base: map<Gate, real>): (Option<Gate>, Option<real>) {
    var gate :=
      if path == "ACCEPTED" || reason in {"LOW_SCORE", "LOW_CONFIDENCE", "MIN_TRADE_SCORE"} then Some(MIN_TRADE_SCORE)
      else if reason in {"LOW_EFFECTIVE_RR", "RR_TOO_LOW"} then Some(MIN_EFFECTIVE_RR)
      else None;
    if gate.None? || gate.value !in base then (gate, None)
    else if gate.value.MIN_TRADE_SCORE? && !(0.0 <= base[gate.value] <= 1.0) then (gate, None)
    else (gate, Some(base[gate.value]))
  }

  function Clamp(lo: real, x: real, hi: real): real {
    var capped := if x < hi then x else hi;
    if capped > lo then capped else lo
  }

  const EIGHT_DECIMALS := 100000000.0

  /** Rounding to eight decimals, ties to the even one. */
  function Rounded(x: real): real {
    var n := (x * EIGHT_DECIMALS).Floor;
    var rest := x * EIGHT_DECIMALS - n as real;
    (if rest < 0.5 || (rest == 0.5 && n % 2 == 0) then n else n + 1) as real / EIGHT_DECIMALS
  }

  function ShadowValue(gate: Option<Gate>, base: Option<real>, state: State): Option<real> {
    if gate.None? || base.None? || !(state.TIGHT? || state.RELAXED?) then base
    else
      var step, bound := if gate.value.MIN_TRADE_SCORE? then 0.02 else 0.05, if gate.value.MIN_TRADE_SCORE? then 0.05 else 0.15;
      var moved := if state.TIGHT? then base.value + step else base.value - step;
      Some(Rounded(Clamp(base.value - bound, moved, base.value + bound)))
  }

  lemma RoundedIsNear(x: real)
    ensures -0.000000005 <= Rounded(x) - x <= 0.000000005
    ensures (x * EIGHT_DECIMALS).Floor as real == x * EIGHT_DECIMALS ==> Rounded(x) == x
  {
  }

  /** What the proposal should be before rounding. */
  function Moved(gate: Option<Gate>, base: real, state: State): real {
    var step := if gate.Some? && gate.value.MIN_TRADE_SCORE? then 0.02 else 0.05;
    match state
    case TIGHT => base + step
    case RELAXED => base - step
    case _ => base
  }

  /** The proposal moves a usable threshold by one step, up only when tight and down only when relaxed, so
      the clamp never binds; it is exactly one step when that has no more than eight decimals, and off by at
      most half of the last one otherwise. In every other state it is the base value. */
  lemma ShadowMovesOneStep(gate: Option<Gate>, base: Option<real>, state: State)
    ensures var v := ShadowValue(gate, base, state);
            if gate.Some? && base.Some? && (state.TIGHT? || state.RELAXED?) then
              var moved := Moved(gate, base.value, state);
              && v.Some? && -0.000000005 <= v.value - moved <= 0.000000005
              && ((moved * EIGHT_DECIMALS).Floor as real == moved * EIGHT_DECIMALS ==> v.value == moved)
            else v == base
  {
    if gate.Some? && base.Some? {
      RoundedIsNear(Moved(gate, base.value, state));
      hide Rounded;
    }
  }

  // ---------- One run on one key ----------

  /** A stored time; text that cannot be parsed is `Garbled`. */
  datatype Stamp = Time(seconds: real) | Garbled

  datatype Fingerprint = Fingerprint(runId: string, decisionId: string, outcome: string, netR: Option<real>,
                                     attributable: bool, complete: bool, invalidated: bool)

  function FingerprintOf(e: Row): Fingerprint {
    Fingerprint(e.runId, e.decisionId, e.outcome, e.netR, e.attributable, e.complete, e.invalidated)
  }

  /** The evidence hash of a sorted list, taken to be injective: what it tells apart. */
  function EvidenceHash(rows: seq<Row>): multiset<Fingerprint> {
    if rows == [] then multiset{} else EvidenceHash(rows[..|rows| - 1]) + multiset{FingerprintOf(rows[|rows| - 1])}
  }

  datatype Entry = Entry(state: State, value: Option<real>, base: Option<real>, reasons: seq<Reason>,
                         hash: multiset<Fingerprint>, lastAdjusted: Option<Stamp>)

  /** What one run knows about a key. */
  datatype Run = Run(proposed: State, reason: Reason, gate: Option<Gate>, base: Option<real>,
                     hash: multiset<Fingerprint>, now: Stamp)

  predicate Adjusting(s: State) {
    s.TIGHT? || s.RELAXED?
  }

  predicate Opposed(previous: Option<Entry>, run: Run) {
    Adjusting(run.proposed) && previous.Some? && Adjusting(previous.value.state) && previous.value.state != run.proposed
  }

  /** A change is proposed less than a day after the last adjustment. */
  predicate Cooling(previous: Option<Entry>, run: Run) {
    && Adjusting(run.proposed) && previous.Some? && !Opposed(previous, run) && previous.value.state != run.proposed
    && previous.value.lastAdjusted.Some? && previous.value.lastAdjusted.value.Time? && run.now.Time?
    && 0.0 <= run.now.seconds - previous.value.lastAdjusted.value.seconds < COOLDOWN_SECONDS
  }

  function Step(previous: Option<Entry>, run: Run): Entry {
    var opposed, cooling := Opposed(previous, run), Cooling(previous, run);
    var state := if opposed then NORMAL else if cooling then previous.value.state else run.proposed;
    var reasons := [run.reason]
      + (if opposed then [HYSTERESIS_OPPOSITE_STATE] else if cooling then [ADJUSTMENT_COOLDOWN] else [])
      + (if state.RELAXED? && (run.gate.None? || run.base.None?) then [NO_SAFE_NUMERIC_GATE] else []);
    var adjusted := if Adjusting(state) && (previous.None? || previous.value.state != state) then Some(run.now)
                    else if previous.Some? then previous.value.lastAdjusted else None;
    Entry(state, ShadowValue(run.gate, run.base, state), run.base, reasons, run.hash, adjusted)
  }

  /** An event is written unless the stored row already says all of it. */
  predicate Emits(previous: Option<Entry>, next: Entry) {
    previous.None? || previous.value.hash != next.hash || previous.value.state != next.state
    || previous.value.value != next.value || previous.value.base != next.base || previous.value.reasons != next.reasons
  }

  /** What identifies an event, taken for its hash. */
  datatype Event<Key> = Event(key: Key, hash: multiset<Fingerprint>, from: Option<State>, state: State,
                              was: Option<real>, value: Option<real>, reasons: seq<Reason>)

  function EventOf<Key>(key: Key, previous: Option<Entry>, next: Entry): Event<Key> {
    Event(key, next.hash, if previous.Some? then Some(previous.value.state) else None, next.state,
          if previous.Some? then previous.value.value else None, next.value, next.reasons)
  }

  /** Rows and events of the shadow database. */
  class ShadowStore<Key(==)> {
    var table: map<Key, Entry>
    var events: seq<Event<Key>>

    constructor ()
      ensures table == map[] && events == []
    {
      table, events := map[], [];
    }

    ghost function Stored(key: Key): Option<Entry>
      reads this`table
    {
      if key in table then Some(table[key]) else None
    }

    /** The per-key part of `calibrate_campaign`; an event that was written before is not written again. */
    method Calibrate(key: Key, rows: seq<Row>, root: real -> real, h: Health, base: map<Gate, real>, path: string, reason: string, now: Stamp)
      modifies this
      ensures var (state, why) := Proposed(StatsOf(rows, root), h, rows);
              var (gate, value) := Threshold(path, reason, base);
              var next := Step(old(Stored(key)), Run(state, why, gate, value, EvidenceHash(rows), now));
              var event := EventOf(key, old(Stored(key)), next);
              && table == old(table)[key := next]
              && events == old(events) + if Emits(old(Stored(key)), next) && event !in old(events) then [event] else []
    {
      var stats := Statistics(rows, root);
      var (state, why) := Proposed(stats, h, rows);
      var (gate, value) := Threshold(path, reason, base);
      var previous := if key in table then Some(table[key]) else None;
      var next := Decide(previous, state, why, gate, value, EvidenceHash(rows), now);
      table := table[key := next];
      if Emits(previous, next) {
        var event := EventOf(key, previous, next);
        if event !in events {
          events := events + [event];
        }
      }
    }
  }

  method Decide(previous: Option<Entry>, proposed: State, why: Reason, gate: Option<Gate>, base: Option<real>,
                hash: multiset<Fingerprint>, now: Stamp)
    returns (next: Entry)
    ensures next == Step(previous, Run(proposed, why, gate, base, hash, now))
  {
    var state, reasons := proposed, [why];
    if Adjusting(state) && previous.Some? {
      var stored := previous.value;
      if Adjusting(stored.state) && stored.state != state {
        state, reasons := NORMAL, reasons + [HYSTERESIS_OPPOSITE_STATE];
      } else if stored.lastAdjusted.Some? && stored.lastAdjusted.value.Time? && now.Time? {
        var elapsed := now.seconds - stored.lastAdjusted.value.seconds;
        if 0.0 <= elapsed < COOLDOWN_SECONDS && stored.state != state {
          state, reasons := stored.state, reasons + [ADJUSTMENT_COOLDOWN];
        }
      }
    }
    var shadow := ShadowValue(gate, base, state);
    if state.RELAXED? && (gate.None? || base.None?) {
      reasons := reasons + [NO_SAFE_NUMERIC_GATE];
    }
    var adjusted := if Adjusting(state) && (previous.None? || previous.value.state != state) then Some(now)
                    else if previous.Some? then previous.value.lastAdjusted else None;
    next := Entry(state, shadow, base, reasons, hash, adjusted);
  }

  // ---------- Sequences of runs ----------

  /** What is stored after each run of a sequence that starts on an empty table. */
  function History(runs: seq<Run>): (h: seq<Entry>)
    ensures |h| == |runs|
  {
    if runs == [] then []
    else
      var before := History(runs[..|runs| - 1]);
      before + [Step(if before == [] then None else Some(before[|before| - 1]), runs[|runs| - 1])]
  }

  predicate TimesAscend(runs: seq<Run>) {
    && (forall i :: 0 <= i < |runs| ==> runs[i].now.Time?)
    && (forall i, j :: 0 <= i < j < |runs| ==> runs[i].now.seconds <= runs[j].now.seconds)
  }

  /** Run `k` enters an adjusting state. */
  predicate Enters(runs: seq<Run>, k: nat)
    requires k < |runs|
  {
    Adjusting(History(runs)[k].state) && (k == 0 || History(runs)[k - 1].state != History(runs)[k].state)
  }

  lemma {:induction false} HistoryStep(runs: seq<Run>, k: nat)
    requires k < |runs|
    ensures History(runs)[k] == Step(if k == 0 then None else Some(History(runs)[k - 1]), runs[k])
  {
    var init := runs[..|runs| - 1];
    if k < |init| {
      HistoryStep(init, k);
    }
  }

  /** Over every sequence of runs the stored state never goes directly from tight to relaxed or
      back. */
  lemma NeverFlipsDirectly(runs: seq<Run>, k: nat)
    requires k + 1 < |runs|
    ensures !(History(runs)[k].state.TIGHT? && History(runs)[k + 1].state.RELAXED?)
    ensures !(History(runs)[k].state.RELAXED? && History(runs)[k + 1].state.TIGHT?)
  {
    HistoryStep(runs, k + 1);
  }

  /** The stored adjustment time is that of the last entry, and there is one after any entry. */
  lemma {:induction false} LastAdjustedIsLastEntry(runs: seq<Run>, i: nat, k: nat)
    requires TimesAscend(runs) && i <= k < |runs| && Enters(runs, i)
    ensures var at := History(runs)[k].lastAdjusted;
            at.Some? && at.value.Time? && runs[i].now.seconds <= at.value.seconds <= runs[k].now.seconds
    decreases k
  {
    HistoryStep(runs, k);
    if i < k {
      LastAdjustedIsLastEntry(runs, i, k - 1);
    }
  }

  /** Two entries into tight or relaxed are at least a day apart. */
  lemma EntriesAreADayApart(runs: seq<Run>, i: nat, j: nat)
    requires TimesAscend(runs) && i < j < |runs| && Enters(runs, i) && Enters(runs, j)
    ensures runs[j].now.seconds - runs[i].now.seconds >= COOLDOWN_SECONDS
  {
    LastAdjustedIsLastEntry(runs, i, j - 1);
    HistoryStep(runs, j);
  }

  /** Cooldown and hysteresis never store a relaxed state that the run did not propose. */
  lemma RelaxedIsProposed(previous: Option<Entry>, run: Run)
    ensures Step(previous, run).state.RELAXED? ==> run.proposed.RELAXED?
  {
  }

  /** Relaxed is stored only on that very run's own proof. */
  lemma RelaxedNeedsProof(previous: Option<Entry>, rows: seq<Row>, root: real -> real, h: Health, gate: Option<Gate>, base: Option<real>, now: Stamp)
    requires var proposal := Proposed(StatsOf(rows, root), h, rows);
             Step(previous, Run(proposal.0, proposal.1, gate, base, EvidenceHash(rows), now)).state.RELAXED?
    ensures AllEligible(rows) && |rows| >= MIN_SAMPLE && AllowsRelaxation(h)
    ensures StatsOf(rows, root).lower.Some? && StatsOf(rows, root).lower.value > 0.0
  {
    var s := StatsOf(rows, root);
    var proposal := Proposed(s, h, rows);
    RelaxedIsProposed(previous, Run(proposal.0, proposal.1, gate, base, EvidenceHash(rows), now));
    RelaxedProposal(s, h, rows);
    EnoughSamples(rows, root);
    CountIsAtMostLength(rows);
  }

  lemma RelaxedProposal(s: Stats, h: Health, rows: seq<Row>)
    requires Proposed(s, h, rows).0.RELAXED?
    ensures AllEligible(rows) && s.samples >= MIN_SAMPLE && AllowsRelaxation(h) && s.lower.Some? && s.lower.value > 0.0
  {
  }

  lemma {:induction false} CountIsAtMostLength(rows: seq<Row>)
    ensures Count(rows) <= |rows|
  {
    if rows != [] {
      CountIsAtMostLength(rows[..|rows| - 1]);
    }
  }

  /** Repeating a run settles after at most two: from the third on nothing stored changes and no
      event is written, whatever was stored before. */
  lemma RepetitionSettles(previous: Option<Entry>, run: Run)
    ensures var first := Step(previous, run);
            var second := Step(Some(first), run);
            Step(Some(second), run) == second && !Emits(Some(second), Step(Some(second), run))
  {
  }

  /** Two runs are needed: leaving relaxed for a tight proposal first stores normal. */
  lemma TwoRunsMayBeNeeded()
    ensures exists previous, run ::
              var first := Step(previous, run);
              Step(Some(first), run) != first && Emits(Some(first), Step(Some(first), run))
  {
    var run := Run(TIGHT, CONFIDENTLY_NEGATIVE, None, None, multiset{}, Time(COOLDOWN_SECONDS));
    var previous := Some(Entry(RELAXED, None, None, [], multiset{}, Some(Time(0.0))));
    var first := Step(previous, run);
    assert Step(Some(first), run) != first && Emits(Some(first), Step(Some(first), run));
  }

  // ---------- Scopes ----------

  datatype Scope = Scope(reason: string, symbol: Option<string>, regime: Option<string>, side: Option<string>)
  datatype ScopeKey = ScopeKey(path: string, scope: Scope)

  /** What a scope names is known of the decision and agrees with it; a side is named only with a
      symbol, a symbol only with a regime. */
  predicate HasScope(e: Row, s: Scope) {
    && s.reason == e.reason
    && (s.regime.Some? ==> e.regime != "" && s.regime.value == e.regime)
    && (s.symbol.Some? ==> s.regime.Some? && e.symbol != "" && s.symbol.value == e.symbol)
    && (s.side.Some? ==> s.symbol.Some? && e.side != "" && s.side.value == e.side)
  }

  /** From the most specific scope of a decision to the least. */
  function Scopes(e: Row): (s: seq<Scope>)
    ensures s != [] && forall i :: 0 <= i < |s| ==> HasScope(e, s[i])
    ensures forall i, j :: 0 <= i < j < |s| ==> s[i] != s[j] && Widens(s[i], s[j])
  {
    var byReason, byRegime := Scope(e.reason, None, None, None), Scope(e.reason, None, Some(e.regime), None);
    var bySymbol, bySide := byRegime.(symbol := Some(e.symbol)), byRegime.(symbol := Some(e.symbol), side := Some(e.side));
    if e.regime == "" then [byReason]
    else if e.symbol == "" then [byRegime, byReason]
    else if e.side == "" then [bySymbol, byRegime, byReason]
    else [bySide, bySymbol, byRegime, byReason]
  }

  /** The chain holds every scope that a decision has. */
  lemma ChainIsComplete(e: Row, s: Scope)
    ensures s in Scopes(e) <==> HasScope(e, s)
  {
    if HasScope(e, s) {
      var n := |Scopes(e)|;
      var k := if s.side.Some? then 4 else if s.symbol.Some? then 3 else if s.regime.Some? then 2 else 1;
      assert Scopes(e)[n - k] == s;
    }
  }

  /** `w` names no more than `s`. */
  predicate Widens(s: Scope, w: Scope) {
    w.reason == s.reason && (w.regime.None? || w.regime == s.regime) && (w.symbol.None? || w.symbol == s.symbol) && (w.side.None? || w.side == s.side)
  }

  predicate Belongs(e: Row, key: ScopeKey) {
    e.path != "DIAGNOSTIC" && e.path == key.path && HasScope(e, key.scope)
  }

  function Group(evidence: seq<Row>, key: ScopeKey): seq<Row> {
    if evidence == [] then []
    else Group(evidence[..|evidence| - 1], key)
         + if Belongs(evidence[|evidence| - 1], key) then [evidence[|evidence| - 1]] else []
  }

  /** The grouping loop: every decision is filed under each of its scopes. */
  method GroupEvidence(evidence: seq<Row>) returns (groups: map<ScopeKey, seq<Row>>)
    ensures forall key :: Group(evidence, key) == Filed(groups, key)
    ensures forall key :: key in groups ==> groups[key] != []
  {
    groups := map[];
    for k := 0 to |evidence|
      invariant forall key :: Group(evidence[..k], key) == Filed(groups, key)
      invariant forall key :: key in groups ==> groups[key] != []
    {
      var e := evidence[k];
      assert evidence[..k + 1][..k] == evidence[..k];
      if e.path != "DIAGNOSTIC" {
        groups := File(groups, e);
      }
    }
    assert evidence[..|evidence|] == evidence;
  }

  function Filed(groups: map<ScopeKey, seq<Row>>, key: ScopeKey): seq<Row> {
    if key in groups then groups[key] else []
  }

  method File(groups: map<ScopeKey, seq<Row>>, e: Row) returns (r: map<ScopeKey, seq<Row>>)
    requires e.path != "DIAGNOSTIC"
    ensures forall key :: Belongs(e, key) ==> key in r && r[key] == Filed(groups, key) + [e]
    ensures forall key :: !Belongs(e, key) ==> (key in r <==> key in groups) && Filed(r, key) == Filed(groups, key)
  {
    r := groups;
    var scopes := Scopes(e);
    ghost var done: set<Scope> := {};
    for i := 0 to |scopes|
      invariant forall x :: x in done <==> x in scopes[..i]
      invariant forall key: ScopeKey :: key.path == e.path && key.scope in done ==> key in r && r[key] == Filed(groups, key) + [e]
      invariant forall key: ScopeKey :: !(key.path == e.path && key.scope in done) ==> (key in r <==> key in groups) && Filed(r, key) == Filed(groups, key)
    {
      var key := ScopeKey(e.path, scopes[i]);
      assert key.scope !in done;
      r := r[key := (if key in r then r[key] else []) + [e]];
      done := done + {scopes[i]};
    }
    assert scopes[..|scopes|] == scopes;
    forall x ensures x in done <==> HasScope(e, x) {
      ChainIsComplete(e, x);
    }
  }

  /** A row that belongs to a scope belongs to every wider scope of the same chain. */
  lemma WiderScopes(e: Row, other: Row, i: nat, j: nat)
    requires i <= j < |Scopes(e)| && HasScope(other, Scopes(e)[i])
    ensures HasScope(other, Scopes(e)[j])
  {
    assert HasScope(other, Scopes(e)[i]) && HasScope(e, Scopes(e)[j]);
    assert i < j ==> Widens(Scopes(e)[i], Scopes(e)[j]);
  }

  /** Along the chain of a decision the eligible samples never decrease. */
  lemma {:induction false} WiderScopesHaveMore(evidence: seq<Row>, e: Row, i: nat, j: nat)
    requires i <= j < |Scopes(e)|
    ensures Count(Group(evidence, ScopeKey(e.path, Scopes(e)[i]))) <= Count(Group(evidence, ScopeKey(e.path, Scopes(e)[j])))
  {
    if evidence != [] {
      var init, last := evidence[..|evidence| - 1], evidence[|evidence| - 1];
      WiderScopesHaveMore(init, e, i, j);
      var narrow, wide := ScopeKey(e.path, Scopes(e)[i]), ScopeKey(e.path, Scopes(e)[j]);
      if Belongs(last, narrow) {
        WiderScopes(e, last, i, j);
      }
      AppendCount(Group(init, narrow), last);
      AppendCount(Group(init, wide), last);
      assert Group(init, narrow) + [] == Group(init, narrow) && Group(init, wide) + [] == Group(init, wide);
    }
  }

  /** The most specific scope with enough samples, or the widest one. */
  method ChooseScope(evidence: seq<Row>, e: Row) returns (k: nat)
    ensures k < |Scopes(e)|
    ensures forall i :: 0 <= i < k ==> Count(Group(evidence, ScopeKey(e.path, Scopes(e)[i]))) < MIN_SAMPLE
    ensures Count(Group(evidence, ScopeKey(e.path, Scopes(e)[k]))) < MIN_SAMPLE ==>
              forall i :: 0 <= i < |Scopes(e)| ==> Count(Group(evidence, ScopeKey(e.path, Scopes(e)[i]))) < MIN_SAMPLE
  {
    k := 0;
    while k < |Scopes(e)| && Count(Group(evidence, ScopeKey(e.path, Scopes(e)[k]))) < MIN_SAMPLE
      invariant k <= |Scopes(e)|
      invariant forall i :: 0 <= i < k ==> Count(Group(evidence, ScopeKey(e.path, Scopes(e)[i]))) < MIN_SAMPLE
    {
      k := k + 1;
    }
    if k == |Scopes(e)| {
      k := k - 1;
    }
  }

  /** One widest scope decides whether any scope is adequate: the chosen one falls short only when
      all do, so looking at the reason-wide scope alone tells. */
  lemma ShortOnlyIfAllAre(evidence: seq<Row>, e: Row, k: nat)
    requires k < |Scopes(e)|
    requires Count(Group(evidence, ScopeKey(e.path, Scopes(e)[|Scopes(e)| - 1]))) < MIN_SAMPLE
    ensures Count(Group(evidence, ScopeKey(e.path, Scopes(e)[k]))) < MIN_SAMPLE
  {
    WiderScopesHaveMore(evidence, e, k, |Scopes(e)| - 1);
  }
}
