/** The per-candle step of the backtest over a whole run: what it logs, what it counts, and the
    guardrails that limit acceptance. */
module BacktestRun {
  import opened Options
  import opened Market
  import opened TradeSimulation
  import opened Lifecycle
  import Symbols

  // ---------- Counters ----------

  function Get<K>(m: map<K, nat>, k: K): nat {
    if k in m then m[k] else 0
  }

  /** Sum of all counters. */
  ghost function Total<K>(m: map<K, nat>): nat
    decreases |m|
  {
    if m == map[] then 0
    else
      var k :| k in m;
      m[k] + Total(m - {k})
  }

  lemma {:induction false} TotalWithout<K>(m: map<K, nat>, k: K)
    requires k in m
    ensures Total(m) == m[k] + Total(m - {k})
    decreases |m|
  {
    var first :| first in m && Total(m) == m[first] + Total(m - {first});
    if first != k {
      TotalWithout(m - {first}, k);
      TotalWithout(m - {k}, first);
      assert m - {first} - {k} == m - {k} - {first};
    }
  }

  /** Counting once more under any key adds one to the sum. */
  lemma TotalBump<K>(m: map<K, nat>, k: K)
    ensures Total(m[k := Get(m, k) + 1]) == Total(m) + 1
  {
    var n := m[k := Get(m, k) + 1];
    TotalWithout(n, k);
    if k in m {
      TotalWithout(m, k);
      assert n - {k} == m - {k};
    } else {
      assert n - {k} == m;
    }
  }

  /** The counters of one day. */
  ghost function OnDay<K>(m: map<K, nat>, dayOf: K -> int, day: int): map<K, nat> {
    map k | k in m && dayOf(k) == day :: m[k]
  }

  lemma OnDayBump<K>(m: map<K, nat>, dayOf: K -> int, k: K, day: int)
    ensures Total(OnDay(m[k := Get(m, k) + 1], dayOf, day)) == Total(OnDay(m, dayOf, day)) + if dayOf(k) == day then 1 else 0
  {
    var n := m[k := Get(m, k) + 1];
    if dayOf(k) == day {
      assert OnDay(n, dayOf, day) == OnDay(m, dayOf, day)[k := Get(OnDay(m, dayOf, day), k) + 1];
      TotalBump(OnDay(m, dayOf, day), k);
    } else {
      assert OnDay(n, dayOf, day) == OnDay(m, dayOf, day);
    }
  }

  // ---------- Guardrails ----------

  /** `diagnostic` is one of the three profiles that switch the guardrails off. */
  datatype Limits = Limits(
    enabled: bool, diagnostic: bool, perDay: int, perSymbolDay: int, perSymbolRegimeDay: int, pauseAfter: int,
    saturationGuard: bool, saturatedScore: real, saturatedMinRr: real, saturatedMaxCost: real,
    highVolGuard: bool, highVolMinRr: real, highVolMaxCost: real, highVolPerDay: int)

  datatype SymbolDay = SymbolDay(symbol: string, day: int)
  datatype RegimeDay = RegimeDay(symbol: string, regime: string, day: int)

  /** The part of `recent_stats` that the guardrails read; an outcome is true for a win. */
  datatype Stats = Stats(consecutiveSl: nat, consecutiveTp: nat, outcomes: seq<bool>,
                         daily: map<int, nat>, symbolDaily: map<SymbolDay, nat>, regimeDaily: map<RegimeDay, nat>,
                         highVolDaily: map<int, nat>)

  const NO_STATS := Stats(0, 0, [], map[], map[], map[], map[])

  const DAY_MS := 86400000

  /** The UTC day of a timestamp in milliseconds. */
  function DayOf(timestamp: int): int {
    timestamp / DAY_MS
  }

  datatype Scan = Refused(reason: string) | Executable | Neither

  /** Everything that one turn of the main loop is given. The scanner, the selector, the cost and
      portfolio evaluation and the rescue conditions enter through their results. */
  datatype Feed = Feed(
    candidate: Candidate, candles: seq<Candle>, idx: nat, selector: Option<string>, scan: Scan,
    flags: seq<string>, portfolio: Option<string>, rescuable: bool,
    effectiveRr: real, cost: real, marketRegime: string, volatilityRegime: string, softened: bool)

  function SymbolDayOf(f: Feed): SymbolDay {
    SymbolDay(f.candidate.signal.symbol, DayOf(f.candidate.signal.timestamp))
  }

  function RegimeDayOf(f: Feed): RegimeDay {
    RegimeDay(f.candidate.signal.symbol, Symbols.Upper(f.candidate.regime), DayOf(f.candidate.signal.timestamp))
  }

  predicate Contains(s: string, word: string) {
    |word| <= |s| && (s[..|word|] == word || (s != [] && Contains(s[1..], word)))
  }

  /** `_is_high_vol_context`: what the regime names say together, in capitals. */
  predicate HighVol(f: Feed) {
    var text := Symbols.Upper(f.candidate.regime + " " + f.marketRegime + " " + f.volatilityRegime);
    Contains(text, "HIGH") || Contains(text, "VOL") || Contains(text, "BREAKOUT")
  }

  predicate Guarded(cfg: Limits) {
    cfg.enabled && !cfg.diagnostic
  }

  /** `_guardrail_rejection_reason`, in its order. */
  function GuardReason(cfg: Limits, s: Stats, f: Feed): Option<string> {
    var day := DayOf(f.candidate.signal.timestamp);
    if !Guarded(cfg) then None
    else if s.consecutiveSl >= cfg.pauseAfter then Some("LOSS_STREAK_PAUSE")
    else if Get(s.daily, day) >= cfg.perDay then Some("DAILY_TRADE_FREQUENCY_GUARD")
    else if Get(s.symbolDaily, SymbolDayOf(f)) >= cfg.perSymbolDay then Some("SYMBOL_CLUSTER_GUARD")
    else if Get(s.regimeDaily, RegimeDayOf(f)) >= cfg.perSymbolRegimeDay then Some("SYMBOL_CLUSTER_GUARD")
    else if HighVol(f) && cfg.highVolGuard && Get(s.highVolDaily, day) >= cfg.highVolPerDay then Some("HIGH_VOL_OVERTRADE")
    else if HighVol(f) && cfg.highVolGuard && f.cost > cfg.highVolMaxCost then Some("HIGH_VOL_EXECUTION_COST")
    else if HighVol(f) && cfg.highVolGuard && (f.effectiveRr < cfg.highVolMinRr || f.softened) then Some("HIGH_VOL_GUARD")
    else if cfg.saturationGuard && f.candidate.score >= cfg.saturatedScore
            && (f.effectiveRr < cfg.saturatedMinRr || Symbols.Upper(f.candidate.regime) !in {"TREND", "BREAKOUT"}
                || HighVol(f) || f.cost > cfg.saturatedMaxCost) then Some("SCORE_SATURATION_GUARD")
    else None
  }

  /** `_record_guardrail_acceptance`. */
  function Recorded(s: Stats, f: Feed): Stats {
    var day, sd, rd := DayOf(f.candidate.signal.timestamp), SymbolDayOf(f), RegimeDayOf(f);
    s.(daily := s.daily[day := Get(s.daily, day) + 1],
       symbolDaily := s.symbolDaily[sd := Get(s.symbolDaily, sd) + 1],
       regimeDaily := s.regimeDaily[rd := Get(s.regimeDaily, rd) + 1],
       highVolDaily := if HighVol(f) then s.highVolDaily[day := Get(s.highVolDaily, day) + 1] else s.highVolDaily)
  }

  /** `_update_recent_stats_after_close`, without the rolling win rate. */
  function AfterClose(s: Stats, why: CloseReason): Stats {
    match why
    case SL_HIT => s.(consecutiveSl := s.consecutiveSl + 1, consecutiveTp := 0, outcomes := s.outcomes + [false])
    case TP_HIT => s.(consecutiveTp := s.consecutiveTp + 1, consecutiveSl := 0, outcomes := s.outcomes + [true])
    case TIMEOUT => s
  }

  /** Length of the run of losses (or wins) at the end. */
  function Trailing(outcomes: seq<bool>, win: bool): nat {
    if outcomes == [] || outcomes[|outcomes| - 1] != win then 0 else 1 + Trailing(outcomes[..|outcomes| - 1], win)
  }

  function AtLeastZero(n: int): nat {
    if n < 0 then 0 else n
  }

  ghost predicate Below<K(!new)>(m: map<K, nat>, cap: int) {
    forall k :: Get(m, k) <= AtLeastZero(cap)
  }

  ghost predicate WithinCaps(cfg: Limits, s: Stats) {
    && Below(s.daily, cfg.perDay) && Below(s.symbolDaily, cfg.perSymbolDay) && Below(s.regimeDaily, cfg.perSymbolRegimeDay)
    && (cfg.highVolGuard ==> Below(s.highVolDaily, cfg.highVolPerDay))
  }

  function DayOfSymbol(k: SymbolDay): int {
    k.day
  }

  function DayOfRegime(k: RegimeDay): int {
    k.day
  }

  /** Every day counter is the sum of that day's finer counters. */
  ghost predicate SumsByDay<K(!new)>(daily: map<int, nat>, m: map<K, nat>, dayOf: K -> int) {
    forall day :: Get(daily, day) == Total(OnDay(m, dayOf, day))
  }

  lemma SumsByDayBump<K(!new)>(daily: map<int, nat>, m: map<K, nat>, dayOf: K -> int, k: K)
    requires SumsByDay(daily, m, dayOf)
    ensures SumsByDay(daily[dayOf(k) := Get(daily, dayOf(k)) + 1], m[k := Get(m, k) + 1], dayOf)
  {
    var after := daily[dayOf(k) := Get(daily, dayOf(k)) + 1];
    forall day ensures Get(after, day) == Total(OnDay(m[k := Get(m, k) + 1], dayOf, day)) {
      OnDayBump(m, dayOf, k, day);
    }
  }

  ghost predicate DaysAddUp(s: Stats) {
    SumsByDay(s.daily, s.symbolDaily, DayOfSymbol) && SumsByDay(s.daily, s.regimeDaily, DayOfRegime)
  }

  ghost predicate StreaksAreTrailing(s: Stats) {
    s.consecutiveSl == Trailing(s.outcomes, false) && s.consecutiveTp == Trailing(s.outcomes, true)
  }

  lemma BelowBump<K(!new)>(m: map<K, nat>, k: K, cap: int)
    requires Below(m, cap) && Get(m, k) < cap
    ensures Below(m[k := Get(m, k) + 1], cap)
  {
    var n := m[k := Get(m, k) + 1];
    forall x ensures Get(n, x) <= AtLeastZero(cap) {
      assert x != k ==> Get(n, x) == Get(m, x);
    }
  }

  lemma RecordedKeepsCaps(cfg: Limits, s: Stats, f: Feed)
    requires Guarded(cfg) && WithinCaps(cfg, s) && GuardReason(cfg, s, f) == None
    ensures WithinCaps(cfg, Recorded(s, f))
  {
    hide HighVol;
    var day := DayOf(f.candidate.signal.timestamp);
    BelowBump(s.daily, day, cfg.perDay);
    BelowBump(s.symbolDaily, SymbolDayOf(f), cfg.perSymbolDay);
    BelowBump(s.regimeDaily, RegimeDayOf(f), cfg.perSymbolRegimeDay);
    if HighVol(f) && cfg.highVolGuard {
      BelowBump(s.highVolDaily, day, cfg.highVolPerDay);
    }
  }

  /** The day counter stays the sum of the symbol counters and of the symbol-and-regime counters. */
  lemma RecordedKeepsSums(s: Stats, f: Feed)
    requires DaysAddUp(s)
    ensures DaysAddUp(Recorded(s, f))
  {
    hide SumsByDay, Get;
    var sd, rd := SymbolDayOf(f), RegimeDayOf(f);
    SumsByDayBump(s.daily, s.symbolDaily, DayOfSymbol, sd);
    SumsByDayBump(s.daily, s.regimeDaily, DayOfRegime, rd);
    assert DayOfSymbol(sd) == DayOfRegime(rd) == DayOf(f.candidate.signal.timestamp);
    hide DayOf;
  }

  lemma AfterCloseKeepsStreaks(s: Stats, why: CloseReason)
    requires StreaksAreTrailing(s)
    ensures StreaksAreTrailing(AfterClose(s, why))
  {
    var t := AfterClose(s, why);
    if !why.TIMEOUT? {
      assert t.outcomes[..|t.outcomes| - 1] == s.outcomes;
    }
  }

  // ---------- The run ----------

  datatype Refusal = Refusal(signal: SignalId, state: Status, reason: string)

  /** The contents of the lists and dictionaries that the main loop hands to every turn. */
  datatype Book = Book(lifecycle: seq<LifecycleRow>, rejected: seq<Refusal>, counts: map<string, nat>,
                       candidates: seq<Candidate>, openRows: seq<LifecycleRow>, stats: Stats)

  /** `rescue` says whether either rescue lane is on. */
  datatype Setup = Setup(limits: Limits, rescue: bool, pnl: (real, CloseReason) -> Option<real>)

  function RefusalRow(c: Candidate, status: Status, reason: string): (row: LifecycleRow)
    ensures row.status == status && SignalId(row.signal.symbol, row.at) == c.signal
  {
    Row(c, status, 0.0, None, None).(reject := Some(reason))
  }

  ghost predicate StatsValid(setup: Setup, s: Stats) {
    && DaysAddUp(s) && StreaksAreTrailing(s)
    && (Guarded(setup.limits) ==> WithinCaps(setup.limits, s))
    && (Guarded(setup.limits) && !setup.rescue ==> s.consecutiveSl <= AtLeastZero(setup.limits.pauseAfter))
  }

  lemma NoStatsIsValid(setup: Setup)
    ensures StatsValid(setup, NO_STATS)
  {
    assert forall day :: OnDay(NO_STATS.symbolDaily, DayOfSymbol, day) == map[];
    assert forall day :: OnDay(NO_STATS.regimeDaily, DayOfRegime, day) == map[];
  }

  /** The loss streak has reached its cap and nothing can be rescued. */
  predicate Paused(setup: Setup, s: Stats) {
    Guarded(setup.limits) && !setup.rescue && s.consecutiveSl >= setup.limits.pauseAfter
  }

  /** A rescued candidate is not counted by the guardrails; every closed one is. */
  function StatsAfter(s: Stats, f: Feed, rescued: bool, r: Result): Stats {
    var counted := if rescued then s else Recorded(s, f);
    if r.outcome.NotTriggered? then counted else AfterClose(counted, ReasonOf(r.outcome))
  }

  lemma RecordedKeepsValid(setup: Setup, s: Stats, f: Feed)
    requires StatsValid(setup, s) && GuardReason(setup.limits, s, f) == None
    ensures StatsValid(setup, Recorded(s, f))
  {
    RecordedKeepsSums(s, f);
    if Guarded(setup.limits) {
      RecordedKeepsCaps(setup.limits, s, f);
    }
  }

  lemma AfterCloseKeepsValid(setup: Setup, s: Stats, why: CloseReason)
    requires StatsValid(setup, s)
    requires Guarded(setup.limits) && !setup.rescue ==> s.consecutiveSl < setup.limits.pauseAfter
    ensures StatsValid(setup, AfterClose(s, why))
  {
    AfterCloseKeepsStreaks(s, why);
  }

  datatype Judgement = Refuse(state: Status, reason: string) | TakeUp(rescued: bool) | Ignore

  /** What becomes of a signal: it is refused by the first of selector, scanner, costs, portfolio
      and guardrails, unless a rescue lane takes it up after the scanner's or the costs' refusal;
      with neither scan result nothing is decided. */
  function Judged(setup: Setup, s: Stats, f: Feed): (j: Judgement)
    ensures Paused(setup, s) ==> !j.TakeUp?
    ensures j.Refuse? && f.selector.None? ==> j.state.SIGNAL_REJECTED? || j.state.ORDER_REJECTED?
    ensures j.TakeUp? ==> if j.rescued then setup.rescue else GuardReason(setup.limits, s, f) == None
  {
    if f.selector.Some? then Refuse(SYMBOL_REJECTED, f.selector.value)
    else if f.scan.Refused? then
      if setup.rescue && f.rescuable then TakeUp(true) else Refuse(SIGNAL_REJECTED, f.scan.reason)
    else if f.scan.Neither? then Ignore
    else if f.flags != [] then
      if setup.rescue && f.rescuable then TakeUp(true) else Refuse(ORDER_REJECTED, f.flags[0])
    else if f.portfolio.Some? then Refuse(SIGNAL_REJECTED, f.portfolio.value)
    else
      var guard := GuardReason(setup.limits, s, f);
      if guard.Some? then Refuse(SIGNAL_REJECTED, guard.value) else TakeUp(false)
  }

  /** All that a turn changes: `r` is the first touch of an accepted candidate. */
  ghost predicate Turned(setup: Setup, b: Book, f: Feed, j: Judgement, r: Result, b': Book)
    requires f.idx < |f.candles|
  {
    var c, cs := f.candidate, f.candles[f.idx..];
    var created := Row(c, SIGNAL_CREATED, 0.0, None, None);
    match j
    case Refuse(state, reason) =>
      b' == b.(lifecycle := b.lifecycle + (if f.selector.Some? then [] else [created]) + [RefusalRow(c, state, reason)],
               rejected := b.rejected + [Refusal(c.signal, state, reason)],
               counts := b.counts[reason := Get(b.counts, reason) + 1])
    case TakeUp(rescued) =>
      && FirstTouch(cs, c.plan, c.side.LONG?, c.immediate, r)
      && var rows := Rows(c, cs, r, setup.pnl);
         b' == b.(lifecycle := b.lifecycle + [created] + rows, candidates := b.candidates + [c.(rescued := rescued)],
                  stats := StatsAfter(b.stats, f, rescued, r),
                  openRows := b.openRows + if r.outcome.StillOpen? then [rows[|rows| - 1]] else [])
    case Ignore => b' == b.(lifecycle := b.lifecycle + [created])
  }

  function Created(c: Candidate): LifecycleRow {
    Row(c, SIGNAL_CREATED, 0.0, None, None)
  }

  // ---------- Whole runs ----------

  function Fed(feeds: seq<Feed>): set<SignalId> {
    if feeds == [] then {} else Fed(feeds[..|feeds| - 1]) + {feeds[|feeds| - 1].candidate.signal}
  }

  /** Each candle of each symbol is fed once, at a position of its list, and was not fed before. */
  predicate Admissible(feeds: seq<Feed>, before: set<SignalId>) {
    feeds == []
    || (var init, last := feeds[..|feeds| - 1], feeds[|feeds| - 1];
        Admissible(init, before) && last.idx < |last.candles| && last.candidate.signal !in before + Fed(init))
  }

  /** Signals for which the scanner reports neither a rejection nor a candidate. */
  function Undecided(feeds: seq<Feed>): nat {
    if feeds == [] then 0
    else Undecided(feeds[..|feeds| - 1]) + if feeds[|feeds| - 1].selector.None? && feeds[|feeds| - 1].scan.Neither? then 1 else 0
  }

  lemma {:induction false} AdmissiblePrefix(feeds: seq<Feed>, before: set<SignalId>, k: nat)
    requires Admissible(feeds, before) && k <= |feeds|
    ensures Admissible(feeds[..k], before)
  {
    if k == |feeds| {
      assert feeds[..k] == feeds;
    } else {
      AdmissiblePrefix(feeds[..|feeds| - 1], before, k);
      assert feeds[..|feeds| - 1][..k] == feeds[..k];
    }
  }

  lemma OneMoreFed(feeds: seq<Feed>, before: set<SignalId>, k: nat)
    requires Admissible(feeds, before) && k < |feeds|
    ensures feeds[k].idx < |feeds[k].candles| && feeds[k].candidate.signal !in before + Fed(feeds[..k])
    ensures before + Fed(feeds[..k + 1]) == before + Fed(feeds[..k]) + {feeds[k].candidate.signal}
    ensures Undecided(feeds[..k + 1])
            == Undecided(feeds[..k]) + if feeds[k].selector.None? && feeds[k].scan.Neither? then 1 else 0
  {
    AdmissiblePrefix(feeds, before, k + 1);
    assert feeds[..k + 1][..k] == feeds[..k];
  }

  /** What the turns over the feeds make of the lists and dictionaries. */
  ghost predicate Ran(setup: Setup, feeds: seq<Feed>, b: Book, b': Book)
    decreases |feeds|, 0
  {
    if feeds == [] then b' == b else RanOn(setup, feeds[..|feeds| - 1], feeds[|feeds| - 1], b, b')
  }

  ghost predicate RanOn(setup: Setup, init: seq<Feed>, last: Feed, b: Book, b': Book)
    decreases |init|, 1
  {
    exists m, r :: Ran(setup, init, b, m) && Led(setup, m, last, r, b')
  }

  /** One turn, judged by the statistics it finds. */
  ghost predicate Led(setup: Setup, b: Book, f: Feed, r: Result, b': Book) {
    f.idx < |f.candles| && Turned(setup, b, f, Judged(setup, b.stats, f), r, b')
  }

  lemma RanMore(setup: Setup, feeds: seq<Feed>, k: nat, b: Book, m: Book, r: Result, b': Book)
    requires k < |feeds| && Ran(setup, feeds[..k], b, m) && Led(setup, m, feeds[k], r, b')
    ensures Ran(setup, feeds[..k + 1], b, b')
  {
    assert feeds[..k + 1][..k] == feeds[..k];
    assert RanOn(setup, feeds[..k], feeds[k], b, b');
  }

  lemma LedIsUnique(setup: Setup, b: Book, f: Feed, r: Result, r2: Result, b1: Book, b2: Book)
    requires Led(setup, b, f, r, b1) && Led(setup, b, f, r2, b2)
    ensures b1 == b2
  {
    hide FirstTouch, Rows, StatsAfter;
    if Judged(setup, b.stats, f).TakeUp? {
      FirstTouchIsUnique(f.candles[f.idx..], f.candidate.plan, f.candidate.side.LONG?, f.candidate.immediate, r, r2);
    }
  }

  /** The feeds fix what a run does. */
  lemma {:induction false} RanIsUnique(setup: Setup, feeds: seq<Feed>, b: Book, b1: Book, b2: Book)
    requires Ran(setup, feeds, b, b1) && Ran(setup, feeds, b, b2)
    ensures b1 == b2
  {
    if feeds != [] {
      var init, last := feeds[..|feeds| - 1], feeds[|feeds| - 1];
      var m1, r1 :| Ran(setup, init, b, m1) && Led(setup, m1, last, r1, b1);
      var m2, r2 :| Ran(setup, init, b, m2) && Led(setup, m2, last, r2, b2);
      RanIsUnique(setup, init, b, m1, m2);
      LedIsUnique(setup, m1, last, r1, r2, b1, b2);
    }
  }

  // ---------- What the log, the candidates and the statistics say of each other ----------

  /** The waiting rows' keys of the candidates. */
  function Waiting(candidates: seq<Candidate>): set<Key> {
    if candidates == [] then {}
    else var last := candidates[|candidates| - 1].signal;
         Waiting(candidates[..|candidates| - 1]) + {Key(None, last, last)}
  }

  /** Candidates of a day that the guardrails let through. */
  function Baseline(candidates: seq<Candidate>, day: int): nat {
    if candidates == [] then 0
    else
      var last := candidates[|candidates| - 1];
      Baseline(candidates[..|candidates| - 1], day) + if !last.rescued && DayOf(last.signal.timestamp) == day then 1 else 0
  }

  ghost predicate Among(keys: set<Key>, seen: set<SignalId>) {
    forall k :: k in keys ==> k.signal in seen
  }

  /** Each candidate has its waiting row, and each open row its closing row. */
  ghost predicate LogLinked(lifecycle: seq<LifecycleRow>, candidates: seq<Candidate>, open: nat, seen: set<SignalId>) {
    && Keys(lifecycle, WAITING_ENTRY_ZONE) == Waiting(candidates) && |Waiting(candidates)| == |candidates|
    && Among(Waiting(candidates), seen) && Closed(lifecycle, TIMEOUT) == open
  }

  /** Each outcome has its closing row, and each day counter its candidates, since the statistics `start`
      of an empty log. */
  ghost predicate StatsLinked(start: Stats, lifecycle: seq<LifecycleRow>, candidates: seq<Candidate>, s: Stats) {
    && |s.outcomes| == |start.outcomes| + Closed(lifecycle, TP_HIT) + Closed(lifecycle, SL_HIT)
    && forall day :: Get(s.daily, day) == Get(start.daily, day) + Baseline(candidates, day)
  }

  ghost predicate Linked(start: Stats, b: Book, seen: set<SignalId>) {
    LogLinked(b.lifecycle, b.candidates, |b.openRows|, seen) && StatsLinked(start, b.lifecycle, b.candidates, b.stats)
  }

  lemma InertKeepsLinks(start: Stats, b: Book, b': Book, seen: set<SignalId>, row: LifecycleRow)
    requires Linked(start, b, seen) && Inert(row) && b'.lifecycle == b.lifecycle + [row]
    requires b'.candidates == b.candidates && b'.openRows == b.openRows && b'.stats == b.stats
    ensures Linked(start, b', seen)
  {
    OneRow(row);
    KeysAppend(b.lifecycle, [row], WAITING_ENTRY_ZONE);
    ClosedAppend(b.lifecycle, [row], TP_HIT);
    ClosedAppend(b.lifecycle, [row], SL_HIT);
    ClosedAppend(b.lifecycle, [row], TIMEOUT);
    hide Keys, Closed, Waiting, Baseline, Get;
  }

  lemma WaitingMore(candidates: seq<Candidate>, c: Candidate, seen: set<SignalId>)
    requires Among(Waiting(candidates), seen) && c.signal !in seen && |Waiting(candidates)| == |candidates|
    ensures Waiting(candidates + [c]) == Waiting(candidates) + {Key(None, c.signal, c.signal)}
    ensures |Waiting(candidates + [c])| == |candidates + [c]| && Among(Waiting(candidates + [c]), seen + {c.signal})
  {
    assert (candidates + [c])[..|candidates|] == candidates;
    OneMore(Waiting(candidates), Key(None, c.signal, c.signal));
  }

  lemma BaselineMore(candidates: seq<Candidate>, c: Candidate, day: int)
    ensures Baseline(candidates + [c], day)
            == Baseline(candidates, day) + if !c.rescued && DayOf(c.signal.timestamp) == day then 1 else 0
  {
    assert (candidates + [c])[..|candidates|] == candidates;
  }

  lemma StatsAfterFacts(s: Stats, f: Feed, rescued: bool, r: Result, day: int)
    ensures var t := StatsAfter(s, f, rescued, r);
            && |t.outcomes| == |s.outcomes| + (if r.outcome.ClosedTp? || r.outcome.ClosedSl? then 1 else 0)
            && Get(t.daily, day) == Get(s.daily, day) + if !rescued && DayOf(f.candidate.signal.timestamp) == day then 1 else 0
  {
    var day' := DayOf(f.candidate.signal.timestamp);
    hide DayOf, SymbolDayOf, RegimeDayOf;
    assert Get(s.daily[day' := Get(s.daily, day') + 1], day) == Get(s.daily, day) + if day' == day then 1 else 0;
    hide Get;
  }

  /** What an accepted candidate's rows add to the log. */
  lemma AcceptedLog(rows: seq<LifecycleRow>, c: Candidate, cs: seq<Candle>, r: Result, pnl: (real, CloseReason) -> Option<real>)
    requires r.exit <= |cs| && cs != []
    ensures var log := rows + [Created(c)] + Rows(c, cs, r, pnl);
            && Keys(log, WAITING_ENTRY_ZONE) == Keys(rows, WAITING_ENTRY_ZONE) + {Key(None, c.signal, c.signal)}
            && Closed(log, TP_HIT) == Closed(rows, TP_HIT) + (if r.outcome.ClosedTp? then 1 else 0)
            && Closed(log, SL_HIT) == Closed(rows, SL_HIT) + (if r.outcome.ClosedSl? then 1 else 0)
            && Closed(log, TIMEOUT) == Closed(rows, TIMEOUT) + if r.outcome.StillOpen? then 1 else 0
  {
    KeysOfAccepted(rows, Created(c), c, cs, r, pnl, WAITING_ENTRY_ZONE);
    ClosingsOfAccepted(rows, Created(c), c, cs, r, pnl, TP_HIT);
    ClosingsOfAccepted(rows, Created(c), c, cs, r, pnl, SL_HIT);
    ClosingsOfAccepted(rows, Created(c), c, cs, r, pnl, TIMEOUT);
    hide Keys, Closed, Rows;
  }

  lemma DailyMore(start: Stats, b: Book, f: Feed, rescued: bool, r: Result, day: int)
    requires Get(b.stats.daily, day) == Get(start.daily, day) + Baseline(b.candidates, day)
    ensures Get(StatsAfter(b.stats, f, rescued, r).daily, day)
            == Get(start.daily, day) + Baseline(b.candidates + [f.candidate.(rescued := rescued)], day)
  {
    StatsAfterFacts(b.stats, f, rescued, r, day);
    BaselineMore(b.candidates, f.candidate.(rescued := rescued), day);
    hide Get, StatsAfter, Baseline, DayOf;
  }

  lemma AcceptKeepsLogLinks(rows: seq<LifecycleRow>, candidates: seq<Candidate>, open: nat, seen: set<SignalId>, taken: Candidate,
                            c: Candidate, cs: seq<Candle>, r: Result, pnl: (real, CloseReason) -> Option<real>)
    requires LogLinked(rows, candidates, open, seen) && c.signal !in seen && taken.signal == c.signal && r.exit <= |cs| && cs != []
    ensures LogLinked(rows + [Created(c)] + Rows(c, cs, r, pnl), candidates + [taken],
                      open + (if r.outcome.StillOpen? then 1 else 0), seen + {c.signal})
  {
    hide Keys, Closed, Waiting, Rows, Created, Among;
    AcceptedLog(rows, c, cs, r, pnl);
    WaitingMore(candidates, taken, seen);
  }

  lemma AcceptKeepsStatsLinks(start: Stats, rows: seq<LifecycleRow>, b: Book, f: Feed, rescued: bool, cs: seq<Candle>, r: Result,
                              pnl: (real, CloseReason) -> Option<real>)
    requires StatsLinked(start, rows, b.candidates, b.stats) && r.exit <= |cs| && cs != []
    ensures StatsLinked(start, rows + [Created(f.candidate)] + Rows(f.candidate, cs, r, pnl),
                        b.candidates + [f.candidate.(rescued := rescued)], StatsAfter(b.stats, f, rescued, r))
  {
    hide Keys, Closed, Rows, Created, Baseline, Get, StatsAfter, DayOf;
    AcceptedLog(rows, f.candidate, cs, r, pnl);
    StatsAfterFacts(b.stats, f, rescued, r, 0);
    forall day ensures Get(StatsAfter(b.stats, f, rescued, r).daily, day)
                       == Get(start.daily, day) + Baseline(b.candidates + [f.candidate.(rescued := rescued)], day) {
      DailyMore(start, b, f, rescued, r, day);
    }
  }

  lemma AcceptKeepsLinks(setup: Setup, start: Stats, b: Book, f: Feed, rescued: bool, r: Result, b': Book, seen: set<SignalId>)
    requires Linked(start, b, seen) && f.candidate.signal !in seen && f.idx < |f.candles|
    requires Turned(setup, b, f, TakeUp(rescued), r, b')
    ensures Linked(start, b', seen + {f.candidate.signal})
  {
    var c, cs := f.candidate, f.candles[f.idx..];
    assert r.exit <= |cs|;
    hide LogLinked, StatsLinked, StatsAfter, Rows, FirstTouch;
    AcceptKeepsLogLinks(b.lifecycle, b.candidates, |b.openRows|, seen, c.(rescued := rescued), c, cs, r, setup.pnl);
    AcceptKeepsStatsLinks(start, b.lifecycle, b, f, rescued, cs, r, setup.pnl);
  }

  lemma LedKeepsLinks(setup: Setup, start: Stats, b: Book, f: Feed, r: Result, b': Book, seen: set<SignalId>)
    requires Linked(start, b, seen) && f.candidate.signal !in seen && Led(setup, b, f, r, b')
    ensures Linked(start, b', seen + {f.candidate.signal})
  {
    var j, created := Judged(setup, b.stats, f), Created(f.candidate);
    if j.TakeUp? {
      AcceptKeepsLinks(setup, start, b, f, j.rescued, r, b', seen);
    } else {
      var m := if f.selector.Some? then b else b.(lifecycle := b.lifecycle + [created]);
      if f.selector.None? {
        InertKeepsLinks(start, b, m, seen, created);
      }
      if j.Refuse? {
        assert f.selector.Some? ==> b.lifecycle + [] == b.lifecycle;
        InertKeepsLinks(start, m, b', seen, RefusalRow(f.candidate, j.state, j.reason));
      }
      SeenMore(start, b', seen, f.candidate.signal);
    }
  }

  lemma SeenMore(start: Stats, b: Book, seen: set<SignalId>, id: SignalId)
    requires Linked(start, b, seen)
    ensures Linked(start, b, seen + {id})
  {
  }

  /** Every run keeps these links. */
  lemma {:induction false} RanKeepsLinks(setup: Setup, start: Stats, feeds: seq<Feed>, b: Book, b': Book, seen: set<SignalId>)
    requires Ran(setup, feeds, b, b') && Admissible(feeds, seen) && Linked(start, b, seen)
    ensures Linked(start, b', seen + Fed(feeds))
  {
    hide Linked, Led;
    if feeds == [] {
      assert seen + Fed(feeds) == seen;
    } else {
      var init, last := feeds[..|feeds| - 1], feeds[|feeds| - 1];
      var m, r :| Ran(setup, init, b, m) && Led(setup, m, last, r, b');
      RanKeepsLinks(setup, start, init, b, m, seen);
      LedKeepsLinks(setup, start, m, last, r, b', seen + Fed(init));
      assert seen + Fed(feeds) == seen + Fed(init) + {last.candidate.signal};
    }
  }

  lemma EmptyIsLinked(b: Book)
    requires b.lifecycle == [] && b.candidates == [] && b.openRows == []
    ensures Linked(b.stats, b, {})
  {
  }

  lemma RowsAreSome(c: Candidate, cs: seq<Candle>, r: Result, pnl: (real, CloseReason) -> Option<real>)
    requires r.exit <= |cs| && cs != []
    ensures Rows(c, cs, r, pnl) != []
  {
  }

  /** The lists and dictionaries of one backtest. */
  class Session {
    const setup: Setup

    var lifecycle: seq<LifecycleRow>
    var rejected: seq<Refusal>
    var counts: map<string, nat>
    var candidates: seq<Candidate>
    var openRows: seq<LifecycleRow>
    var stats: Stats

    ghost var seen: set<SignalId>
    ghost var undecided: nat

    constructor (setup: Setup, stats: Stats)
      requires StatsValid(setup, stats)
      ensures Valid() && this.setup == setup
      ensures Contents() == Book([], [], map[], [], [], stats) && seen == {} && undecided == 0
    {
      this.setup, this.stats := setup, stats;
      lifecycle, rejected, counts, candidates, openRows := [], [], map[], [], [];
      seen, undecided := {}, 0;
    }

    function Contents(): Book
      reads this
    {
      Book(lifecycle, rejected, counts, candidates, openRows, stats)
    }

    /** The log of the signals seen so far balances, `undecided` of them having no outcome. */
    ghost predicate LogValid()
      reads this
    {
      Balanced(lifecycle, seen, undecided) && Rejections(lifecycle) == |rejected| && Total(counts) == |rejected|
    }

    ghost predicate Valid()
      reads this
    {
      LogValid() && StatsValid(setup, stats)
    }

    /** `rejection_counts[reason] += 1` and the new entry of the rejected list. */
    method CountRefusal(refusal: Refusal)
      requires Total(counts) == |rejected|
      modifies this`rejected, this`counts
      ensures rejected == old(rejected) + [refusal]
      ensures counts == old(counts)[refusal.reason := Get(old(counts), refusal.reason) + 1]
      ensures Total(counts) == |rejected|
    {
      TotalBump(counts, refusal.reason);
      counts := counts[refusal.reason := Get(counts, refusal.reason) + 1];
      rejected := rejected + [refusal];
    }

    /** The only row of a signal that the symbol selector turns away. */
    method RejectSymbol(c: Candidate, reason: string)
      requires Valid() && c.signal !in seen
      modifies this
      ensures Valid() && seen == old(seen) + {c.signal} && undecided == old(undecided)
      ensures Contents() == old(Contents()).(
                lifecycle := old(lifecycle) + [RefusalRow(c, SYMBOL_REJECTED, reason)],
                rejected := old(rejected) + [Refusal(c.signal, SYMBOL_REJECTED, reason)],
                counts := old(counts)[reason := Get(old(counts), reason) + 1])
    {
      hide Balanced, Total, StatsValid, Rejections;
      var row := RefusalRow(c, SYMBOL_REJECTED, reason);
      IntroducedKeepsBalance(lifecycle, seen, undecided, row);
      CountRefusal(Refusal(c.signal, SYMBOL_REJECTED, reason));
      lifecycle := lifecycle + [row];
      seen := seen + {c.signal};
    }

    /** The first row of every other signal. */
    method Introduce(c: Candidate)
      requires Valid() && c.signal !in seen
      modifies this`lifecycle, this`seen, this`undecided
      ensures Valid() && seen == old(seen) + {c.signal} && undecided == old(undecided) + 1
      ensures lifecycle == old(lifecycle) + [Created(c)]
    {
      hide Balanced, Total, StatsValid;
      IntroducedKeepsBalance(lifecycle, seen, undecided, Created(c));
      lifecycle := lifecycle + [Created(c)];
      seen, undecided := seen + {c.signal}, undecided + 1;
    }

    /** A created signal is rejected by the scanner, its costs, the portfolio or a guardrail. */
    method Reject(c: Candidate, status: Status, reason: string)
      requires Valid() && undecided > 0 && (status.SIGNAL_REJECTED? || status.ORDER_REJECTED?)
      modifies this
      ensures Valid() && seen == old(seen) && undecided == old(undecided) - 1
      ensures Contents() == old(Contents()).(
                lifecycle := old(lifecycle) + [RefusalRow(c, status, reason)],
                rejected := old(rejected) + [Refusal(c.signal, status, reason)],
                counts := old(counts)[reason := Get(old(counts), reason) + 1])
    {
      hide Balanced, Total, StatsValid;
      var row := RefusalRow(c, status, reason);
      RejectedKeepsBalance(lifecycle, seen, undecided - 1, row, lifecycle + [row]);
      CountRefusal(Refusal(c.signal, status, reason));
      lifecycle := lifecycle + [row];
      undecided := undecided - 1;
    }

    method Refuse(c: Candidate, status: Status, reason: string)
      requires Valid() && c.signal !in seen && (status.SIGNAL_REJECTED? || status.ORDER_REJECTED?)
      modifies this
      ensures Valid() && seen == old(seen) + {c.signal} && undecided == old(undecided)
      ensures Contents() == old(Contents()).(
                lifecycle := old(lifecycle) + [Created(c)] + [RefusalRow(c, status, reason)],
                rejected := old(rejected) + [Refusal(c.signal, status, reason)],
                counts := old(counts)[reason := Get(old(counts), reason) + 1])
    {
      hide Balanced, Total, StatsValid, Rejections;
      Introduce(c);
      Reject(c, status, reason);
    }

    /** `_record_guardrail_acceptance`: one more trade on each counter that covers it. */
    method RecordAcceptance(f: Feed)
      modifies this`stats
      ensures stats == Recorded(old(stats), f)
    {
      var day, sd, rd := DayOf(f.candidate.signal.timestamp), SymbolDayOf(f), RegimeDayOf(f);
      stats := stats.(daily := stats.daily[day := Get(stats.daily, day) + 1]);
      stats := stats.(symbolDaily := stats.symbolDaily[sd := Get(stats.symbolDaily, sd) + 1]);
      stats := stats.(regimeDaily := stats.regimeDaily[rd := Get(stats.regimeDaily, rd) + 1]);
      if HighVol(f) {
        stats := stats.(highVolDaily := stats.highVolDaily[day := Get(stats.highVolDaily, day) + 1]);
      }
    }

    /** `_update_recent_stats_after_close`. */
    method UpdateAfterClose(why: CloseReason)
      modifies this`stats
      ensures stats == AfterClose(old(stats), why)
    {
      if why.SL_HIT? {
        stats := stats.(consecutiveSl := stats.consecutiveSl + 1, consecutiveTp := 0);
        stats := stats.(outcomes := stats.outcomes + [false]);
      } else if why.TP_HIT? {
        stats := stats.(consecutiveTp := stats.consecutiveTp + 1, consecutiveSl := 0);
        stats := stats.(outcomes := stats.outcomes + [true]);
      }
    }

    /** The guardrail counters and the streaks after an accepted candidate's trade. */
    method UpdateStats(f: Feed, rescued: bool, r: Result)
      requires StatsValid(setup, stats)
      requires if rescued then setup.rescue else GuardReason(setup.limits, stats, f) == None
      modifies this`stats
      ensures StatsValid(setup, stats) && stats == StatsAfter(old(stats), f, rescued, r)
    {
      if !rescued {
        RecordedKeepsValid(setup, stats, f);
        RecordAcceptance(f);
      }
      if !r.outcome.NotTriggered? {
        AfterCloseKeepsValid(setup, stats, ReasonOf(r.outcome));
        UpdateAfterClose(ReasonOf(r.outcome));
      }
    }

    /** The candidate's rows are appended to the log, its creation first. */
    method LogTrade(f: Feed) returns (rows: seq<LifecycleRow>, r: Result)
      requires LogValid() && f.idx < |f.candles| && f.candidate.signal !in seen
      modifies this`lifecycle, this`seen
      ensures LogValid() && seen == old(seen) + {f.candidate.signal}
      ensures FirstTouch(f.candles[f.idx..], f.candidate.plan, f.candidate.side.LONG?, f.candidate.immediate, r)
      ensures rows == Rows(f.candidate, f.candles[f.idx..], r, setup.pnl) && rows != []
      ensures lifecycle == old(lifecycle) + [Created(f.candidate)] + rows
    {
      hide Balanced, Total, FirstTouch, Rows, Rejections;
      rows, r := SimulateCandidate(f.candidate, f.candles, f.idx, setup.pnl);
      RowsAreSome(f.candidate, f.candles[f.idx..], r, setup.pnl);
      AcceptedKeepsBalance(lifecycle, seen, undecided, Created(f.candidate), f.candidate, f.candles[f.idx..], r, setup.pnl);
      lifecycle := lifecycle + [Created(f.candidate)];
      lifecycle := lifecycle + rows;
      seen := seen + {f.candidate.signal};
    }

    /** The candidate is simulated and logged; a baseline acceptance is counted by the guardrails, a
        rescued one is not. */
    method Accept(f: Feed, rescued: bool) returns (ghost r: Result)
      requires Valid() && f.idx < |f.candles| && f.candidate.signal !in seen
      requires if rescued then setup.rescue else GuardReason(setup.limits, stats, f) == None
      modifies this
      ensures Valid() && seen == old(seen) + {f.candidate.signal} && undecided == old(undecided)
      ensures Turned(setup, old(Contents()), f, TakeUp(rescued), r, Contents())
    {
      hide Balanced, Total, StatsValid, FirstTouch, StatsAfter, GuardReason, Rows;
      var rows, result := LogTrade(f);
      r := result;
      candidates := candidates + [f.candidate.(rescued := rescued)];
      UpdateStats(f, rescued, result);
      if result.outcome.StillOpen? {
        openRows := openRows + [rows[|rows| - 1]];
      }
    }

    /** One turn of the main loop. */
    method Process(f: Feed) returns (ghost r: Result)
      requires Valid() && f.idx < |f.candles| && f.candidate.signal !in seen
      modifies this
      ensures Valid() && seen == old(seen) + {f.candidate.signal}
      ensures undecided == old(undecided) + if f.selector.None? && f.scan.Neither? then 1 else 0
      ensures Turned(setup, old(Contents()), f, Judged(setup, old(stats), f), r, Contents())
    {
      hide Balanced, Total, StatsValid, FirstTouch, StatsAfter, GuardReason, Rows;
      var j := Judged(setup, stats, f);
      r := Result(NotTriggered, 0, 0, 0.0, 0.0);
      if f.selector.Some? {
        RejectSymbol(f.candidate, f.selector.value);
        assert old(lifecycle) + [] == old(lifecycle);
      } else if j.TakeUp? {
        r := Accept(f, j.rescued);
      } else if j.Refuse? {
        Refuse(f.candidate, j.state, j.reason);
      } else {
        Introduce(f.candidate);
      }
    }

    /** The main loop, from any state that earlier turns have left. It does what the turns over the feeds
        do; afterwards the log balances and the caps hold, and nothing is accepted when acceptance was
        paused at the start. */
    method Run(feeds: seq<Feed>)
      requires Valid() && Admissible(feeds, seen)
      modifies this
      ensures Valid() && seen == old(seen) + Fed(feeds) && undecided == old(undecided) + Undecided(feeds)
      ensures Ran(setup, feeds, old(Contents()), Contents())
      ensures Paused(setup, old(stats)) ==> candidates == old(candidates) && stats == old(stats)
    {
      hide Balanced, Total, StatsValid, FirstTouch, StatsAfter, GuardReason, Rows;
      assert Ran(setup, [], old(Contents()), Contents());
      hide Ran;
      for k := 0 to |feeds|
        invariant Valid() && seen == old(seen) + Fed(feeds[..k]) && undecided == old(undecided) + Undecided(feeds[..k])
        invariant Ran(setup, feeds[..k], old(Contents()), Contents())
        invariant Paused(setup, old(stats)) ==> candidates == old(candidates) && stats == old(stats)
      {
        OneMoreFed(feeds, old(seen), k);
        ghost var before := Contents();
        ghost var r := Process(feeds[k]);
        RanMore(setup, feeds, k, old(Contents()), before, r, Contents());
      }
      assert feeds[..|feeds|] == feeds;
    }
  }

  /** The derived totals of a run balance: rejections, reason counters and the rejected list agree
      with candidates minus accepted, and accepted is the number of trades and timeouts plus that of
      the undecided signals, so it is their number exactly when no signal was undecided. They agree with
      what the run returns: its candidates, its open rows and its outcomes; and on no day do the guardrails
      let more candidates through than their cap. */
  method Backtest(setup: Setup, feeds: seq<Feed>) returns (session: Session, c: Counts)
    requires Admissible(feeds, {})
    ensures fresh(session) && session.Valid() && session.seen == Fed(feeds)
    ensures Ran(setup, feeds, Book([], [], map[], [], [], NO_STATS), session.Contents())
    ensures c == DerivedCounts(session.lifecycle)
    ensures c.accepted == c.tpHits + c.slHits + c.openAtEnd + c.notTriggered + Undecided(feeds)
    ensures c.accepted == c.tpHits + c.slHits + c.openAtEnd + c.notTriggered <==> Undecided(feeds) == 0
    ensures c.orders == c.triggered == c.tpHits + c.slHits + c.openAtEnd
    ensures Total(session.counts) == |session.rejected| == c.rejected == c.candidates - c.accepted
    ensures c.accepted == |session.candidates| + Undecided(feeds)
    ensures c.openAtEnd == |session.openRows| && c.tpHits + c.slHits == |session.stats.outcomes|
    ensures Guarded(setup.limits) ==> forall day :: Baseline(session.candidates, day) <= AtLeastZero(setup.limits.perDay)
  {
    NoStatsIsValid(setup);
    hide Balanced, Total, StatsValid, Ran, Linked, Keys, Closed, Signals, Rejections, Baseline, Undecided, Admissible;
    session := new Session(setup, NO_STATS);
    ghost var empty := session.Contents();
    EmptyIsLinked(empty);
    session.Run(feeds);
    RanKeepsLinks(setup, NO_STATS, feeds, empty, session.Contents(), {});
    assert {} + Fed(feeds) == Fed(feeds);
    c := DerivedCounts(session.lifecycle);
    TotalsBalance(session.lifecycle, Fed(feeds), Undecided(feeds));
    LinkedTotals(setup, session.Contents(), Fed(feeds), c);
  }

  lemma LinkedTotals(setup: Setup, b: Book, seen: set<SignalId>, c: Counts)
    requires Linked(NO_STATS, b, seen) && StatsValid(setup, b.stats) && c == DerivedCounts(b.lifecycle)
    ensures |Keys(b.lifecycle, WAITING_ENTRY_ZONE)| == |b.candidates|
    ensures c.openAtEnd == |b.openRows| && c.tpHits + c.slHits == |b.stats.outcomes|
    ensures Guarded(setup.limits) ==> forall day :: Baseline(b.candidates, day) <= AtLeastZero(setup.limits.perDay)
  {
    hide Keys, Closed, DaysAddUp, StreaksAreTrailing, Waiting, Baseline;
  }
}
