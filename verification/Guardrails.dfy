/** What the judgement of a signal lets through and what it blames, told by the raw fields, limits and
    counters, for one turn and over whole runs. */
module Guardrails {
  import opened Options
  import opened Market
  import opened TradeSimulation
  import opened Lifecycle
  import opened BacktestRun
  import Symbols

  // ---------- The context ----------

  ghost predicate Says(text: string, word: string) {
    exists before, after :: text == before + word + after
  }

  lemma {:induction false} ContainsSays(text: string, word: string) returns (before: string, after: string)
    requires Contains(text, word)
    ensures text == before + word + after
  {
    if text[..|word|] == word {
      before, after := [], text[|word|..];
      assert text == text[..|word|] + after;
    } else {
      before, after := ContainsSays(text[1..], word);
      before := [text[0]] + before;
      assert text == [text[0]] + text[1..];
    }
  }

  lemma {:induction false} SaysContains(before: string, word: string, after: string)
    ensures Contains(before + word + after, word)
  {
    var text := before + word + after;
    if before == [] {
      assert word <= text;
    } else {
      SaysContains(before[1..], word, after);
      assert text[1..] == before[1..] + word + after;
    }
  }

  lemma ContainsIsSays(text: string, word: string)
    ensures Contains(text, word) <==> Says(text, word)
  {
    hide Contains;
    if Contains(text, word) {
      var before, after := ContainsSays(text, word);
    }
    if Says(text, word) {
      var before, after :| text == before + word + after;
      SaysContains(before, word, after);
    }
  }

  /** The context is one of high volatility exactly when the three regime names, put together in capitals, say
      HIGH, VOL or BREAKOUT somewhere. */
  lemma HighVolExactly(f: Feed)
    ensures var text := Symbols.Upper(f.candidate.regime + " " + f.marketRegime + " " + f.volatilityRegime);
            HighVol(f) <==> Says(text, "HIGH") || Says(text, "VOL") || Says(text, "BREAKOUT")
  {
    hide Contains, Says;
    var text := Symbols.Upper(f.candidate.regime + " " + f.marketRegime + " " + f.volatilityRegime);
    ContainsIsSays(text, "HIGH");
    ContainsIsSays(text, "VOL");
    ContainsIsSays(text, "BREAKOUT");
  }

  /** A breakout regime is always a context of high volatility. */
  lemma BreakoutIsHighVol(f: Feed)
    requires Symbols.Upper(f.candidate.regime) == "BREAKOUT"
    ensures HighVol(f)
  {
    HighVolExactly(f);
    var rest := " " + f.marketRegime + " " + f.volatilityRegime;
    assert f.candidate.regime + " " + f.marketRegime + " " + f.volatilityRegime == f.candidate.regime + rest;
    Symbols.UpperAppend(f.candidate.regime, rest);
    var before: string := [];
    assert before + "BREAKOUT" == "BREAKOUT";
    assert Symbols.Upper(f.candidate.regime + rest) == before + "BREAKOUT" + Symbols.Upper(rest);
  }

  // ---------- One turn ----------

  /** The timestamp in milliseconds lies on this day. */
  predicate LiesOn(timestamp: int, day: int) {
    day * 86400000 <= timestamp < (day + 1) * 86400000
  }

  lemma DayIsWhereItLies(timestamp: int, day: int)
    ensures DayOf(timestamp) == day <==> LiesOn(timestamp, day)
  {
  }

  /** The counter is below its cap; a missing one stands at zero. */
  predicate Room<K>(m: map<K, nat>, k: K, cap: int) {
    if k in m then m[k] < cap else 0 < cap
  }

  /** Selector, scanner, costs and portfolio have let the signal through. */
  predicate Cleared(f: Feed) {
    f.selector == None && f.scan == Executable && f.flags == [] && f.portfolio == None
  }

  predicate DayOpen(cfg: Limits, s: Stats, day: int) {
    s.consecutiveSl < cfg.pauseAfter && Room(s.daily, day, cfg.perDay)
  }

  predicate SymbolOpen(cfg: Limits, s: Stats, f: Feed, day: int) {
    && Room(s.symbolDaily, SymbolDay(f.candidate.signal.symbol, day), cfg.perSymbolDay)
    && Room(s.regimeDaily, RegimeDay(f.candidate.signal.symbol, Symbols.Upper(f.candidate.regime), day), cfg.perSymbolRegimeDay)
  }

  /** The guard of volatile contexts applies. */
  predicate Volatile(cfg: Limits, f: Feed) {
    cfg.highVolGuard && HighVol(f)
  }

  predicate Saturated(cfg: Limits, f: Feed) {
    cfg.saturationGuard && f.candidate.score >= cfg.saturatedScore
  }

  /** What a volatile signal must offer. */
  predicate FitsVolatility(cfg: Limits, f: Feed) {
    f.cost <= cfg.highVolMaxCost && f.effectiveRr >= cfg.highVolMinRr && !f.softened
  }

  /** What a saturated score must come with. Of the two regimes that the code names only this one passes, since
      the other is volatile by its name. */
  predicate FitsSaturation(cfg: Limits, f: Feed) {
    && f.effectiveRr >= cfg.saturatedMinRr && f.cost <= cfg.saturatedMaxCost
    && Symbols.Upper(f.candidate.regime) == "TREND" && !HighVol(f)
  }

  /** Whatever the counters say. */
  predicate Vetted(cfg: Limits, f: Feed) {
    (Volatile(cfg, f) ==> FitsVolatility(cfg, f)) && (Saturated(cfg, f) ==> FitsSaturation(cfg, f))
  }

  predicate Open(cfg: Limits, s: Stats, f: Feed, day: int) {
    DayOpen(cfg, s, day) && SymbolOpen(cfg, s, f, day) && (Volatile(cfg, f) ==> Room(s.highVolDaily, day, cfg.highVolPerDay))
  }

  lemma SaturationIsJudged(cfg: Limits, f: Feed)
    ensures FitsSaturation(cfg, f)
            <==> !(f.effectiveRr < cfg.saturatedMinRr || Symbols.Upper(f.candidate.regime) !in {"TREND", "BREAKOUT"}
                   || HighVol(f) || f.cost > cfg.saturatedMaxCost)
  {
    if Symbols.Upper(f.candidate.regime) == "BREAKOUT" {
      BreakoutIsHighVol(f);
    }
  }

  /** A signal is taken up without a rescue exactly when all earlier stages cleared it and, under the guardrails,
      every counter has room and its quality fits. */
  lemma TakesUpExactly(setup: Setup, s: Stats, f: Feed, day: int)
    requires LiesOn(f.candidate.signal.timestamp, day)
    ensures Judged(setup, s, f) == TakeUp(false) <==>
              Cleared(f) && (setup.limits.enabled && !setup.limits.diagnostic ==> Open(setup.limits, s, f, day) && Vetted(setup.limits, f))
  {
    DayIsWhereItLies(f.candidate.signal.timestamp, day);
    SaturationIsJudged(setup.limits, f);
    hide HighVol, DayOf, Symbols.Upper, FitsSaturation;
  }

  predicate Blamed(setup: Setup, s: Stats, f: Feed, reason: string) {
    Judged(setup, s, f) == Refuse(SIGNAL_REJECTED, reason)
  }

  /** A guardrail's reason is given exactly when its own limit is violated and none of those before it. */
  lemma BlamesExactly(setup: Setup, s: Stats, f: Feed, day: int)
    requires LiesOn(f.candidate.signal.timestamp, day) && Cleared(f) && setup.limits.enabled && !setup.limits.diagnostic
    ensures var cfg := setup.limits;
            var fits := Open(cfg, s, f, day);
            && (Blamed(setup, s, f, "LOSS_STREAK_PAUSE") <==> s.consecutiveSl >= cfg.pauseAfter)
            && (Blamed(setup, s, f, "DAILY_TRADE_FREQUENCY_GUARD") <==> s.consecutiveSl < cfg.pauseAfter && !Room(s.daily, day, cfg.perDay))
            && (Blamed(setup, s, f, "SYMBOL_CLUSTER_GUARD") <==> DayOpen(cfg, s, day) && !SymbolOpen(cfg, s, f, day))
            && (Blamed(setup, s, f, "HIGH_VOL_OVERTRADE") <==>
                  DayOpen(cfg, s, day) && SymbolOpen(cfg, s, f, day) && Volatile(cfg, f) && !Room(s.highVolDaily, day, cfg.highVolPerDay))
            && (Blamed(setup, s, f, "HIGH_VOL_EXECUTION_COST") <==> fits && Volatile(cfg, f) && f.cost > cfg.highVolMaxCost)
            && (Blamed(setup, s, f, "HIGH_VOL_GUARD") <==>
                  fits && Volatile(cfg, f) && f.cost <= cfg.highVolMaxCost && (f.effectiveRr < cfg.highVolMinRr || f.softened))
            && (Blamed(setup, s, f, "SCORE_SATURATION_GUARD") <==>
                  fits && (Volatile(cfg, f) ==> FitsVolatility(cfg, f)) && Saturated(cfg, f) && !FitsSaturation(cfg, f))
  {
    DayIsWhereItLies(f.candidate.signal.timestamp, day);
    SaturationIsJudged(setup.limits, f);
    hide HighVol, DayOf, Symbols.Upper, FitsSaturation;
    ReasonsDiffer();
  }

  lemma ReasonsDiffer()
    ensures |"LOSS_STREAK_PAUSE"| == 17 && |"DAILY_TRADE_FREQUENCY_GUARD"| == 27 && |"SYMBOL_CLUSTER_GUARD"| == 20
    ensures |"HIGH_VOL_OVERTRADE"| == 18 && |"HIGH_VOL_EXECUTION_COST"| == 23 && |"HIGH_VOL_GUARD"| == 14
    ensures |"SCORE_SATURATION_GUARD"| == 22
  {
  }

  /** Selector, scanner, costs and portfolio are heard in this order, each giving its own reason; a rescue lane
      answers the scanner and the costs only. */
  lemma EarlierStagesExactly(setup: Setup, s: Stats, f: Feed)
    requires !Cleared(f)
    ensures var rescued := setup.rescue && f.rescuable;
            Judged(setup, s, f) ==
            if f.selector != None then Refuse(SYMBOL_REJECTED, f.selector.value)
            else match f.scan
                 case Neither => Ignore
                 case Refused(reason) => if rescued then TakeUp(true) else Refuse(SIGNAL_REJECTED, reason)
                 case Executable =>
                   if f.flags == [] then Refuse(SIGNAL_REJECTED, f.portfolio.value)
                   else if rescued then TakeUp(true) else Refuse(ORDER_REJECTED, f.flags[0])
  {
  }

  // ---------- Whole runs ----------

  /** A candidate of a run comes from a turn that was entitled to take it up. */
  ghost predicate Entitled(setup: Setup, f: Feed, c: Candidate) {
    && c == f.candidate.(rescued := c.rescued)
    && if c.rescued then setup.rescue && f.rescuable && f.selector == None && (f.scan.Refused? || (f.scan.Executable? && f.flags != []))
       else Cleared(f) && (setup.limits.enabled && !setup.limits.diagnostic ==> Vetted(setup.limits, f))
  }

  /** A refusal of a run comes from a turn that gives its reason. */
  ghost predicate Warranted(setup: Setup, f: Feed, r: Refusal) {
    && r.signal == f.candidate.signal
    && if !Cleared(f) then (f.selector == Some(r.reason) && r.state.SYMBOL_REJECTED?)
                           || (f.scan == Refused(r.reason) && r.state.SIGNAL_REJECTED?)
                           || (f.flags != [] && f.flags[0] == r.reason && r.state.ORDER_REJECTED?)
                           || (f.portfolio == Some(r.reason) && r.state.SIGNAL_REJECTED?)
       else r.state.SIGNAL_REJECTED? && setup.limits.enabled && !setup.limits.diagnostic && Explained(setup.limits, f, r.reason)
  }

  /** What a reason about a signal's quality says of it. */
  predicate Explained(cfg: Limits, f: Feed, reason: string) {
    && (reason == "HIGH_VOL_EXECUTION_COST" ==> Volatile(cfg, f) && f.cost > cfg.highVolMaxCost)
    && (reason == "HIGH_VOL_GUARD" ==> Volatile(cfg, f) && (f.effectiveRr < cfg.highVolMinRr || f.softened))
    && (reason == "SCORE_SATURATION_GUARD" ==> Saturated(cfg, f) && !FitsSaturation(cfg, f))
    && (reason == "HIGH_VOL_OVERTRADE" ==> Volatile(cfg, f))
  }

  ghost predicate AllEntitled(setup: Setup, feeds: seq<Feed>, before: seq<Candidate>, after: seq<Candidate>) {
    && before <= after
    && forall j :: |before| <= j < |after| ==> exists k :: 0 <= k < |feeds| && Entitled(setup, feeds[k], after[j])
  }

  ghost predicate AllWarranted(setup: Setup, feeds: seq<Feed>, before: seq<Refusal>, after: seq<Refusal>) {
    && before <= after
    && forall j :: |before| <= j < |after| ==> exists k :: 0 <= k < |feeds| && Warranted(setup, feeds[k], after[j])
  }

  lemma EntitledMore(setup: Setup, init: seq<Feed>, last: Feed, before: seq<Candidate>, middle: seq<Candidate>, c: Candidate)
    requires AllEntitled(setup, init, before, middle)
    ensures AllEntitled(setup, init + [last], before, middle)
    ensures Entitled(setup, last, c) ==> AllEntitled(setup, init + [last], before, middle + [c])
  {
    hide Entitled;
    var feeds := init + [last];
    forall j | |before| <= j < |middle| ensures exists k :: 0 <= k < |feeds| && Entitled(setup, feeds[k], middle[j]) {
      var k :| 0 <= k < |init| && Entitled(setup, init[k], middle[j]);
      assert feeds[k] == init[k];
    }
    assert feeds[|init|] == last;
    assert forall j :: 0 <= j < |middle| ==> (middle + [c])[j] == middle[j];
  }

  lemma WarrantedMore(setup: Setup, init: seq<Feed>, last: Feed, before: seq<Refusal>, middle: seq<Refusal>, r: Refusal)
    requires AllWarranted(setup, init, before, middle)
    ensures AllWarranted(setup, init + [last], before, middle)
    ensures Warranted(setup, last, r) ==> AllWarranted(setup, init + [last], before, middle + [r])
  {
    hide Warranted;
    var feeds := init + [last];
    forall j | |before| <= j < |middle| ensures exists k :: 0 <= k < |feeds| && Warranted(setup, feeds[k], middle[j]) {
      var k :| 0 <= k < |init| && Warranted(setup, init[k], middle[j]);
      assert feeds[k] == init[k];
    }
    assert feeds[|init|] == last;
    assert forall j :: 0 <= j < |middle| ==> (middle + [r])[j] == middle[j];
  }

  lemma TurnEntitles(setup: Setup, s: Stats, f: Feed, j: Judgement)
    requires j == Judged(setup, s, f)
    ensures j.TakeUp? ==> Entitled(setup, f, f.candidate.(rescued := j.rescued))
    ensures j.Refuse? ==> Warranted(setup, f, Refusal(f.candidate.signal, j.state, j.reason))
  {
    var day := DayOf(f.candidate.signal.timestamp);
    DayIsWhereItLies(f.candidate.signal.timestamp, day);
    if Cleared(f) {
      TakesUpExactly(setup, s, f, day);
      if setup.limits.enabled && !setup.limits.diagnostic {
        BlamesExactly(setup, s, f, day);
      }
      hide GuardReason, Vetted, Open, DayOf, HighVol, FitsSaturation;
    } else {
      EarlierStagesExactly(setup, s, f);
      hide Judged, Vetted;
    }
  }

  lemma LedKeepsEntitled(setup: Setup, init: seq<Feed>, last: Feed, start: Book, b: Book, r: Result, b': Book)
    requires Led(setup, b, last, r, b')
    requires AllEntitled(setup, init, start.candidates, b.candidates) && AllWarranted(setup, init, start.rejected, b.rejected)
    ensures AllEntitled(setup, init + [last], start.candidates, b'.candidates)
    ensures AllWarranted(setup, init + [last], start.rejected, b'.rejected)
  {
    hide FirstTouch, Rows, StatsAfter, AllEntitled, AllWarranted, Entitled, Warranted, Judged, Get;
    var j := Judged(setup, b.stats, last);
    TurnEntitles(setup, b.stats, last, j);
    var c := last.candidate.(rescued := j == TakeUp(true));
    var refusal := if j.Refuse? then Refusal(last.candidate.signal, j.state, j.reason) else Refusal(last.candidate.signal, SIGNAL_REJECTED, []);
    EntitledMore(setup, init, last, start.candidates, b.candidates, c);
    WarrantedMore(setup, init, last, start.rejected, b.rejected, refusal);
  }

  /** Over every run: what was taken up came from a turn that all stages had cleared and whose quality fits, or
      that a rescue lane may take; what was refused came from a turn that gives its reason. */
  lemma {:induction false} RanVets(setup: Setup, feeds: seq<Feed>, b: Book, b': Book)
    requires Ran(setup, feeds, b, b')
    ensures AllEntitled(setup, feeds, b.candidates, b'.candidates) && AllWarranted(setup, feeds, b.rejected, b'.rejected)
    decreases |feeds|
  {
    hide Led;
    if feeds != [] {
      var init, last := feeds[..|feeds| - 1], feeds[|feeds| - 1];
      var m, r :| Ran(setup, init, b, m) && Led(setup, m, last, r, b');
      RanVets(setup, init, b, m);
      LedKeepsEntitled(setup, init, last, b, m, r, b');
      assert feeds == init + [last];
    }
  }

  // ---------- Counters and streaks ----------

  /** A list of outcomes ends in exactly `n` of one kind. */
  ghost predicate EndsIn(outcomes: seq<bool>, n: nat, win: bool) {
    && n <= |outcomes| && (forall i :: |outcomes| - n <= i < |outcomes| ==> outcomes[i] == win)
    && (n < |outcomes| ==> outcomes[|outcomes| - n - 1] != win)
  }

  lemma {:induction false} TrailingEnds(outcomes: seq<bool>, win: bool)
    ensures EndsIn(outcomes, Trailing(outcomes, win), win)
  {
    if outcomes != [] && outcomes[|outcomes| - 1] == win {
      var init := outcomes[..|outcomes| - 1];
      TrailingEnds(init, win);
      assert forall i :: 0 <= i < |init| ==> outcomes[i] == init[i];
    }
  }

  predicate Capped<K>(m: map<K, nat>, cap: int) {
    forall k :: k in m ==> m[k] == 0 || m[k] <= cap
  }

  /** The counters within their caps and the streaks those of the outcomes, by the raw numbers. */
  ghost predicate InLimits(setup: Setup, s: Stats) {
    var cfg := setup.limits;
    && EndsIn(s.outcomes, s.consecutiveSl, false) && EndsIn(s.outcomes, s.consecutiveTp, true)
    && (cfg.enabled && !cfg.diagnostic ==>
          && Capped(s.daily, cfg.perDay) && Capped(s.symbolDaily, cfg.perSymbolDay) && Capped(s.regimeDaily, cfg.perSymbolRegimeDay)
          && (cfg.highVolGuard ==> Capped(s.highVolDaily, cfg.highVolPerDay))
          && (!setup.rescue ==> s.consecutiveSl == 0 || s.consecutiveSl <= cfg.pauseAfter))
  }

  lemma BelowIsCapped<K(!new)>(m: map<K, nat>, cap: int)
    requires Below(m, cap)
    ensures Capped(m, cap)
  {
    forall k | k in m ensures m[k] == 0 || m[k] <= cap {
      assert Get(m, k) == m[k];
    }
  }

  lemma ValidIsInLimits(setup: Setup, s: Stats)
    requires StatsValid(setup, s)
    ensures InLimits(setup, s)
  {
    hide DaysAddUp, Below, Capped, Trailing, EndsIn;
    TrailingEnds(s.outcomes, false);
    TrailingEnds(s.outcomes, true);
    var cfg := setup.limits;
    if cfg.enabled && !cfg.diagnostic {
      BelowIsCapped(s.daily, cfg.perDay);
      BelowIsCapped(s.symbolDaily, cfg.perSymbolDay);
      BelowIsCapped(s.regimeDaily, cfg.perSymbolRegimeDay);
      if cfg.highVolGuard {
        BelowIsCapped(s.highVolDaily, cfg.highVolPerDay);
      }
    }
  }

  lemma RecordedKeepsStreak(cfg: Limits, s: Stats, f: Feed)
    requires GuardReason(cfg, s, f) == None && Guarded(cfg)
    ensures s.consecutiveSl < cfg.pauseAfter && Recorded(s, f).consecutiveSl == s.consecutiveSl
  {
    hide HighVol, DayOf, Get;
  }

  lemma LedKeepsStats(setup: Setup, b: Book, f: Feed, r: Result, b': Book)
    requires Led(setup, b, f, r, b') && StatsValid(setup, b.stats)
    ensures StatsValid(setup, b'.stats)
  {
    hide StatsValid, FirstTouch, Rows, GuardReason, Recorded, AfterClose;
    var j := Judged(setup, b.stats, f);
    if j.TakeUp? {
      var counted := if j.rescued then b.stats else Recorded(b.stats, f);
      if !j.rescued {
        RecordedKeepsValid(setup, b.stats, f);
        if Guarded(setup.limits) {
          RecordedKeepsStreak(setup.limits, b.stats, f);
        }
      }
      hide Judged;
      if !r.outcome.NotTriggered? {
        AfterCloseKeepsValid(setup, counted, ReasonOf(r.outcome));
      }
    }
  }

  lemma {:induction false} RanKeepsStats(setup: Setup, feeds: seq<Feed>, b: Book, b': Book)
    requires Ran(setup, feeds, b, b') && StatsValid(setup, b.stats)
    ensures StatsValid(setup, b'.stats)
    decreases |feeds|
  {
    hide Led, StatsValid;
    if feeds != [] {
      var init, last := feeds[..|feeds| - 1], feeds[|feeds| - 1];
      var m, r :| Ran(setup, init, b, m) && Led(setup, m, last, r, b');
      RanKeepsStats(setup, init, b, m);
      LedKeepsStats(setup, m, last, r, b');
    }
  }

  /** Every run that starts without statistics ends with every counter within its cap and the streaks those of its
      outcomes. */
  lemma RunStaysInLimits(setup: Setup, feeds: seq<Feed>, b: Book, b': Book)
    requires Ran(setup, feeds, b, b') && b.stats == NO_STATS
    ensures InLimits(setup, b'.stats)
  {
    NoStatsIsValid(setup);
    RanKeepsStats(setup, feeds, b, b');
    ValidIsInLimits(setup, b'.stats);
  }

  /** A loss streak at its cap, with the guardrails on and no rescue lane, ends the taking up of signals for good. */
  lemma {:induction false} PauseLasts(setup: Setup, feeds: seq<Feed>, b: Book, b': Book)
    requires Ran(setup, feeds, b, b')
    requires setup.limits.enabled && !setup.limits.diagnostic && !setup.rescue && b.stats.consecutiveSl >= setup.limits.pauseAfter
    ensures b'.candidates == b.candidates && b'.stats == b.stats
    decreases |feeds|
  {
    hide Led;
    if feeds != [] {
      var init, last := feeds[..|feeds| - 1], feeds[|feeds| - 1];
      var m, r :| Ran(setup, init, b, m) && Led(setup, m, last, r, b');
      PauseLasts(setup, init, b, m);
      PausedTurn(setup, m, last, r, b');
    }
  }

  lemma PausedTurn(setup: Setup, b: Book, f: Feed, r: Result, b': Book)
    requires Led(setup, b, f, r, b')
    requires setup.limits.enabled && !setup.limits.diagnostic && !setup.rescue && b.stats.consecutiveSl >= setup.limits.pauseAfter
    ensures b'.candidates == b.candidates && b'.stats == b.stats
  {
    hide FirstTouch, Rows, StatsAfter, HighVol, DayOf, Get;
  }
}
