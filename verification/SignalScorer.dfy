/** The deterministic signal score and its acceptance gate (`AIBrain.score_signal`). */
module SignalScorer {

  /** The numbers a signal is scored from, after the defaults for missing ones are filled in. */
  datatype Inputs = Inputs(
    setupQuality: real, alignment: real, momentum: real, liquidity: real, volatilityFit: real, riskReward: real,
    setupStat: real, regimeStat: real, symbolStat: real, sampleSize: real, lossStreak: real,
    spread: real, slippage: real, latency: real, funding: real, fundingPct: real, fakeout: real)

  /** The limits that the costs are measured against. */
  datatype Limits = Limits(spread: real, slippage: real, latency: real, funding: real, fundingPct: real)

  // ---------- The parts of the score ----------

  function Clip(x: real): (r: real)
    ensures 0.0 <= r <= 1.0
  {
    if x < 0.0 then 0.0 else if x > 1.0 then 1.0 else x
  }

  function Max(a: real, b: real): real {
    if a > b then a else b
  }

  function Abs(x: real): real {
    if x < 0.0 then -x else x
  }

  /** The product of two scores, named so that proofs can keep it folded. */
  function Times(a: real, b: real): real {
    a * b
  }

  /** A cost as a share of its limit, which is at least `least`. */
  function Share(cost: real, limit: real, least: real): real
    requires least > 0.0
  {
    Clip(cost / Max(limit, least))
  }

  function SpreadPenalty(i: Inputs, l: Limits): real { Share(i.spread, l.spread, 1.0) }
  function SlippagePenalty(i: Inputs, l: Limits): real { Share(i.slippage, l.slippage, 0.00000001) }
  function LatencyPenalty(i: Inputs, l: Limits): real { Share(i.latency, l.latency, 1.0) }
  function FundingPenalty(i: Inputs, l: Limits): real { Share(Abs(i.funding), l.funding, 0.00000001) }
  function FundingExecPenalty(i: Inputs, l: Limits): real { Share(Abs(i.fundingPct), l.fundingPct, 0.00000001) }
  function LossPenalty(i: Inputs): real { Clip(Max(0.0, i.lossStreak) / 5.0) }
  function RewardQuality(i: Inputs): real { Clip((i.riskReward - 0.8) / 2.2) }
  function Edge(i: Inputs): real { Clip(((i.setupStat + i.regimeStat + i.symbolStat) / 3.0 + 1.0) / 2.0) }

  function Execution(i: Inputs, l: Limits): real {
    Clip(0.55 * Clip(i.liquidity) + 0.20 * (1.0 - SpreadPenalty(i, l)) + 0.15 * (1.0 - SlippagePenalty(i, l))
         + 0.10 * (1.0 - LatencyPenalty(i, l)))
  }

  function SampleSize(i: Inputs): int { Max(0.0, i.sampleSize).Floor }

  function Trigger(i: Inputs): real {
    Clip(0.50 * Clip(i.momentum) + 0.30 * Clip(i.volatilityFit) + 0.20 * Clip(i.setupQuality))
  }

  function Fakeout(i: Inputs): real {
    Clip(0.60 * Clip(i.fakeout) + 0.25 * (1.0 - Clip(i.momentum)) + 0.15 * (1.0 - Clip(i.volatilityFit)))
  }

  function Win(i: Inputs, l: Limits): real {
    Clip(0.26 * Clip(i.setupQuality) + 0.16 * Clip(i.alignment) + 0.13 * Clip(i.liquidity) + 0.10 * Clip(i.volatilityFit)
         + 0.16 * Execution(i, l) + 0.12 * Edge(i) + 0.07 * RewardQuality(i) - 0.12 * Fakeout(i))
  }

  function TakeProfit(i: Inputs, l: Limits): real { Clip(Times(Win(i, l), Clip(0.55 + 0.45 * RewardQuality(i)))) }
  function StopLoss(i: Inputs, l: Limits): real { Clip(1.0 - Win(i, l) + 0.25 * Fakeout(i)) }

  function Confidence(i: Inputs): real {
    Clip(0.45 * Clip(SampleSize(i) as real / 100.0) + 0.25 * Clip(i.setupQuality) + 0.20 * Clip(i.alignment)
         + 0.10 * Clip(i.liquidity))
  }

  function AfterCosts(i: Inputs, l: Limits): real {
    Times(TakeProfit(i, l), Max(i.riskReward, 0.0)) - StopLoss(i, l)
    - (SpreadPenalty(i, l) * 0.35 + SlippagePenalty(i, l) * 0.35 + LatencyPenalty(i, l) * 0.30)
  }

  function Likelihood(i: Inputs, l: Limits): real {
    0.45 * Win(i, l) + 0.20 * Trigger(i) + 0.15 * Clip(i.alignment) + 0.20 * Execution(i, l)
  }

  function Calibrated(i: Inputs, l: Limits): real {
    Clip(Times(Likelihood(i, l), Confidence(i)) - 0.20 * Fakeout(i))
  }

  function Weighted(i: Inputs, l: Limits): real {
    Clip(i.setupQuality) * 0.18 + Clip(i.alignment) * 0.14 + Edge(i) * 0.20 + Clip(i.momentum) * 0.12
    + Clip(i.liquidity) * 0.10 + Clip(i.volatilityFit) * 0.10 + RewardQuality(i) * 0.16
    - SpreadPenalty(i, l) * 0.08 - FundingPenalty(i, l) * 0.04 - Clip(i.fakeout) * 0.07 - LossPenalty(i) * 0.06
    - SlippagePenalty(i, l) * 0.08 - LatencyPenalty(i, l) * 0.04 - FundingExecPenalty(i, l) * 0.04
  }

  function Total(i: Inputs, l: Limits): real {
    Clip(Weighted(i, l) * 0.4 + Calibrated(i, l) * 0.6)
  }

  predicate Accepted(i: Inputs, l: Limits, minScore: real) {
    && Total(i, l) >= minScore
    && Edge(i) >= 0.5
    && Win(i, l) >= 0.45
    && Execution(i, l) >= 0.50
    && Confidence(i) >= 0.35
    && AfterCosts(i, l) > 0.0
    && Fakeout(i) <= 0.60
  }

  // ---------- Acceptance is monotone ----------

  /** No quality is lower and no cost or risk is higher. */
  predicate NoWorse(a: Inputs, b: Inputs) {
    && a.setupQuality <= b.setupQuality && a.alignment <= b.alignment && a.momentum <= b.momentum
    && a.liquidity <= b.liquidity && a.volatilityFit <= b.volatilityFit && a.riskReward <= b.riskReward
    && a.setupStat <= b.setupStat && a.regimeStat <= b.regimeStat && a.symbolStat <= b.symbolStat
    && a.sampleSize <= b.sampleSize && a.lossStreak >= b.lossStreak
    && a.spread >= b.spread && a.slippage >= b.slippage && a.latency >= b.latency
    && Abs(a.funding) >= Abs(b.funding) && Abs(a.fundingPct) >= Abs(b.fundingPct) && a.fakeout >= b.fakeout
  }

  lemma ClipGrows(x: real, y: real)
    requires x <= y
    ensures Clip(x) <= Clip(y)
  {
  }

  lemma DivisionGrows(x: real, y: real, d: real)
    requires x <= y && d > 0.0
    ensures x / d <= y / d
  {
    assert (y - x) / d >= 0.0;
    assert y / d - x / d == (y - x) / d;
  }

  lemma ShareGrows(x: real, y: real, limit: real, least: real)
    requires x <= y && least > 0.0
    ensures Share(x, limit, least) <= Share(y, limit, least)
  {
    DivisionGrows(x, y, Max(limit, least));
  }

  lemma ProductGrows(a: real, b: real, c: real, d: real)
    requires 0.0 <= a <= b && 0.0 <= c <= d
    ensures 0.0 <= Times(a, c) <= Times(b, d)
  {
    assert b * d - a * c == (b - a) * d + a * (d - c);
  }

  lemma PenaltiesShrink(a: Inputs, b: Inputs, l: Limits)
    requires NoWorse(a, b)
    ensures SpreadPenalty(a, l) >= SpreadPenalty(b, l) && SlippagePenalty(a, l) >= SlippagePenalty(b, l)
    ensures LatencyPenalty(a, l) >= LatencyPenalty(b, l) && LossPenalty(a) >= LossPenalty(b)
    ensures FundingPenalty(a, l) >= FundingPenalty(b, l) && FundingExecPenalty(a, l) >= FundingExecPenalty(b, l)
  {
    hide Share;
    ShareGrows(b.spread, a.spread, l.spread, 1.0);
    ShareGrows(b.slippage, a.slippage, l.slippage, 0.00000001);
    ShareGrows(b.latency, a.latency, l.latency, 1.0);
    ShareGrows(Abs(b.funding), Abs(a.funding), l.funding, 0.00000001);
    ShareGrows(Abs(b.fundingPct), Abs(a.fundingPct), l.fundingPct, 0.00000001);
  }

  lemma QualitiesGrow(a: Inputs, b: Inputs)
    requires NoWorse(a, b)
    ensures Clip(a.setupQuality) <= Clip(b.setupQuality) && Clip(a.alignment) <= Clip(b.alignment)
    ensures Clip(a.momentum) <= Clip(b.momentum) && Clip(a.liquidity) <= Clip(b.liquidity)
    ensures Clip(a.volatilityFit) <= Clip(b.volatilityFit) && Clip(a.fakeout) >= Clip(b.fakeout)
    ensures RewardQuality(a) <= RewardQuality(b) && Edge(a) <= Edge(b)
  {
  }

  lemma ProbabilitiesGrow(a: Inputs, b: Inputs, l: Limits)
    requires NoWorse(a, b)
    ensures Execution(a, l) <= Execution(b, l) && Trigger(a) <= Trigger(b) && Fakeout(a) >= Fakeout(b)
  {
    PenaltiesShrink(a, b, l);
    QualitiesGrow(a, b);
    hide Clip;
    hide SpreadPenalty;
    hide SlippagePenalty;
    hide LatencyPenalty;
    ClipGrows(0.55 * Clip(a.liquidity) + 0.20 * (1.0 - SpreadPenalty(a, l)) + 0.15 * (1.0 - SlippagePenalty(a, l))
              + 0.10 * (1.0 - LatencyPenalty(a, l)),
              0.55 * Clip(b.liquidity) + 0.20 * (1.0 - SpreadPenalty(b, l)) + 0.15 * (1.0 - SlippagePenalty(b, l))
              + 0.10 * (1.0 - LatencyPenalty(b, l)));
    ClipGrows(0.50 * Clip(a.momentum) + 0.30 * Clip(a.volatilityFit) + 0.20 * Clip(a.setupQuality),
              0.50 * Clip(b.momentum) + 0.30 * Clip(b.volatilityFit) + 0.20 * Clip(b.setupQuality));
    ClipGrows(0.60 * Clip(b.fakeout) + 0.25 * (1.0 - Clip(b.momentum)) + 0.15 * (1.0 - Clip(b.volatilityFit)),
              0.60 * Clip(a.fakeout) + 0.25 * (1.0 - Clip(a.momentum)) + 0.15 * (1.0 - Clip(a.volatilityFit)));
  }

  function WinSum(i: Inputs, l: Limits): real {
    0.26 * Clip(i.setupQuality) + 0.16 * Clip(i.alignment) + 0.13 * Clip(i.liquidity) + 0.10 * Clip(i.volatilityFit)
    + 0.16 * Execution(i, l) + 0.12 * Edge(i) + 0.07 * RewardQuality(i) - 0.12 * Fakeout(i)
  }

  lemma WinGrows(a: Inputs, b: Inputs, l: Limits)
    requires NoWorse(a, b)
    ensures Win(a, l) <= Win(b, l)
  {
    QualitiesGrow(a, b);
    ProbabilitiesGrow(a, b, l);
    hide Clip;
    hide Execution;
    hide Edge;
    hide RewardQuality;
    hide Fakeout;
    ClipGrows(WinSum(a, l), WinSum(b, l));
  }

  lemma ConfidenceGrows(a: Inputs, b: Inputs)
    requires NoWorse(a, b)
    ensures Confidence(a) <= Confidence(b)
  {
    QualitiesGrow(a, b);
    assert SampleSize(a) <= SampleSize(b);
    DivisionGrows(SampleSize(a) as real, SampleSize(b) as real, 100.0);
    ClipGrows(SampleSize(a) as real / 100.0, SampleSize(b) as real / 100.0);
    hide Clip;
    hide SampleSize;
    ClipGrows(0.45 * Clip(SampleSize(a) as real / 100.0) + 0.25 * Clip(a.setupQuality) + 0.20 * Clip(a.alignment)
              + 0.10 * Clip(a.liquidity),
              0.45 * Clip(SampleSize(b) as real / 100.0) + 0.25 * Clip(b.setupQuality) + 0.20 * Clip(b.alignment)
              + 0.10 * Clip(b.liquidity));
  }

  lemma ClippedProductGrows(p: real, q: real, x: real, y: real, f: real, g: real)
    requires 0.0 <= p <= q && 0.0 <= x <= y && f >= g
    ensures Clip(Times(p, x) - f) <= Clip(Times(q, y) - g)
  {
    hide Times;
    ProductGrows(p, q, x, y);
  }

  lemma TakeProfitGrows(a: Inputs, b: Inputs, l: Limits)
    requires NoWorse(a, b)
    ensures 0.0 <= TakeProfit(a, l) <= TakeProfit(b, l)
  {
    hide Times;
    QualitiesGrow(a, b);
    WinGrows(a, b, l);
    PartsArePositive(a, l);
    var x, y := Clip(0.55 + 0.45 * RewardQuality(a)), Clip(0.55 + 0.45 * RewardQuality(b));
    ClipGrows(0.55 + 0.45 * RewardQuality(a), 0.55 + 0.45 * RewardQuality(b));
    ClippedProductGrows(Win(a, l), Win(b, l), x, y, 0.0, 0.0);
    hide NoWorse;
    hide Win;
    hide RewardQuality;
    hide Clip;
    assert Times(Win(a, l), x) - 0.0 == Times(Win(a, l), x) && Times(Win(b, l), y) - 0.0 == Times(Win(b, l), y);
  }

  lemma StopLossShrinks(a: Inputs, b: Inputs, l: Limits)
    requires NoWorse(a, b)
    ensures StopLoss(a, l) >= StopLoss(b, l)
  {
    WinGrows(a, b, l);
    ProbabilitiesGrow(a, b, l);
    hide NoWorse;
    hide Win;
    hide Fakeout;
    ClipGrows(1.0 - Win(b, l) + 0.25 * Fakeout(b), 1.0 - Win(a, l) + 0.25 * Fakeout(a));
  }

  lemma AfterCostsGrows(a: Inputs, b: Inputs, l: Limits)
    requires NoWorse(a, b)
    ensures AfterCosts(a, l) <= AfterCosts(b, l)
  {
    hide Times;
    TakeProfitGrows(a, b, l);
    StopLossShrinks(a, b, l);
    PenaltiesShrink(a, b, l);
    var x, y := Max(a.riskReward, 0.0), Max(b.riskReward, 0.0);
    assert 0.0 <= x <= y;
    hide NoWorse;
    hide TakeProfit;
    hide StopLoss;
    hide SpreadPenalty;
    hide SlippagePenalty;
    hide LatencyPenalty;
    hide Max;
    ProductGrows(TakeProfit(a, l), TakeProfit(b, l), x, y);
  }

  lemma LikelihoodGrows(a: Inputs, b: Inputs, l: Limits)
    requires NoWorse(a, b)
    ensures 0.0 <= Likelihood(a, l) <= Likelihood(b, l)
  {
    QualitiesGrow(a, b);
    WinGrows(a, b, l);
    ProbabilitiesGrow(a, b, l);
    PartsArePositive(a, l);
    hide NoWorse;
    hide Win;
    hide Trigger;
    hide Execution;
    hide Clip;
  }

  lemma CalibratedGrows(a: Inputs, b: Inputs, l: Limits)
    requires NoWorse(a, b)
    ensures Calibrated(a, l) <= Calibrated(b, l)
  {
    hide Times;
    LikelihoodGrows(a, b, l);
    ConfidenceGrows(a, b);
    ProbabilitiesGrow(a, b, l);
    PartsArePositive(a, l);
    hide NoWorse;
    hide Likelihood;
    hide Confidence;
    hide Fakeout;
    hide Clip;
    ClippedProductGrows(Likelihood(a, l), Likelihood(b, l), Confidence(a), Confidence(b),
                        0.20 * Fakeout(a), 0.20 * Fakeout(b));
  }

  lemma PartsArePositive(i: Inputs, l: Limits)
    ensures 0.0 <= Win(i, l) <= 1.0 && 0.0 <= Trigger(i) <= 1.0 && 0.0 <= Execution(i, l) <= 1.0
    ensures 0.0 <= Confidence(i) <= 1.0 && 0.0 <= Fakeout(i) <= 1.0
  {
    hide Clip;
  }

  lemma WeightedGrows(a: Inputs, b: Inputs, l: Limits)
    requires NoWorse(a, b)
    ensures Weighted(a, l) <= Weighted(b, l)
  {
    QualitiesGrow(a, b);
    PenaltiesShrink(a, b, l);
    hide Clip;
    hide Edge;
    hide RewardQuality;
    hide SpreadPenalty;
    hide SlippagePenalty;
    hide LatencyPenalty;
    hide FundingPenalty;
    hide FundingExecPenalty;
    hide LossPenalty;
  }

  lemma TotalGrows(a: Inputs, b: Inputs, l: Limits)
    requires NoWorse(a, b)
    ensures Total(a, l) <= Total(b, l)
  {
    WeightedGrows(a, b, l);
    CalibratedGrows(a, b, l);
    hide Weighted;
    hide Calibrated;
    ClipGrows(Weighted(a, l) * 0.4 + Calibrated(a, l) * 0.6, Weighted(b, l) * 0.4 + Calibrated(b, l) * 0.6);
  }

  /** Raising a cost or a risk never turns a rejected signal into an accepted one, and raising a quality
      never turns an accepted one into a rejected one. */
  lemma AcceptanceIsMonotone(a: Inputs, b: Inputs, l: Limits, minScore: real)
    requires NoWorse(a, b)
    ensures Accepted(a, l, minScore) ==> Accepted(b, l, minScore)
  {
    TotalGrows(a, b, l);
    QualitiesGrow(a, b);
    WinGrows(a, b, l);
    ProbabilitiesGrow(a, b, l);
    ConfidenceGrows(a, b);
    AfterCostsGrows(a, b, l);
    hide Total, Edge, Win, Execution, Confidence, AfterCosts, Fakeout, NoWorse;
  }

  // ---------- A signal without history ----------

  predicate NoHistory(i: Inputs) {
    i.setupStat == 0.0 && i.regimeStat == 0.0 && i.symbolStat == 0.0 && i.sampleSize <= 0.0
  }

  const BEST_WITHOUT_HISTORY := 0.68109

  /** The best signal there can be without history. */
  const IDEAL := Inputs(1.0, 1.0, 1.0, 1.0, 1.0, 3.0, 0.0, 0.0, 0.0, 0.0, 0.0, 0.0, 0.0, 0.0, 0.0, 0.0, 0.0)

  lemma WithoutHistory(i: Inputs, l: Limits)
    requires NoHistory(i)
    ensures Edge(i) == 0.5 && Confidence(i) <= 0.55 && Win(i, l) <= 0.94 && Weighted(i, l) <= 0.90
  {
    PartsArePositive(i, l);
    assert SampleSize(i) == 0;
    assert Edge(i) == 0.5;
    hide Execution;
    hide Fakeout;
    hide RewardQuality;
    hide Edge;
    hide Share;
    hide SampleSize;
  }

  /** Without history no score exceeds the bound, whatever the inputs and limits. */
  lemma NoHistoryBound(i: Inputs, l: Limits)
    requires NoHistory(i)
    ensures Total(i, l) <= BEST_WITHOUT_HISTORY
  {
    hide Times;
    WithoutHistory(i, l);
    PartsArePositive(i, l);
    hide Win;
    hide Trigger;
    hide Execution;
    hide Confidence;
    hide Fakeout;
    hide Weighted;
    assert 0.0 <= Likelihood(i, l) <= 0.973;
    hide Likelihood;
    BlendBound(Weighted(i, l), Likelihood(i, l), Confidence(i), 0.20 * Fakeout(i));
  }

  lemma BlendBound(weighted: real, likelihood: real, confidence: real, risk: real)
    requires weighted <= 0.90 && 0.0 <= likelihood <= 0.973 && 0.0 <= confidence <= 0.55 && risk >= 0.0
    ensures Clip(weighted * 0.4 + Clip(Times(likelihood, confidence) - risk) * 0.6) <= BEST_WITHOUT_HISTORY
  {
    ProductGrows(likelihood, 0.973, confidence, 0.55);
    assert Times(0.973, 0.55) == 0.53515;
  }

  lemma IdealScores(l: Limits)
    ensures NoHistory(IDEAL) && Total(IDEAL, l) == BEST_WITHOUT_HISTORY && Accepted(IDEAL, l, BEST_WITHOUT_HISTORY)
  {
  }

  /** A signal without history can be accepted exactly under thresholds up to the bound. */
  lemma FreshSignalsNeedLowThreshold(l: Limits, minScore: real)
    ensures (exists i :: NoHistory(i) && Accepted(i, l, minScore)) <==> minScore <= BEST_WITHOUT_HISTORY
  {
    if minScore <= BEST_WITHOUT_HISTORY {
      IdealScores(l);
      assert Accepted(IDEAL, l, minScore);
    } else {
      forall i | NoHistory(i) ensures !Accepted(i, l, minScore) {
        NoHistoryBound(i, l);
      }
    }
  }

  // ---------- The reported reason ----------

  datatype Reason =
    | LOW_SCORE | LOW_P_WIN | LOW_EXECUTION_PROBABILITY | LOW_CONFIDENCE | NEGATIVE_EXPECTANCY_AFTER_COSTS
    | HIGH_FAKEOUT_PROBABILITY | LOW_REGIME_FIT_PROBABILITY

  /** The first flag in a fixed order names the reason; without any of them it is the score. */
  function ReportedReason(i: Inputs, l: Limits): Reason {
    if Win(i, l) < 0.45 then LOW_P_WIN
    else if Execution(i, l) < 0.50 then LOW_EXECUTION_PROBABILITY
    else if Confidence(i) < 0.35 then LOW_CONFIDENCE
    else if AfterCosts(i, l) <= 0.0 then NEGATIVE_EXPECTANCY_AFTER_COSTS
    else if Fakeout(i) > 0.60 then HIGH_FAKEOUT_PROBABILITY
    else if Clip(i.alignment) < 0.45 then LOW_REGIME_FIT_PROBABILITY
    else LOW_SCORE
  }

  /** Repairing what a reason names is needed for acceptance. */
  predicate Blocks(reason: Reason, i: Inputs, l: Limits, minScore: real) {
    match reason
    case LOW_SCORE => Total(i, l) < minScore
    case LOW_P_WIN => Win(i, l) < 0.45
    case LOW_EXECUTION_PROBABILITY => Execution(i, l) < 0.50
    case LOW_CONFIDENCE => Confidence(i) < 0.35
    case NEGATIVE_EXPECTANCY_AFTER_COSTS => AfterCosts(i, l) <= 0.0
    case HIGH_FAKEOUT_PROBABILITY => Fakeout(i) > 0.60
    case LOW_REGIME_FIT_PROBABILITY => false
  }

  predicate OtherGatesPass(i: Inputs, l: Limits) {
    Win(i, l) >= 0.45 && Execution(i, l) >= 0.50 && Confidence(i) >= 0.35 && AfterCosts(i, l) > 0.0 && Fakeout(i) <= 0.60
  }

  /** A rejected signal is told something that blocks it, except when score or expectancy edge alone
      reject it and either the regime fit is low or the score was enough. */
  lemma ReasonBlocks(i: Inputs, l: Limits, minScore: real)
    requires !Accepted(i, l, minScore)
    ensures Blocks(ReportedReason(i, l), i, l, minScore)
            <==> !(OtherGatesPass(i, l) && (Clip(i.alignment) < 0.45 || Total(i, l) >= minScore))
  {
    hide Total;
    hide Win;
    hide Execution;
    hide Confidence;
    hide AfterCosts;
    hide Fakeout;
    hide Clip;
  }

  /** A well-scored signal with a negative history is rejected as one with a low score. */
  lemma EdgeIsReportedAsLowScore(l: Limits)
    ensures var i := IDEAL.(setupStat := -0.3, sampleSize := 100.0);
            !Accepted(i, l, 0.62) && ReportedReason(i, l) == LOW_SCORE && Total(i, l) > 0.9
  {
    var i := IDEAL.(setupStat := -0.3, sampleSize := 100.0);
    NoCosts(i, l);
    hide Share;
    assert Edge(i) == 0.45 && RewardQuality(i) == 1.0 && Fakeout(i) == 0.0 && Trigger(i) == 1.0;
    assert Execution(i, l) == 1.0 && Win(i, l) == 0.934 && SampleSize(i) == 100 && Confidence(i) == 1.0;
    hide Edge;
    hide RewardQuality;
    hide Fakeout;
    hide Trigger;
    hide Execution;
    hide Win;
    hide Confidence;
  }

  /** With a low regime fit besides, which is no gate, the same rejection is reported as that. */
  lemma EdgeIsReportedAsLowRegimeFit(l: Limits)
    ensures var i := IDEAL.(alignment := 0.4, setupStat := -0.3, sampleSize := 100.0);
            && !Accepted(i, l, 0.62) && Total(i, l) >= 0.62 && ReportedReason(i, l) == LOW_REGIME_FIT_PROBABILITY
            && !Accepted(i.(alignment := 1.0), l, 0.62)
  {
    var i := IDEAL.(alignment := 0.4, setupStat := -0.3, sampleSize := 100.0);
    EdgeIsReportedAsLowScore(l);
    NoCosts(i, l);
    hide Share;
    assert Edge(i) == 0.45 && RewardQuality(i) == 1.0 && Fakeout(i) == 0.0 && Trigger(i) == 1.0;
    assert Execution(i, l) == 1.0 && Win(i, l) == 0.838 && SampleSize(i) == 100 && Confidence(i) == 0.88;
    hide Edge, RewardQuality, Fakeout, Trigger, Execution, Win, Confidence;
  }

  lemma NoCosts(i: Inputs, l: Limits)
    requires i.spread == i.slippage == i.latency == i.funding == i.fundingPct == 0.0
    ensures SpreadPenalty(i, l) == SlippagePenalty(i, l) == LatencyPenalty(i, l) == 0.0
    ensures FundingPenalty(i, l) == FundingExecPenalty(i, l) == 0.0
  {
  }
}
