/** The gates of the signal score in closed form: what each input is worth, in whole points, without the intermediate
    probabilities. */
module SignalGates {
  import opened SignalScorer

  /** What the score sees of the inputs: fifteen shares between nothing and one, and a count. */
  datatype Parts = Parts(
    quality: real, alignment: real, momentum: real, liquidity: real, volatility: real, fakeout: real,
    reward: real, edge: real, history: real, count: int,
    spread: real, slippage: real, latency: real, funding: real, fundingPct: real, losses: real)

  // ---------- Reading the inputs ----------

  /** `u` is the number between nothing and one that is nearest to `x`. */
  predicate Nearest(u: real, x: real) {
    0.0 <= u <= 1.0 && (u < x ==> u == 1.0) && (u > x ==> u == 0.0)
  }

  /** A cost against its limit, or against the least limit there is. */
  predicate OfLimit(u: real, cost: real, limit: real, least: real)
    requires least > 0.0
  {
    (limit >= least ==> Nearest(u, cost / limit)) && (limit < least ==> Nearest(u, cost / least))
  }

  predicate OfSize(u: real, cost: real, limit: real) {
    && (cost >= 0.0 ==> OfLimit(u, cost, limit, 0.00000001))
    && (cost < 0.0 ==> OfLimit(u, -cost, limit, 0.00000001))
  }

  /** Whole samples, none below zero. */
  predicate Counts(n: int, samples: real) {
    n >= 0 && (samples >= 0.0 ==> n as real <= samples < n as real + 1.0) && (samples < 0.0 ==> n == 0)
  }

  predicate QualitiesRead(i: Inputs, p: Parts) {
    && Nearest(p.quality, i.setupQuality) && Nearest(p.alignment, i.alignment) && Nearest(p.momentum, i.momentum)
    && Nearest(p.liquidity, i.liquidity) && Nearest(p.volatility, i.volatilityFit) && Nearest(p.fakeout, i.fakeout)
  }

  /** Reward counts from a ratio of 0.8 on and fully from 3, edge from -1 to 1 on average, history up to a hundred
      samples, losses up to five. */
  predicate RecordRead(i: Inputs, p: Parts) {
    && Nearest(p.reward, (5.0 * i.riskReward - 4.0) / 11.0)
    && Nearest(p.edge, (i.setupStat + i.regimeStat + i.symbolStat + 3.0) / 6.0)
    && Counts(p.count, i.sampleSize) && Nearest(p.history, p.count as real / 100.0)
    && Nearest(p.losses, i.lossStreak / 5.0)
  }

  predicate CostsRead(i: Inputs, l: Limits, p: Parts) {
    && OfLimit(p.spread, i.spread, l.spread, 1.0) && OfLimit(p.slippage, i.slippage, l.slippage, 0.00000001)
    && OfLimit(p.latency, i.latency, l.latency, 1.0)
    && OfSize(p.funding, i.funding, l.funding) && OfSize(p.fundingPct, i.fundingPct, l.fundingPct)
  }

  predicate Reads(i: Inputs, l: Limits, p: Parts) {
    QualitiesRead(i, p) && RecordRead(i, p) && CostsRead(i, l, p)
  }

  lemma NearestIsClip(u: real, x: real)
    ensures Nearest(u, x) <==> u == Clip(x)
  {
  }

  lemma OfLimitIsShare(u: real, cost: real, limit: real, least: real)
    requires least > 0.0
    ensures OfLimit(u, cost, limit, least) <==> u == Share(cost, limit, least)
  {
    hide Nearest, Clip;
    if limit >= least {
      NearestIsClip(u, cost / limit);
    } else {
      NearestIsClip(u, cost / least);
    }
  }

  lemma OfSizeIsShare(u: real, cost: real, limit: real)
    ensures OfSize(u, cost, limit) <==> u == Share(Abs(cost), limit, 0.00000001)
  {
    hide OfLimit, Share;
    OfLimitIsShare(u, cost, limit, 0.00000001);
    OfLimitIsShare(u, -cost, limit, 0.00000001);
  }

  lemma CountIsFloor(n: int, samples: real)
    ensures Counts(n, samples) <==> n == Max(0.0, samples).Floor
  {
  }

  lemma LossesAreClipped(losses: real)
    ensures Clip(Max(0.0, losses) / 5.0) == Clip(losses / 5.0)
  {
  }

  /** Every input has such parts. */
  lemma PartsExist(i: Inputs, l: Limits) returns (p: Parts)
    ensures Reads(i, l, p)
  {
    var n := SampleSize(i);
    p := Parts(Clip(i.setupQuality), Clip(i.alignment), Clip(i.momentum), Clip(i.liquidity), Clip(i.volatilityFit), Clip(i.fakeout),
               Clip((5.0 * i.riskReward - 4.0) / 11.0), Clip((i.setupStat + i.regimeStat + i.symbolStat + 3.0) / 6.0),
               Clip(n as real / 100.0), n, SpreadPenalty(i, l), SlippagePenalty(i, l), LatencyPenalty(i, l),
               FundingPenalty(i, l), FundingExecPenalty(i, l), Clip(i.lossStreak / 5.0));
    CountIsFloor(n, i.sampleSize);
    CostsAreShares(i, l, p);
    hide Clip, Share, CostsRead;
  }

  lemma CostsAreShares(i: Inputs, l: Limits, p: Parts)
    ensures CostsRead(i, l, p) <==>
              && p.spread == SpreadPenalty(i, l) && p.slippage == SlippagePenalty(i, l) && p.latency == LatencyPenalty(i, l)
              && p.funding == FundingPenalty(i, l) && p.fundingPct == FundingExecPenalty(i, l)
  {
    OfLimitIsShare(p.spread, i.spread, l.spread, 1.0);
    OfLimitIsShare(p.slippage, i.slippage, l.slippage, 0.00000001);
    OfLimitIsShare(p.latency, i.latency, l.latency, 1.0);
    OfSizeIsShare(p.funding, i.funding, l.funding);
    OfSizeIsShare(p.fundingPct, i.fundingPct, l.fundingPct);
    hide OfLimit, OfSize, Share;
  }

  lemma QualitiesAreClipped(i: Inputs, p: Parts)
    requires QualitiesRead(i, p)
    ensures p.quality == Clip(i.setupQuality) && p.alignment == Clip(i.alignment) && p.momentum == Clip(i.momentum)
    ensures p.liquidity == Clip(i.liquidity) && p.volatility == Clip(i.volatilityFit) && p.fakeout == Clip(i.fakeout)
  {
    NearestIsClip(p.quality, i.setupQuality);
    NearestIsClip(p.alignment, i.alignment);
    NearestIsClip(p.momentum, i.momentum);
    NearestIsClip(p.liquidity, i.liquidity);
    NearestIsClip(p.volatility, i.volatilityFit);
    NearestIsClip(p.fakeout, i.fakeout);
    hide Nearest, Clip;
  }

  lemma RecordIsClipped(i: Inputs, p: Parts)
    requires RecordRead(i, p)
    ensures p.reward == RewardQuality(i) && p.edge == Edge(i) && p.losses == LossPenalty(i)
    ensures p.count == SampleSize(i) && p.history == Clip(p.count as real / 100.0)
  {
    NearestIsClip(p.reward, (5.0 * i.riskReward - 4.0) / 11.0);
    NearestIsClip(p.edge, (i.setupStat + i.regimeStat + i.symbolStat + 3.0) / 6.0);
    NearestIsClip(p.history, p.count as real / 100.0);
    NearestIsClip(p.losses, i.lossStreak / 5.0);
    CountIsFloor(p.count, i.sampleSize);
    LossesAreClipped(i.lossStreak);
    assert (i.riskReward - 0.8) / 2.2 == (5.0 * i.riskReward - 4.0) / 11.0;
    hide Nearest, Clip, Counts;
  }

  // ---------- Points ----------

  /** Of 20: what the order's execution is worth. */
  function ExecutionPoints(p: Parts): real {
    9.0 + 11.0 * p.liquidity - 4.0 * p.spread - 3.0 * p.slippage - 2.0 * p.latency
  }

  /** Of 20: how likely a fakeout is. */
  function FakeoutPoints(p: Parts): real {
    8.0 + 12.0 * p.fakeout - 5.0 * p.momentum - 3.0 * p.volatility
  }

  /** Of 20: how sure the score is of itself. */
  function ConfidencePoints(p: Parts): real {
    9.0 * p.history + 5.0 * p.quality + 4.0 * p.alignment + 2.0 * p.liquidity
  }

  /** Of 2000: what speaks for a win, directly, through the execution and against a fakeout. */
  function WinPoints(p: Parts): real {
    48.0 + 520.0 * p.quality + 320.0 * p.alignment + 436.0 * p.liquidity + 236.0 * p.volatility + 60.0 * p.momentum
    + 240.0 * p.edge + 140.0 * p.reward - 144.0 * p.fakeout - 64.0 * p.spread - 48.0 * p.slippage - 32.0 * p.latency
  }

  lemma ExecutionExactly(i: Inputs, l: Limits, p: Parts)
    requires Reads(i, l, p)
    ensures 20.0 * Execution(i, l) == ExecutionPoints(p) && 0.0 <= ExecutionPoints(p) <= 20.0
  {
    QualitiesAreClipped(i, p);
    CostsAreShares(i, l, p);
    hide SpreadPenalty, SlippagePenalty, LatencyPenalty, CostsRead, RecordRead;
  }

  lemma FakeoutExactly(i: Inputs, p: Parts)
    requires QualitiesRead(i, p)
    ensures 20.0 * Fakeout(i) == FakeoutPoints(p) && 0.0 <= FakeoutPoints(p) <= 20.0
  {
    QualitiesAreClipped(i, p);
  }

  lemma TriggerExactly(i: Inputs, p: Parts)
    requires QualitiesRead(i, p)
    ensures 10.0 * Trigger(i) == 5.0 * p.momentum + 3.0 * p.volatility + 2.0 * p.quality
  {
    QualitiesAreClipped(i, p);
  }

  lemma ConfidenceExactly(i: Inputs, p: Parts)
    requires QualitiesRead(i, p) && RecordRead(i, p)
    ensures 20.0 * Confidence(i) == ConfidencePoints(p) && 0.0 <= ConfidencePoints(p) <= 20.0
  {
    QualitiesAreClipped(i, p);
    RecordIsClipped(i, p);
    hide SampleSize, RewardQuality, Edge, LossPenalty, Counts;
  }

  lemma WinExactly(i: Inputs, l: Limits, p: Parts)
    requires Reads(i, l, p)
    ensures Nearest(Win(i, l), WinPoints(p) / 2000.0) && WinPoints(p) <= 2000.0
  {
    QualitiesAreClipped(i, p);
    RecordIsClipped(i, p);
    ExecutionExactly(i, l, p);
    FakeoutExactly(i, p);
    hide Execution, Fakeout, Edge, RewardQuality, SampleSize, LossPenalty, CostsRead, Counts;
    NearestIsClip(Win(i, l), WinPoints(p) / 2000.0);
    assert WinSum(i, l) == WinPoints(p) / 2000.0;
  }

  // ---------- The expectancy and the total ----------

  /** Target and stop of a win probability `w`, weighed and less the costs; the stop's part is at most one. */
  function Worth(w: real, ratio: real, p: Parts): real {
    var stop := 1.0 - w + FakeoutPoints(p) / 80.0;
    Times(Times(w, (11.0 + 9.0 * p.reward) / 20.0), if ratio > 0.0 then ratio else 0.0)
    - (if stop > 1.0 then 1.0 else stop) - (7.0 * p.spread + 7.0 * p.slippage + 6.0 * p.latency) / 20.0
  }

  lemma ShareOfWin(w: real, r: real)
    requires 0.0 <= w <= 1.0 && 0.0 <= r <= 1.0
    ensures Clip(Times(w, Clip(0.55 + 0.45 * r))) == Times(w, (11.0 + 9.0 * r) / 20.0)
  {
    var x := (11.0 + 9.0 * r) / 20.0;
    assert Clip(0.55 + 0.45 * r) == x;
    ProductGrows(0.0, w, 0.0, x);
    ProductGrows(w, 1.0, x, 1.0);
  }

  lemma AfterCostsExactly(i: Inputs, l: Limits, p: Parts)
    requires Reads(i, l, p)
    ensures AfterCosts(i, l) == Worth(Win(i, l), i.riskReward, p)
  {
    hide Times, Win;
    PartsArePositive(i, l);
    RecordIsClipped(i, p);
    CostsAreShares(i, l, p);
    FakeoutExactly(i, p);
    hide Reads, RecordRead, QualitiesRead, CostsRead;
    ShareOfWin(Win(i, l), p.reward);
    hide RewardQuality, Fakeout, SpreadPenalty, SlippagePenalty, LatencyPenalty;
  }

  /** Of 100: the weighted qualities less the penalties. */
  function WeightedPoints(p: Parts): real {
    18.0 * p.quality + 14.0 * p.alignment + 20.0 * p.edge + 12.0 * p.momentum + 10.0 * p.liquidity + 10.0 * p.volatility
    + 16.0 * p.reward - 8.0 * p.spread - 4.0 * p.funding - 7.0 * p.fakeout - 6.0 * p.losses - 8.0 * p.slippage - 4.0 * p.latency
    - 4.0 * p.fundingPct
  }

  /** How likely the signal is, of 100, for a win probability `w`. */
  function LikelihoodPoints(w: real, p: Parts): real {
    45.0 * w + 10.0 * p.momentum + 6.0 * p.volatility + 4.0 * p.quality + 15.0 * p.alignment + ExecutionPoints(p)
  }

  /** The total is four tenths of the weighted points and six tenths of the calibrated ones, which are the likelihood
      discounted by the confidence and by a hundredth of the fakeout points. */
  lemma TotalExactly(i: Inputs, l: Limits, p: Parts, calibrated: real)
    requires Reads(i, l, p)
    requires Nearest(calibrated, Times(LikelihoodPoints(Win(i, l), p) / 100.0, ConfidencePoints(p) / 20.0) - FakeoutPoints(p) / 100.0)
    ensures Nearest(Total(i, l), (4.0 * WeightedPoints(p) / 100.0 + 6.0 * calibrated) / 10.0)
  {
    hide Times, Win;
    LikelihoodExactly(i, l, p);
    WeightedExactly(i, l, p);
    ConfidenceExactly(i, p);
    FakeoutExactly(i, p);
    hide Likelihood, Weighted, Confidence, Fakeout, Reads;
    NearestIsClip(calibrated, Times(Likelihood(i, l), Confidence(i)) - 0.20 * Fakeout(i));
    NearestIsClip(Total(i, l), Weighted(i, l) * 0.4 + Calibrated(i, l) * 0.6);
  }

  lemma LikelihoodExactly(i: Inputs, l: Limits, p: Parts)
    requires Reads(i, l, p)
    ensures 100.0 * Likelihood(i, l) == LikelihoodPoints(Win(i, l), p)
  {
    hide Win;
    QualitiesAreClipped(i, p);
    ExecutionExactly(i, l, p);
    TriggerExactly(i, p);
    hide Execution, Trigger, Reads, ExecutionPoints;
  }

  lemma WeightedExactly(i: Inputs, l: Limits, p: Parts)
    requires Reads(i, l, p)
    ensures 100.0 * Weighted(i, l) == WeightedPoints(p)
  {
    QualitiesAreClipped(i, p);
    RecordIsClipped(i, p);
    CostsAreShares(i, l, p);
    hide SpreadPenalty, SlippagePenalty, LatencyPenalty, FundingPenalty, FundingExecPenalty, LossPenalty, Edge, RewardQuality, Reads;
  }

  // ---------- Acceptance ----------

  /** A signal is accepted exactly when its score reaches the threshold, its recorded expectancies do not add up to a
      loss, and five inequalities between the parts hold. */
  lemma AcceptedExactly(i: Inputs, l: Limits, minScore: real, p: Parts)
    requires Reads(i, l, p)
    ensures Accepted(i, l, minScore) <==>
              && Total(i, l) >= minScore
              && i.setupStat + i.regimeStat + i.symbolStat >= 0.0
              && WinPoints(p) >= 900.0
              && 11.0 * p.liquidity >= 1.0 + 4.0 * p.spread + 3.0 * p.slippage + 2.0 * p.latency
              && 9.0 * p.history + 5.0 * p.quality + 4.0 * p.alignment + 2.0 * p.liquidity >= 7.0
              && 12.0 * p.fakeout <= 4.0 + 5.0 * p.momentum + 3.0 * p.volatility
              && Worth(WinPoints(p) / 2000.0, i.riskReward, p) > 0.0
  {
    WinExactly(i, l, p);
    ExecutionExactly(i, l, p);
    ConfidenceExactly(i, p);
    FakeoutExactly(i, p);
    AfterCostsExactly(i, l, p);
    RecordIsClipped(i, p);
    EdgeExactly(i);
    hide Total, Win, Execution, Confidence, Fakeout, AfterCosts, Edge, Worth, WinPoints, Reads;
    assert Win(i, l) >= 0.45 <==> WinPoints(p) >= 900.0;
    assert Win(i, l) >= 0.45 ==> Win(i, l) == WinPoints(p) / 2000.0;
  }

  lemma EdgeExactly(i: Inputs)
    ensures Edge(i) >= 0.5 <==> i.setupStat + i.regimeStat + i.symbolStat >= 0.0
  {
  }

  /** So whatever else speaks for it, no signal is accepted whose liquidity is below an eleventh, none whose fakeout
      risk is above a third without momentum and a fitting volatility, and none of a setup quality below a fifth
      without a whole sample of history. */
  lemma NeededForAcceptance(i: Inputs, l: Limits, minScore: real)
    requires Accepted(i, l, minScore)
    ensures 11.0 * i.liquidity >= 1.0
    ensures i.momentum <= 0.0 && i.volatilityFit <= 0.0 ==> 3.0 * i.fakeout <= 1.0
    ensures i.sampleSize < 1.0 ==> 5.0 * i.setupQuality >= 1.0
    ensures i.setupStat + i.regimeStat + i.symbolStat >= 0.0
  {
    var p := PartsExist(i, l);
    AcceptedExactly(i, l, minScore, p);
    hide Worth, WinPoints, Total, Accepted;
  }

  /** These bounds are reached. */
  lemma BoundsAreReached(l: Limits)
    ensures Accepted(IDEAL.(liquidity := 1.0 / 11.0), l, 0.0)
    ensures Accepted(IDEAL.(momentum := 0.0, volatilityFit := 0.0, fakeout := 1.0 / 3.0), l, 0.0)
    ensures Accepted(IDEAL.(setupQuality := 0.2), l, 0.0)
  {
    hide Accepted, WinPoints;
    var p := Parts(1.0, 1.0, 1.0, 1.0, 1.0, 0.0, 1.0, 0.5, 0.0, 0, 0.0, 0.0, 0.0, 0.0, 0.0, 0.0);
    var thin, rough, plain := p.(liquidity := 1.0 / 11.0), p.(momentum := 0.0, volatility := 0.0, fakeout := 1.0 / 3.0), p.(quality := 0.2);
    PointsOfBounds(p, thin, rough, plain);
    AcceptedFree(IDEAL.(liquidity := 1.0 / 11.0), l, thin);
    AcceptedFree(IDEAL.(momentum := 0.0, volatilityFit := 0.0, fakeout := 1.0 / 3.0), l, rough);
    AcceptedFree(IDEAL.(setupQuality := 0.2), l, plain);
  }

  lemma PointsOfBounds(p: Parts, thin: Parts, rough: Parts, plain: Parts)
    requires p == Parts(1.0, 1.0, 1.0, 1.0, 1.0, 0.0, 1.0, 0.5, 0.0, 0, 0.0, 0.0, 0.0, 0.0, 0.0, 0.0)
    requires thin == p.(liquidity := 1.0 / 11.0) && plain == p.(quality := 0.2)
    requires rough == p.(momentum := 0.0, volatility := 0.0, fakeout := 1.0 / 3.0)
    ensures WinPoints(thin) >= 1000.0 && WinPoints(rough) >= 1000.0 && WinPoints(plain) >= 1000.0
  {
  }

  lemma FreeReads(l: Limits, limit: real, least: real)
    requires least > 0.0
    ensures OfLimit(0.0, 0.0, limit, least)
  {
    assert limit >= least ==> 0.0 / limit == 0.0;
  }

  /** A signal without costs, history and losses at the full ratio, half of whose points for a win are there, is
      accepted when the linear gates are passed. */
  lemma AcceptedFree(i: Inputs, l: Limits, p: Parts)
    requires QualitiesRead(i, p) && i.riskReward == 3.0 && p.reward == 1.0 && p.edge == 0.5 && p.history == 0.0 && p.count == 0
    requires i.spread == i.slippage == i.latency == i.funding == i.fundingPct == i.lossStreak == i.sampleSize == 0.0
    requires i.setupStat == i.regimeStat == i.symbolStat == 0.0
    requires p.spread == p.slippage == p.latency == p.funding == p.fundingPct == p.losses == 0.0
    requires WinPoints(p) >= 1000.0 && 11.0 * p.liquidity >= 1.0
    requires 5.0 * p.quality + 4.0 * p.alignment + 2.0 * p.liquidity >= 7.0 && 12.0 * p.fakeout <= 4.0 + 5.0 * p.momentum + 3.0 * p.volatility
    ensures Accepted(i, l, 0.0)
  {
    hide WinPoints, Accepted, Total, QualitiesRead;
    FreeReads(l, l.spread, 1.0);
    FreeReads(l, l.latency, 1.0);
    FreeReads(l, l.slippage, 0.00000001);
    FreeReads(l, l.funding, 0.00000001);
    FreeReads(l, l.fundingPct, 0.00000001);
    hide OfLimit;
    assert RecordRead(i, p);
    AcceptedExactly(i, l, 0.0, p);
    TotalIsShare(i, l);
    WorthOfFree(WinPoints(p) / 2000.0, p);
  }

  lemma WorthOfFree(w: real, p: Parts)
    requires w >= 0.5 && p.reward == 1.0 && p.spread == p.slippage == p.latency == 0.0
    ensures Worth(w, 3.0, p) > 0.0
  {
    assert (11.0 + 9.0 * p.reward) / 20.0 == 1.0;
  }

  lemma TotalIsShare(i: Inputs, l: Limits)
    ensures Total(i, l) >= 0.0
  {
  }

  /** What blocks a signal keeps it from being accepted. */
  lemma BlockingRejects(reason: Reason, i: Inputs, l: Limits, minScore: real)
    requires Blocks(reason, i, l, minScore)
    ensures !Accepted(i, l, minScore)
  {
    hide Total, Win, Execution, Confidence, AfterCosts, Fakeout, Edge;
  }
}
