# AlphaForge verification

Dafny models of six parts of AlphaForge, with the properties that its documentation, tests and code
rely on. `dafny verify dfyconfig.toml` checks the whole project.

- **SQL audits** (`SqlScanner.dfy`, `SqlProperties.dfy`, `SqlRegions.dfy`). Comment removal and statement splitting are
  two independent character scanners. Both are proved against one automaton over the unread text, and
  then to agree: which semicolons are top level, what a statement is, and whether it is read-only do
  not depend on which of the two looked first. `SqlRegions` says what the automaton reads in terms of
  the text alone: every text begins with a literal, a comment, a semicolon or a plain character, and
  each is read as such.
- **Backtest** (`TradeSimulation.dfy`, `Lifecycle.dfy`, `BacktestRun.dfy`, `Guardrails.dfy`, `Ranks.dfy`,
  `CandleAggregation.dfy`, `CandleRows.dfy`, `EquityCurve.dfy`, `CurveOrder.dfy`, `RunCurve.dfy`; shared
  values in `Market.dfy`). The trade simulator and
  the counterfactual of rejected signals are two loops for one first-touch reading. `Session` is the
  state that the main loop changes candle by candle: log, rejected list, counters, statistics. The
  candle aggregator, the rank algorithm and the one-pass equity curve are proved against simple
  definitions, and the curve of a run's own log is shown to have one point for each trade. `Guardrails`
  tells which signals a turn and a run let through, `CandleRows` what a row says and `CurveOrder` in which
  order the trades come, each by the raw fields.
- **Reconciliation provider** (`Provider.dfy`, `Protocol.dfy`, `Gathering.dfy`, `Selection.dfy`,
  `ReplyReading.dfy`, `Payloads.dfy`). `Client` is the provider with its fields; the server, both clocks and the source of tracked symbols are arbitrary
  functions of the number of earlier uses, so every claim holds for every behaviour of theirs.
  `Protocol` says what a signed call makes of the replies, and `Gathering` what evidence the replies of a
  snapshot amount to; the client is proved to report exactly that. `ReplyReading` and `Selection` tell
  both by the raw replies: bodies, statuses, codes and rows. Rate limits follow
  section 4 of RFC 6585 (status 429) and section 10.2.3 of RFC 9110 (`Retry-After`, of which the code
  reads the delay-seconds form only).
- **Adaptive calibration** (`Calibration.dfy`, `CalibrationEvidence.dfy`). One run on one key is a step from the stored row to the
  next; the claims are about every sequence of runs and about the scopes a decision falls back through.
- **Quantity splitter** (`QuantitySplitter.dfy`) and **signal scorer** (`SignalScorer.dfy`,
  `SignalGates.dfy`).

Strings are compared by code point (`Symbols.dfy`); sets are sorted by any strict order and lists, stably,
by any weak order (`Sorting.dfy`). Floats and decimals are exact reals. Identifiers that the program builds by joining texts
or hashing are kept as tuples, that is, taken to be injective.

## What the proofs found

- The derived count of accepted signals includes those for which the scanner reported neither a
  rejection nor a candidate; the totals balance exactly when there are none
  (`Lifecycle.TotalsBalance`, `BacktestRun.Backtest`). The main loop's own scanner always reports one of
  the two (`backtest_order.py`, lines 1140 and 1214-1248), so this arises only for other callers of
  `process_backtest_result`.
- For a side other than LONG or SHORT the simulator trades short and the counterfactual long
  (`TradeSimulation.SameReadingExactlyOnNamedSides`).
- A piece of SQL whose only content is white space outside blank, tab, carriage return and line feed is
  returned as a statement when a comment protects it from trimming (`SqlProperties.TriviaMayBeKept`);
  what is dropped is characterized by `SqlProperties.DroppedExactly`, and for texts without such white
  space it is exactly what holds nothing (`SqlProperties.DroppedExactlyWhenTrivial`).
- The guard against saturated scores names two regimes that it lets pass, but a BREAKOUT regime is a context
  of high volatility by its name, which the same guard refuses: a saturated score passes only in a TREND
  (`Guardrails.SaturationIsJudged`, `Guardrails.TakesUpExactly`).
- The check for missing statistics in the calibration never decides
  (`Calibration.InsufficientIsTooFew`), and its clamp never binds (`Calibration.ShadowMovesOneStep`).
- "Nothing is sent after a rate limit" holds except for a rate limit with code -1021: within a signed call
  a rate-limited reply that reaches the handlers is followed by another request if and only if its code is
  -1021 and the clock was not resynchronized in the call (`Protocol.LimitIsFollowedExactly`, and for the
  attempts of a call `Provider.Client.SignedGet`). A snapshot that then completes clears the cooldown that
  the reply had registered; `Provider.SkewedRateLimitIsCleared` is such a server.
- A signal rejected only for its expectancy history is reported as LOW_SCORE, or as having a low regime
  fit, which is no gate (`SignalScorer.ReasonBlocks`, `SignalScorer.EdgeIsReportedAsLowScore`,
  `SignalScorer.EdgeIsReportedAsLowRegimeFit`).

## Reading the contracts

`T` below is `transport_retries` (zero when negative) and `max` is `max_fill_symbols`. A first touch is
`TradeSimulation.FirstTouch`, a balanced log `Lifecycle.Balanced`, the counting rank `Ranks.RankOf`. The
replies amount to evidence in the sense of `Gathering.Gathers`, and a run does what its turns do in the
sense of `BacktestRun.Ran`. The main loop starts at the third candle of a symbol and visits each candle
once, which is what `BacktestRun.Admissible` says of the feeds. The high-volatility context is read from the
regime names; guard and counter are taken to read the same ones, where the code puts them together twice,
from contexts that differ only if the cost breakdown overrides the regime.

## Model

| member | source | states |
|---|---|---|
| `SqlScanner.SqlWithoutComments` | `run_sql_audits.py:119-177` | The flag-driven loop writes exactly the automaton's comment-free text, for every string, unclosed comments and quotes included |
| `SqlScanner.SkipComment` | `run_sql_audits.py:154-165` | A comment that opens is replaced by one character and left where the remaining text yields what the whole comment would have yielded |
| `SqlScanner.CopyTurn` | `run_sql_audits.py:130-175` | Inside a quoted region, doubled quotes included, a turn copies exactly what the automaton reads in one step |
| `SqlScanner.SplitSqlStatements` | `run_sql_audits.py:180-249` | The loop with its six flags returns the trimmed pieces between top-level semicolons that hold more than comments and blanks, in order, the tail included |
| `SqlScanner.ReadWithin` | `run_sql_audits.py:195-238` | One turn of the splitter reads the same characters and changes to the same region as one turn of comment removal |
| `SqlProperties.RemovalCommutesWithCutting` | `run_sql_audits.py:119-249` | The two scanners agree on every string: cutting and then removing comments from each piece gives the same pieces as removing comments and then cutting |
| `SqlProperties.RemovalIsIdempotent` | `run_sql_audits.py:119-177` | Removing comments twice is removing them once: no new comment or quote boundary appears in the output |
| `SqlProperties.PiecesConcatenate` | `run_sql_audits.py:180-249` | The raw pieces concatenate back to the text |
| `SqlProperties.PiecesAreFinal` | `run_sql_audits.py:239-243` | Every raw piece but the last ends with its only top-level semicolon, and the last has none |
| `SqlProperties.CuttingAfterClosed` | `run_sql_audits.py:239-243` | Text behind a closed statement is cut as if it stood alone: no quote or comment state leaks across a cut |
| `SqlProperties.StatementIsAtomic` | `run_sql_audits.py:180-249` | Splitting a returned statement returns just that statement |
| `SqlProperties.SplittingIsStable` | `run_sql_audits.py:180-249` | Splitting the concatenation of the returned statements returns the same statements |
| `SqlProperties.DroppedIsTrivia` | `run_sql_audits.py:240-248` | A dropped piece holds only comments, white space and semicolons |
| `SqlProperties.DroppedExactly` | `run_sql_audits.py:240-248` | A piece is dropped if and only if every character of the trimmed piece outside its comments is a blank, tab, carriage return, line feed or semicolon |
| `SqlProperties.DroppedExactlyWhenTrivial` | `run_sql_audits.py:240-248` | For every text whose white space is blank, tab, carriage return and line feed: dropped if and only if it holds only comments, white space and semicolons |
| `SqlProperties.TriviaMayBeKept` | `run_sql_audits.py:241-248` | Without that condition the second half fails: a piece whose only content between comments is a vertical tab is returned as a statement, because the emptiness test knows five white-space characters and `strip` knows more |
| `SqlProperties.VerdictIgnoresComments` | `run_sql_audits.py:252-255` | The read-only verdict depends only on what is outside comments |
| `SqlProperties.VerdictOfPiece` | `run_sql_audits.py:240-255` | A statement is judged like the raw piece it was trimmed from, so the verdict cannot change through trimming |
| `SqlRegions.RegionIsRead` | `run_sql_audits.py:119-249` | Whatever a text begins with, a literal closed or not, a comment, a semicolon or any other character, both scanners read it as such and go on behind it: a literal is copied whole, a comment stays in its piece and is one character in the comment-free text, a semicolon ends its piece |
| `SqlRegions.EveryTextBegins` | `run_sql_audits.py:119-249` | Every text that is not empty begins with such a region, so that these laws fix both scanners on all strings |
| `SqlRegions.QuotedIsCopied` | `run_sql_audits.py:130-145` | Between single or double quotes everything up to the first quote that is not doubled is copied by removal and stays in one piece, comment marks and semicolons included |
| `SqlRegions.DelimitedIsCopied` | `run_sql_audits.py:146-153` | So is everything between backticks, and between brackets, up to the first closing one |
| `SqlRegions.UnclosedIsCopied` | `run_sql_audits.py:130-153` | A literal that is never closed takes the rest of the text |
| `SqlRegions.LineCommentIsReplaced` | `run_sql_audits.py:154-159` | A line comment up to the end of its line becomes one line feed, and belongs to the piece it stands in |
| `SqlRegions.BlockCommentIsReplaced` | `run_sql_audits.py:160-165` | A block comment up to the first closing mark becomes one blank, and belongs to the piece it stands in |
| `SqlRegions.SpacesExactly` | `run_sql_audits.py:240-246` | Trimming removes 29 code points and no others |
| `SqlRegions.VerdictExactly` | `run_sql_audits.py:252-255` | A statement is taken for a read-only query if and only if, comments and leading space aside, it begins with one of the four keywords in letters of either size |
| `TradeSimulation.Simulate` | `backtest_order.py:1453-1646` | Both loops of the simulator return a first touch: entry at the first candle whose range holds it, exit at the first bracket touched from there on, the stop winning inside one candle, excursions over exactly the candles from entry to exit |
| `TradeSimulation.Scan` | `backtest_order.py:1793-1824` | The single flag-driven loop of the counterfactual returns a first touch of its window |
| `TradeSimulation.SimulateRejected` | `backtest_order.py:1778-1842` | Every verdict of the counterfactual, the out-of-range index included, is the reading of a first touch in the window |
| `TradeSimulation.RejectedExactly` | `backtest_order.py:1798-1832` | A rejected signal would not have been triggered if and only if no candle within the bars spans its entry, and would have been closed if and only if one at or behind such a candle touches a bracket |
| `TradeSimulation.WindowExactly` | `backtest_order.py:1798` | The window is so many candles from the signal on, or as many as there are |
| `TradeSimulation.ExcursionIsFurthest` | `backtest_order.py:1563-1576` | An excursion is the furthest that any candle from entry to exit goes from the entry, or nothing |
| `TradeSimulation.FirstTouchIsUnique` | `backtest_order.py:1458-1647` | A candle list, plan and side have at most one first touch, so the contracts of both loops fix their results |
| `TradeSimulation.LoopsAgree` | `backtest_order.py:1458-1842` | On a named side, with a window that reaches the end of the list, simulator and counterfactual agree on outcome and raw excursions |
| `TradeSimulation.SameReadingExactlyOnNamedSides` | `backtest_order.py:1532-1818` | The two loops give the same outcome on all candle lists if and only if the side is LONG or SHORT; for any other text one goes short and the other long |
| `TradeSimulation.ClosedIsFinal` | `backtest_order.py:1536-1605` | Changing or adding candles after the closing one changes nothing about a closed trade |
| `TradeSimulation.MirrorSwapsSides` | `backtest_order.py:1536-1605` | Reflecting all prices and swapping the side gives the same first touch with the same excursions |
| `Lifecycle.SimulateCandidate` | `backtest_order.py:1273-1647` | The rows of one accepted candidate: created, accepted and waiting, then a timeout or triggered, placed, opened and closed at the first touch |
| `Lifecycle.ClosingExactly` | `backtest_order.py:1458-1647` | The closing row is priced at the bracket that was touched or at the last close, stands at the closing candle, and gives the best excursion in ways to the target and the worst in ways to the stop, neither of them below a billionth |
| `Lifecycle.StatusesInOrder` | `backtest_order.py:1273-1647` | An accepted candidate goes through four or seven statuses in one order, opened at its entry price under one order and one position |
| `Lifecycle.TotalsBalance` | `backtest_order.py:2848-2888` | In any balanced log accepted = TP + SL + open at end + not triggered + undecided, orders = triggered, rejected = candidates - accepted; the sum holds without the undecided term exactly when there are none |
| `Lifecycle.AcceptedKeepsBalance` | `backtest_order.py:1999-2313` | Appending the rows of a newly accepted signal keeps the log balanced, whatever its trade does |
| `Lifecycle.IntroducedKeepsBalance` | `backtest_order.py:2009-2043` | A creation row leaves one more signal undecided; a selector rejection leaves none |
| `Lifecycle.RejectedKeepsBalance` | `backtest_order.py:2059-2263` | A rejection row gives one undecided signal its outcome and nothing else |
| `BacktestRun.RecordedKeepsCaps` | `backtest_order.py:2357-2402` | An acceptance that the guardrails let through keeps the day, symbol-day, symbol-regime-day and (with its guard on) high-volatility-day counters within their caps |
| `BacktestRun.RecordedKeepsSums` | `backtest_order.py:2396-2402` | Each day counter stays the sum of that day's symbol counters and of that day's symbol-and-regime counters |
| `BacktestRun.AfterCloseKeepsStreaks` | `backtest_order.py:1843-1852` | The consecutive loss and win counts are the trailing runs of the outcome list, and stay so |
| `BacktestRun.Judged` | `backtest_order.py:2044-2263` | While the loss streak is at its cap with the guardrails on and no rescue lane, no signal is taken up; a signal is taken up only through a rescue lane or past every guardrail |
| `Guardrails.HighVolExactly` | `backtest_order.py:2352-2354` | A context is one of high volatility if and only if HIGH, VOL or BREAKOUT stands somewhere in its three regime names |
| `Guardrails.TakesUpExactly` | `backtest_order.py:2044-2313` | Without a rescue lane a signal is taken up if and only if selector, scanner, costs and portfolio cleared it and, under the guardrails, every counter has room and the quality fits: a volatile one within its cost, ratio and stop limits, a saturated score within its own and in a quiet trend |
| `Guardrails.BlamesExactly` | `backtest_order.py:2357-2387` | Each of the seven reasons is given if and only if its own limit is violated and none before it, in the raw fields and counters |
| `Guardrails.EarlierStagesExactly` | `backtest_order.py:2009-2263` | Before the guardrails selector, scanner, costs and portfolio are heard in this order, each with its own reason, and a rescue lane answers scanner and costs only |
| `Guardrails.RanVets` | `backtest_order.py:1868-2313` | Over every run each candidate comes from a turn that was entitled to it, a guarded one within the volatility and saturation limits, and each refusal from a turn that violates what its reason names |
| `Guardrails.RunStaysInLimits` | `backtest_order.py:1843-2402` | Every run that starts without statistics ends with every counter within its cap and the streaks those at the end of its outcomes |
| `Guardrails.PauseLasts` | `backtest_order.py:2364-2365` | A loss streak at its cap, with the guardrails on and no rescue lane, ends the taking up of signals for good, whatever follows |
| `BacktestRun.Session.constructor` | `backtest_order.py:5406-5412` | A run starts with empty lists and a balanced log |
| `BacktestRun.Session.CountRefusal` | `backtest_order.py:2389-2393` | Each refusal enters the list once and raises one reason counter by one, so the counters sum to the list's length |
| `BacktestRun.Session.RejectSymbol` | `backtest_order.py:5420-5489` | The selector's rejection writes one row, one list entry and one count, and keeps the state valid |
| `BacktestRun.Session.Reject` | `backtest_order.py:2059-2094` | A rejection by scanner, costs, portfolio or guardrail writes one row, one list entry and one count and decides one signal |
| `BacktestRun.Session.UpdateStats` | `backtest_order.py:1999-2313` | After an accepted candidate caps, sums and streak laws still hold; a rescued candidate is not counted by the guardrails but its close is |
| `BacktestRun.Session.Accept` | `backtest_order.py:1974-2313` | The whole new state after an acceptance: the rows of the first touch, the candidate, the statistics, and the open row when the list ended first |
| `BacktestRun.Session.Process` | `backtest_order.py:1868-2313` | One turn changes the six collections exactly as the judgement says, keeps every invariant and leaves the signal undecided only when the scanner reported neither outcome |
| `BacktestRun.Session.Run` | `backtest_order.py:5413-5545` | From every state that earlier turns can leave, a run does exactly what the turns over its feeds do, keeps log balance, caps, sums and streaks, and accepts nothing when acceptance was paused at its start |
| `BacktestRun.RanIsUnique` | `backtest_order.py:5413-5545` | The feeds fix the run's result: there is only one state that the turns can lead to |
| `BacktestRun.RanKeepsLinks` | `backtest_order.py:5413-5545` | Over every run each candidate has its waiting row, each open row and each outcome its closing row, and each day counter counts the candidates that the guardrails let through that day |
| `BacktestRun.Backtest` | `backtest_order.py:5412-5545` | The totals derived from a whole run's log balance: rejected list, reason counters and rejecting rows agree with candidates minus accepted, accepted is the returned candidates plus the undecided signals, open rows and outcomes agree with the log, and on no day do the guardrails let more candidates through than their cap |
| `Ranks.RankValues` | `backtest_order.py:4868-4880` | The block-averaging algorithm over an index-sorted list fills the array with the counting rank of each value |
| `Ranks.BlockRank` | `backtest_order.py:4872-4878` | The mean of the places of a maximal block of equal values is (number smaller) + (number equal + 1) / 2 |
| `Ranks.SortedByValue` | `backtest_order.py:4869` | The sorted index list holds every position once, with the values in ascending order |
| `Ranks.RanksFollowRearrangement` | `backtest_order.py:4868-4880` | Ranks do not depend on the order of the list |
| `Ranks.RanksPreserveOrder` | `backtest_order.py:4868-4880` | Values compare as their ranks do, ties included |
| `Ranks.RanksSum` | `backtest_order.py:4868-4880` | The ranks of n values sum to n(n + 1) / 2, with or without ties |
| `CandleAggregation.SourceIsAsOf` | `backtest_order.py:750-755` | The candles seen at a decision are those seen at any later one that had closed by then, with the same contents |
| `CandleAggregation.Aggregate` | `backtest_order.py:757-779` | The loop returns, in ascending order, one row for each aligned bucket that is over and complete, and no other |
| `CandleAggregation.Layer` | `backtest_order.py:757-780` | An unsupported step gives no rows; otherwise the last 64 rows of the one list that aggregates the closed source |
| `CandleAggregation.NoLookAhead` | `backtest_order.py:746-780` | Before the cut to 64 rows, the rows at a decision are a prefix of those at any later decision, namely the ones that close by the earlier time |
| `CandleAggregation.CoarseIsJoinOfFine` | `backtest_order.py:763-779` | Whenever a coarse bucket is emitted, every finer bucket inside it is, and their open, high, low, close and volume combine to the coarse row |
| `CandleRows.SourceExactly` | `backtest_order.py:751-755` | The source holds a timestamp if and only if a candle of it had closed by the decision, and under it the last such candle of the list |
| `CandleRows.OpensExactly` | `backtest_order.py:763-768` | A row opens at a time if and only if that is a multiple of the step, all its minutes are in the source and the step is over by the decision |
| `CandleRows.RowsRead` | `backtest_order.py:769-777` | Every row opens like its first candle and closes like its last; all its candles lie within its high and low, and both are attained |
| `CandleRows.MinuteIsCandle` | `backtest_order.py:769-777` | A row of one minute is its candle, volume included |
| `CandleRows.LayerReads` | `backtest_order.py:746-784` | In a layer each row reads, for each of its minutes, the last candle that the list holds for it |
| `CandleRows.SupportedExactly` | `backtest_order.py:758-760` | A timeframe has rows if and only if its step is known and is one or more whole minutes |
| `EquityCurve.TimeOrderIsStable` | `backtest_order.py:3322` | The time order is sorted by key and keeps the rows of each key in list order, so it adds, loses and swaps nothing |
| `EquityCurve.EarlierComesFirst` | `backtest_order.py:3322` | No row precedes one with a smaller (time, symbol, side) key |
| `EquityCurve.KeepFirst` | `backtest_order.py:3323-3329` | The loop with its seen set keeps the first row of each position |
| `EquityCurve.EachPositionOnce` | `backtest_order.py:3323-3329` | Of every position exactly its first row is counted; rows without a position are all counted |
| `EquityCurve.Measure` | `backtest_order.py:3333-3380` | The one pass returns the defined curve, the lowest equity change over all earlier-later pairs, the lowest percentage, the longest win and loss runs and the profit factor of the gross sums, or nothing when a result is unknown |
| `EquityCurve.BuildMetrics` | `backtest_order.py:3317-3380` | The same for a whole lifecycle log after filtering, sorting and removing repetitions |
| `CurveOrder.TradesInTimeOrder` | `backtest_order.py:3322-3329` | The curve goes through the trades in the order of their closing times, or of their own times where none is recorded, then of symbol and side |
| `CurveOrder.TradesExactly` | `backtest_order.py:3317-3329` | The curve holds ends of trades that were not rejected only, all of them that name no position, and one for each position that such a row names |
| `EquityCurve.PercentScale` | `backtest_order.py:3353` | The percentage is a hundred times the drawdown over the peak, none at a peak of zero, and not below -100 exactly while the equity is not negative |
| `EquityCurve.PeakIsHighest` | `backtest_order.py:3350` | The running peak is the highest equity so far, the initial balance included |
| `EquityCurve.DrawdownStep` | `backtest_order.py:3351-3354` | Comparing each equity with the running peak alone keeps the minimum over all pairs of times |
| `EquityCurve.LongestStep` | `backtest_order.py:3355-3362` | Resetting a streak at every other result keeps the maximum length of same-sign runs |
| `EquityCurve.GrossSplits` | `backtest_order.py:3355-3358` | Gross profit minus gross loss is the change in equity |
| `EquityCurve.FactorTellsGain` | `backtest_order.py:3373` | With a losing trade present the profit factor exceeds one exactly when the run gained |
| `EquityCurve.FactorWithoutLoss` | `backtest_order.py:3373` | Without a losing trade it is infinite exactly when the run gained and zero otherwise |
| `EquityCurve.UnknownSpreads` | `backtest_order.py:3341-3379` | A point is unavailable exactly when some result up to it is unknown, and the metrics exactly when any is |
| `RunCurve.RanClosesOnce` | `backtest_order.py:1868-2313` | In the log of every run each position has at most one closing row |
| `RunCurve.CurveHasOnePointPerTrade` | `backtest_order.py:3317-3380` | The curve of a run's own log has exactly one point for each trade that hit its target or its stop or was open at the end |
| `Payloads.NormalizePositions` | `src/alphaforge/binance_reconciliation_provider.py:520-557` | Positions are accepted exactly when every row is usable and no non-zero amount has an unusable symbol; the first unusable row decides the failure |
| `Payloads.PositionsNeedLookup` | `src/alphaforge/binance_reconciliation_provider.py:290-306` | Exchange information is needed exactly for a non-zero position with a safe name outside the usual shape |
| `Selection.ValidSymbolExactly` | `src/alphaforge/binance_reconciliation_provider.py:608-617` | A safe name is taken in capitals when those are two to twenty letters and digits, as it is when the exchange lists it otherwise, and not at all in every other case |
| `Selection.LookupMatters` | `src/alphaforge/binance_reconciliation_provider.py:290-306` | A lookup is asked for exactly those names that some exchange information would make valid and none does not |
| `Selection.ActiveIsExposed` | `src/alphaforge/binance_reconciliation_provider.py:536-545` | Long or short, a position is active exactly when the amount in its row is further from zero than the dust threshold |
| `Payloads.NormalizeOrders` | `src/alphaforge/binance_reconciliation_provider.py:571-584` | Orders are accepted exactly when every open one is usable, and the accepted list is the open ones in order |
| `Selection.OpenIsOutstanding` | `src/alphaforge/binance_reconciliation_provider.py:575-576` | An order is open exactly in the statuses that leave it outstanding, in letters of either size |
| `Selection.OrdersLookupExactly` | `src/alphaforge/binance_reconciliation_provider.py:308-315` | Exchange information is fetched for the orders if and only if an outstanding one has a name that needs it |
| `Selection.FillsExactly` | `src/alphaforge/binance_reconciliation_provider.py:586-594` | Trades are usable if and only if they are a list of convertible objects |
| `Payloads.ExchangeSymbols` | `src/alphaforge/binance_reconciliation_provider.py:317-329` | The set of all listed symbols, or nothing when any row is unusable |
| `Protocol.MatchesAt` | `src/alphaforge/binance_reconciliation_provider.py:412-451` | Every attempt tells the status and code of the reply to its own request, and is rate limited exactly when that reply is |
| `Protocol.RecordedAt` | `src/alphaforge/binance_reconciliation_provider.py:412-424` | In every reachable attempt list the attempts are numbered 1 to n and only clock-skew, 5xx and transport failures were sent again |
| `Protocol.UnlimitedAt` | `src/alphaforge/binance_reconciliation_provider.py:377-387` | While a snapshot is sending, every rate-limited attempt so far was one treated as clock skew |
| `Protocol.LimitIsFollowedExactly` | `src/alphaforge/binance_reconciliation_provider.py:370-387` | A rate-limited reply that reaches the handlers is followed by another request if and only if its code is -1021 and the clock was not yet resynchronized in the call |
| `Protocol.TurnKeepsLimits` | `src/alphaforge/binance_reconciliation_provider.py:335-403` | The same over a call's list of attempts, turn by turn, where a request for the server's time is followed only when an error in a body had led to it |
| `Protocol.AllPassedAt` | `src/alphaforge/binance_reconciliation_provider.py:220-229` | When the attempts evidence a selection, every single symbol of it has a passed trade request |
| `Protocol.FetchedIsLast` | `src/alphaforge/binance_reconciliation_provider.py:344-357` | What the replies make a call return is an error-free body and the last reply that the call received |
| `Protocol.ClimbsAt` | `src/alphaforge/binance_reconciliation_provider.py:337-338` | Signed timestamps of the whole life are strictly increasing |
| `Protocol.SentWasAdmitted` | `src/alphaforge/binance_reconciliation_provider.py:143-171` | In every log a request names the last snapshot that began before it, and that snapshot found the deadline of its history passed |
| `Protocol.EpisodeAt` | `src/alphaforge/binance_reconciliation_provider.py:137-262` | What one snapshot adds to the log, entry by entry: its begin, then only requests of its own whose clocks were read after that begin, and a completion exactly if it is COMPLETE |
| `Protocol.NothingSentDuringCooldown` | `src/alphaforge/binance_reconciliation_provider.py:453-500` | In every log of requests: after the reply to request k asked for a wait, a request m of a later snapshot is sent only if that snapshot had read the monotonic clock after the wait had elapsed, or a COMPLETE one came in between |
| `Protocol.SecondSnapshotWaits` | `src/alphaforge/binance_reconciliation_provider.py:153-171` | Of two snapshots in a row, the first INCOMPLETE, the second sends nothing unless it began after every wait that a rate limit asked the first for |
| `ReplyReading.UsableEndsCall` | `src/alphaforge/binance_reconciliation_provider.py:348-357` | A signed call returns a body exactly when it holds no negative error code; an error code other than -1021, or a second -1021, ends it |
| `ReplyReading.SkewIsCorrectedOnce` | `src/alphaforge/binance_reconciliation_provider.py:351-376` | After the first -1021, in a body or in an HTTP error, the server's time is asked for: told, the call goes on behind it, otherwise it fails |
| `ReplyReading.TimeFailureIsHandled` | `src/alphaforge/binance_reconciliation_provider.py:348-402` | When the request for the time that an error code in a body led to fails itself, the handlers treat its reply like that of a signed request |
| `ReplyReading.LimitEndsCall` | `src/alphaforge/binance_reconciliation_provider.py:377-387` | A 429, or a 418 with code -1003, ends the call unless its code is -1021 and the time was not asked for yet |
| `ReplyReading.OnlyFleetingIsRepeated` | `src/alphaforge/binance_reconciliation_provider.py:388-402` | A transport failure or a status from 500 to 599 is repeated exactly while retries are left, and every other error ends the call with the failure that its status names |
| `ReplyReading.RetriesReach` | `src/alphaforge/binance_reconciliation_provider.py:331-403` | A call lives through up to T passing failures in a row and returns the first usable body behind them |
| `ReplyReading.RetriesEnd` | `src/alphaforge/binance_reconciliation_provider.py:331-403` | One passing failure more ends it, and nothing further is sent |
| `ReplyReading.ObservedExactly` | `src/alphaforge/binance_reconciliation_provider.py:412-451` | An attempt tells status and code of its reply, passes exactly with a body, and names a rate limit as its reason exactly for one |
| `ReplyReading.RepeatedFor` | `src/alphaforge/binance_reconciliation_provider.py:412-451` | In every reachable attempt list an attempt that was sent again met a -1021, a transport failure or a status from 500 to 599 |
| `ReplyReading.WaitExactly` | `src/alphaforge/binance_reconciliation_provider.py:480-494` | The wait asked for is what Retry-After says, or else what is left of the ban, or else a minute for a 429 that names the minute window |
| `ReplyReading.AskedWaitIsKept` | `src/alphaforge/binance_reconciliation_provider.py:453-500` | In every log of requests, after a rate limit that asks for a number of seconds no request is sent for a later snapshot that began before they had elapsed, unless one completed in between |
| `Provider.Client.RegisterCooldown` | `src/alphaforge/binance_reconciliation_provider.py:480-500` | The deadline is extended to the wait asked for and never shortened; Retry-After wins over a ban time, which wins over the minute window |
| `Provider.Client.HttpOperation` | `src/alphaforge/binance_reconciliation_provider.py:412-451` | One use of the server, one attempt that tells of its reply, one entry in the log of requests; a rate-limited reply extends the cooldown by its wait from the clock reading that follows, any other reply leaves it |
| `Provider.Client.RefreshServerTime` | `src/alphaforge/binance_reconciliation_provider.py:405-410` | One server-time request; a usable reply sets the offset to server time minus the clock reading behind it, any other leaves it |
| `Provider.Client.NextTimestamp` | `src/alphaforge/binance_reconciliation_provider.py:337-338` | The next timestamp is the corrected clock, or one more than the last one when the clock went back |
| `Provider.Client.SendSigned` | `src/alphaforge/binance_reconciliation_provider.py:337-346` | Each signed request carries that timestamp, later than all earlier ones |
| `Provider.Client.HandleError` | `src/alphaforge/binance_reconciliation_provider.py:358-402` | The handlers do what the definition over replies says, and send another request exactly for code -1021 before a resynchronization; which retries remain and at what cost |
| `Provider.Client.Exchange` | `src/alphaforge/binance_reconciliation_provider.py:344-357` | A body with an error code is never accepted; failures of the resync inside the guarded block reach the same handlers |
| `Provider.Client.SignedGet` | `src/alphaforge/binance_reconciliation_provider.py:331-403` | One signed call returns what the replies from its first request on determine, after at most T + 2 signed requests and T + 2 server-time requests; inside it a rate limit is followed by another request exactly under the clock-skew guard |
| `Provider.Client.PositionStage` | `src/alphaforge/binance_reconciliation_provider.py:173-197` | Positions are covered if and only if the replies hold usable ones, are then their normalization, and the attempts hold the passed request |
| `Provider.Client.OrderStage` | `src/alphaforge/binance_reconciliation_provider.py:198-214` | Open orders are covered if and only if the replies hold usable ones, and are then the open ones of the payload |
| `Provider.Client.SymbolsForFills` | `src/alphaforge/binance_reconciliation_provider.py:596-605` | The selection is sorted and is exactly the tracked symbols, those with an open order and those with an active position |
| `Provider.Client.FetchFills` | `src/alphaforge/binance_reconciliation_provider.py:221-228` | A symbol is covered if and only if its call returned a usable list of trades, whose rows are added |
| `Provider.Client.FetchAll` | `src/alphaforge/binance_reconciliation_provider.py:220-228` | The covered symbols are always a prefix of the selection; all of it exactly when every call in turn returned usable trades |
| `Provider.Client.FillStage` | `src/alphaforge/binance_reconciliation_provider.py:215-229` | A selection above the maximum sends no request; the trades are covered if and only if the replies hold usable ones for exactly the symbols called for |
| `Provider.Client.Collect` | `src/alphaforge/binance_reconciliation_provider.py:172-242` | The evidence is complete if and only if the replies amount to full evidence, and then is that evidence |
| `Provider.Client.Admit` | `src/alphaforge/binance_reconciliation_provider.py:143-171` | A snapshot proceeds exactly when the deadline has passed on the monotonic clock |
| `Provider.Client.Snapshot` | `src/alphaforge/binance_reconciliation_provider.py:137-262` | COMPLETE if and only if no cooldown is active and the replies amount to full evidence, which is then reported, with a passed attempt for every part of it; at most 2(T + 2)(2 + max) + 1 uses of the server; INCOMPLETE means covered followed by unknown symbols is the selection; only COMPLETE moves the deadline back; the log grows by exactly this snapshot's entries |
| `Provider.Client.CooldownIsKept` | `src/alphaforge/binance_reconciliation_provider.py:453-500` | The cooldown theorem for any two requests of any two snapshots in the life of every reachable client: that each use of the server is logged under its own snapshot, with its clock readings in order, is part of the client's invariant |
| `Provider.Client.SnapshotTwice` | `src/alphaforge/binance_reconciliation_provider.py:137-262` | Two calls in a row from any reachable state: after an incomplete one that was asked to wait, the next sends nothing unless it began after that wait |
| `Provider.Client.CallsIsProduct` | `src/alphaforge/binance_reconciliation_provider.py:331-403` | The budget of n signed calls is n(T + 2) |
| `Provider.SkewedRateLimitIsCleared` | `src/alphaforge/binance_reconciliation_provider.py:370-376` | A concrete server: its first reply is a 429 with code -1021 that asks for 60 seconds, three more requests follow at once, the snapshot completes and clears the cooldown |
| `Gathering.GatheredFromReplies` | `src/alphaforge/binance_reconciliation_provider.py:172-242` | Evidence that the replies amount to: positions are the normalization of one error-free reply, orders the open ones of a later one, and a reply for each selected symbol follows |
| `Gathering.GatheredTradesAreReplied` | `src/alphaforge/binance_reconciliation_provider.py:220-229` | Every reported trade is a row of a list that one of the replies holds |
| `Gathering.ExposureLeavesFills` | `src/alphaforge/binance_reconciliation_provider.py:172-242` | Once positions and orders are read, the only evidence the replies can amount to is decided by the trades |
| `Symbols.LessExactly` | `src/alphaforge/binance_reconciliation_provider.py:604` | The order of the selection is decided where two names part: the one that ends there, or has the smaller code point, comes first |
| `Gathering.SelectionIsUnique` | `src/alphaforge/binance_reconciliation_provider.py:596-605` | There is only one sorted list of exactly the symbols called for |
| `Selection.SelectedExactly` | `src/alphaforge/binance_reconciliation_provider.py:518-605` | When the replies amount to evidence, a symbol is selected if and only if it is tracked, an outstanding order of the payload names it, or a row of the positions payload beyond the dust threshold on either side does |
| `Selection.ExposureIsSelected` | `src/alphaforge/binance_reconciliation_provider.py:541-605` | No position of the payload beyond the threshold, long or short, is left out of the selection |
| `Gathering.MissingIsRest` | `src/alphaforge/binance_reconciliation_provider.py:246` | The unknown symbols are exactly the selection behind the covered prefix |
| `Calibration.Statistics` | `src/alphaforge/adaptive_decision_calibration.py:291-317` | The statistics of the loop equal their definition, and the sample count is the number of eligible rows |
| `CalibrationEvidence.RecentWindow` | `src/alphaforge/adaptive_decision_calibration.py:295-312` | The recent figures are those of the last twenty observations |
| `CalibrationEvidence.LongWindow` | `src/alphaforge/adaptive_decision_calibration.py:296-314` | The long mean and the interval are those of the last hundred |
| `CalibrationEvidence.RecentForgets` | `src/alphaforge/adaptive_decision_calibration.py:291-312` | Twenty eligible rows from some time on fix the recent mean, whatever was observed before |
| `CalibrationEvidence.ProposalForgets` | `src/alphaforge/adaptive_decision_calibration.py:291-338` | A hundred fix the long mean and the interval as well, and the earlier rows change no proposal unless one that is not eligible forbids relaxing |
| `CalibrationEvidence.RecentIsTotal` | `src/alphaforge/adaptive_decision_calibration.py:291-312` | With exactly twenty eligible rows from some time on, twenty times the recent mean is what they add up to, in whatever order the evidence comes |
| `CalibrationEvidence.MarginExactly` | `src/alphaforge/burnin.py:205-211` | The margin of at least two observations is 2.58 standard errors, in terms of their number, sum and sum of squares |
| `CalibrationEvidence.IntervalExactly` | `src/alphaforge/burnin.py:205-211` | The interval lies above zero, or below, if and only if the sum does and the square of the sum outweighs the spread, which needs no root |
| `CalibrationEvidence.EligibleExactly` | `src/alphaforge/adaptive_decision_calibration.py:267-271` | A row is eligible if and only if it is attributable, complete, not invalidated, has a result and did not end in one of five ways, in letters of either size |
| `CalibrationEvidence.ProposalExactly` | `src/alphaforge/adaptive_decision_calibration.py:320-338` | Every state and reason is proposed in exactly one case, told by sums over the two windows, the rows' own fields and the four attestations |
| `Calibration.OrderedCounts` | `src/alphaforge/adaptive_decision_calibration.py:292-293` | Ordering the evidence neither adds nor loses a row or an eligible one |
| `Calibration.EwmaIsBounded` | `src/alphaforge/adaptive_decision_calibration.py:298-303` | The moving average stays within any bounds of the observations |
| `Calibration.InsufficientIsTooFew` | `src/alphaforge/adaptive_decision_calibration.py:320-327` | The proposal lacks evidence exactly when fewer than 30 rows are eligible; the check for missing statistics never decides |
| `Calibration.IntervalDecidesLong` | `src/alphaforge/adaptive_decision_calibration.py:328-338` | With a non-negative root the interval decides the sign of the long window, so TIGHT and RELAXED turn on interval and recent window alone (RELAXED also on eligibility and health) |
| `Calibration.ShadowMovesOneStep` | `src/alphaforge/adaptive_decision_calibration.py:356-361` | The proposed value moves by one step, up only when TIGHT and down only when RELAXED, exactly when that has at most eight decimals and within half of the last one otherwise; the bound never binds |
| `Calibration.Decide` | `src/alphaforge/adaptive_decision_calibration.py:430-445` | Hysteresis and cooldown, applied one after the other, end in the specified entry |
| `CalibrationEvidence.StoredExactly` | `src/alphaforge/adaptive_decision_calibration.py:430-442` | Each of the five states is stored in exactly the cases that proposal, previous state and time of the last adjustment make |
| `CalibrationEvidence.ReasonsExactly` | `src/alphaforge/adaptive_decision_calibration.py:434-445` | The reasons tell exactly whether a proposal was held back, and by what, and the adjustment time moves exactly on an entry |
| `CalibrationEvidence.ThresholdExactly` | `src/alphaforge/adaptive_decision_calibration.py:341-353` | Which gate a decision stands for, and exactly when its base value is usable |
| `CalibrationEvidence.EmitsExactly` | `src/alphaforge/adaptive_decision_calibration.py:474-477` | An event is left out exactly when nothing but the adjustment time would change |
| `CalibrationEvidence.HashTellsApart` | `src/alphaforge/adaptive_decision_calibration.py:429` | Another row in the place of one changes the evidence hash if and only if they differ in one of seven fields |
| `Calibration.ShadowStore.Calibrate` | `src/alphaforge/adaptive_decision_calibration.py:422-489` | One key's run replaces exactly that row and writes an event exactly when hash, state, value, base or reasons changed and the same event was not written before |
| `Calibration.NeverFlipsDirectly` | `src/alphaforge/adaptive_decision_calibration.py:431-436` | Over every sequence of runs the stored state never goes directly between TIGHT and RELAXED |
| `Calibration.LastAdjustedIsLastEntry` | `src/alphaforge/adaptive_decision_calibration.py:445` | After an entry into TIGHT or RELAXED the stored adjustment time lies between that entry and now |
| `Calibration.EntriesAreADayApart` | `src/alphaforge/adaptive_decision_calibration.py:437-445` | With parsable non-decreasing times, two entries into TIGHT or RELAXED are at least 24 hours apart |
| `Calibration.RelaxedNeedsProof` | `src/alphaforge/adaptive_decision_calibration.py:330-445` | RELAXED is stored only when in that very run all rows, at least 30, were eligible, the lower bound was positive and all four health flags were true |
| `Calibration.RepetitionSettles` | `src/alphaforge/adaptive_decision_calibration.py:422-488` | Repeating a run with fixed evidence, thresholds, health and time settles after at most two runs from any stored state: nothing stored changes and no event is written |
| `Calibration.TwoRunsMayBeNeeded` | `src/alphaforge/adaptive_decision_calibration.py:434-445` | One run is not always enough: leaving RELAXED for a TIGHT proposal first stores NORMAL |
| `Calibration.ChainIsComplete` | `src/alphaforge/adaptive_decision_calibration.py:274-284` | A decision's chain holds exactly the scopes that agree with it |
| `Calibration.GroupEvidence` | `src/alphaforge/adaptive_decision_calibration.py:415-420` | Each scope's group is the non-diagnostic evidence that the scope describes, in order |
| `Calibration.WiderScopesHaveMore` | `src/alphaforge/adaptive_decision_calibration.py:274-284` | Along a decision's chain the eligible sample counts never decrease |
| `Calibration.ChooseScope` | `src/alphaforge/adaptive_decision_calibration.py:495-497` | The chosen scope is the most specific adequate one, and is short of samples only when every scope of the decision is |
| `Calibration.ShortOnlyIfAllAre` | `src/alphaforge/adaptive_decision_calibration.py:415-497` | When the reason-wide scope is short of samples, so is every scope of the decision |
| `QuantitySplitter.FloorBounds` | `scripts/clean_binance_demo_futures.py:63-68` | Rounding a non-negative quantity gives whole steps, less than one step below it |
| `QuantitySplitter.FloorIsOdd` | `scripts/clean_binance_demo_futures.py:63-68` | Rounding treats negative quantities like positive ones |
| `QuantitySplitter.FloorShift` | `scripts/clean_binance_demo_futures.py:63-68` | Whole steps in front do not change what is rounded away |
| `QuantitySplitter.SplitQuantity` | `scripts/clean_binance_demo_futures.py:71-114` | For every input the loop ends; nothing for zero, an invalid maximum exactly when the maximal chunk is not positive, failure exactly when the total holds no whole step or the last chunk is below the minimum, otherwise full chunks followed by what is left |
| `QuantitySplitter.PlanConserves` | `scripts/clean_binance_demo_futures.py:91-112` | The chunks sum to the total rounded down to the step, and to the total itself without a step |
| `QuantitySplitter.PlanObeysLimits` | `scripts/clean_binance_demo_futures.py:91-112` | Every chunk is a positive number of steps within minimum and maximum, and all but the last are the maximal chunk |
| `QuantitySplitter.PlanIsShortest` | `scripts/clean_binance_demo_futures.py:91-112` | No list of whole-step chunks within the maximum reaches the same sum with fewer orders |
| `SignalScorer.AcceptanceIsMonotone` | `src/alphaforge/ai_brain.py:88-261` | Raising spread, slippage, latency, absolute funding, fakeout risk or loss streak never turns a rejected signal into an accepted one; raising setup quality, alignment, momentum, liquidity, volatility fit, risk-reward, sample size or expectancy never turns an accepted one into a rejected one |
| `SignalScorer.TotalGrows` | `src/alphaforge/ai_brain.py:163-179` | The total score is monotone in every input |
| `SignalScorer.AfterCostsGrows` | `src/alphaforge/ai_brain.py:135-139` | The expectancy after costs is monotone in every input, through its product of probability and reward |
| `SignalGates.AcceptedExactly` | `src/alphaforge/ai_brain.py:95-261` | A signal is accepted if and only if its score reaches the threshold, its three recorded expectancies do not add up to a loss, and five inequalities in whole points between its clipped inputs hold |
| `SignalGates.WinExactly` | `src/alphaforge/ai_brain.py:112-132` | The win probability in points of 2000, directly, through the execution and against a fakeout |
| `SignalGates.AfterCostsExactly` | `src/alphaforge/ai_brain.py:133-143` | The expectancy after costs in terms of the win probability, with the clipping that can take effect and without the one that cannot |
| `SignalGates.TotalExactly` | `src/alphaforge/ai_brain.py:144-179` | The total score in terms of the win probability and points of the clipped inputs |
| `SignalGates.NeededForAcceptance` | `src/alphaforge/ai_brain.py:95-261` | Whatever else speaks for it, no accepted signal has a liquidity below an eleventh, a fakeout risk above a third without momentum and volatility fit, or a setup quality below a fifth without history |
| `SignalGates.BoundsAreReached` | `src/alphaforge/ai_brain.py:95-261` | Signals without history at each of these three bounds are accepted |
| `SignalScorer.NoHistoryBound` | `src/alphaforge/ai_brain.py:115-179` | Without history no score exceeds 0.68109, whatever the other inputs and limits |
| `SignalScorer.FreshSignalsNeedLowThreshold` | `src/alphaforge/ai_brain.py:179-260` | A signal without history can be accepted exactly under thresholds up to 0.68109 |
| `SignalScorer.ReasonBlocks` | `src/alphaforge/ai_brain.py:45-60` | A rejected signal is told something that blocks it, except when score or expectancy edge alone reject it and the regime fit is low or the score was enough |
| `SignalGates.BlockingRejects` | `src/alphaforge/ai_brain.py:45-60` | What is said to block a signal does keep it from being accepted |
| `SignalScorer.EdgeIsReportedAsLowScore` | `src/alphaforge/ai_brain.py:45-60` | A signal that scores above 0.9 and is rejected for its negative history is reported as LOW_SCORE |
| `SignalScorer.EdgeIsReportedAsLowRegimeFit` | `src/alphaforge/ai_brain.py:45-60` | A signal that scores enough, is rejected for its negative history and stays rejected with full alignment is reported as having a low regime fit |

## Left out

Weaker than the source:

- SqlScanner.LooksLikeResultQuery: lower-cases Latin letters only, which is all that the four admitted keywords need except for letters outside ASCII that lower-case to them.
- Symbols.Upper: upper-cases Latin letters only; the provider's upper-casing and its test for control characters enter as arbitrary functions instead.
- BacktestRun.Judged: the selector, scanner, cost breakdown, portfolio decision and rescue conditions enter through their results, so their internal agreement is not modelled.
- BacktestRun.DayOf: has no counterpart of the "UNKNOWN" day that the code gives timestamps outside the calendar.
- BacktestRun.AfterClose: leaves out the rolling win rate.
- Lifecycle.ClosingRow: takes the realized cash result as a function of exit price and reason; the cash ledger is not modelled.
- Calibration.Rounded: rounds exact numbers, ties to the even one, where the code rounds binary ones.
- Calibration.ShadowStore.Calibrate: the key's and the event's hashes are what they hash.
- Calibration.StatsOf: leaves out counts and averages that no decision reads; the square root of the interval is an arbitrary function.
- SignalScorer.Inputs: holds the numbers after missing ones were replaced by their defaults.
- Provider.Client.HttpOperation: replies are told apart by the number of earlier requests only, so that a request goes to the endpoint its attempt names is part of the model, not a claim.
- Provider.Client.Snapshot: the evidence list beside the attempts, error texts, endpoint and symbol of a failure, transport categories, reset of connections and sleeping are not modelled; a timestamp is an integer that no width limits.

Not modelled:

- The mutually exclusive flags of the two scanners as separate variables: they are one variable `mode`.
- Aliasing of the lists and dictionaries that the backtest's main loop hands around: they are fields of one `Session`.
- Persistence, exports, argument parsing and report building, including the tables of observations and of shadow decisions.
- Loading of evidence for the calibration, and the labels given to shadow decisions after a scope was chosen.
- Evaluation of the derivatives contract and the numeric fields of positions, orders and fills beyond amount and symbol.
- A tracked-symbol source that raises, and transport, signing and parsing of HTTP messages.
- Order plans, explanations and learning from closed trades of the signal scorer.
- Floating-point rounding, infinities and not-a-number; the code's infinite profit factor is a constructor of its own.
