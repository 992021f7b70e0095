/** Values that the backtest components share. */
module Market {
  import opened Options

  datatype Candle = Candle(timestamp: int, open: real, high: real, low: real, close: real, volume: real)

  /** `str(side).upper()`: anything but the two names is a third case. */
  datatype Side = LONG | SHORT | OTHER

  datatype Plan = Plan(entry: real, sl: real, tp: real)

  datatype SignalId = SignalId(symbol: string, timestamp: int)

  /** The hashes that name orders and positions are taken to be injective. */
  datatype OrderId = OrderId(signal: SignalId, plan: Plan)
  datatype PositionId = PositionId(signal: SignalId, side: Side)

  /** `rescued` says that a rescue lane accepted it. */
  datatype Candidate = Candidate(
    signal: SignalId, side: Side, plan: Plan, regime: string, score: real, immediate: bool, rescued: bool)

  datatype Status =
    | SYMBOL_REJECTED | SIGNAL_CREATED | SIGNAL_REJECTED | ORDER_REJECTED
    | SIGNAL_ACCEPTED | WAITING_ENTRY_ZONE | ENTRY_TRIGGERED | ENTRY_TIMEOUT
    | ORDER_PLACED | POSITION_OPENED | POSITION_CLOSED

  datatype CloseReason = TP_HIT | SL_HIT | TIMEOUT

  /** The part of a lifecycle row that counting and accounting look at. `at` is the row's own
      timestamp; a closing row carries that of the closing candle. */
  datatype LifecycleRow = LifecycleRow(
    at: int, signal: SignalId, side: Side, status: Status, reject: Option<string>, close: Option<CloseReason>,
    order: Option<OrderId>, position: Option<PositionId>, price: real, mfe: real, mae: real, pnl: Option<real>)
}
