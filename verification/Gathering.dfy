/** The evidence of a snapshot, and what evidence the replies of a server amount to. */
module Gathering {
  import opened Options
  import opened Payloads
  import opened Protocol
  import Sorting
  import Symbols

  datatype Status = NotAttempted | RequestSucceeded | RequestFailed | ValidationFailed | Passed
  datatype Statuses = Statuses(positionRisk: Status, exchangeInfo: Status, openOrders: Status, userTrades: Status)

  /** What a snapshot has collected so far. */
  datatype Evidence = Evidence(
    positions: seq<Position>, warnings: seq<string>, orders: seq<Order>, fills: seq<Json>,
    exchange: Option<set<string>>, positionsCovered: bool, ordersCovered: bool,
    covered: seq<string>, selected: seq<string>, statuses: Statuses)

  const NO_EVIDENCE := Evidence([], [], [], [], None, false, false, [], [], Statuses(NotAttempted, NotAttempted, NotAttempted, NotAttempted))

  datatype Report = Report(complete: bool, evidence: Evidence, unknown: seq<string>, failure: Option<Failure>,
                           cooldownActive: bool, requestCount: nat, attempts: seq<Attempt>)

  /** No position with exposure has an unusable symbol. */
  predicate ExposureNamed(positions: seq<Position>) {
    forall i :: 0 <= i < |positions| ==> positions[i].valid || positions[i].qty == 0.0
  }

  /** Every tracked symbol is usable and selected, and so is every symbol with an open order or an
      active position. */
  predicate Covers(selected: seq<string>, orders: seq<Order>, positions: seq<Position>, exchange: Option<set<string>>, rules: Rules, names: set<string>) {
    && (forall name :: name in names ==> ValidSymbol(rules, Text(name), exchange).Some?
                                         && ValidSymbol(rules, Text(name), exchange).value in selected)
    && (forall i :: 0 <= i < |orders| ==> orders[i].symbol in selected)
    && (forall i :: 0 <= i < |positions| && positions[i].active ==> positions[i].symbol in selected)
  }

  /** Nothing else is selected. */
  predicate Warranted(selected: seq<string>, orders: seq<Order>, positions: seq<Position>, exchange: Option<set<string>>, rules: Rules, names: set<string>) {
    forall x :: x in selected ==>
                  || (exists name :: name in names && ValidSymbol(rules, Text(name), exchange) == Some(x))
                  || (exists i :: 0 <= i < |orders| && orders[i].symbol == x)
                  || (exists i :: 0 <= i < |positions| && positions[i].active && positions[i].symbol == x)
  }

  predicate InScope(selected: seq<string>, orders: seq<Order>, positions: seq<Position>, exchange: Option<set<string>>, rules: Rules, names: set<string>) {
    Covers(selected, orders, positions, exchange, rules, names) && Warranted(selected, orders, positions, exchange, rules, names)
  }

  function Missing(selected: seq<string>, covered: seq<string>): seq<string> {
    if selected == [] then []
    else (if selected[0] in covered then [] else [selected[0]]) + Missing(selected[1..], covered)
  }

  lemma CoveredIffBefore(selected: seq<string>, k: nat, i: nat)
    requires Symbols.Sorted(selected) && k <= |selected| && i < |selected|
    ensures selected[i] in selected[..k] <==> i < k
  {
    Symbols.LessIsStrictOrder();
    if i < k {
      assert selected[..k][i] == selected[i];
    } else {
      forall j | 0 <= j < k ensures selected[..k][j] != selected[i] {
        Sorting.SortedIsDistinct(selected, Symbols.Less, j, i);
      }
    }
  }

  lemma MissingStep(selected: seq<string>, covered: seq<string>, i: nat)
    requires i < |selected|
    ensures Missing(selected[i..], covered)
            == (if selected[i] in covered then [] else [selected[i]]) + Missing(selected[i + 1..], covered)
    ensures [selected[i]] + selected[i + 1..] == selected[i..]
  {
    assert selected[i..][1..] == selected[i + 1..];
  }

  /** What is missing is what follows the covered prefix. */
  lemma {:induction false} MissingIsRest(selected: seq<string>, k: nat, from: nat)
    requires Symbols.Sorted(selected) && from <= |selected| && k <= |selected|
    ensures Missing(selected[from..], selected[..k]) == selected[if from < k then k else from..]
    decreases |selected| - from
  {
    if from < |selected| {
      hide *;
      MissingIsRest(selected, k, from + 1);
      MissingStep(selected, selected[..k], from);
      CoveredIffBefore(selected, k, from);
    }
  }

  // ---------- What the replies amount to ----------

  /** A reading of the replies up to request `next`: a payload and the exchange information known by then. */
  datatype Reading = Reading(payload: Json, exchange: Option<set<string>>, next: nat)

  predicate NamesNeedLookup(rules: Rules, names: set<string>) {
    exists name :: name in names && NeedsLookup(rules, Text(name))
  }

  function ListedAt(rules: Rules, reply: Reply): Option<set<string>> {
    if reply.Body? then ListedSymbols(rules, reply.payload) else None
  }

  /** A payload, behind it a look at the exchange information when one is needed. */
  function Looked(rules: Rules, server: nat -> Reply, payload: Json, need: bool, exchange: Option<set<string>>, k: nat): Option<Reading> {
    if !need then Some(Reading(payload, exchange, k))
    else if ListedAt(rules, server(k)).Some? then Some(Reading(payload, ListedAt(rules, server(k)), k + 1))
    else None
  }

  /** Usable positions read from request `k` on. */
  function PositionsRead(rules: Rules, server: nat -> Reply, limit: nat, names: set<string>, k: nat): Option<Reading> {
    var call := Follow(server, limit, k, 0, false);
    if call.fetch.Failed? then None
    else
      var payload := call.fetch.payload;
      var need := SomeRowNeedsLookup(rules, payload) || NamesNeedLookup(rules, names);
      var looked := Looked(rules, server, payload, need, None, call.next);
      if looked.Some? && PositionsUsable(rules, payload, looked.value.exchange) then looked else None
  }

  function OrdersRead(rules: Rules, server: nat -> Reply, limit: nat, exchange: Option<set<string>>, k: nat): Option<Reading> {
    var call := Follow(server, limit, k, 0, false);
    if call.fetch.Failed? then None
    else
      var payload := call.fetch.payload;
      var need := exchange.None? && OrdersNeedLookup(rules, payload);
      var looked := Looked(rules, server, payload, need, exchange, call.next);
      if looked.Some? && OrdersUsable(rules, payload, looked.value.exchange) then looked else None
  }

  datatype Fills = Fills(rows: seq<Json>, next: nat)

  /** Usable trades of one symbol. */
  function TradesRead(rules: Rules, server: nat -> Reply, limit: nat, k: nat): Option<Fills> {
    var call := Follow(server, limit, k, 0, false);
    if call.fetch.Fetched? && FillsFailure(rules, call.fetch.payload).None? then Some(Fills(call.fetch.payload.items, call.next))
    else None
  }

  /** Usable trades of so many symbols in turn. */
  function FillsRead(rules: Rules, server: nat -> Reply, limit: nat, symbols: nat, k: nat): Option<Fills> {
    if symbols == 0 then Some(Fills([], k))
    else
      var before := FillsRead(rules, server, limit, symbols - 1, k);
      if before.None? then None
      else
        var trades := TradesRead(rules, server, limit, before.value.next);
        if trades.None? then None else Some(Fills(before.value.rows + trades.value.rows, trades.value.next))
  }

  lemma FillsReadStep(rules: Rules, server: nat -> Reply, limit: nat, n: nat, k: nat)
    ensures FillsRead(rules, server, limit, 0, k) == Some(Fills([], k))
    ensures var before := FillsRead(rules, server, limit, n, k);
            FillsRead(rules, server, limit, n + 1, k)
            == if before.None? then None
               else var trades := TradesRead(rules, server, limit, before.value.next);
                    if trades.None? then None else Some(Fills(before.value.rows + trades.value.rows, trades.value.next))
  {
  }

  lemma {:induction false} FillsReadFails(rules: Rules, server: nat -> Reply, limit: nat, few: nat, many: nat, k: nat)
    requires few <= many && FillsRead(rules, server, limit, few, k).None?
    ensures FillsRead(rules, server, limit, many, k).None?
    decreases many
  {
    if few < many {
      FillsReadFails(rules, server, limit, few, many - 1, k);
    }
  }

  /** The sorted list of exactly the symbols called for. */
  predicate Selects(selected: seq<string>, e: Evidence, rules: Rules, names: set<string>) {
    Symbols.Sorted(selected) && InScope(selected, e.orders, e.positions, e.exchange, rules, names)
  }

  lemma SelectionIsUnique(a: seq<string>, b: seq<string>, e: Evidence, rules: Rules, names: set<string>)
    requires Selects(a, e, rules, names) && Selects(b, e, rules, names)
    ensures a == b
  {
    Symbols.LessIsStrictOrder();
    SelectedInBoth(a, b, e, rules, names);
    SelectedInBoth(b, a, e, rules, names);
    Sorting.SortedIsUnique(a, b, Symbols.Less);
  }

  lemma UnusableNameSelectsNothing(selected: seq<string>, e: Evidence, rules: Rules, names: set<string>)
    requires exists name :: name in names && ValidSymbol(rules, Text(name), e.exchange).None?
    ensures !Selects(selected, e, rules, names)
  {
  }

  lemma SelectsSorted(selected: seq<string>, e: Evidence, rules: Rules, names: set<string>)
    requires Selects(selected, e, rules, names)
    ensures Symbols.Sorted(selected)
  {
  }

  lemma SelectedInBoth(a: seq<string>, b: seq<string>, e: Evidence, rules: Rules, names: set<string>)
    requires Selects(a, e, rules, names) && Selects(b, e, rules, names)
    ensures forall x :: x in a ==> x in b
  {
  }

  lemma NormalizedIsNamed(rules: Rules, payload: Json, exchange: Option<set<string>>, rows: seq<Position>)
    requires Normalized(rules, payload, exchange, rows)
    ensures ExposureNamed(rows)
  {
    forall i | 0 <= i < |rows| ensures rows[i].valid || rows[i].qty == 0.0 {
      assert Acceptable(rules, payload.items[i], exchange);
    }
  }

  lemma NormalizedIsUnique(rules: Rules, payload: Json, exchange: Option<set<string>>, a: seq<Position>, b: seq<Position>)
    requires Normalized(rules, payload, exchange, a) && Normalized(rules, payload, exchange, b)
    ensures a == b
  {
  }

  /** What a snapshot is given: rules, retry limit, symbol limit. */
  datatype Config = Config(retries: int, maxSymbols: int, rules: Rules)

  function Retries(cfg: Config): nat {
    if cfg.retries < 0 then 0 else cfg.retries
  }

  /** As many retries as configured, and none when that is negative. */
  lemma RetriesExactly(cfg: Config)
    ensures Retries(cfg) >= cfg.retries && Retries(cfg) in {0, cfg.retries}
  {
  }

  /** The names that the trades' selection is made from: the tracked symbols are asked for once more when
      the positions alone did not call for exchange information. */
  function NamesForFills(cfg: Config, w: World, payload: Json, t: nat): set<string> {
    w.tracked(if SomeRowNeedsLookup(cfg.rules, payload) then t else t + 1)
  }

  /** The replies from request `k` to before `end` amount to this evidence: usable positions, usable open
      orders, and usable trades of exactly the symbols called for. */
  predicate Gathers(cfg: Config, w: World, k: nat, t: nat, e: Evidence, end: nat) {
    var p := PositionsRead(cfg.rules, w.server, Retries(cfg), w.tracked(t), k);
    p.Some? && Normalized(cfg.rules, p.value.payload, p.value.exchange, e.positions)
    && var o := OrdersRead(cfg.rules, w.server, Retries(cfg), p.value.exchange, p.value.next);
       o.Some? && e.orders == Payloads.OpenOrders(cfg.rules, o.value.payload.items, o.value.exchange) && e.exchange == o.value.exchange
       && GathersFills(cfg, w, o.value.next, NamesForFills(cfg, w, p.value.payload, t), e, end)
  }

  predicate GathersFills(cfg: Config, w: World, k: nat, names: set<string>, e: Evidence, end: nat) {
    && Selects(e.selected, e, cfg.rules, names) && |e.selected| <= cfg.maxSymbols && e.covered == e.selected
    && FillsRead(cfg.rules, w.server, Retries(cfg), |e.selected|, k) == Some(Fills(e.fills, end))
  }

  predicate SameBefore(e: Evidence, x: Evidence) {
    x.positions == e.positions && x.orders == e.orders && x.exchange == e.exchange
  }

  /** No evidence with these positions and orders comes from the replies from request `k` on. */
  ghost predicate NoFills(cfg: Config, w: World, k: nat, names: set<string>, e: Evidence) {
    forall x, end :: SameBefore(e, x) ==> !GathersFills(cfg, w, k, names, x, end)
  }

  lemma UnusableNameNoFills(cfg: Config, w: World, k: nat, names: set<string>, e: Evidence)
    requires exists name :: name in names && ValidSymbol(cfg.rules, Text(name), e.exchange).None?
    ensures NoFills(cfg, w, k, names, e)
  {
    forall x, end | SameBefore(e, x) ensures !GathersFills(cfg, w, k, names, x, end) {
      UnusableNameSelectsNothing(x.selected, x, cfg.rules, names);
    }
  }

  /** A selection above the maximum, or whose trades cannot be read, leaves no evidence. */
  lemma UnreadSelectionNoFills(cfg: Config, w: World, k: nat, names: set<string>, e: Evidence, selected: seq<string>)
    requires Selects(selected, e, cfg.rules, names)
    requires |selected| > cfg.maxSymbols || FillsRead(cfg.rules, w.server, Retries(cfg), |selected|, k).None?
    ensures NoFills(cfg, w, k, names, e)
  {
    forall x, end | SameBefore(e, x) && GathersFills(cfg, w, k, names, x, end) ensures false {
      SelectionIsUnique(x.selected, selected, e, cfg.rules, names);
    }
  }

  lemma FillsGathered(cfg: Config, w: World, k: nat, names: set<string>, e: Evidence, x: Evidence, end: nat)
    requires Selects(x.selected, e, cfg.rules, names) && SameBefore(e, x)
    requires |x.selected| <= cfg.maxSymbols && x.covered == x.selected
    requires FillsRead(cfg.rules, w.server, Retries(cfg), |x.selected|, k) == Some(Fills(x.fills, end))
    ensures GathersFills(cfg, w, k, names, x, end)
  {
  }

  /** What is read before leaves the evidence to the trades from request `next` on. */
  ghost predicate LeftToFills(cfg: Config, w: World, k: nat, t: nat, e: Evidence, next: nat, names: set<string>) {
    forall x, end :: Gathers(cfg, w, k, t, x, end) <==> (SameBefore(e, x) && GathersFills(cfg, w, next, names, x, end))
  }

  lemma UnreadExposureNoEvidence(cfg: Config, w: World, k: nat, t: nat)
    requires var p := PositionsRead(cfg.rules, w.server, Retries(cfg), w.tracked(t), k);
             p.None? || OrdersRead(cfg.rules, w.server, Retries(cfg), p.value.exchange, p.value.next).None?
    ensures forall x, end :: !Gathers(cfg, w, k, t, x, end)
  {
    hide PositionsRead, OrdersRead;
  }

  /** Once positions and open orders are read, the evidence is decided by the trades. */
  lemma ExposureLeavesFills(cfg: Config, w: World, k: nat, t: nat, p: Reading, o: Reading, e: Evidence)
    requires PositionsRead(cfg.rules, w.server, Retries(cfg), w.tracked(t), k) == Some(p)
    requires OrdersRead(cfg.rules, w.server, Retries(cfg), p.exchange, p.next) == Some(o) && o.payload.Array?
    requires Normalized(cfg.rules, p.payload, p.exchange, e.positions)
    requires e.orders == Payloads.OpenOrders(cfg.rules, o.payload.items, o.exchange) && e.exchange == o.exchange
    ensures LeftToFills(cfg, w, k, t, e, o.next, NamesForFills(cfg, w, p.payload, t))
  {
    hide PositionsRead, OrdersRead, Payloads.OpenOrders, GathersFills, NamesForFills, Normalized;
    forall x, end ensures Gathers(cfg, w, k, t, x, end)
                    <==> SameBefore(e, x) && GathersFills(cfg, w, o.next, NamesForFills(cfg, w, p.payload, t), x, end) {
      if Gathers(cfg, w, k, t, x, end) {
        NormalizedIsUnique(cfg.rules, p.payload, p.exchange, e.positions, x.positions);
      }
    }
  }

  /** The trades decide: with usable ones the replies amount to the evidence, and without to none. */
  lemma FillsDecide(cfg: Config, w: World, k: nat, t: nat, e: Evidence, next: nat, names: set<string>, e': Evidence, end: nat)
    requires LeftToFills(cfg, w, k, t, e, next, names) && SameBefore(e, e') && GathersFills(cfg, w, next, names, e', end)
    ensures Gathers(cfg, w, k, t, e', end)
    ensures e'.covered == e'.selected
  {
  }

  lemma NoFillsNoEvidence(cfg: Config, w: World, k: nat, t: nat, e: Evidence, next: nat, names: set<string>)
    requires LeftToFills(cfg, w, k, t, e, next, names) && NoFills(cfg, w, next, names, e)
    ensures forall x, end :: !Gathers(cfg, w, k, t, x, end)
  {
    hide Gathers, GathersFills, SameBefore;
  }

  // ---------- Where evidence comes from ----------

  /** Reply `i` is an error-free body with this payload. */
  predicate Replied(w: World, i: nat, payload: Json) {
    w.server(i) == Body(payload) && ErrorCode(payload).None?
  }

  lemma CallReplied(w: World, limit: nat, k: nat)
    ensures var call := Follow(w.server, limit, k, 0, false);
            call.next > k && (call.fetch.Fetched? ==> Replied(w, call.next - 1, call.fetch.payload))
  {
    FollowAdvances(w.server, limit, k, 0, false);
    FetchedIsLast(w.server, limit, k, 0, false);
  }

  lemma {:induction false} FillsAdvance(rules: Rules, w: World, limit: nat, n: nat, k: nat)
    ensures var f := FillsRead(rules, w.server, limit, n, k); f.Some? ==> f.value.next >= k + n
  {
    if n > 0 {
      FillsAdvance(rules, w, limit, n - 1, k);
      var before := FillsRead(rules, w.server, limit, n - 1, k);
      if before.Some? {
        CallReplied(w, limit, before.value.next);
      }
    }
  }

  /** Every trade is a row of a list that the server replied with. */
  lemma {:induction false} FillsAreReplied(rules: Rules, w: World, limit: nat, n: nat, k: nat, row: Json)
    requires FillsRead(rules, w.server, limit, n, k).Some? && row in FillsRead(rules, w.server, limit, n, k).value.rows
    ensures exists i, payload ::
              k <= i < FillsRead(rules, w.server, limit, n, k).value.next && Replied(w, i, payload) && payload.Array? && row in payload.items
  {
    var before := FillsRead(rules, w.server, limit, n - 1, k).value;
    CallReplied(w, limit, before.next);
    FillsAdvance(rules, w, limit, n - 1, k);
    var call := Follow(w.server, limit, before.next, 0, false);
    if row in before.rows {
      FillsAreReplied(rules, w, limit, n - 1, k, row);
    } else {
      assert Replied(w, call.next - 1, call.fetch.payload) && row in call.fetch.payload.items;
    }
  }

  /** Gathered positions are the normalization of the error-free reply `i`, gathered orders the open ones
      of reply `j` behind it, and behind that there is a reply at least for each selected symbol. */
  lemma GatheredFromReplies(cfg: Config, w: World, k: nat, t: nat, e: Evidence, end: nat)
    returns (i: nat, p: Json, exchange: Option<set<string>>, j: nat, o: Json)
    requires Gathers(cfg, w, k, t, e, end)
    ensures k <= i < j && j + |e.selected| < end
    ensures Replied(w, i, p) && Normalized(cfg.rules, p, exchange, e.positions)
    ensures Replied(w, j, o) && OrdersUsable(cfg.rules, o, e.exchange) && e.orders == Payloads.OpenOrders(cfg.rules, o.items, e.exchange)
  {
    hide Normalized, OrdersUsable, PositionsUsable, Payloads.OpenOrders, FillsRead, Follow, Selects, Replied;
    var limit := Retries(cfg);
    var positions := PositionsRead(cfg.rules, w.server, limit, w.tracked(t), k).value;
    var orders := OrdersRead(cfg.rules, w.server, limit, positions.exchange, positions.next).value;
    CallReplied(w, limit, k);
    CallReplied(w, limit, positions.next);
    FillsAdvance(cfg.rules, w, limit, |e.selected|, orders.next);
    i, j := Follow(w.server, limit, k, 0, false).next - 1, Follow(w.server, limit, positions.next, 0, false).next - 1;
    p, exchange, o := positions.payload, positions.exchange, orders.payload;
  }

  /** Every gathered trade is a row of a list that one of the replies holds. */
  lemma GatheredTradesAreReplied(cfg: Config, w: World, k: nat, t: nat, e: Evidence, end: nat, row: Json)
    requires Gathers(cfg, w, k, t, e, end) && row in e.fills
    ensures exists i, payload :: k <= i < end && Replied(w, i, payload) && payload.Array? && row in payload.items
  {
    hide Normalized, OrdersUsable, PositionsUsable, Payloads.OpenOrders, FillsRead, Follow, Selects, Replied;
    var limit := Retries(cfg);
    var positions := PositionsRead(cfg.rules, w.server, limit, w.tracked(t), k).value;
    var orders := OrdersRead(cfg.rules, w.server, limit, positions.exchange, positions.next).value;
    CallReplied(w, limit, k);
    CallReplied(w, limit, positions.next);
    FillsAreReplied(cfg.rules, w, limit, |e.selected|, orders.next, row);
  }
}
