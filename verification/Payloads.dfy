/** How binance_reconciliation_provider.py reads the exchange's payloads: symbols, positions,
    open orders and exchange information, each failing closed. */
module Payloads {
  import opened Options

  datatype Json =
    | Null
    | Bool(b: bool)
    | Int(n: int)
    | Float(r: real)
    | Text(text: string)
    | Array(items: seq<Json>)
    | Object(fields: map<string, Json>)

  /** `row.get(name)` of a mapping. */
  function Field(row: Json, name: string): Json {
    if row.Object? && name in row.fields then row.fields[name] else Null
  }

  /** The number of what Python counts as an integer: JSON's true and false included. */
  function IntOf(value: Json): Option<int> {
    match value
    case Int(n) => Some(n)
    case Bool(b) => Some(if b then 1 else 0)
    case _ => None
  }

  datatype Amount = Malformed | NotFinite | Finite(qty: real)

  /** What the source takes from Unicode tables, decimal parsing and hashing. Every claim holds
      for all of them. `converts` says whether the other fields of a row can be converted. */
  datatype Rules = Rules(
    safe: string -> bool,
    upper: string -> string,
    decimal: Json -> Amount,
    digest: Json -> string,
    converts: Json -> bool,
    epsilon: real)

  datatype Failure = AuthFailure | PayloadFailure | ScopeFailure | ExposureFailure | RequestFailure

  // ---------- Symbols ----------

  predicate SymbolShape(s: string) {
    2 <= |s| <= 20 && forall i :: 0 <= i < |s| ==> 'A' <= s[i] <= 'Z' || '0' <= s[i] <= '9'
  }

  /** `_valid_symbol`: the normalized symbol, or nothing when the raw one is out of scope. */
  function ValidSymbol(rules: Rules, raw: Json, exchange: Option<set<string>>): Option<string> {
    if !raw.Text? || !rules.safe(raw.text) then None
    else if SymbolShape(rules.upper(raw.text)) then Some(rules.upper(raw.text))
    else if exchange.Some? && raw.text in exchange.value then Some(raw.text)
    else None
  }

  /** A safe name outside the usual shape can be accepted only through exchange information. */
  predicate NeedsLookup(rules: Rules, raw: Json) {
    raw.Text? && rules.safe(raw.text) && !SymbolShape(rules.upper(raw.text))
  }

  // ---------- Positions ----------

  datatype Position = Position(symbol: string, valid: bool, qty: real, active: bool)

  function AmountOf(rules: Rules, row: Json): Amount {
    if Field(row, "positionAmt").Null? then Malformed else rules.decimal(Field(row, "positionAmt"))
  }

  function Abs(x: real): real {
    if x < 0.0 then -x else x
  }

  function PositionOf(rules: Rules, row: Json, exchange: Option<set<string>>): Position
    requires AmountOf(rules, row).Finite?
  {
    var raw, qty := Field(row, "symbol"), AmountOf(rules, row).qty;
    var symbol := ValidSymbol(rules, raw, exchange);
    Position(if symbol.Some? then symbol.value else rules.digest(raw), symbol.Some?, qty, Abs(qty) > rules.epsilon)
  }

  /** A row that normalization accepts: an invalid symbol is tolerated only at exactly zero. */
  predicate Acceptable(rules: Rules, row: Json, exchange: Option<set<string>>) {
    && row.Object? && AmountOf(rules, row).Finite? && rules.converts(row)
    && (PositionOf(rules, row, exchange).valid || AmountOf(rules, row).qty == 0.0)
  }

  /** The rows that were normalized before the first failure stay with an exposure failure. */
  datatype PositionsResult =
    | Positions(rows: seq<Position>, warnings: seq<string>)
    | PositionsFailed(failure: Failure, kept: seq<Position>)

  predicate PositionsUsable(rules: Rules, payload: Json, exchange: Option<set<string>>) {
    payload.Array? && forall i :: 0 <= i < |payload.items| ==> Acceptable(rules, payload.items[i], exchange)
  }

  /** The positions are those of the payload's rows. */
  predicate Normalized(rules: Rules, payload: Json, exchange: Option<set<string>>, rows: seq<Position>) {
    && PositionsUsable(rules, payload, exchange) && |rows| == |payload.items|
    && forall i :: 0 <= i < |rows| ==> rows[i] == PositionOf(rules, payload.items[i], exchange)
  }

  function RowFailure(rules: Rules, row: Json): Failure {
    if !row.Object? then PayloadFailure
    else if !AmountOf(rules, row).Finite? then ExposureFailure
    else if !rules.converts(row) then RequestFailure
    else ExposureFailure
  }

  predicate FirstUnacceptable(rules: Rules, rows: seq<Json>, exchange: Option<set<string>>, k: nat) {
    && k < |rows| && !Acceptable(rules, rows[k], exchange)
    && forall i :: 0 <= i < k ==> Acceptable(rules, rows[i], exchange)
  }

  method NormalizePositions(rules: Rules, payload: Json, exchange: Option<set<string>>) returns (r: PositionsResult)
    ensures r.Positions? <==> PositionsUsable(rules, payload, exchange)
    ensures r.Positions? ==> Normalized(rules, payload, exchange, r.rows)
    ensures r.Positions? ==> |r.warnings| == |Invalid(r.rows)|
    ensures r.PositionsFailed? && !payload.Array? ==> r.failure == PayloadFailure
    ensures r.PositionsFailed? && payload.Array? ==>
      exists k :: 0 <= k < |payload.items| && FirstUnacceptable(rules, payload.items, exchange, k)
                  && r.failure == RowFailure(rules, payload.items[k])
  {
    if !payload.Array? {
      return PositionsFailed(PayloadFailure, []);
    }
    var out: seq<Position>, warnings: seq<string> := [], [];
    for k := 0 to |payload.items|
      invariant |out| == k && |warnings| == |Invalid(out)|
      invariant forall i :: 0 <= i < k ==> Acceptable(rules, payload.items[i], exchange) && out[i] == PositionOf(rules, payload.items[i], exchange)
    {
      var row := payload.items[k];
      if !row.Object? {
        return PositionsFailed(PayloadFailure, out);
      }
      if !AmountOf(rules, row).Finite? {
        return PositionsFailed(ExposureFailure, out);
      }
      if !rules.converts(row) {
        return PositionsFailed(RequestFailure, out);
      }
      var position := PositionOf(rules, row, exchange);
      out := out + [position];
      assert out[..k] + [position] == out;
      InvalidAppend(out[..k], position);
      if !position.valid && position.qty == 0.0 {
        warnings := warnings + [position.symbol];
      } else if !position.valid {
        return PositionsFailed(ExposureFailure, out);
      }
    }
    r := Positions(out, warnings);
  }

  function Invalid(rows: seq<Position>): seq<Position> {
    if rows == [] then [] else (if rows[0].valid then [] else [rows[0]]) + Invalid(rows[1..])
  }

  lemma {:induction false} InvalidAppend(rows: seq<Position>, p: Position)
    ensures Invalid(rows + [p]) == Invalid(rows) + if p.valid then [] else [p]
  {
    if rows != [] {
      assert (rows + [p])[1..] == rows[1..] + [p];
      InvalidAppend(rows[1..], p);
    }
  }

  predicate RowNeedsLookup(rules: Rules, row: Json) {
    && NeedsLookup(rules, Field(row, "symbol"))
    && !AmountOf(rules, row).Malformed? && AmountOf(rules, row) != Finite(0.0)
  }

  predicate SomeRowNeedsLookup(rules: Rules, payload: Json) {
    payload.Array? && exists i :: 0 <= i < |payload.items| && RowNeedsLookup(rules, payload.items[i])
  }

  method PositionsNeedLookup(rules: Rules, payload: Json) returns (need: bool)
    ensures need <==> SomeRowNeedsLookup(rules, payload)
  {
    if !payload.Array? {
      return false;
    }
    for k := 0 to |payload.items|
      invariant forall i :: 0 <= i < k ==> !RowNeedsLookup(rules, payload.items[i])
    {
      var row := payload.items[k];
      if NeedsLookup(rules, Field(row, "symbol")) {
        var amount := AmountOf(rules, row);
        if !amount.Malformed? && amount != Finite(0.0) {
          return true;
        }
      }
    }
    need := false;
  }

  // ---------- Open orders ----------

  datatype Order = Order(symbol: string, row: Json)

  predicate IsOpen(rules: Rules, row: Json) {
    var status := Field(row, "status");
    status.Text? && rules.upper(status.text) in {"NEW", "PARTIALLY_FILLED", "PENDING_NEW"}
  }

  datatype OrdersResult = Orders(orders: seq<Order>) | OrdersFailed(failure: Failure)

  predicate OrderAcceptable(rules: Rules, row: Json, exchange: Option<set<string>>) {
    row.Object? && (IsOpen(rules, row) ==> ValidSymbol(rules, Field(row, "symbol"), exchange).Some? && rules.converts(row))
  }

  function OpenOrders(rules: Rules, rows: seq<Json>, exchange: Option<set<string>>): seq<Order> {
    if rows == [] then []
    else
      var row, symbol := rows[|rows| - 1], ValidSymbol(rules, Field(rows[|rows| - 1], "symbol"), exchange);
      OpenOrders(rules, rows[..|rows| - 1], exchange)
      + if IsOpen(rules, row) && symbol.Some? then [Order(symbol.value, row)] else []
  }

  predicate OrdersUsable(rules: Rules, payload: Json, exchange: Option<set<string>>) {
    payload.Array? && forall i :: 0 <= i < |payload.items| ==> OrderAcceptable(rules, payload.items[i], exchange)
  }

  method NormalizeOrders(rules: Rules, payload: Json, exchange: Option<set<string>>) returns (r: OrdersResult)
    ensures r.Orders? <==> OrdersUsable(rules, payload, exchange)
    ensures r.Orders? ==> r.orders == OpenOrders(rules, payload.items, exchange)
  {
    if !payload.Array? {
      return OrdersFailed(PayloadFailure);
    }
    var out: seq<Order> := [];
    for k := 0 to |payload.items|
      invariant forall i :: 0 <= i < k ==> OrderAcceptable(rules, payload.items[i], exchange)
      invariant out == OpenOrders(rules, payload.items[..k], exchange)
    {
      var row := payload.items[k];
      assert payload.items[..k + 1][..k] == payload.items[..k];
      if !row.Object? {
        return OrdersFailed(PayloadFailure);
      }
      if IsOpen(rules, row) {
        var symbol := ValidSymbol(rules, Field(row, "symbol"), exchange);
        if symbol.None? {
          return OrdersFailed(ScopeFailure);
        }
        if !rules.converts(row) {
          return OrdersFailed(RequestFailure);
        }
        out := out + [Order(symbol.value, row)];
      }
    }
    assert payload.items[..|payload.items|] == payload.items;
    r := Orders(out);
  }

  predicate OrdersNeedLookup(rules: Rules, payload: Json) {
    && payload.Array?
    && exists i :: 0 <= i < |payload.items| && IsOpen(rules, payload.items[i]) && NeedsLookup(rules, Field(payload.items[i], "symbol"))
  }

  // ---------- Exchange information and fills ----------

  predicate Listed(rules: Rules, row: Json) {
    Field(row, "symbol").Text? && rules.safe(Field(row, "symbol").text)
  }

  /** All listed symbols, or nothing when any row of the listing is unusable. */
  function ListedSymbols(rules: Rules, payload: Json): Option<set<string>> {
    var rows := Field(payload, "symbols");
    if rows.Array? && forall i :: 0 <= i < |rows.items| ==> Listed(rules, rows.items[i])
    then Some(set i | 0 <= i < |rows.items| :: Field(rows.items[i], "symbol").text)
    else None
  }

  method ExchangeSymbols(rules: Rules, payload: Json) returns (r: Option<set<string>>)
    ensures r == ListedSymbols(rules, payload)
  {
    var rows := Field(payload, "symbols");
    if !rows.Array? {
      return None;
    }
    var symbols: set<string> := {};
    for k := 0 to |rows.items|
      invariant forall i :: 0 <= i < k ==> Listed(rules, rows.items[i])
      invariant symbols == set i | 0 <= i < k :: Field(rows.items[i], "symbol").text
    {
      if !Listed(rules, rows.items[k]) {
        return None;
      }
      symbols := symbols + {Field(rows.items[k], "symbol").text};
    }
    r := Some(symbols);
  }

  /** User trades carry no symbol check: a list of convertible mappings is taken as it is. */
  function FillsFailure(rules: Rules, payload: Json): Option<Failure> {
    if !payload.Array? || exists i :: 0 <= i < |payload.items| && !payload.items[i].Object? then Some(PayloadFailure)
    else if exists i :: 0 <= i < |payload.items| && !rules.converts(payload.items[i]) then Some(RequestFailure)
    else None
  }
}
