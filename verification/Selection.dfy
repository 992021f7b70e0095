/** Which symbols' trades a snapshot reads, told by the rows of the payloads alone. */
module Selection {
  import opened Options
  import opened Payloads
  import opened Protocol
  import opened Gathering

  // ---------- Names ----------

  /** Two to twenty capital letters and digits, by code point. */
  predicate UsualName(s: string) {
    1 < |s| < 21 && forall c :: c in s ==> 65 <= c as int < 91 || 48 <= c as int < 58
  }

  /** A safe name is taken in capitals when those have the usual shape, as it is when the exchange lists it
      otherwise, and not at all in every other case. */
  lemma ValidSymbolExactly(rules: Rules, text: string, exchange: Option<set<string>>, x: string)
    ensures ValidSymbol(rules, Text(text), exchange) == Some(x) <==>
              rules.safe(text)
              && if UsualName(rules.upper(text)) then x == rules.upper(text)
                 else x == text && exchange != None && text in exchange.value
  {
    var s := rules.upper(text);
    assert UsualName(s) <==> SymbolShape(s) by {
      if UsualName(s) {
        forall i | 0 <= i < |s| ensures 'A' <= s[i] <= 'Z' || '0' <= s[i] <= '9' {
          assert s[i] in s;
        }
      }
    }
  }

  /** A lookup is needed for exactly those names that some exchange information would make valid and none does not. */
  lemma LookupMatters(rules: Rules, raw: Json)
    ensures NeedsLookup(rules, raw) <==> exists names :: ValidSymbol(rules, raw, Some(names)) != ValidSymbol(rules, raw, None)
    ensures NeedsLookup(rules, raw) ==> ValidSymbol(rules, raw, None) == None
  {
    hide SymbolShape;
    if NeedsLookup(rules, raw) {
      assert ValidSymbol(rules, raw, Some({raw.text})) == Some(raw.text);
    }
  }

  /** What counts as an integer in a reply: JSON's truth values stand for one and zero. */
  lemma IntegersExactly(value: Json, n: int)
    ensures IntOf(value) == Some(n) <==> value == Int(n) || (value == Bool(true) && n == 1) || (value == Bool(false) && n == 0)
  {
  }

  /** Anything but a text names nothing. */
  lemma OnlyTextsAreNames(rules: Rules, raw: Json, exchange: Option<set<string>>)
    requires !raw.Text?
    ensures ValidSymbol(rules, raw, exchange) == None
  {
  }

  // ---------- Positions ----------

  /** The amount of a position row is further from zero than the dust threshold, on either side. */
  predicate Exposed(rules: Rules, row: Json) {
    var amount := Field(row, "positionAmt");
    && !amount.Null? && rules.decimal(amount).Finite?
    && (rules.decimal(amount).qty > rules.epsilon || rules.decimal(amount).qty < -rules.epsilon)
  }

  /** The symbol that a position row stands for; only one without exposure may have no usable one. */
  function NameOf(rules: Rules, row: Json, exchange: Option<set<string>>): string {
    match ValidSymbol(rules, Field(row, "symbol"), exchange)
    case Some(x) => x
    case None => rules.digest(Field(row, "symbol"))
  }

  /** Long or short, a normalized position is active exactly when its row's amount exceeds the threshold. */
  lemma ActiveIsExposed(rules: Rules, payload: Json, exchange: Option<set<string>>, rows: seq<Position>, i: nat)
    requires Normalized(rules, payload, exchange, rows) && i < |rows|
    ensures rows[i].active <==> Exposed(rules, payload.items[i])
    ensures rows[i].symbol == NameOf(rules, payload.items[i], exchange)
    ensures rules.decimal(Field(payload.items[i], "positionAmt")) == Finite(rows[i].qty)
    ensures rows[i].valid <==> ValidSymbol(rules, Field(payload.items[i], "symbol"), exchange) != None
    ensures rows[i].valid || rows[i].qty == 0.0
  {
    var row := payload.items[i];
    assert Acceptable(rules, row, exchange) && rows[i] == PositionOf(rules, row, exchange);
    hide ValidSymbol;
  }

  // ---------- Open orders ----------

  /** The order's status, in capitals, is one of the three open ones. */
  predicate Outstanding(rules: Rules, row: Json) {
    match Field(row, "status")
    case Text(status) =>
      rules.upper(status) == "NEW" || rules.upper(status) == "PARTIALLY_FILLED" || rules.upper(status) == "PENDING_NEW"
    case _ => false
  }

  lemma OpenIsOutstanding(rules: Rules, row: Json)
    ensures IsOpen(rules, row) <==> Outstanding(rules, row)
  {
  }

  /** Exchange information is fetched for the orders exactly when one that is outstanding has a name that needs it. */
  lemma OrdersLookupExactly(rules: Rules, payload: Json)
    ensures OrdersNeedLookup(rules, payload) <==>
              payload.Array? && exists row :: row in payload.items && Outstanding(rules, row) && NeedsLookup(rules, Field(row, "symbol"))
  {
    hide NeedsLookup;
    if payload.Array? {
      forall row | row in payload.items ensures IsOpen(rules, row) <==> Outstanding(rules, row) {
        OpenIsOutstanding(rules, row);
      }
      hide IsOpen, Outstanding;
      if OrdersNeedLookup(rules, payload) {
        var i :| 0 <= i < |payload.items| && IsOpen(rules, payload.items[i]) && NeedsLookup(rules, Field(payload.items[i], "symbol"));
        assert payload.items[i] in payload.items;
      }
    }
  }

  /** Trades are usable exactly when they are a list of convertible objects; a missing list or another kind of row is
      the fault of the payload. */
  lemma FillsExactly(rules: Rules, payload: Json)
    ensures FillsFailure(rules, payload) == None <==>
              payload.Array? && forall row :: row in payload.items ==> row.Object? && rules.converts(row)
    ensures FillsFailure(rules, payload) == Some(PayloadFailure) <==>
              !payload.Array? || exists row :: row in payload.items && !row.Object?
  {
  }

  ghost predicate OrderFor(rules: Rules, rows: seq<Json>, exchange: Option<set<string>>, x: string) {
    exists i :: 0 <= i < |rows| && Outstanding(rules, rows[i]) && ValidSymbol(rules, Field(rows[i], "symbol"), exchange) == Some(x)
  }

  ghost predicate OrderNamed(orders: seq<Order>, x: string) {
    exists i :: 0 <= i < |orders| && orders[i].symbol == x
  }

  lemma OrderNamedMore(orders: seq<Order>, o: Order, x: string)
    ensures OrderNamed(orders + [o], x) <==> OrderNamed(orders, x) || o.symbol == x
  {
    var all := orders + [o];
    assert all[|orders|] == o && forall i :: 0 <= i < |orders| ==> all[i] == orders[i];
  }

  /** The kept orders are those of the outstanding rows. */
  lemma {:induction false} OrdersAreOutstanding(rules: Rules, rows: seq<Json>, exchange: Option<set<string>>, x: string)
    ensures var orders := Payloads.OpenOrders(rules, rows, exchange);
            OrderNamed(orders, x) <==> OrderFor(rules, rows, exchange, x)
  {
    if rows != [] {
      var init, row := rows[..|rows| - 1], rows[|rows| - 1];
      OrdersAreOutstanding(rules, init, exchange, x);
      OpenIsOutstanding(rules, row);
      OrderForMore(rules, rows, exchange, x);
      OneMoreOrder(rules, rows, exchange);
      hide ValidSymbol, IsOpen, Outstanding, Payloads.OpenOrders, OrderFor, OrderNamed;
      var symbol := ValidSymbol(rules, Field(row, "symbol"), exchange);
      if symbol.Some? {
        OrderNamedMore(Payloads.OpenOrders(rules, init, exchange), Order(symbol.value, row), x);
      }
    }
  }

  lemma OneMoreOrder(rules: Rules, rows: seq<Json>, exchange: Option<set<string>>)
    requires rows != []
    ensures var row, before := rows[|rows| - 1], Payloads.OpenOrders(rules, rows[..|rows| - 1], exchange);
            var symbol := ValidSymbol(rules, Field(row, "symbol"), exchange);
            Payloads.OpenOrders(rules, rows, exchange)
            == if IsOpen(rules, row) && symbol.Some? then before + [Order(symbol.value, row)] else before
  {
  }

  lemma OrderForMore(rules: Rules, rows: seq<Json>, exchange: Option<set<string>>, x: string)
    requires rows != []
    ensures OrderFor(rules, rows, exchange, x)
            <==> OrderFor(rules, rows[..|rows| - 1], exchange, x)
                 || (Outstanding(rules, rows[|rows| - 1]) && ValidSymbol(rules, Field(rows[|rows| - 1], "symbol"), exchange) == Some(x))
  {
    hide ValidSymbol, Outstanding;
    var init := rows[..|rows| - 1];
    assert forall i :: 0 <= i < |init| ==> init[i] == rows[i];
    if OrderFor(rules, init, exchange, x) {
      var i :| 0 <= i < |init| && Outstanding(rules, init[i]) && ValidSymbol(rules, Field(init[i], "symbol"), exchange) == Some(x);
      assert Outstanding(rules, rows[i]);
    }
  }

  // ---------- Evidence ----------

  /** A reply that evidence comes from is a body without a negative error code. */
  lemma RepliedExactly(w: World, i: nat, payload: Json)
    ensures Replied(w, i, payload) <==> w.server(i) == Body(payload) && forall n :: n < 0 ==> Field(payload, "code") != Int(n)
  {
    if Replied(w, i, payload) {
      forall n | n < 0 ensures Field(payload, "code") != Int(n) {
        assert Field(payload, "code") == Int(n) ==> ErrorCode(payload) == Some(n);
      }
    } else if ErrorCode(payload).Some? {
      assert Field(payload, "code") == Int(ErrorCode(payload).value);
    }
  }

  // ---------- The selection ----------

  ghost predicate TrackedAs(rules: Rules, names: set<string>, exchange: Option<set<string>>, x: string) {
    exists name :: name in names && ValidSymbol(rules, Text(name), exchange) == Some(x)
  }

  ghost predicate PositionFor(rules: Rules, rows: seq<Json>, exchange: Option<set<string>>, x: string) {
    exists i :: 0 <= i < |rows| && Exposed(rules, rows[i]) && NameOf(rules, rows[i], exchange) == x
  }

  ghost predicate PositionNamed(rows: seq<Position>, x: string) {
    exists i :: 0 <= i < |rows| && rows[i].active && rows[i].symbol == x
  }

  lemma PositionsAreExposed(rules: Rules, payload: Json, exchange: Option<set<string>>, rows: seq<Position>, x: string)
    requires Normalized(rules, payload, exchange, rows)
    ensures PositionNamed(rows, x) <==> PositionFor(rules, payload.items, exchange, x)
  {
    forall i | 0 <= i < |rows|
      ensures rows[i].active == Exposed(rules, payload.items[i]) && rows[i].symbol == NameOf(rules, payload.items[i], exchange) {
      ActiveIsExposed(rules, payload, exchange, rows, i);
    }
    hide Exposed, NameOf, PositionOf, PositionsUsable;
    assert |rows| == |payload.items|;
  }

  lemma InScopeExactly(e: Evidence, rules: Rules, names: set<string>, x: string)
    requires InScope(e.selected, e.orders, e.positions, e.exchange, rules, names)
    ensures x in e.selected <==> TrackedAs(rules, names, e.exchange, x) || OrderNamed(e.orders, x) || PositionNamed(e.positions, x)
  {
    hide ValidSymbol;
  }

  /** When the replies amount to evidence, trades are read of exactly the tracked symbols, the symbols of
      outstanding orders and the symbols of positions, long or short, beyond the dust threshold. */
  lemma SelectedExactly(cfg: Config, w: World, k: nat, t: nat, e: Evidence, end: nat, p: Reading, o: Reading, x: string)
    requires Gathers(cfg, w, k, t, e, end)
    requires PositionsRead(cfg.rules, w.server, Retries(cfg), w.tracked(t), k) == Some(p)
    requires OrdersRead(cfg.rules, w.server, Retries(cfg), p.exchange, p.next) == Some(o)
    ensures p.payload.Array? && o.payload.Array?
    ensures x in e.selected <==>
              || TrackedAs(cfg.rules, NamesForFills(cfg, w, p.payload, t), o.exchange, x)
              || OrderFor(cfg.rules, o.payload.items, o.exchange, x)
              || PositionFor(cfg.rules, p.payload.items, p.exchange, x)
  {
    hide PositionsRead, OrdersRead, FillsRead, NamesForFills, ValidSymbol, Payloads.OpenOrders, Normalized, OrderFor, PositionFor, OrdersUsable,
         InScope, OrderNamed, PositionNamed, TrackedAs;
    InScopeExactly(e, cfg.rules, NamesForFills(cfg, w, p.payload, t), x);
    NormalizedIsArray(cfg.rules, p.payload, p.exchange, e.positions);
    OrdersReadIsArray(cfg, w, p, o);
    PositionsAreExposed(cfg.rules, p.payload, p.exchange, e.positions, x);
    OrdersAreOutstanding(cfg.rules, o.payload.items, o.exchange, x);
  }

  lemma NormalizedIsArray(rules: Rules, payload: Json, exchange: Option<set<string>>, rows: seq<Position>)
    requires Normalized(rules, payload, exchange, rows)
    ensures payload.Array?
  {
  }

  lemma OrdersReadIsArray(cfg: Config, w: World, p: Reading, o: Reading)
    requires OrdersRead(cfg.rules, w.server, Retries(cfg), p.exchange, p.next) == Some(o)
    ensures o.payload.Array?
  {
    hide Follow;
  }

  /** In particular no exposed position is left out: its symbol is usable and its trades are read. (Under a negative
      threshold even a position of zero counts as exposed, and that one may lack a usable symbol.) */
  lemma ExposureIsSelected(cfg: Config, w: World, k: nat, t: nat, e: Evidence, end: nat, p: Reading, i: nat)
    requires Gathers(cfg, w, k, t, e, end)
    requires PositionsRead(cfg.rules, w.server, Retries(cfg), w.tracked(t), k) == Some(p)
    requires p.payload.Array? && i < |p.payload.items| && Exposed(cfg.rules, p.payload.items[i])
    requires cfg.rules.epsilon >= 0.0 || cfg.rules.decimal(Field(p.payload.items[i], "positionAmt")) != Finite(0.0)
    ensures var symbol := ValidSymbol(cfg.rules, Field(p.payload.items[i], "symbol"), p.exchange);
            symbol.Some? && symbol.value in e.selected && symbol.value in e.covered
  {
    hide PositionsRead, OrdersRead, FillsRead, NamesForFills, ValidSymbol, Payloads.OpenOrders, Selects, Exposed, Normalized;
    var o := OrdersRead(cfg.rules, w.server, Retries(cfg), p.exchange, p.next).value;
    ExposedIsNamed(cfg.rules, p.payload, p.exchange, e.positions, i);
    SelectedExactly(cfg, w, k, t, e, end, p, o, NameOf(cfg.rules, p.payload.items[i], p.exchange));
  }

  lemma ExposedIsNamed(rules: Rules, payload: Json, exchange: Option<set<string>>, rows: seq<Position>, i: nat)
    requires Normalized(rules, payload, exchange, rows) && payload.Array? && i < |payload.items|
    requires Exposed(rules, payload.items[i]) && (rules.epsilon >= 0.0 || rules.decimal(Field(payload.items[i], "positionAmt")) != Finite(0.0))
    ensures ValidSymbol(rules, Field(payload.items[i], "symbol"), exchange).Some?
  {
    ActiveIsExposed(rules, payload, exchange, rows, i);
  }
}
