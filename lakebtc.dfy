/** The LakeBTC exchange adapter: how it names markets, remaps tickers, shapes trades and
    orders, builds and signs requests, and classifies error responses. Every network call
    is left to the base client; what is modelled here is what the adapter computes around
    those calls. Responses arrive as decoded values; clock readings arrive as numbers. */
module LakeBtc {
  import opened Wrappers
  import opened Strings
  import opened Json
  import opened ExchangeBase

  // ---------------------------------------------------------------------------
  // The exchange description
  // ---------------------------------------------------------------------------

  const ExchangeId: string := "lakebtc"
  const ApiVersion: string := "api_v2"
  const ApiUrl: string := "https://api.lakebtc.com"

  /** The private (signed, POST) endpoints the exchange declares. */
  datatype PrivateEndpoint =
    | BuyOrder
    | CancelOrders
    | GetAccountInfo
    | GetExternalAccounts
    | GetOrders
    | GetTrades
    | OpenOrders
    | SellOrder

  /** The path each private endpoint is declared under. */
  function PrivatePath(e: PrivateEndpoint): string {
    match e
    case BuyOrder => "buyOrder"
    case CancelOrders => "cancelOrders"
    case GetAccountInfo => "getAccountInfo"
    case GetExternalAccounts => "getExternalAccounts"
    case GetOrders => "getOrders"
    case GetTrades => "getTrades"
    case OpenOrders => "openOrders"
    case SellOrder => "sellOrder"
  }

  /** The broad-match exception table, in declaration order: a message containing the key
      raises the kind. */
  const BroadExceptions: seq<(string, ErrorKind)> := [
    ("Signature", AuthenticationError),
    ("invalid symbol", BadSymbol),
    ("Volume doit", InvalidOrder),
    ("insufficient_balance", InsufficientFunds)
  ]

  /** ASSUMPTION (base client): the generated method of an endpoint is named `privatePost`
      followed by its capitalised path. */
  function MethodSuffix(e: PrivateEndpoint): string {
    Capitalize(PrivatePath(e))
  }

  /** The endpoint whose generated method is `privatePost` + `suffix`, if any: the source's
      `getattr` lookup, written as an explicit mapping onto the endpoint enumeration. */
  function PrivatePostMethod(suffix: string): (r: Option<PrivateEndpoint>)
    ensures r.Some? ==> MethodSuffix(r.value) == suffix
    ensures r.None? ==> forall e :: MethodSuffix(e) != suffix
  {
    if suffix == MethodSuffix(BuyOrder) then Some(BuyOrder)
    else if suffix == MethodSuffix(CancelOrders) then Some(CancelOrders)
    else if suffix == MethodSuffix(GetAccountInfo) then Some(GetAccountInfo)
    else if suffix == MethodSuffix(GetExternalAccounts) then Some(GetExternalAccounts)
    else if suffix == MethodSuffix(GetOrders) then Some(GetOrders)
    else if suffix == MethodSuffix(GetTrades) then Some(GetTrades)
    else if suffix == MethodSuffix(OpenOrders) then Some(OpenOrders)
    else if suffix == MethodSuffix(SellOrder) then Some(SellOrder)
    else None
  }

  // ---------------------------------------------------------------------------
  // Markets
  // ---------------------------------------------------------------------------

  /** A market as `fetch_markets` produces it. */
  datatype Market = Market(
    id: string,
    symbol: string,
    base: string,
    quote: string,
    baseId: string,
    quoteId: string,
    info: Value,
    active: Option<bool>,
    precision: Value,
    limits: Value)

  /** The market built for one key of the ticker response. */
  function MarketFromEntry(id: string, info: Value, precision: Value, limits: Value): Market {
    var baseId := Slice(id, 0, 3);
    var quoteId := Slice(id, 3, 6);
    var base := Upper(baseId);
    var quote := Upper(quoteId);
    Market(id, base + "/" + quote, base, quote, baseId, quoteId, info, None, precision, limits)
  }

  /** The markets built for a run of ticker entries, in order. */
  function MarketsFrom(entries: Dict<Value>, precision: Value, limits: Value): (r: seq<Market>)
    ensures |r| == |entries|
    decreases |entries|
  {
    if entries == [] then []
    else
      var last := entries[|entries| - 1];
      MarketsFrom(entries[..|entries| - 1], precision, limits) + [MarketFromEntry(last.0, last.1, precision, limits)]
  }

  /** Market `i` is built from entry `i`. */
  lemma {:induction false} MarketsFromAt(entries: Dict<Value>, precision: Value, limits: Value, i: nat)
    requires i < |entries|
    ensures MarketsFrom(entries, precision, limits)[i] == MarketFromEntry(entries[i].0, entries[i].1, precision, limits)
    decreases |entries|
  {
    if i < |entries| - 1 {
      var init := entries[..|entries| - 1];
      assert init[i] == entries[i];
      MarketsFromAt(init, precision, limits, i);
    }
  }

  /** One more entry adds its market at the end. */
  lemma MarketsFromSnoc(entries: Dict<Value>, precision: Value, limits: Value, i: nat)
    requires i < |entries|
    ensures MarketsFrom(entries[..i + 1], precision, limits)
      == MarketsFrom(entries[..i], precision, limits) + [MarketFromEntry(entries[i].0, entries[i].1, precision, limits)]
  {
    assert entries[..i + 1][..i] == entries[..i];
  }

  /** `fetch_markets`: one market per key of the ticker response, in key order.
      `precision` and `limits` are the client's defaults. */
  method FetchMarkets(response: Dict<Value>, precision: Value, limits: Value) returns (result: seq<Market>)
    requires DistinctKeys(response)
    ensures |result| == |response|
    ensures forall i :: 0 <= i < |response| ==>
      result[i] == MarketFromEntry(response[i].0, response[i].1, precision, limits)
  {
    result := [];
    var keys := KeyList(response);
    for i := 0 to |keys|
      invariant result == MarketsFrom(response[..i], precision, limits)
    {
      var id := keys[i];
      assert Get(response, id) == Some(response[i].1) by {
        GetAt(response, i);
      }
      var market := Get(response, id).value;
      MarketsFromSnoc(response, precision, limits, i);
      result := result + [MarketFromEntry(id, market, precision, limits)];
    }
    assert response[..|keys|] == response;
    forall i | 0 <= i < |response|
      ensures result[i] == MarketFromEntry(response[i].0, response[i].1, precision, limits)
    {
      MarketsFromAt(response, precision, limits, i);
    }
  }

  /** The ids are cut at offsets 3 and 6; an id of at most six characters is split without loss. */
  lemma MarketIdSplit(id: string, info: Value, precision: Value, limits: Value)
    ensures var m := MarketFromEntry(id, info, precision, limits);
      && m.id == id && m.info == info && m.active == None
      && (|id| >= 6 ==> m.baseId == id[..3] && m.quoteId == id[3..6])
      && m.baseId + m.quoteId == (if |id| <= 6 then id else id[..6])
  {
    var m := MarketFromEntry(id, info, precision, limits);
    if |id| < 3 {
      assert m.baseId == id && m.quoteId == [];
    } else if |id| <= 6 {
      assert m.baseId == id[..3] && m.quoteId == id[3..];
      assert id[..3] + id[3..] == id;
    } else {
      assert id[..3] + id[3..6] == id[..6];
    }
  }

  /** For a six-character id the symbol is `BASE/QUOTE`: the two halves upper-cased around a slash. */
  lemma MarketSymbolLayout(id: string, info: Value, precision: Value, limits: Value)
    requires |id| == 6
    ensures var m := MarketFromEntry(id, info, precision, limits);
      && |m.symbol| == 7
      && m.symbol[..3] == Upper(id[..3]) == m.base
      && m.symbol[3] == '/'
      && m.symbol[4..] == Upper(id[3..]) == m.quote
  {
    var m := MarketFromEntry(id, info, precision, limits);
    assert m.baseId == id[..3] && m.quoteId == id[3..];
    assert m.symbol == m.base + "/" + m.quote;
  }

  /** The symbol splits back into base and quote when the id has no slash in it. */
  lemma MarketSymbolRoundTrip(id: string, info: Value, precision: Value, limits: Value)
    requires '/' !in id
    ensures var m := MarketFromEntry(id, info, precision, limits);
      Split(m.symbol, '/') == [m.base, m.quote]
  {
    var m := MarketFromEntry(id, info, precision, limits);
    assert '/' !in m.baseId && '/' !in m.quoteId by {
      forall c | c in m.baseId ensures c in id { }
      forall c | c in m.quoteId ensures c in id { }
    }
    UpperKeepsAbsent(m.baseId, '/');
    UpperKeepsAbsent(m.quoteId, '/');
    SplitJoin([m.base, m.quote], '/');
    assert Join("/", [m.base, m.quote]) == m.symbol;
  }

  // ---------------------------------------------------------------------------
  // Tickers
  // ---------------------------------------------------------------------------

  /** A ticker as `parse_ticker` produces it. */
  datatype Ticker = Ticker(
    symbol: Option<string>,
    timestamp: int,
    datetime: Option<string>,
    high: Option<real>,
    low: Option<real>,
    bid: Option<real>,
    bidVolume: Option<real>,
    ask: Option<real>,
    askVolume: Option<real>,
    vwap: Option<real>,
    open: Option<real>,
    close: Option<real>,
    last: Option<real>,
    previousClose: Option<real>,
    change: Option<real>,
    percentage: Option<real>,
    average: Option<real>,
    baseVolume: Option<real>,
    quoteVolume: Option<real>,
    info: Value)

  /** `parse_ticker`; `now` is the clock reading (milliseconds) taken by the call. */
  function ParseTicker(base: Base, ticker: Value, market: Option<Market>, now: int): Ticker {
    var symbol := if market.Some? then Some(market.value.symbol) else None;
    var last := base.safeFloat(ticker, "last");
    Ticker(
      symbol, now, base.iso8601(Some(now)),
      base.safeFloat(ticker, "high"), base.safeFloat(ticker, "low"),
      base.safeFloat(ticker, "bid"), None,
      base.safeFloat(ticker, "ask"), None,
      None, None, last, last, None, None, None, None,
      base.safeFloat(ticker, "volume"), None,
      ticker)
  }

  /** A ticker names its market when one is given, reads its prices from the matching keys,
      copies `last` into `close`, dates itself by the clock reading, and leaves the fields this
      exchange does not report empty. */
  lemma ParseTickerShape(base: Base, ticker: Value, market: Option<Market>, now: int)
    ensures var t := ParseTicker(base, ticker, market, now);
      && (t.symbol.Some? <==> market.Some?)
      && (market.Some? ==> t.symbol == Some(market.value.symbol))
      && t.high == base.safeFloat(ticker, "high") && t.low == base.safeFloat(ticker, "low")
      && t.bid == base.safeFloat(ticker, "bid") && t.ask == base.safeFloat(ticker, "ask")
      && t.close == t.last == base.safeFloat(ticker, "last")
      && t.datetime == base.iso8601(Some(now))
      && t.baseVolume == base.safeFloat(ticker, "volume")
      && t.bidVolume.None? && t.askVolume.None? && t.vwap.None? && t.open.None?
      && t.previousClose.None? && t.change.None? && t.percentage.None?
      && t.average.None? && t.quoteVolume.None?
      && t.timestamp == now && t.info == ticker
  {
  }

  /** The key `fetch_tickers` files a response id under: the cached market's symbol, or the id. */
  function TickerKey(id: string, marketsById: map<string, Market>): string {
    if id in marketsById then marketsById[id].symbol else id
  }

  /** The assignments `fetch_tickers` makes, one per response key, in order;
      `clock[i]` is the reading taken while parsing the `i`-th ticker. */
  function TickerAssignments(base: Base, response: Dict<Value>, marketsById: map<string, Market>,
                             clock: seq<int>): (es: Dict<Ticker>)
    requires |clock| == |response|
    ensures |es| == |response|
    ensures forall i :: 0 <= i < |response| ==> es[i].0 == TickerKey(response[i].0, marketsById)
  {
    seq(|response|, i requires 0 <= i < |response| =>
      var id := response[i].0;
      var market := if id in marketsById then Some(marketsById[id]) else None;
      (TickerKey(id, marketsById), ParseTicker(base, response[i].1, market, clock[i])))
  }

  /** Each assignment is keyed by the market's symbol and names it when the id is cached, and
      is keyed by the raw id with no symbol otherwise. */
  lemma TickerAssignmentKeying(base: Base, response: Dict<Value>, marketsById: map<string, Market>,
                               clock: seq<int>, i: nat)
    requires |clock| == |response|
    requires i < |response|
    ensures var e := TickerAssignments(base, response, marketsById, clock)[i];
      && (response[i].0 in marketsById ==>
            e.0 == marketsById[response[i].0].symbol && e.1.symbol == Some(e.0))
      && (response[i].0 !in marketsById ==> e.0 == response[i].0 && e.1.symbol == None)
      && e.1.info == response[i].1
  {
  }

  /** `fetch_tickers` before its final filter: assigns `result[key] = ticker` for every
      response key. Each key ends up once, holding the last ticker filed under it; when no two
      response keys share a key, the result is the assignments themselves, in response order. */
  method FetchTickers(base: Base, response: Dict<Value>, marketsById: map<string, Market>,
                      clock: seq<int>) returns (result: Dict<Ticker>)
    requires DistinctKeys(response)
    requires |clock| == |response|
    ensures DistinctKeys(result)
    ensures forall k :: k in Keys(result) <==>
      exists i :: 0 <= i < |response| && TickerKey(response[i].0, marketsById) == k
    ensures var es := TickerAssignments(base, response, marketsById, clock);
      forall k :: Get(result, k) ==
        (if k in Assigned(es) then Some(Assigned(es)[k]) else None)
    ensures var es := TickerAssignments(base, response, marketsById, clock);
      DistinctKeys(es) ==> result == es
  {
    ghost var es := TickerAssignments(base, response, marketsById, clock);
    var ids := KeyList(response);
    result := [];
    for i := 0 to |ids|
      invariant result == PutAll([], es[..i])
    {
      var symbol := ids[i];
      GetAt(response, i);
      var ticker := Get(response, symbol).value;
      var market: Option<Market> := None;
      if symbol in marketsById {
        market := Some(marketsById[symbol]);
        symbol := market.value.symbol;
      }
      assert (symbol, ParseTicker(base, ticker, market, clock[i])) == es[i];
      PutAllStep([], es, i);
      result := Put(result, symbol, ParseTicker(base, ticker, market, clock[i]));
    }
    assert es[..|ids|] == es;
    PutAllFromEmpty(es);
    forall k ensures k in Keys(result) <==>
      exists i :: 0 <= i < |response| && TickerKey(response[i].0, marketsById) == k
    {
      if k in Keys(result) {
        var i :| 0 <= i < |es| && es[i].0 == k;
        assert TickerKey(response[i].0, marketsById) == k;
      }
      if exists i :: 0 <= i < |response| && TickerKey(response[i].0, marketsById) == k {
        var i :| 0 <= i < |response| && TickerKey(response[i].0, marketsById) == k;
        assert es[i].0 == k;
      }
    }
  }

  /** `fetch_ticker`: the ticker of the symbol's market, taken from the all-tickers response. */
  function FetchTicker(base: Base, markets: map<string, Market>, symbol: string, tickers: Value,
                       now: int): Result<Ticker, Error>
  {
    var market :- MarketBySymbol(markets, ExchangeId, symbol);
    match tickers
    case Object(es) =>
      (match Get(es, market.id)
       case Some(t) => Success(ParseTicker(base, t, Some(market), now))
       case None => Failure(Error(KeyError, market.id)))
    case _ => Failure(Error(TypeError, "ticker response is not a dictionary"))
  }

  /** With a consistent market cache, `fetch_ticker` succeeds exactly when the symbol is cached
      and the response holds its id; the ticker is parsed from the response's entry for that id
      and carries the requested symbol. A missing id raises KeyError and a response that is not
      a dictionary raises TypeError. */
  lemma FetchTickerResult(base: Base, markets: map<string, Market>, symbol: string, tickers: Value,
                          now: int)
    requires forall s :: s in markets ==> markets[s].symbol == s
    ensures var r := FetchTicker(base, markets, symbol, tickers, now);
      && (r.Success? <==>
            symbol in markets && tickers.Object? && markets[symbol].id in Keys(tickers.entries))
      && (r.Success? ==> r.value.symbol == Some(symbol))
      && (r.Success? ==>
            r.value.info == Get(tickers.entries, markets[symbol].id).value && r.value.timestamp == now)
      && (r.Success? ==>
            r.value == ParseTicker(base, Get(tickers.entries, markets[symbol].id).value, Some(markets[symbol]), now))
      && (symbol !in markets ==> r.Failure? && r.error.kind == BadSymbol)
      && (symbol in markets && tickers.Object? && markets[symbol].id !in Keys(tickers.entries) ==>
            r.Failure? && r.error.kind == KeyError)
      && (symbol in markets && !tickers.Object? ==> r.Failure? && r.error.kind == TypeError)
  {
  }

  // ---------------------------------------------------------------------------
  // Trades
  // ---------------------------------------------------------------------------

  /** A trade as `parse_trade` produces it. */
  datatype Trade = Trade(
    id: Option<string>,
    info: Value,
    timestamp: Option<int>,
    datetime: Option<string>,
    symbol: Option<string>,
    order: Option<string>,
    tradeType: Option<string>,
    side: Option<string>,
    takerOrMaker: Option<string>,
    price: Option<real>,
    amount: Option<real>,
    cost: Option<real>,
    fee: Option<Value>)

  /** `parse_trade`. */
  function ParseTrade(base: Base, trade: Value, market: Option<Market>): Trade {
    var timestamp := base.safeTimestamp(trade, "date");
    var price := base.safeFloat(trade, "price");
    var amount := base.safeFloat(trade, "amount");
    var cost := if price.Some? && amount.Some? then Some(price.value * amount.value) else None;
    var symbol := if market.Some? then Some(market.value.symbol) else None;
    Trade(SafeString(trade, "tid", base.repr), trade, timestamp, base.iso8601(timestamp), symbol,
          None, None, None, None, price, amount, cost, None)
  }

  /** A trade reads its id, date, price and amount from the raw trade; it has a cost exactly
      when it has both a price and an amount, and the cost is then their product; the fields
      the exchange does not report stay empty. */
  lemma TradeCostRule(base: Base, trade: Value, market: Option<Market>)
    ensures var t := ParseTrade(base, trade, market);
      && (t.cost.Some? <==> t.price.Some? && t.amount.Some?)
      && (t.cost.Some? ==> t.cost.value == t.price.value * t.amount.value)
      && t.price == base.safeFloat(trade, "price") && t.amount == base.safeFloat(trade, "amount")
      && (t.symbol.Some? <==> market.Some?)
      && (market.Some? ==> t.symbol == Some(market.value.symbol))
      && t.id == SafeString(trade, "tid", base.repr)
      && t.timestamp == base.safeTimestamp(trade, "date") && t.datetime == base.iso8601(t.timestamp)
      && t.order.None? && t.tradeType.None? && t.side.None? && t.takerOrMaker.None? && t.fee.None?
      && t.info == trade
  {
  }

  // ---------------------------------------------------------------------------
  // Orders
  // ---------------------------------------------------------------------------

  /** A private call ready for dispatch: the endpoint and its request parameters. */
  datatype PrivateCall = PrivateCall(endpoint: PrivateEndpoint, request: Dict<Value>)

  /** `create_order` up to the dispatch of its request. */
  function CreateOrder(markets: map<string, Market>, symbol: string, orderType: string, side: string,
                       amount: Value, price: Value, params: Dict<Value>): Result<PrivateCall, Error>
  {
    if orderType == "market" then Failure(Error(ExchangeError, ExchangeId + " allows limit orders only"))
    else
      var suffix := Capitalize(side) + "Order";
      var market :- MarketBySymbol(markets, ExchangeId, symbol);
      var order: Dict<Value> := [("params", List([price, amount, Text(market.id)]))];
      match PrivatePostMethod(suffix)
      case None => Failure(Error(AttributeError, "privatePost" + suffix))
      case Some(endpoint) => Success(PrivateCall(endpoint, Extend(order, params)))
  }

  /** Capitalising keeps the length and every character after the first. */
  lemma CapitalizeKeepsLast(s: string)
    requires |s| > 1
    ensures |Capitalize(s)| == |s| && Capitalize(s)[|s| - 1] == s[|s| - 1]
  {
    assert Capitalize(s)[1..][|s| - 2] == s[1..][|s| - 2];
  }

  /** The method name `create_order` builds resolves to the buy or the sell endpoint, or to
      nothing: every other declared path ends in something else than `Order`. */
  lemma OrderSuffixResolves(side: string)
    ensures var r := PrivatePostMethod(Capitalize(side) + "Order");
      r.Some? ==> r.value == BuyOrder || r.value == SellOrder
  {
    var s := Capitalize(side) + "Order";
    assert s[|s| - 1] == 'r';
    forall e | e != BuyOrder && e != SellOrder ensures MethodSuffix(e) != s {
      CapitalizeKeepsLast(PrivatePath(e));
      assert PrivatePath(e)[|PrivatePath(e)| - 1] != 'r';
    }
  }

  /** The capitalised side names the buy endpoint for "buy" and "Buy" only. */
  lemma CapitalizedBuy(side: string)
    ensures PrivatePostMethod(Capitalize(side) + "Order") == Some(BuyOrder) <==> side == "buy" || side == "Buy"
  {
    var c := Capitalize(side);
    var t := MethodSuffix(BuyOrder);
    assert |t| == 8 && t[0] == 'B' && t[1..] == "uyOrder" by {
      assert PrivatePath(BuyOrder) == "buyOrder";
      assert UpperChar('b') == 'B';
    }
    if c + "Order" == t {
      assert |c| == 3;
      assert c[0] == t[0];
      assert c[1..] == t[1..][..2];
      assert side == [side[0]] + side[1..];
    }
  }

  /** The capitalised side names the sell endpoint for "sell" and "Sell" only. */
  lemma CapitalizedSell(side: string)
    ensures PrivatePostMethod(Capitalize(side) + "Order") == Some(SellOrder) <==> side == "sell" || side == "Sell"
  {
    OrderSuffixResolves(side);
    var c := Capitalize(side);
    var t := MethodSuffix(SellOrder);
    assert |t| == 9 && t[0] == 'S' && t[1..] == "ellOrder" by {
      assert PrivatePath(SellOrder) == "sellOrder";
      assert UpperChar('s') == 'S';
    }
    if c + "Order" == t {
      assert |c| == 4;
      assert c[0] == t[0];
      assert c[1..] == t[1..][..3];
      assert side == [side[0]] + side[1..];
    }
  }

  /** `create_order` rejects market orders before the symbol lookup and the endpoint lookup. Otherwise it fails on an
      unknown symbol, then on a side that names no endpoint; it sends buy orders to
      `buyOrder`, sell orders to `sellOrder`, with `params` holding `[price, amount, id]`
      unless the caller's own `params` override it. */
  lemma CreateOrderOutcome(markets: map<string, Market>, symbol: string, orderType: string, side: string,
                           amount: Value, price: Value, params: Dict<Value>)
    ensures var r := CreateOrder(markets, symbol, orderType, side, amount, price, params);
      && (orderType == "market" ==> r == Failure(Error(ExchangeError, ExchangeId + " allows limit orders only")))
      && (orderType != "market" && symbol !in markets ==> r.Failure? && r.error.kind == BadSymbol)
      && (r.Success? && r.value.endpoint == BuyOrder <==>
            orderType != "market" && symbol in markets && (side == "buy" || side == "Buy"))
      && (r.Success? && r.value.endpoint == SellOrder <==>
            orderType != "market" && symbol in markets && (side == "sell" || side == "Sell"))
      && (r.Success? ==> r.value.endpoint in {BuyOrder, SellOrder})
      && (r.Success? ==>
            r.value.request == Extend([("params", List([price, amount, Text(markets[symbol].id)]))], params))
      && (r.Success? && "params" !in Keys(params) ==>
            Get(r.value.request, "params") == Some(List([price, amount, Text(markets[symbol].id)])))
  {
    CapitalizedBuy(side);
    CapitalizedSell(side);
    OrderSuffixResolves(side);
    if orderType != "market" && symbol in markets {
      var order: Dict<Value> := [("params", List([price, amount, Text(markets[symbol].id)]))];
      ExtendGet(order, params, "params");
    }
  }

  /** The order `create_order` returns: the raw response and the id it reports, if any. */
  datatype Order = Order(info: Value, id: Option<string>)

  function OrderFromResponse(response: Value, repr: Value -> string): (o: Order)
    ensures o.info == response
    ensures o.id.Some? <==>
      response.Object? && Get(response.entries, "id").Some? && !Get(response.entries, "id").value.Null?
  {
    Order(response, SafeString(response, "id", repr))
  }

  /** The order id reads back as the response's `id`: a text id is returned as it is, and a
      non-negative integer id as decimal digits that denote it. */
  lemma OrderIdReadsBack(response: Value, repr: Value -> string)
    requires response.Object? && Get(response.entries, "id").Some?
    ensures var v := Get(response.entries, "id").value;
      v.Text? ==> OrderFromResponse(response, repr).id == Some(v.s)
    ensures var v := Get(response.entries, "id").value;
      var id := OrderFromResponse(response, repr).id;
      v.Int? && v.i >= 0 ==>
        id.Some? && (forall k :: 0 <= k < |id.value| ==> IsDigit(id.value[k])) && DecimalValue(id.value) == v.i
  {
    var v := Get(response.entries, "id").value;
    if v.Int? && v.i >= 0 {
      DecimalRoundTrip(v.i);
    }
  }

  /** The request `cancel_order` would send: `params` holding `[id]` unless overridden. */
  function CancelOrderRequest(id: Value, params: Dict<Value>): Dict<Value> {
    Extend([("params", List([id]))], params)
  }

  /** `cancel_order` up to dispatch. It calls `privatePostCancelOrder`, a name no declared
      endpoint has (the declared one is `cancelOrders`): the lookup fails. */
  function CancelOrder(id: Value, params: Dict<Value>): Result<PrivateCall, Error> {
    match PrivatePostMethod("CancelOrder")
    case Some(endpoint) => Success(PrivateCall(endpoint, CancelOrderRequest(id, params)))
    case None => Failure(Error(AttributeError, "privatePostCancelOrder"))
  }

  /** As written, `cancel_order` never reaches the exchange. */
  lemma CancelOrderUnresolved(id: Value, params: Dict<Value>)
    ensures CancelOrder(id, params).Failure?
    ensures CancelOrder(id, params).error.kind == AttributeError
    ensures MethodSuffix(CancelOrders) != "CancelOrder"
  {
    forall e ensures |MethodSuffix(e)| != |"CancelOrder"| {
      assert |MethodSuffix(e)| == |PrivatePath(e)|;
    }
  }

  /** `cancel_order` as evidently intended: the same request, sent through the generated method
      of the declared `cancelOrders` endpoint. */
  function CancelOrderIntended(id: Value, params: Dict<Value>): Result<PrivateCall, Error> {
    match PrivatePostMethod(MethodSuffix(CancelOrders))
    case Some(endpoint) => Success(PrivateCall(endpoint, CancelOrderRequest(id, params)))
    case None => Failure(Error(AttributeError, "privatePost" + MethodSuffix(CancelOrders)))
  }

  /** The intended `cancel_order` reaches `cancelOrders` with `params` holding `[id]`, unless the
      caller's own `params` override it. */
  lemma CancelOrderIntendedReaches(id: Value, params: Dict<Value>)
    ensures CancelOrderIntended(id, params) == Success(PrivateCall(CancelOrders, CancelOrderRequest(id, params)))
    ensures "params" !in Keys(params) ==> Get(CancelOrderRequest(id, params), "params") == Some(List([id]))
  {
    assert |MethodSuffix(BuyOrder)| == 8 && |MethodSuffix(CancelOrders)| == 12;
    ExtendGet([("params", List([id]))], params, "params");
  }

  // ---------------------------------------------------------------------------
  // Signing
  // ---------------------------------------------------------------------------

  /** What `sign` hands to the HTTP layer. */
  datatype Request = Request(url: string, httpMethod: string, body: Option<string>, headers: Option<Dict<string>>)

  /** ASSUMPTION (base client): `check_required_credentials` passes when both the API key and
      the secret are set and non-empty. */
  predicate HasCredentials(apiKey: Option<string>, secret: Option<string>) {
    apiKey.Some? && apiKey.value != "" && secret.Some? && secret.value != ""
  }

  /** The URL of a public call: path under the versioned root, and the query when there is one. */
  function PublicUrl(base: Base, path: string, params: Dict<Value>): string {
    var url := PrivateUrl + "/" + path;
    if |params| > 0 then url + "?" + base.urlencode(params) else url
  }

  /** Private calls all go to the versioned root. */
  const PrivateUrl: string := ApiUrl + "/" + ApiVersion

  /** The versioned root carries no query separator. The fact is stated about a parameter equal
      to the constant so that the literal is unfolded here only, which keeps callers cheap. */
  lemma PrivateUrlHasNoQuery(u: string)
    requires u == PrivateUrl
    ensures forall i :: 0 <= i < |u| ==> u[i] != '?'
  {
  }

  /** A public URL is the path under the versioned root; for a path without `?`, it carries a
      query exactly when there are parameters, and the query is their urlencoding. */
  lemma PublicUrlShape(base: Base, path: string, params: Dict<Value>)
    ensures var url := PublicUrl(base, path, params);
      var stem := PrivateUrl + "/" + path;
      && |stem| <= |url| && url[..|stem|] == stem
      && (|params| == 0 ==> url == stem)
      && (|params| > 0 ==> url[|stem|..] == "?" + base.urlencode(params))
      && ('?' !in path ==> ('?' in url <==> |params| > 0))
  {
    var url := PublicUrl(base, path, params);
    var stem := PrivateUrl + "/" + path;
    PrivateUrlHasNoQuery(PrivateUrl);
    assert '?' !in PrivateUrl;
    if |params| > 0 {
      assert url == stem + ("?" + base.urlencode(params));
      assert url[|stem|] == '?';
    } else {
      assert url == stem;
    }
  }

  /** The number of items `len(paramsList)` reports, for the kinds of value the loop can walk. */
  function ParamsCount(paramsList: Value): nat {
    match paramsList
    case Text(s) => |s|
    case List(xs) => |xs|
    case Object(es) => |es|
    case _ => 0
  }

  /** `paramsList[i]` for a string or a list. */
  function ParamAt(paramsList: Value, i: nat): Value
    requires paramsList.Text? || paramsList.List?
    requires i < ParamsCount(paramsList)
  {
    if paramsList.Text? then Text([paramsList.s[i]]) else paramsList.items[i]
  }

  /** The strings of `params['params']` the stringify loop collects: the characters of a string
      as they are, the `str` of every item of a list. An empty dictionary gives none; indexing a
      non-empty one fails, and so does `len` of anything else. */
  function ParamStrings(paramsList: Value, repr: Value -> string): Result<seq<string>, Error> {
    match paramsList
    case Text(s) => Success(seq(|s|, i requires 0 <= i < |s| => [s[i]]))
    case List(xs) => Success(seq(|xs|, i requires 0 <= i < |xs| => PyStr(xs[i], repr)))
    case Object(es) => if es == [] then Success([]) else Failure(Error(KeyError, "0"))
    case _ => Failure(Error(TypeError, "object has no len()"))
  }

  /** The stringify guard asks whether the LIST is a string rather than the element; since
      `str` of a string is that string, converting only non-string elements gives the same. */
  lemma StringifyGuardHarmless(paramsList: Value, repr: Value -> string)
    requires paramsList.Text? || paramsList.List?
    ensures ParamStrings(paramsList, repr) == Success(
      seq(ParamsCount(paramsList), i requires 0 <= i < ParamsCount(paramsList) =>
        var p := ParamAt(paramsList, i); if p.Text? then p.s else PyStr(p, repr)))
  {
    match paramsList
    case Text(s) =>
      var strs := seq(|s|, i requires 0 <= i < |s| => [s[i]]);
      var guarded := seq(ParamsCount(paramsList), i requires 0 <= i < ParamsCount(paramsList) =>
        var p := ParamAt(paramsList, i); if p.Text? then p.s else PyStr(p, repr));
      assert |strs| == |guarded|;
      forall i | 0 <= i < |s| ensures strs[i] == guarded[i] {
        assert ParamAt(paramsList, i) == Text([s[i]]);
      }
      assert strs == guarded;
    case List(xs) =>
      var strs := seq(|xs|, i requires 0 <= i < |xs| => PyStr(xs[i], repr));
      var guarded := seq(ParamsCount(paramsList), i requires 0 <= i < ParamsCount(paramsList) =>
        var p := ParamAt(paramsList, i); if p.Text? then p.s else PyStr(p, repr));
      assert |strs| == |guarded|;
      forall i | 0 <= i < |xs| ensures strs[i] == guarded[i] {
        assert ParamAt(paramsList, i) == xs[i];
      }
      assert strs == guarded;
  }

  /** The `params=` field of the canonical string. */
  function ParamsField(params: Dict<Value>, repr: Value -> string): Result<string, Error> {
    match Get(params, "params")
    case None => Success("")
    case Some(list) =>
      var strs :- ParamStrings(list, repr);
      Success(Join(",", strs))
  }

  /** The JSON-RPC envelope before encoding. */
  function RpcEnvelope(path: string, params: Dict<Value>, requestId: nat): Value {
    var p := match Get(params, "params") case Some(list) => list case None => Text("");
    Object([("method", Text(path)), ("params", p), ("id", Int(requestId))])
  }

  /** The six fields of the string that gets signed, in order. */
  function CanonicalFields(tonce: string, apiKey: string, httpMethod: string, requestId: nat,
                           path: string, paramsField: string): seq<string> {
    [ "tonce=" + tonce,
      "accesskey=" + apiKey,
      "requestmethod=" + Lower(httpMethod),
      "id=" + NatToDecimal(requestId),
      "method=" + path,
      "params=" + paramsField ]
  }

  function CanonicalQuery(tonce: string, apiKey: string, httpMethod: string, requestId: nat,
                          path: string, paramsField: string): string {
    Join("&", CanonicalFields(tonce, apiKey, httpMethod, requestId, path, paramsField))
  }

  /** `Basic` followed by the base64 of `key:hmac-sha1(query, secret)`. */
  function Authorization(base: Base, query: string, apiKey: string, secret: string): string {
    "Basic " + base.stringToBase64(apiKey + ":" + base.hmacSha1Hex(query, secret))
  }

  function SignedHeaders(tonce: string, authorization: string): Dict<string> {
    [ ("Json-Rpc-Tonce", tonce),
      ("Authorization", authorization),
      ("Content-Type", "application/json") ]
  }

  /** The request of a private call, once the credentials are known to be present. */
  function PrivateRequest(base: Base, path: string, httpMethod: string, params: Dict<Value>,
                          apiKey: string, secret: string, nonce: nat, requestId: nat): Result<Request, Error>
  {
    var tonce := NatToDecimal(nonce);
    var paramsField :- ParamsField(params, base.repr);
    var query := CanonicalQuery(tonce, apiKey, httpMethod, requestId, path, paramsField);
    Success(Request(
      PrivateUrl, httpMethod,
      Some(base.json(RpcEnvelope(path, params, requestId))),
      Some(SignedHeaders(tonce, Authorization(base, query, apiKey, secret)))))
  }

  /** `sign`. `nonce` (microseconds) and `requestId` (seconds) are the clock readings the
      call takes; `headers` and `body` are what the caller passed in. */
  method Sign(base: Base, path: string, api: string, httpMethod: string, params: Dict<Value>,
              headers: Option<Dict<string>>, body: Option<string>,
              apiKey: Option<string>, secret: Option<string>, nonce: nat, requestId: nat)
    returns (r: Result<Request, Error>)
    ensures api == "public" ==> r == Success(Request(PublicUrl(base, path, params), httpMethod, body, headers))
    ensures api != "public" && !HasCredentials(apiKey, secret) ==>
      r.Failure? && r.error.kind == AuthenticationError
    ensures api != "public" && HasCredentials(apiKey, secret) ==>
      r == PrivateRequest(base, path, httpMethod, params, apiKey.value, secret.value, nonce, requestId)
  {
    var url := ApiUrl + "/" + ApiVersion;
    if api == "public" {
      url := url + "/" + path;
      if |params| > 0 {
        url := url + "?" + base.urlencode(params);
      }
      return Success(Request(url, httpMethod, body, headers));
    }
    if !HasCredentials(apiKey, secret) {
      return Failure(Error(AuthenticationError, ExchangeId + " requires apiKey and secret"));
    }
    var nonceAsString := NatToDecimal(nonce);
    var queryParams := "";
    var payload: Value;
    match Get(params, "params") {
      case None =>
        payload := Object([("method", Text(path)), ("params", Text("")), ("id", Int(requestId))]);
      case Some(paramsList) =>
        if !(paramsList.Text? || paramsList.List? || (paramsList.Object? && paramsList.entries == [])) {
          return ParamStrings(paramsList, base.repr).PropagateFailure();
        }
        var stringParams: seq<string> := [];
        ghost var expected := ParamStrings(paramsList, base.repr).value;
        for i := 0 to ParamsCount(paramsList)
          invariant stringParams == expected[..i]
        {
          var param := ParamAt(paramsList, i);
          if !paramsList.Text? {
            param := Text(PyStr(param, base.repr));
          }
          stringParams := stringParams + [param.s];
        }
        assert stringParams == expected;
        queryParams := Join(",", stringParams);
        payload := Object([("method", Text(path)), ("params", paramsList), ("id", Int(requestId))]);
    }
    var encodedBody := base.json(payload);
    var query := Join("&", [
      "tonce=" + nonceAsString,
      "accesskey=" + apiKey.value,
      "requestmethod=" + Lower(httpMethod),
      "id=" + NatToDecimal(requestId),
      "method=" + path,
      "params=" + queryParams ]);
    var signature := base.hmacSha1Hex(query, secret.value);
    var signature64 := base.stringToBase64(apiKey.value + ":" + signature);
    var signedHeaders := [
      ("Json-Rpc-Tonce", nonceAsString),
      ("Authorization", "Basic " + signature64),
      ("Content-Type", "application/json") ];
    r := Success(Request(url, httpMethod, Some(encodedBody), Some(signedHeaders)));
  }

  /** The canonical string has exactly six `&`-separated fields, in the order tonce, accesskey,
      requestmethod, id, method, params, as long as no value carries a `&` itself; the tonce
      field carries the nonce's decimal digits, which read back as the nonce. */
  lemma CanonicalQueryFields(nonce: nat, apiKey: string, httpMethod: string, requestId: nat,
                             path: string, paramsField: string)
    requires '&' !in apiKey && '&' !in httpMethod && '&' !in path && '&' !in paramsField
    ensures var fields := Split(CanonicalQuery(NatToDecimal(nonce), apiKey, httpMethod, requestId,
                                               path, paramsField), '&');
      && |fields| == 6
      && fields == [ "tonce=" + NatToDecimal(nonce), "accesskey=" + apiKey,
                     "requestmethod=" + Lower(httpMethod), "id=" + NatToDecimal(requestId),
                     "method=" + path, "params=" + paramsField ]
      && DecimalValue(fields[0][6..]) == nonce
      && DecimalValue(fields[3][3..]) == requestId
  {
    var fields := CanonicalFields(NatToDecimal(nonce), apiKey, httpMethod, requestId, path, paramsField);
    DecimalHasNo(nonce, '&');
    DecimalHasNo(requestId, '&');
    LowerKeepsAbsent(httpMethod, '&');
    forall k | 0 <= k < |fields| ensures '&' !in fields[k] { }
    SplitJoin(fields, '&');
    assert fields[0][6..] == NatToDecimal(nonce);
    assert fields[3][3..] == NatToDecimal(requestId);
    DecimalRoundTrip(nonce);
    DecimalRoundTrip(requestId);
  }

  /** The `params=` field: empty without a `params` entry, otherwise the comma-join of the `str`
      of each item, which splits back into those strings when none holds a comma. */
  lemma ParamsFieldRule(params: Dict<Value>, repr: Value -> string)
    ensures "params" !in Keys(params) ==> ParamsField(params, repr) == Success("")
    ensures Get(params, "params").Some? && Get(params, "params").value.List? ==>
      var xs := Get(params, "params").value.items;
      var strs := seq(|xs|, i requires 0 <= i < |xs| => PyStr(xs[i], repr));
      && ParamsField(params, repr) == Success(Join(",", strs))
      && (|strs| > 0 && (forall i :: 0 <= i < |strs| ==> ',' !in strs[i]) ==>
            Split(ParamsField(params, repr).value, ',') == strs)
  {
    match Get(params, "params")
    case None =>
    case Some(list) =>
      if list.List? {
        var xs := list.items;
        var strs := seq(|xs|, i requires 0 <= i < |xs| => PyStr(xs[i], repr));
        if |strs| > 0 && (forall i :: 0 <= i < |strs| ==> ',' !in strs[i]) {
          SplitJoin(strs, ',');
        }
      }
  }

  /** The envelope names the path as `method`, the request id as `id`, and carries the
      caller's `params` entry, or the empty string without one. */
  lemma RpcEnvelopeFields(path: string, params: Dict<Value>, requestId: nat)
    ensures var env := RpcEnvelope(path, params, requestId).entries;
      && Get(env, "method") == Some(Text(path))
      && Get(env, "id") == Some(Int(requestId))
      && Get(env, "params") == (if "params" in Keys(params) then Get(params, "params") else Some(Text("")))
  {
    var env := RpcEnvelope(path, params, requestId).entries;
    assert |"method"| != |"id"| && |"params"| != |"id"| && "method"[0] != "params"[0];
    assert env[1..][0].0 == "params" && env[1..][1..] == [("id", Int(requestId))];
    assert Get(env, "id") == Get(env[1..], "id") == Get(env[1..][1..], "id");
    assert Get(env, "params") == Get(env[1..], "params") == Some(env[1].1);
  }

  /** The signed headers carry the tonce, the authorization and the JSON content type. */
  lemma SignedHeadersFields(tonce: string, authorization: string)
    ensures var h := SignedHeaders(tonce, authorization);
      && Get(h, "Json-Rpc-Tonce") == Some(tonce)
      && Get(h, "Authorization") == Some(authorization)
      && Get(h, "Content-Type") == Some("application/json")
  {
    var h := SignedHeaders(tonce, authorization);
    assert "Json-Rpc-Tonce"[0] != "Authorization"[0] && "Json-Rpc-Tonce"[0] != "Content-Type"[0];
    assert "Authorization"[0] != "Content-Type"[0];
    assert h[1..][0].0 == "Authorization" && h[1..][1..] == [("Content-Type", "application/json")];
    assert Get(h, "Authorization") == Get(h[1..], "Authorization");
    assert Get(h, "Content-Type") == Get(h[1..], "Content-Type") == Get(h[1..][1..], "Content-Type");
  }

  /** Whatever the other fields hold, the canonical string opens with the tonce field. */
  lemma CanonicalQueryOpensWithTonce(nonce: nat, apiKey: string, httpMethod: string, requestId: nat,
                                     path: string, paramsField: string)
    ensures Split(CanonicalQuery(NatToDecimal(nonce), apiKey, httpMethod, requestId, path, paramsField), '&')[0]
      == "tonce=" + NatToDecimal(nonce)
  {
    var fields := CanonicalFields(NatToDecimal(nonce), apiKey, httpMethod, requestId, path, paramsField);
    var rest := Join("&", fields[1..]);
    assert Join("&", fields) == fields[0] + "&" + rest;
    DecimalHasNo(nonce, '&');
    assert '&' !in fields[0];
    SplitAtSeparator(fields[0], '&', rest);
  }

  /** A signed request goes to the versioned root, carries the nonce in `Json-Rpc-Tonce` and the
      signature of the same nonce's canonical string in `Authorization`, and its body is the
      JSON of the envelope. It fails only where stringifying `params['params']` fails. */
  lemma PrivateRequestLayout(base: Base, path: string, httpMethod: string, params: Dict<Value>,
                             apiKey: string, secret: string, nonce: nat, requestId: nat)
    ensures var r := PrivateRequest(base, path, httpMethod, params, apiKey, secret, nonce, requestId);
      && (r.Success? <==> ParamsField(params, base.repr).Success?)
      && (r.Success? ==>
            var tonce := NatToDecimal(nonce);
            var query := CanonicalQuery(tonce, apiKey, httpMethod, requestId, path,
                                        ParamsField(params, base.repr).value);
            && r.value.url == PrivateUrl
            && r.value.httpMethod == httpMethod
            && r.value.headers.Some?
            && Get(r.value.headers.value, "Json-Rpc-Tonce") == Some(tonce)
            && Split(query, '&')[0] == "tonce=" + tonce
            && Get(r.value.headers.value, "Authorization") == Some(Authorization(base, query, apiKey, secret))
            && Get(r.value.headers.value, "Content-Type") == Some("application/json")
            && r.value.body == Some(base.json(RpcEnvelope(path, params, requestId))))
  {
    var r := PrivateRequest(base, path, httpMethod, params, apiKey, secret, nonce, requestId);
    if r.Success? {
      var tonce := NatToDecimal(nonce);
      var query := CanonicalQuery(tonce, apiKey, httpMethod, requestId, path,
                                  ParamsField(params, base.repr).value);
      SignedHeadersFields(tonce, Authorization(base, query, apiKey, secret));
      CanonicalQueryOpensWithTonce(nonce, apiKey, httpMethod, requestId, path,
                                   ParamsField(params, base.repr).value);
    }
  }

  // ---------------------------------------------------------------------------
  // Error responses
  // ---------------------------------------------------------------------------

  /** What `handle_errors` does: return to the default handler, or raise. */
  datatype ErrorOutcome = FallThrough | Raise(error: Error)

  /** `handle_errors`; `body` is the raw response text, `response` its decoded form. */
  function HandleErrors(response: Option<Value>, body: string, repr: Value -> string): ErrorOutcome {
    if response.None? then FallThrough
    else
      var feedback := ExchangeId + " " + body;
      match SafeString(response.value, "error", repr)
      case None => FallThrough
      case Some(error) =>
        match FindBroadlyMatchedKey(BroadExceptions, error)
        case Some(j) => Raise(Error(BroadExceptions[j].1, feedback))
        case None => Raise(Error(ExchangeError, feedback))
  }

  /** The three ways out of `handle_errors`. With no decoded response, and with no `error`
      field, it returns to the default handler. With an `error` message it always raises, with
      the exchange id and the raw body as the message: the kind of the first table entry whose
      key the message contains, or ExchangeError when it contains none. */
  lemma HandleErrorsDecision(response: Option<Value>, body: string, repr: Value -> string)
    ensures response.None? ==> HandleErrors(response, body, repr) == FallThrough
    ensures response.Some? && SafeString(response.value, "error", repr).None? ==>
      HandleErrors(response, body, repr) == FallThrough
    ensures response.Some? && SafeString(response.value, "error", repr).Some? ==>
      var message := SafeString(response.value, "error", repr).value;
      var out := HandleErrors(response, body, repr);
      && out.Raise?
      && out.error.message == "lakebtc " + body
      && ((forall i :: 0 <= i < |BroadExceptions| ==> !Contains(message, BroadExceptions[i].0)) <==>
            out.error.kind == ExchangeError)
      && (forall j ::
            (0 <= j < |BroadExceptions| && Contains(message, BroadExceptions[j].0) &&
             forall i :: 0 <= i < j ==> !Contains(message, BroadExceptions[i].0))
            ==> out.error.kind == BroadExceptions[j].1)
  {
    if response.Some? && SafeString(response.value, "error", repr).Some? {
      var message := SafeString(response.value, "error", repr).value;
      var found := FindBroadlyMatchedKey(BroadExceptions, message);
      if found.Some? {
        assert BroadExceptions[found.value].1 != ExchangeError;
      }
    }
  }

  /** A response whose `error` field is `message`. */
  function ErrorResponse(message: string): Value {
    Object([("error", Text(message))])
  }

  /** An `error` message whose first matching table entry is `j` raises that entry's kind. */
  lemma ErrorMessageRaises(message: string, body: string, repr: Value -> string, j: nat)
    requires j < |BroadExceptions| && Contains(message, BroadExceptions[j].0)
    requires forall i :: 0 <= i < j ==> !Contains(message, BroadExceptions[i].0)
    ensures HandleErrors(Some(ErrorResponse(message)), body, repr)
      == Raise(Error(BroadExceptions[j].1, ExchangeId + " " + body))
  {
    assert SafeString(ErrorResponse(message), "error", repr) == Some(message);
    HandleErrorsDecision(Some(ErrorResponse(message)), body, repr);
  }

  /** The opening every documented order rejection shares. */
  const RejectPrefix := "Failed to submit order: "

  // Characters of the table keys that the pieces of the documented rejections do not hold.
  // Each piece is a parameter pinned to its literal, so that the literal is unfolded inside the
  // small lemma only and the lemmas that combine the pieces reason about no literal text.

  lemma RejectPrefixLacks(p: string)
    requires p == RejectPrefix
    ensures forall i :: 0 <= i < |p| ==> p[i] != 'S' && p[i] != 'y' && p[i] != 'V'
  {
  }

  lemma InsufficientBalanceLacks(p: string)
    requires p == "insufficient_balance"
    ensures forall i :: 0 <= i < |p| ==> p[i] != 'S' && p[i] != 'y' && p[i] != 'V'
  {
  }

  lemma MinimumVolumeLacks(p: string, k: string, q: string)
    requires p == "La validation a échoué : " && k == "Volume doit" && q == " être supérieur ou égal à 1.0"
    ensures forall i :: 0 <= i < |p| ==> p[i] != 'S' && p[i] != 'y'
    ensures forall i :: 0 <= i < |k| ==> k[i] != 'S' && k[i] != 'y'
    ensures forall i :: 0 <= i < |q| ==> q[i] != 'S' && q[i] != 'y'
  {
  }

  /** Which table keys the documented rejection for an unknown symbol contains. */
  lemma InvalidSymbolMatches(message: string)
    requires message == RejectPrefix + "invalid symbol"
    ensures Contains(message, BroadExceptions[1].0)
    ensures forall i :: 0 <= i < 1 ==> !Contains(message, BroadExceptions[i].0)
  {
    ContainsInside(RejectPrefix, "invalid symbol", "");
    assert message + "" == message;
    RejectPrefixLacks(RejectPrefix);
    assert 'S' !in "invalid symbol";
    LacksChar(message, BroadExceptions[0].0, 0);
  }

  /** The documented rejection for an unknown symbol raises BadSymbol. */
  lemma InvalidSymbolIsBadSymbol(message: string, body: string, repr: Value -> string)
    requires message == RejectPrefix + "invalid symbol"
    ensures HandleErrors(Some(ErrorResponse(message)), body, repr) == Raise(Error(BadSymbol, ExchangeId + " " + body))
  {
    InvalidSymbolMatches(message);
    ErrorMessageRaises(message, body, repr, 1);
  }

  /** Which table keys the documented rejection for a low balance contains. */
  lemma InsufficientBalanceMatches(message: string)
    requires message == RejectPrefix + "insufficient_balance"
    ensures Contains(message, BroadExceptions[3].0)
    ensures forall i :: 0 <= i < 3 ==> !Contains(message, BroadExceptions[i].0)
  {
    ContainsInside(RejectPrefix, "insufficient_balance", "");
    assert message + "" == message;
    RejectPrefixLacks(RejectPrefix);
    InsufficientBalanceLacks("insufficient_balance");
    LacksChar(message, BroadExceptions[0].0, 0);
    LacksChar(message, BroadExceptions[1].0, 9);
    LacksChar(message, BroadExceptions[2].0, 0);
  }

  /** The documented rejection for a low balance raises InsufficientFunds. */
  lemma InsufficientBalanceIsInsufficientFunds(message: string, body: string, repr: Value -> string)
    requires message == RejectPrefix + "insufficient_balance"
    ensures HandleErrors(Some(ErrorResponse(message)), body, repr)
      == Raise(Error(InsufficientFunds, ExchangeId + " " + body))
  {
    InsufficientBalanceMatches(message);
    ErrorMessageRaises(message, body, repr, 3);
  }

  /** Which table keys the documented rejection for a too-small volume contains. */
  lemma MinimumVolumeMatches(message: string)
    requires message == RejectPrefix + "La validation a échoué : " + "Volume doit" + " être supérieur ou égal à 1.0"
    ensures Contains(message, BroadExceptions[2].0)
    ensures forall i :: 0 <= i < 2 ==> !Contains(message, BroadExceptions[i].0)
  {
    ContainsInside(RejectPrefix + "La validation a échoué : ", "Volume doit", " être supérieur ou égal à 1.0");
    RejectPrefixLacks(RejectPrefix);
    MinimumVolumeLacks("La validation a échoué : ", "Volume doit", " être supérieur ou égal à 1.0");
    LacksChar(message, BroadExceptions[0].0, 0);
    LacksChar(message, BroadExceptions[1].0, 9);
  }

  /** The documented rejection for a too-small volume (French, as the exchange sends it) raises
      InvalidOrder. */
  lemma MinimumVolumeIsInvalidOrder(message: string, body: string, repr: Value -> string)
    requires message == RejectPrefix + "La validation a échoué : " + "Volume doit" + " être supérieur ou égal à 1.0"
    ensures HandleErrors(Some(ErrorResponse(message)), body, repr) == Raise(Error(InvalidOrder, ExchangeId + " " + body))
  {
    MinimumVolumeMatches(message);
    ErrorMessageRaises(message, body, repr, 2);
  }

  /** The table is scanned in order: a message that mentions a signature problem is an
      authentication failure whatever else it mentions. */
  lemma SignatureTakesPrecedence(message: string, body: string, repr: Value -> string)
    requires Contains(message, "Signature")
    ensures HandleErrors(Some(ErrorResponse(message)), body, repr)
      == Raise(Error(AuthenticationError, ExchangeId + " " + body))
  {
    ErrorMessageRaises(message, body, repr, 0);
  }
}
