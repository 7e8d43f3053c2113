# LakeBTC adapter: a verified model

This project models the LakeBTC adapter of a multi-exchange trading client. It covers the pure rules inside
the adapter's calls, in Dafny:

- how `fetch_markets` cuts exchange ids into base and quote currencies and builds `BASE/QUOTE` symbols;
- how `sign` builds a public URL, or a signed JSON-RPC request with its six-field canonical string, body and
  headers;
- how `handle_errors` decides between "fall through" and raising one of the broad-match exception classes;
- how `create_order` rejects market orders, lays out `[price, amount, marketId]` and picks the buy or sell
  endpoint;
- how `cancel_order` resolves its endpoint;
- how `fetch_tickers` and `fetch_ticker` key and parse tickers;
- how `parse_ticker` and `parse_trade` shape their records: a trade has a cost exactly when it has a price
  and an amount.

Modules:

- `Wrappers`: `Option` and `Result`.
- `Strings`: the Python string operations the adapter uses over `seq<char>`. These are `upper`, `lower`,
  the client's `capitalize`, slicing, `join`, `find`, and `str` of an integer. `split` is not used by the
  adapter: it is the inverse the proofs use to read a `join` back.
- `Json`: decoded JSON values. A Python dictionary is an association list in insertion order, with
  `d[k] = v` assignment semantics. `Assigned` is the reference meaning of a run of assignments: a map
  where the last writer wins.
- `ExchangeBase`: what the adapter takes from the shared base client, which this model does not contain.
  - The foreign helpers are fields of the `Base` record of functions and stay uninterpreted: urlencode,
    JSON encoding, HMAC-SHA1, base64, `repr` of containers, iso8601, `safe_float`, `safe_timestamp`.
  - Four helpers whose behaviour the adapter's rules depend on are written out. Each carries an
    `ASSUMPTION` comment: `safe_string`, `extend`, the broad-match scan ("first table key contained in
    the message") and `market(symbol)`.
  - Two more assumptions sit in `LakeBtc`:
    - `MethodSuffix`: the generated method of an endpoint is named `privatePost` followed by its
      capitalised path. `getattr` on a method name becomes a lookup over the `PrivateEndpoint`
      enumeration (`PrivatePostMethod`).
    - `HasCredentials`: `check_required_credentials` passes exactly when the API key and the secret are
      both present and non-empty.
- `LakeBtc`: the adapter.
  - The loops of `fetch_markets`, `fetch_tickers` and `sign` are methods with loop invariants. Each is
    proved against a specification function.
  - The rest are functions, with lemmas stating what the source promises.

Clock readings are inputs:

- `milliseconds()` in `parse_ticker`: one reading per parsed ticker in `fetch_tickers`;
- `nonce()` (microseconds) and `seconds()` in `sign`.

The endpoint list declares `cancelOrders` (lakebtc.py:63), but `cancel_order` calls
`privatePostCancelOrder` (lakebtc.py:244), a name no declared endpoint generates. The calls at lakebtc.py:117
and lakebtc.py:134 show the naming rule: `privatePost` or `publicGet` followed by the capitalised path. The
model follows the code as written, so `CancelOrder` always fails with an AttributeError. The intended
version, `CancelOrderIntended`, is recorded under Findings.

The stringify loop in `sign` tests whether the LIST is a string rather than the element. Every item of a
list is therefore converted with `str`, so `None` becomes `"None"`. Characters of a string stay as they
are. `StringifyGuardHarmless` proves that this gives the same strings as testing each element.

## Model

| member | source | states |
|---|---|---|
| Strings.Upper | python/ccxt/async_support/lakebtc.py:98-99 | `upper()` keeps the length and upper-cases every character (ASCII) |
| Strings.Lower | python/ccxt/async_support/lakebtc.py:285 | `lower()` keeps the length and lower-cases every character (ASCII) |
| Strings.Split | python/ccxt/async_support/lakebtc.py:290 | not an operation of the source, which only joins: the inverse used to read that join back; splitting on a character gives at least one piece, and no piece holds the separator |
| Strings.SplitJoin | python/ccxt/async_support/lakebtc.py:290 | joining pieces that lack the separator and splitting again gives the pieces back (about `Split`, `Join`) |
| Strings.ContainsIff | python/ccxt/async_support/lakebtc.py:312 | the left-to-right `find` scan succeeds exactly when the key occurs at some position (about `Contains`) |
| Strings.NatToDecimal | python/ccxt/async_support/lakebtc.py:258 | `str(n)` of a natural is a non-empty string of digits without a leading zero |
| Strings.DecimalRoundTrip | python/ccxt/async_support/lakebtc.py:258 | the decimal digits of `str(n)` read back as `n` (about `NatToDecimal`) |
| Json.Get | python/ccxt/async_support/lakebtc.py:173 | a lookup succeeds exactly when the key is in the dictionary |
| Json.Put | python/ccxt/async_support/lakebtc.py:178 | after `d[k] = v`, `k` maps to `v`, every other key keeps its value, the key set gains `k`, and keys stay distinct |
| Json.GetAt | python/ccxt/async_support/lakebtc.py:173 | in a dictionary with distinct keys, looking up the key of entry `i` gives entry `i`'s value (about `Get`) |
| Json.PutAllGet | python/ccxt/async_support/lakebtc.py:171-178 | after a run of assignments, a key holds the last value assigned to it, or its old value; keys stay distinct (about `PutAll`) |
| Json.PutAllFromEmpty | python/ccxt/async_support/lakebtc.py:170-178 | assignments into `{}` give each assigned key once, holding its last value; with distinct keys, the entries in order (about `PutAll`) |
| ExchangeBase.ExtendGet | python/ccxt/async_support/lakebtc.py:233 | `extend(a, b)`: a key of `b` takes `b`'s value, every other key keeps `a`'s, and the key set is the union (about `Extend`) |
| ExchangeBase.FindBroadlyMatchedKey | python/ccxt/async_support/lakebtc.py:312 | the broad-match scan returns the first table entry whose key the message contains, or nothing exactly when it contains none |
| LakeBtc.PrivatePostMethod | python/ccxt/async_support/lakebtc.py:60-71 | a method name resolves to an endpoint whose generated name it is, and resolves to nothing exactly when no endpoint generates it |
| LakeBtc.MarketsFromAt | python/ccxt/async_support/lakebtc.py:93-112 | market `i` of a run of ticker entries is built from entry `i` (about `MarketsFrom`) |
| LakeBtc.FetchMarkets | python/ccxt/async_support/lakebtc.py:89-113 | one market per response key, in key order, each built from that key and its value |
| LakeBtc.MarketIdSplit | python/ccxt/async_support/lakebtc.py:94-109 | the market keeps the id and the raw value as `info`, `active` is null, the ids are cut at offsets 3 and 6, and for an id of up to six characters `baseId + quoteId == id` (about `MarketFromEntry`) |
| LakeBtc.MarketSymbolLayout | python/ccxt/async_support/lakebtc.py:96-100 | for a six-character id the symbol is the upper-cased base, `/`, the upper-cased quote (about `MarketFromEntry`) |
| LakeBtc.MarketSymbolRoundTrip | python/ccxt/async_support/lakebtc.py:96-100 | for an id without `/`, splitting the symbol at `/` gives back `[base, quote]` (about `MarketFromEntry`) |
| LakeBtc.ParseTickerShape | python/ccxt/async_support/lakebtc.py:137-164 | a ticker has a symbol exactly when a market is given (that market's), `high`, `low`, `bid`, `ask` and `last` are read from their keys, `close == last`, `datetime` is the ISO 8601 form of the clock reading, `baseVolume` is the volume, the unreported fields are null, the timestamp is the clock reading, and `info` is the raw ticker (about `ParseTicker`) |
| LakeBtc.TickerAssignmentKeying | python/ccxt/async_support/lakebtc.py:171-178 | a cached id is filed under its market's symbol and the ticker names it; an unknown id is filed under itself with a null symbol (about `TickerAssignments`) |
| LakeBtc.FetchTickers | python/ccxt/async_support/lakebtc.py:166-178 | the result has distinct keys: exactly the remapped response keys, each holding the last ticker filed under it; without collisions, the assignments in response order |
| LakeBtc.FetchTickerResult | python/ccxt/async_support/lakebtc.py:181-185 | with a consistent cache, `fetch_ticker` succeeds exactly when the symbol is cached and the response holds its id; the ticker is exactly `parse_ticker` of the response's entry for the market id, with that market and the clock reading, and names the symbol; an unknown symbol raises BadSymbol, a missing id KeyError, and a response that is not a dictionary TypeError (about `FetchTicker`) |
| LakeBtc.TradeCostRule | python/ccxt/async_support/lakebtc.py:187-213 | a trade has a cost exactly when it has a price and an amount, the cost is their product, `price`, `amount`, `id`, `timestamp` and `datetime` are read from the trade, it has a symbol exactly when a market is given (that market's), and the unreported fields are null (about `ParseTrade`) |
| LakeBtc.OrderSuffixResolves | python/ccxt/async_support/lakebtc.py:228-233 | the method name `create_order` builds can only resolve to `buyOrder` or `sellOrder` (about `Capitalize`, `PrivatePostMethod`) |
| LakeBtc.CapitalizedBuy | python/ccxt/async_support/lakebtc.py:228 | the side resolves to `buyOrder` exactly for "buy" and "Buy" (about `Capitalize`, `PrivatePostMethod`) |
| LakeBtc.CapitalizedSell | python/ccxt/async_support/lakebtc.py:228 | the side resolves to `sellOrder` exactly for "sell" and "Sell" (about `Capitalize`, `PrivatePostMethod`) |
| LakeBtc.CreateOrderOutcome | python/ccxt/async_support/lakebtc.py:224-233 | a market order raises ExchangeError before the symbol lookup and the endpoint lookup; an unknown symbol raises BadSymbol; buy and sell sides reach their endpoints and nothing else succeeds; the request is `extend({params: [price, amount, market id]}, params)`, so `params` is `[price, amount, market id]` unless the caller overrides it (about `CreateOrder`) |
| LakeBtc.OrderFromResponse | python/ccxt/async_support/lakebtc.py:234-237 | the order keeps the raw response, and has an id exactly when the response is a dictionary holding a non-null `id` |
| LakeBtc.OrderIdReadsBack | python/ccxt/async_support/lakebtc.py:234-237 | a text `id` is returned as it is; a non-negative integer `id` is returned as decimal digits that read back as that integer (about `OrderFromResponse`) |
| LakeBtc.CancelOrderUnresolved | python/ccxt/async_support/lakebtc.py:239-244 | as written, `cancel_order` always fails with AttributeError: no endpoint generates `privatePostCancelOrder` (about `CancelOrder`) |
| LakeBtc.CancelOrderIntendedReaches | python/ccxt/async_support/lakebtc.py:63 | the intended `cancel_order` reaches `cancelOrders` with `params` holding `[id]` unless overridden (about `CancelOrderIntended`) |
| LakeBtc.PublicUrlShape | python/ccxt/async_support/lakebtc.py:250-254 | a public URL starts with root `/` path, and is exactly that without parameters; for a path without `?`, it has a query exactly when there are parameters, and the query is their urlencoding (about `PublicUrl`) |
| LakeBtc.StringifyGuardHarmless | python/ccxt/async_support/lakebtc.py:264-268 | testing the list instead of the element collects the same strings as testing each element (about `ParamStrings`) |
| LakeBtc.Sign | python/ccxt/async_support/lakebtc.py:249-299 | a public call returns the public URL with the caller's body and headers; a private call without credentials raises AuthenticationError; with credentials, the loop builds exactly the request `PrivateRequest` builds |
| LakeBtc.CanonicalQueryFields | python/ccxt/async_support/lakebtc.py:282-290 | when the API key, the HTTP method, the path and the params field hold no `&`, the canonical string splits into exactly six fields: tonce, accesskey, lower-cased requestmethod, id, method, params; the nonce and request id read back from their fields (about `CanonicalQuery`) |
| LakeBtc.CanonicalQueryOpensWithTonce | python/ccxt/async_support/lakebtc.py:282-290 | whatever the other fields hold, the first `&`-field is `tonce=` and the nonce string (about `CanonicalQuery`) |
| LakeBtc.ParamsFieldRule | python/ccxt/async_support/lakebtc.py:260-269 | the `params` field is empty without a `params` entry; for a list it is the comma-join of every item's `str`, which, for a non-empty list, splits back when no item holds a comma (about `ParamsField`) |
| LakeBtc.RpcEnvelopeFields | python/ccxt/async_support/lakebtc.py:270-280 | the body's `method` is the path and its `id` the request id; its `params` is the caller's entry, or `''` without one (about `RpcEnvelope`) |
| LakeBtc.SignedHeadersFields | python/ccxt/async_support/lakebtc.py:294-298 | the headers carry the tonce, the authorization and the JSON content type (about `SignedHeaders`) |
| LakeBtc.PrivateRequestLayout | python/ccxt/async_support/lakebtc.py:256-298 | a signed request fails only where stringifying `params` fails; it goes to the root; the tonce header equals the canonical string's tonce field; the authorization signs that string; the body is the JSON envelope (about `PrivateRequest`) |
| LakeBtc.HandleErrorsDecision | python/ccxt/async_support/lakebtc.py:301-313 | no response falls through; a response without `error` falls through; an `error` always raises with `lakebtc <body>`, as the first matching table entry's class, or as ExchangeError exactly when no key matches (about `HandleErrors`) |
| LakeBtc.ErrorMessageRaises | python/ccxt/async_support/lakebtc.py:309-313 | an `error` message whose first matching entry is `j` raises entry `j`'s class (about `HandleErrors`) |
| LakeBtc.InvalidSymbolIsBadSymbol | python/ccxt/async_support/lakebtc.py:305 | the documented unknown-symbol rejection raises BadSymbol (about `HandleErrors`) |
| LakeBtc.MinimumVolumeIsInvalidOrder | python/ccxt/async_support/lakebtc.py:306 | the documented minimum-volume rejection raises InvalidOrder (about `HandleErrors`) |
| LakeBtc.InsufficientBalanceIsInsufficientFunds | python/ccxt/async_support/lakebtc.py:307 | the documented low-balance rejection raises InsufficientFunds (about `HandleErrors`) |
| LakeBtc.SignatureTakesPrecedence | python/ccxt/async_support/lakebtc.py:80-85 | a message mentioning `Signature` raises AuthenticationError, whatever else it contains (about `HandleErrors`) |

## Findings

| source | as written | input that shows it | evidently intended | confidence | as-written member | corrected member |
|---|---|---|---|---|---|---|
| python/ccxt/async_support/lakebtc.py:244 | `cancel_order` calls `privatePostCancelOrder`, but the declared endpoint at line 63 is `cancelOrders`, which generates `privatePostCancelOrders` | any call, e.g. `cancel_order(1)`: the method lookup fails | send `{params: [id]}` to `cancelOrders` | medium (not executed; depends on the base client's method generation) | LakeBtc.CancelOrderUnresolved | LakeBtc.CancelOrderIntendedReaches |

## Left out

- Async HTTP dispatch (`publicGet*`, `privatePost*`) and `load_markets`: network plumbing in the base client. Calls stop at the request they would send (`PrivateCall`, `Request`).
- `fetch_balance` and `fetch_order_book`: request building and parsing through unseen base helpers (`safe_currency_code`, `parse_balance`, `parse_order_book`).
- `fetch_trades`: only `parse_trade` is modelled. `parse_trades`, and with it the `since`/`limit` handling, belongs to the base client.
- `FetchTickers`: stops before the final `filter_by_array(result, 'symbol', symbols)`, a base-client helper.
- `describe()` metadata: the URLs, fees and capability flags. Only the API root, the version, the private `post` endpoint list and the broad-exception table are modelled. The public `get` endpoint list (lakebtc.py:53-58) is not: the public calls stop at the request they would send.
- HMAC-SHA1, base64, `json`, `urlencode`, `encode`/`decode`, `repr` of lists and dictionaries, `iso8601`, `safe_float` and `safe_timestamp`: foreign calls. They are uninterpreted fields of `Base`. The byte/text distinction of `encode`/`decode` is dropped.
- `TradeCostRule`: the cost is a product of reals. Floating-point rounding is not modelled.
- Clocks (`milliseconds`, `microseconds`, `seconds`) are inputs. No monotonicity of nonces is assumed or proved.
- `Strings.Upper`, `Strings.Lower`: ASCII case mapping only, not Python's Unicode `upper` and `lower`.
- `Strings.Capitalize`: ASCII case mapping of the first character, not Python's Unicode `upper`. Python maps `'ſ'` (U+017F) to `S` and `'ß'` to the two characters `SS`; the model leaves both unchanged.
- `LakeBtc.CapitalizeKeepsLast`: keeps the length only under ASCII case mapping; in Python, `capitalize` of a string starting with `'ß'` is one character longer.
- `LakeBtc.CapitalizedSell`: "exactly `sell` and `Sell`" holds under ASCII case mapping only. In Python `'ſ'.upper() == 'S'`, so the side `ſell` also reaches `sellOrder`, where the model raises AttributeError.
- `LakeBtc.CreateOrderOutcome`: its sell-side "exactly" inherits the same gap: the side `ſell` reaches `sellOrder` in Python, but fails in the model.
- `PrivatePostMethod`: assumes the base client's naming rule for generated methods. The snake-case aliases it also generates are not modelled.
- `Sign`: `check_required_credentials` is assumed to pass exactly when the API key and secret are both present and non-empty.
- `Sign`: only strings, lists and dictionaries are walked for `params['params']`. Indexing a non-empty dictionary by position is modelled as a KeyError, and `len` of any other value as a TypeError. The exception messages are placeholders.
- `FetchMarkets`, `FetchTickers`: the response is taken as a dictionary, so a response that is not one, where `response.keys()` raises AttributeError (lakebtc.py:92, lakebtc.py:169), has no counterpart here. `FetchTicker` does model its non-dictionary TypeError.
- `FetchMarkets`, `FetchTickers`: `DistinctKeys(response)` states what a decoded JSON object guarantees. The source needs no such check.
- Python's `dict` passed by reference, and mutation of the caller's `params`: the adapter never mutates them, so every dictionary here is a value.
