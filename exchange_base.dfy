/** What the adapter takes from the shared base client. The base client is not part of this
    model: its foreign helpers are parameters (a record of functions), and the few helpers
    whose behaviour the adapter's rules depend on are written out here as ASSUMPTIONS about
    that client, each marked as such. */
module ExchangeBase {
  import opened Wrappers
  import opened Strings
  import opened Json

  /** The exception classes the adapter raises, plus the Python runtime errors its code can hit. */
  datatype ErrorKind =
    | ExchangeError
    | AuthenticationError
    | BadSymbol
    | InvalidOrder
    | InsufficientFunds
    | KeyError
    | TypeError
    | AttributeError

  /** A raised exception: its class and its message. */
  datatype Error = Error(kind: ErrorKind, message: string)

  /** The base client's foreign helpers, left uninterpreted. Strings stand for the
      byte strings `encode`/`decode` convert between. */
  datatype Base = Base(
    urlencode: Dict<Value> -> string,
    json: Value -> string,
    hmacSha1Hex: (string, string) -> string,   // hmac(message, secret, sha1), hex digest
    stringToBase64: string -> string,
    repr: Value -> string,                     // Python repr of a list or dict
    iso8601: Option<int> -> Option<string>,
    safeFloat: (Value, string) -> Option<real>,
    safeTimestamp: (Value, string) -> Option<int>)

  /** ASSUMPTION (base client): `safe_string(d, key)` is `str(d[key])` when `d` is a
      dictionary holding a non-null value under `key`, and None otherwise. */
  function SafeString(d: Value, key: string, repr: Value -> string): Option<string> {
    match d
    case Object(es) =>
      (match Get(es, key)
       case Some(v) => if v.Null? then None else Some(PyStr(v, repr))
       case None => None)
    case _ => None
  }

  /** ASSUMPTION (base client): `extend(a, b)` copies `a` and then assigns every entry of `b`. */
  function Extend(a: Dict<Value>, b: Dict<Value>): Dict<Value> {
    PutAll(a, b)
  }

  /** `extend(a, b)`: a key of `b` takes the last value `b` gives it; any other key keeps `a`'s. */
  lemma ExtendGet(a: Dict<Value>, b: Dict<Value>, k: string)
    ensures Assigned(b).Keys == Keys(b)
    ensures k !in Keys(b) ==> Get(Extend(a, b), k) == Get(a, k)
    ensures k in Keys(b) ==> Get(Extend(a, b), k) == Some(Assigned(b)[k])
    ensures Keys(Extend(a, b)) == Keys(a) + Keys(b)
  {
    PutAllGet(a, b);
    AssignedSameKeys(b);
  }

  /** ASSUMPTION (base client): `find_broadly_matched_key(broad, s)` scans the table in
      order and returns the first key found in `s` by `str.find`. Here: its position. */
  function FindBroadlyMatchedKey(broad: seq<(string, ErrorKind)>, s: string): (r: Option<nat>)
    ensures r.Some? ==> r.value < |broad| && Contains(s, broad[r.value].0)
    ensures r.Some? ==> forall i :: 0 <= i < r.value ==> !Contains(s, broad[i].0)
    ensures r.None? <==> forall i :: 0 <= i < |broad| ==> !Contains(s, broad[i].0)
  {
    if broad == [] then None
    else if Contains(s, broad[0].0) then Some(0)
    else
      match FindBroadlyMatchedKey(broad[1..], s)
      case None => None
      case Some(j) => Some(j + 1)
  }

  /** ASSUMPTION (base client): `market(symbol)` returns the cached market, and raises
      BadSymbol for a symbol the cache does not hold. */
  function MarketBySymbol<M>(markets: map<string, M>, exchangeId: string, symbol: string): (r: Result<M, Error>)
    ensures r.Success? <==> symbol in markets
    ensures r.Success? ==> r.value == markets[symbol]
    ensures r.Failure? ==> r.error.kind == BadSymbol
  {
    if symbol in markets then Success(markets[symbol])
    else Failure(Error(BadSymbol, exchangeId + " does not have market symbol " + symbol))
  }
}
