/** Decoded JSON values and Python dictionaries. A dictionary is an association list
    in insertion order, which is the order `dict.keys()` reports. */
module Json {
  import opened Wrappers
  import opened Strings

  /** A decoded JSON value. `Float` carries a number by its Python `str` rendering. */
  datatype Value =
    | Null
    | Bool(b: bool)
    | Int(i: int)
    | Float(text: string)
    | Text(s: string)
    | List(items: seq<Value>)
    | Object(entries: Dict<Value>)

  type Dict<V> = seq<(string, V)>

  /** The set of keys of a dictionary. */
  function Keys<V>(d: Dict<V>): set<string> {
    if d == [] then {} else {d[0].0} + Keys(d[1..])
  }

  /** Python `list(d.keys())`: the keys in insertion order. */
  function KeyList<V>(d: Dict<V>): (r: seq<string>)
    ensures |r| == |d|
    ensures forall i :: 0 <= i < |d| ==> r[i] == d[i].0
  {
    if d == [] then [] else [d[0].0] + KeyList(d[1..])
  }

  /** Every key appears once, as in any Python dict. */
  predicate DistinctKeys<V>(d: Dict<V>) {
    d == [] || (d[0].0 !in Keys(d[1..]) && DistinctKeys(d[1..]))
  }

  /** `d[k]` if present (`k in d`); the first entry with that key. */
  function Get<V>(d: Dict<V>, k: string): (r: Option<V>)
    ensures r.Some? <==> k in Keys(d)
  {
    if d == [] then None
    else if d[0].0 == k then Some(d[0].1)
    else Get(d[1..], k)
  }

  /** Python `d[k] = v`: an existing key keeps its position and takes the new value;
      a new key goes at the end. */
  function Put<V>(d: Dict<V>, k: string, v: V): (r: Dict<V>)
    ensures Get(r, k) == Some(v)
    ensures forall k' :: k' != k ==> Get(r, k') == Get(d, k')
    ensures Keys(r) == Keys(d) + {k}
    ensures DistinctKeys(d) ==> DistinctKeys(r)
  {
    if d == [] then [(k, v)]
    else if d[0].0 == k then [(k, v)] + d[1..]
    else [d[0]] + Put(d[1..], k, v)
  }

  /** A key that is not yet present is appended. */
  lemma {:induction false} PutNew<V>(d: Dict<V>, k: string, v: V)
    requires k !in Keys(d)
    ensures Put(d, k, v) == d + [(k, v)]
  {
    if d != [] {
      PutNew(d[1..], k, v);
      assert [d[0]] + (d[1..] + [(k, v)]) == d + [(k, v)];
    }
  }

  /** The keys of a dictionary extended at the end. */
  lemma {:induction false} KeysSnoc<V>(d: Dict<V>, e: (string, V))
    ensures Keys(d + [e]) == Keys(d) + {e.0}
    ensures DistinctKeys(d + [e]) <==> DistinctKeys(d) && e.0 !in Keys(d)
  {
    if d != [] {
      assert (d + [e])[1..] == d[1..] + [e];
      KeysSnoc(d[1..], e);
    }
  }

  /** A key is present exactly when some entry carries it. */
  lemma {:induction false} InKeys<V>(d: Dict<V>, k: string)
    ensures k in Keys(d) <==> exists i :: 0 <= i < |d| && d[i].0 == k
  {
    if d != [] {
      InKeys(d[1..], k);
      if k in Keys(d[1..]) {
        var i :| 0 <= i < |d[1..]| && d[1..][i].0 == k;
        assert d[i + 1].0 == k;
      }
      forall i | 1 <= i < |d| && d[i].0 == k ensures k in Keys(d[1..]) {
        assert d[1..][i - 1].0 == k;
      }
    }
  }

  /** In a dictionary with distinct keys, looking up the key of entry `i` gives entry `i`'s value. */
  lemma {:induction false} GetAt<V>(d: Dict<V>, i: nat)
    requires DistinctKeys(d)
    requires i < |d|
    ensures Get(d, d[i].0) == Some(d[i].1)
  {
    if i > 0 {
      assert d[1..][i - 1] == d[i];
      InKeys(d[1..], d[i].0);
      GetAt(d[1..], i - 1);
    }
  }

  /** Assigning `d[k] = v` for each entry of `es` in order (also the base client's `extend`). */
  function PutAll<V>(d: Dict<V>, es: Dict<V>): Dict<V>
    decreases |es|
  {
    if es == [] then d else Put(PutAll(d, es[..|es| - 1]), es[|es| - 1].0, es[|es| - 1].1)
  }

  /** One more assignment at the end of the run. */
  lemma PutAllStep<V>(d: Dict<V>, es: Dict<V>, i: nat)
    requires i < |es|
    ensures PutAll(d, es[..i + 1]) == Put(PutAll(d, es[..i]), es[i].0, es[i].1)
  {
    assert es[..i + 1][..i] == es[..i];
  }

  /** The reference meaning of a run of assignments: the last value assigned to each key. */
  ghost function Assigned<V>(es: Dict<V>): map<string, V>
    decreases |es|
  {
    if es == [] then map[] else Assigned(es[..|es| - 1])[es[|es| - 1].0 := es[|es| - 1].1]
  }

  /** After the assignments, a key holds the last value assigned to it, or its old value. */
  lemma {:induction false} PutAllGet<V>(d: Dict<V>, es: Dict<V>)
    ensures forall k :: Get(PutAll(d, es), k)
                         == (if k in Assigned(es) then Some(Assigned(es)[k]) else Get(d, k))
    ensures DistinctKeys(d) ==> DistinctKeys(PutAll(d, es))
    ensures Keys(PutAll(d, es)) == Keys(d) + Assigned(es).Keys
    decreases |es|
  {
    if es != [] {
      PutAllGet(d, es[..|es| - 1]);
    }
  }

  /** Assigning distinct keys into an empty dictionary rebuilds the entries as they are. */
  lemma {:induction false} PutAllDistinct<V>(es: Dict<V>)
    requires DistinctKeys(es)
    ensures PutAll([], es) == es
    decreases |es|
  {
    if es != [] {
      var n := |es| - 1;
      var init := es[..n];
      assert init + [es[n]] == es;
      KeysSnoc(init, es[n]);
      PutAllDistinct(init);
      PutNew(init, es[n].0, es[n].1);
    }
  }

  /** A run of assignments into an empty dictionary: each assigned key once, with the last
      value assigned to it; with distinct keys, the entries themselves. */
  lemma PutAllFromEmpty<V>(es: Dict<V>)
    ensures DistinctKeys(PutAll([], es))
    ensures forall k :: k in Keys(PutAll([], es)) <==> exists i :: 0 <= i < |es| && es[i].0 == k
    ensures forall k :: Get(PutAll([], es), k)
                         == (if k in Assigned(es) then Some(Assigned(es)[k]) else None)
    ensures DistinctKeys(es) ==> PutAll([], es) == es
  {
    PutAllGet([], es);
    AssignedSameKeys(es);
    forall k ensures k in Keys(PutAll([], es)) <==> exists i :: 0 <= i < |es| && es[i].0 == k {
      InKeys(es, k);
    }
    if DistinctKeys(es) {
      PutAllDistinct(es);
    }
  }

  /** The reference map of a run of assignments has exactly the assigned keys. */
  lemma {:induction false} AssignedSameKeys<V>(es: Dict<V>)
    ensures Assigned(es).Keys == Keys(es)
    decreases |es|
  {
    if es != [] {
      var n := |es| - 1;
      assert es[..n] + [es[n]] == es;
      KeysSnoc(es[..n], es[n]);
      AssignedSameKeys(es[..n]);
    }
  }

  /** Python `str(v)` on a decoded value; containers are rendered by the given `repr`. */
  function PyStr(v: Value, repr: Value -> string): string {
    match v
    case Null => "None"
    case Bool(b) => if b then "True" else "False"
    case Int(i) => IntToDecimal(i)
    case Float(t) => t
    case Text(s) => s
    case List(_) => repr(v)
    case Object(_) => repr(v)
  }
}
