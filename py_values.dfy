/**
 * The Python values the tools pass around: call arguments, shelve
 * records, nested result dictionaries and numpy arrays.
 */
module PyValues {

  datatype Option<T> = None | Some(value: T)

  /** The Python exception classes the modelled code raises or catches. */
  datatype Error =
    | KeyError | IndexError | AttributeError | TypeError
    | ValueError | OSError | IOError | NameError | RuntimeError | SystemExit
    | ImportError | DbError

  datatype Result<T> = Ok(value: T) | Err(error: Error)

  /** A non-empty sequence is its front followed by its last element. */
  lemma FrontLast<T>(s: seq<T>)
    requires |s| > 0
    ensures s == s[..|s| - 1] + [s[|s| - 1]]
  {
  }

  /** Two maps with the same keys and the same value at every key are equal. */
  lemma MapExt<K, V>(a: map<K, V>, b: map<K, V>)
    requires forall k :: k in a ==> k in b && a[k] == b[k]
    requires forall k :: k in b ==> k in a
    ensures a == b
  {
    assert a.Keys == b.Keys;
  }

  /**
   * The elements of an ndarray, nested along the leading axis, so that
   * `a[i, ...]` is `rows[i]`.
   */
  datatype Cells = Scalar(x: int) | Rows(rows: seq<Cells>)

  datatype NdArray = NdArray(dtype: string, shape: seq<nat>, cells: Cells)

  datatype Value =
    | NoneV
    | BoolV(b: bool)
    | IntV(i: int)
    | StrV(s: string)
    | TupleV(items: seq<Value>)
    | ListV(elems: seq<Value>)
    | DictV(entries: map<string, Value>)
    | ArrayV(arr: NdArray)

  /** A nested dictionary whose leaves are (mostly) ndarrays. */
  type Tree = map<string, Value>

  /** Keyword arguments in the dictionary's iteration order. */
  type KwArgs = seq<(string, Value)>

  /** The cells of an array have exactly the extents listed in `shape`. */
  predicate Conforms(c: Cells, shape: seq<nat>)
  {
    if |shape| == 0 then c.Scalar?
    else c.Rows? && |c.rows| == shape[0]
         && forall i :: 0 <= i < |c.rows| ==> Conforms(c.rows[i], shape[1..])
  }

  predicate WellShaped(a: NdArray)
  {
    Conforms(a.cells, a.shape)
  }

  /** `numpy.zeros(shape)`. */
  function Zeros(shape: seq<nat>): (c: Cells)
    ensures Conforms(c, shape)
    ensures forall i :: 0 <= i < |shape| ==> shape[i] > 0 ==> c.Rows?
  {
    if |shape| == 0 then Scalar(0)
    else Rows(seq(shape[0], _ => Zeros(shape[1..])))
  }

  /** Tuples are hashable when their items are; lists, dicts and arrays are not. */
  predicate Hashable(v: Value)
  {
    match v
    case ListV(_) => false
    case DictV(_) => false
    case ArrayV(_) => false
    case TupleV(items) => forall i :: 0 <= i < |items| ==> Hashable(items[i])
    case _ => true
  }

  /** No keyword appears twice, as in a Python dict. */
  predicate DistinctKeys(kw: KwArgs)
  {
    forall i, j :: 0 <= i < j < |kw| ==> kw[i].0 != kw[j].0
  }

  function Keys(kw: KwArgs): set<string>
  {
    set i | 0 <= i < |kw| :: kw[i].0
  }

  /** `kw[name]`, failing with KeyError. */
  function KwGet(kw: KwArgs, name: string): (r: Result<Value>)
    ensures r.Ok? <==> name in Keys(kw)
    ensures r.Ok? ==> exists i :: 0 <= i < |kw| && kw[i] == (name, r.value)
    ensures r.Err? ==> r.error == KeyError
  {
    if |kw| == 0 then Err(KeyError)
    else if kw[0].0 == name then Ok(kw[0].1)
    else
      var r := KwGet(kw[1..], name);
      assert r.Ok? ==> kw[1..][0].0 == name || name in Keys(kw[1..]);
      assert Keys(kw) == {kw[0].0} + Keys(kw[1..]) by {
        forall k | k in Keys(kw) ensures k in {kw[0].0} + Keys(kw[1..]) {
          var i :| 0 <= i < |kw| && kw[i].0 == k;
          if i > 0 { assert kw[1..][i - 1].0 == k; }
        }
      }
      if r.Ok? then
        var i :| 0 <= i < |kw[1..]| && kw[1..][i] == (name, r.value);
        assert kw[i + 1] == (name, r.value);
        r
      else r
  }

  /** `kw[name] = v` on an existing keyword: the position is kept. */
  function KwSet(kw: KwArgs, name: string, v: Value): (r: KwArgs)
    ensures |r| == |kw|
    ensures forall i :: 0 <= i < |kw| ==>
              r[i] == (if kw[i].0 == name then (name, v) else kw[i])
  {
    seq(|kw|, i requires 0 <= i < |kw| => if kw[i].0 == name then (name, v) else kw[i])
  }

  /** `del kw[name]`: the other keywords keep their order. */
  function KwDel(kw: KwArgs, name: string): (r: KwArgs)
    ensures forall i :: 0 <= i < |r| ==> r[i].0 != name
    ensures forall p :: p in r <==> p in kw && p.0 != name
    ensures DistinctKeys(kw) ==> DistinctKeys(r)
  {
    if |kw| == 0 then []
    else if kw[0].0 == name then KwDel(kw[1..], name)
    else [kw[0]] + KwDel(kw[1..], name)
  }

  /** The keyword arguments as the dict object a record stores. */
  function KwDict(kw: KwArgs): (d: map<string, Value>)
    ensures forall k :: k in d ==> k in Keys(kw)
  {
    if |kw| == 0 then map[]
    else
      var init := kw[..|kw| - 1];
      assert forall k :: k in Keys(init) ==> k in Keys(kw) by {
        forall k | k in Keys(init) ensures k in Keys(kw) {
          var i :| 0 <= i < |init| && init[i].0 == k;
          assert kw[i].0 == k;
        }
      }
      assert kw[|kw| - 1].0 in Keys(kw);
      KwDict(init)[kw[|kw| - 1].0 := kw[|kw| - 1].1]
  }
}
