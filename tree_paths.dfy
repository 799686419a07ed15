/**
 * Paths into nested dictionaries: what a path reaches, which paths end
 * at an array, inserting a leaf along a path, and building the tree that
 * has exactly a given set of array leaves.
 */
module TreePaths {
  import opened PyValues

  type Path = seq<string>
  type LeafMap = map<Path, NdArray>

  /** The value reached from `v` by indexing with each key of `p` in turn. */
  function At(v: Value, p: Path): Option<Value>
    decreases p
  {
    if |p| == 0 then Some(v)
    else match v
      case DictV(c) => if p[0] in c then At(c[p[0]], p[1..]) else None
      case _ => None
  }

  function Get(t: Tree, p: Path): Option<Value>
  {
    At(DictV(t), p)
  }

  /** The array stored at `p`, if `p` ends at an array. */
  function ArrayAt(t: Tree, p: Path): Option<NdArray>
  {
    match Get(t, p)
    case Some(ArrayV(a)) => Some(a)
    case _ => None
  }

  lemma GetCons(t: Tree, k: string, r: Path)
    ensures Get(t, [k] + r) == if k in t then At(t[k], r) else None
  {
    assert ([k] + r)[1..] == r;
  }

  lemma GetOne(t: Tree, k: string)
    ensures Get(t, [k]) == if k in t then Some(t[k]) else None
  {
    GetCons(t, k, []);
    assert [k] + [] == [k];
  }

  lemma {:induction false} AtAppend(v: Value, p: Path, q: Path)
    ensures At(v, p + q) == match At(v, p) case Some(w) => At(w, q) case None => None
  {
    if |p| > 0 {
      assert (p + q)[0] == p[0] && (p + q)[1..] == p[1..] + q;
      match v
      case DictV(c) =>
        if p[0] in c {
          AtAppend(c[p[0]], p[1..], q);
        }
      case _ =>
    } else {
      assert p + q == q;
    }
  }

  // ---------------------------------------------------------------------
  // Clean trees: every leaf an array, no empty sub-dictionary.

  predicate CleanNode(q: Path, v: Value)
  {
    v.ArrayV? || (v.DictV? && (|q| == 0 || |v.entries| > 0))
  }

  ghost predicate Clean(t: Tree)
  {
    forall q :: Get(t, q).Some? ==> CleanNode(q, Get(t, q).value)
  }

  lemma CleanChild(t: Tree, k: string)
    requires Clean(t) && k in t && t[k].DictV?
    ensures Clean(t[k].entries)
  {
    var c := t[k].entries;
    forall r | Get(c, r).Some?
      ensures CleanNode(r, Get(c, r).value)
    {
      GetCons(t, k, r);
      assert Get(t, [k] + r) == Get(c, r);
    }
  }

  /** A non-empty clean tree has an array somewhere. */
  lemma {:induction false} CleanHasLeaf(t: Tree)
    requires Clean(t) && |t| > 0
    ensures exists q :: ArrayAt(t, q).Some?
    decreases DictV(t)
  {
    var k :| k in t;
    GetOne(t, k);
    if t[k].ArrayV? {
      assert ArrayAt(t, [k]).Some?;
    } else {
      var c := t[k].entries;
      assert CleanNode([k], t[k]);
      CleanChild(t, k);
      CleanHasLeaf(c);
      var q :| ArrayAt(c, q).Some?;
      GetCons(t, k, q);
      assert ArrayAt(t, [k] + q).Some?;
    }
  }

  /** Two trees with the same leaf map hold the same array (or none) at every path. */
  lemma SameLeaves(t1: Tree, t2: Tree)
    requires Leaves(t1) == Leaves(t2)
    ensures forall q :: ArrayAt(t1, q) == ArrayAt(t2, q)
  {
    forall q ensures ArrayAt(t1, q) == ArrayAt(t2, q) {
      if q in Leaves(t1) {
        assert ArrayAt(t1, q) == Some(Leaves(t1)[q]);
      }
    }
  }

  /** Clean trees with the same arrays at the same paths are equal. */
  lemma {:induction false} CleanUnique(t1: Tree, t2: Tree)
    requires Clean(t1) && Clean(t2)
    requires forall q :: ArrayAt(t1, q) == ArrayAt(t2, q)
    ensures t1 == t2
    decreases DictV(t1)
  {
    forall k | k in t2
      ensures k in t1
    {
      SameKey(t2, t1, k);
    }
    forall k | k in t1
      ensures k in t2 && t2[k] == t1[k]
    {
      SameKey(t1, t2, k);
      if t1[k].DictV? {
        var c1 := t1[k].entries;
        var c2 := t2[k].entries;
        CleanChild(t1, k);
        CleanChild(t2, k);
        forall r
          ensures ArrayAt(c1, r) == ArrayAt(c2, r)
        {
          GetCons(t1, k, r);
          GetCons(t2, k, r);
          assert ArrayAt(t1, [k] + r) == ArrayAt(t2, [k] + r);
        }
        CleanUnique(c1, c2);
        assert t2[k] == DictV(c2);
      }
    }
  }

  /** A key of one of two clean trees with equal leaves is a key of the other, of the same kind. */
  lemma SameKey(t1: Tree, t2: Tree, k: string)
    requires Clean(t1) && Clean(t2) && k in t1
    requires forall q :: ArrayAt(t1, q) == ArrayAt(t2, q)
    ensures k in t2
    ensures t1[k].ArrayV? || t1[k].DictV?
    ensures t1[k].ArrayV? ==> t2[k] == t1[k]
    ensures t1[k].DictV? ==> t2[k].DictV?
  {
    GetOne(t1, k);
    GetOne(t2, k);
    assert ArrayAt(t1, [k]) == ArrayAt(t2, [k]);
    assert CleanNode([k], t1[k]);
    if !t1[k].ArrayV? {
      var c1 := t1[k].entries;
      CleanChild(t1, k);
      CleanHasLeaf(c1);
      var q :| ArrayAt(c1, q).Some?;
      GetCons(t1, k, q);
      GetCons(t2, k, q);
      assert ArrayAt(t2, [k] + q).Some?;
    }
  }

  // ---------------------------------------------------------------------
  // The array leaves of a tree.

  function LeafPathsOf(v: Value): set<Path>
  {
    match v
    case ArrayV(_) => {[]}
    case DictV(c) => set k, q | k in c && q in LeafPathsOf(c[k]) :: [k] + q
    case _ => {}
  }

  lemma {:induction false} LeafPathsOfIff(v: Value, p: Path)
    ensures p in LeafPathsOf(v) <==> (At(v, p).Some? && At(v, p).value.ArrayV?)
    decreases p
  {
    if |p| > 0 {
      assert p == [p[0]] + p[1..];
      match v
      case DictV(c) =>
        if p[0] in c {
          LeafPathsOfIff(c[p[0]], p[1..]);
        }
        if p in LeafPathsOf(v) {
          var k, q :| k in c && q in LeafPathsOf(c[k]) && p == [k] + q;
          assert k == p[0] && q == p[1..];
        }
      case _ =>
    }
  }

  /** The paths of `t` that end at an array. */
  function LeafPaths(t: Tree): (s: set<Path>)
    ensures forall p :: p in s <==> ArrayAt(t, p).Some?
  {
    forall p ensures p in LeafPathsOf(DictV(t)) <==> ArrayAt(t, p).Some? {
      LeafPathsOfIff(DictV(t), p);
    }
    LeafPathsOf(DictV(t))
  }

  /** The array leaves of `t`, keyed by path. */
  function Leaves(t: Tree): (m: LeafMap)
    ensures forall p :: p in m <==> ArrayAt(t, p).Some?
    ensures forall p :: p in m ==> ArrayAt(t, p) == Some(m[p])
  {
    map p | p in LeafPaths(t) :: ArrayAt(t, p).value
  }

  /** No leaf path is empty, and none lies on the way to another. */
  predicate LeafMapShape(m: LeafMap)
  {
    (forall p :: p in m ==> |p| > 0)
    && forall p, q :: p in m && q in m ==> !(p < q)
  }

  lemma LeavesShape(t: Tree)
    ensures LeafMapShape(Leaves(t))
  {
    forall p, q | p in Leaves(t) && q in Leaves(t)
      ensures !(p < q)
    {
      if p < q {
      assert q == p + q[|p|..];
      AtAppend(DictV(t), p, q[|p|..]);
      }
    }
  }

  // ---------------------------------------------------------------------
  // Inserting a leaf along a path (tree_tools.set_leaf).

  predicate DictOrAbsent(o: Option<Value>)
  {
    o.None? || o.value.DictV?
  }

  /** Every proper prefix of `b` (except the root) is a dict or missing. */
  predicate Traversable(t: Tree, b: Path)
  {
    forall i :: 0 < i < |b| ==> DictOrAbsent(Get(t, b[..i]))
  }

  lemma TraversableCons(t: Tree, b: Path)
    requires |b| > 1
    ensures Traversable(t, b) <==>
              (b[0] !in t || t[b[0]].DictV?)
              && Traversable(if b[0] in t && t[b[0]].DictV? then t[b[0]].entries else map[], b[1..])
  {
    var c: Tree := if b[0] in t && t[b[0]].DictV? then t[b[0]].entries else map[];
    forall i | 1 < i < |b|
      ensures b[0] !in t || t[b[0]].DictV? ==> Get(t, b[..i]) == Get(c, b[1..][..i - 1])
    {
      assert b[..i] == [b[0]] + b[1..][..i - 1];
      GetCons(t, b[0], b[1..][..i - 1]);
    }
    GetOne(t, b[0]);
    assert b[..1] == [b[0]];
    if Traversable(t, b) {
      assert DictOrAbsent(Get(t, b[..1]));
      forall j | 0 < j < |b[1..]|
        ensures DictOrAbsent(Get(c, b[1..][..j]))
      {
        assert DictOrAbsent(Get(t, b[..j + 1]));
      }
    }
    if (b[0] !in t || t[b[0]].DictV?) && Traversable(c, b[1..]) {
      forall i | 0 < i < |b|
        ensures DictOrAbsent(Get(t, b[..i]))
      {
        if i > 1 {
          assert DictOrAbsent(Get(c, b[1..][..i - 1]));
        }
      }
    }
  }

  /**
   * `set_leaf(tree, branches, leaf)`: walk down `branches`, creating empty
   * dicts that are missing, and store `leaf` under the last key.  Empty
   * `branches` is an IndexError.  Below a non-dict, one key left is an item
   * assignment with a string index: numpy refuses it on an ndarray (the
   * field is not found, a ValueError) and every other value with a
   * TypeError; more keys left call the value's missing `has_key`
   * (AttributeError).
   */
  function SetLeaf(t: Tree, b: Path, leaf: Value): (r: Result<Tree>)
    ensures |b| == 0 ==> r == Err(IndexError)
    ensures r.Ok? <==> |b| > 0 && Traversable(t, b)
    ensures |b| == 2 && b[0] in t && t[b[0]].ArrayV? ==> r == Err(ValueError)
    ensures |b| == 2 && b[0] in t && !t[b[0]].DictV? && !t[b[0]].ArrayV? ==> r == Err(TypeError)
    ensures |b| > 2 && b[0] in t && !t[b[0]].DictV? ==> r == Err(AttributeError)
    ensures r.Err? ==> r.error in {IndexError, TypeError, ValueError, AttributeError}
    decreases b
  {
    if |b| == 0 then Err(IndexError)
    else if |b| == 1 then Ok(t[b[0] := leaf])
    else
      var sub := if b[0] in t then t[b[0]] else DictV(map[]);
      TraversableCons(t, b);
      match sub
      case DictV(c) =>
        (match SetLeaf(c, b[1..], leaf)
         case Ok(c') => Ok(t[b[0] := DictV(c')])
         case Err(e) => Err(e))
      case ArrayV(_) => if |b| == 2 then Err(ValueError) else Err(AttributeError)
      case _ => if |b| == 2 then Err(TypeError) else Err(AttributeError)
  }

  /** What every path reaches after a successful SetLeaf. */
  lemma {:induction false} SetLeafAt(t: Tree, b: Path, leaf: Value, q: Path)
    requires SetLeaf(t, b, leaf).Ok?
    ensures var r := SetLeaf(t, b, leaf).value;
      && (b <= q ==> Get(r, q) == At(leaf, q[|b|..]))
      && (q < b ==> Get(r, q).Some? && Get(r, q).value.DictV? && b[|q|] in Get(r, q).value.entries)
      && (!(q <= b) && !(b <= q) ==> Get(r, q) == Get(t, q))
    decreases b
  {
    var r := SetLeaf(t, b, leaf).value;
    if |q| > 0 {
      GetCons(r, q[0], q[1..]);
      GetCons(t, q[0], q[1..]);
      assert q == [q[0]] + q[1..];
      if |b| > 1 && q[0] == b[0] {
        var c: Tree := if b[0] in t then t[b[0]].entries else map[];
        var c' := SetLeaf(c, b[1..], leaf).value;
        assert r[b[0]] == DictV(c');
        SetLeafAt(c, b[1..], leaf, q[1..]);
        assert b <= q <==> b[1..] <= q[1..];
        assert q < b <==> q[1..] < b[1..];
        if b <= q {
          assert q[|b|..] == q[1..][|b[1..]|..];
        }
        if !(q <= b) && !(b <= q) && b[0] !in t {
          assert |q| > 1;
        }
      }
    }
  }

  /**
   * Adding an array at a path unrelated to every existing array keeps a
   * clean tree clean and adds exactly that one leaf.
   */
  lemma SetLeafClean(t: Tree, b: Path, a: NdArray)
    requires Clean(t) && |b| > 0
    requires forall q :: ArrayAt(t, q).Some? ==> !(q <= b) && !(b <= q)
    ensures SetLeaf(t, b, ArrayV(a)).Ok?
    ensures Clean(SetLeaf(t, b, ArrayV(a)).value)
    ensures forall q :: ArrayAt(SetLeaf(t, b, ArrayV(a)).value, q)
                        == if q == b then Some(a) else ArrayAt(t, q)
  {
    forall i | 0 < i < |b|
      ensures DictOrAbsent(Get(t, b[..i]))
    {
      assert ArrayAt(t, b[..i]).None?;
      if Get(t, b[..i]).Some? {
        assert CleanNode(b[..i], Get(t, b[..i]).value);
      }
    }
    var r := SetLeaf(t, b, ArrayV(a)).value;
    forall q
      ensures (Get(r, q).Some? ==> CleanNode(q, Get(r, q).value))
              && ArrayAt(r, q) == if q == b then Some(a) else ArrayAt(t, q)
    {
      SetLeafAt(t, b, ArrayV(a), q);
      if b <= q && q != b {
        assert q[|b|..] != [];
      }
    }
  }

  // ---------------------------------------------------------------------
  // The tree with exactly a given set of leaves.

  /** The keys of a finite set, in some order, each once. */
  ghost function Enumerate(ks: set<Path>): (s: seq<Path>)
    ensures |s| == |ks|
    ensures forall i :: 0 <= i < |s| ==> s[i] in ks
    ensures forall p :: p in ks ==> p in s
    ensures forall i, j :: 0 <= i < j < |s| ==> s[i] != s[j]
    decreases |ks|
  {
    if ks == {} then []
    else
      var p :| p in ks;
      Enumerate(ks - {p}) + [p]
  }

  /** Insert the leaves `m[ks[0]]`, `m[ks[1]]`, ... one after the other with SetLeaf. */
  function InsertAll(m: LeafMap, ks: seq<Path>): Tree
    requires forall i :: 0 <= i < |ks| ==> ks[i] in m
  {
    if |ks| == 0 then map[]
    else
      var last := ks[|ks| - 1];
      match SetLeaf(InsertAll(m, ks[..|ks| - 1]), last, ArrayV(m[last]))
      case Ok(t) => t
      case Err(_) => map[]
  }

  /**
   * Inserting distinct keys of a leaf map gives a clean tree whose
   * leaves are exactly those keys, whatever the order.
   */
  lemma {:induction false} InsertAllLeaves(m: LeafMap, ks: seq<Path>)
    requires LeafMapShape(m)
    requires forall i :: 0 <= i < |ks| ==> ks[i] in m
    requires forall i, j :: 0 <= i < j < |ks| ==> ks[i] != ks[j]
    ensures Clean(InsertAll(m, ks))
    ensures forall q :: ArrayAt(InsertAll(m, ks), q) == if q in ks then Some(m[q]) else None
  {
    if |ks| == 0 {
      forall q | Get(map[], q).Some?
        ensures CleanNode(q, Get(map[], q).value)
      {
      }
    } else {
      var init := ks[..|ks| - 1];
      var last := ks[|ks| - 1];
      InsertAllLeaves(m, init);
      var t := InsertAll(m, init);
      forall q | ArrayAt(t, q).Some?
        ensures !(q <= last) && !(last <= q)
      {
        assert q in init;
        assert q in m && q != last;
      }
      SetLeafClean(t, last, m[last]);
      FrontLast(ks);
    }
  }

  /** The clean tree whose array leaves are exactly `m`. */
  ghost function Build(m: LeafMap): Tree
  {
    InsertAll(m, Enumerate(m.Keys))
  }

  /** Build(m) is clean and its leaves are exactly `m`. */
  lemma BuildLeaves(m: LeafMap)
    requires LeafMapShape(m)
    ensures Clean(Build(m))
    ensures Leaves(Build(m)) == m
  {
    var ks := Enumerate(m.Keys);
    InsertAllLeaves(m, ks);
    var b := InsertAll(m, ks);
    var l := Leaves(b);
    forall q | q in l ensures q in m && l[q] == m[q] {
      assert ArrayAt(b, q) == if q in ks then Some(m[q]) else None;
    }
    forall q | q in m ensures q in l {
      assert ArrayAt(b, q) == Some(m[q]);
    }
    MapExt(l, m);
  }

  /** Rebuilding a clean tree from its leaves gives the tree back. */
  lemma BuildOfLeaves(t: Tree)
    requires Clean(t)
    ensures Build(Leaves(t)) == t
  {
    LeavesShape(t);
    BuildLeaves(Leaves(t));
    SameLeaves(Build(Leaves(t)), t);
    CleanUnique(Build(Leaves(t)), t);
  }
}
