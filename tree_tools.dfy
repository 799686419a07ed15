/**
 * process_tools/tree_tools.py: walking a nested dict, flattening it to a
 * map from "/"-joined paths to arrays and back, and stacking the arrays
 * of several structurally equal trees.
 */
module TreeTools {
  import opened PyValues
  import opened Strings
  import opened TreePaths

  /** The path `walk` yields for the sub-dict at `q`: "/" and each key followed by "/". */
  function DirPath(q: Path): (s: string)
    ensures |s| > 0 && s[0] == '/' && s[|s| - 1] == '/'
  {
    if |q| == 0 then "/" else "/" + q[0] + DirPath(q[1..])
  }

  /**
   * `walk(d)`: the root as "/", then every sub-dict with "/k" put in
   * front of the paths walked below it.  Only the path and the dict
   * itself are kept; the sub-dict and item lists are read off the dict.
   */
  function Walk(t: Tree): (s: set<(string, Tree)>)
    ensures ("/", t) in s
    decreases DictV(t)
  {
    {("/", t)} +
    (set k, w | k in t && t[k].DictV? && w in Walk(t[k].entries) :: ("/" + k + w.0, w.1))
  }

  /** Every walked dict sits in the tree at a path whose DirPath is the yielded path. */
  lemma {:induction false} WalkSound(t: Tree, w: (string, Tree)) returns (q: Path)
    requires w in Walk(t)
    ensures Get(t, q) == Some(DictV(w.1)) && w.0 == DirPath(q)
    decreases DictV(t)
  {
    if w == ("/", t) {
      q := [];
    } else {
      var k, w' :| k in t && t[k].DictV? && w' in Walk(t[k].entries) && w == ("/" + k + w'.0, w'.1);
      var q' := WalkSound(t[k].entries, w');
      GetCons(t, k, q');
      q := [k] + q';
      assert q[0] == k && q[1..] == q';
    }
  }

  /** Every sub-dict of the tree is walked. */
  lemma {:induction false} WalkComplete(t: Tree, q: Path, d: Tree)
    requires Get(t, q) == Some(DictV(d))
    ensures (DirPath(q), d) in Walk(t)
    decreases q
  {
    if |q| > 0 {
      var k := q[0];
      assert q == [k] + q[1..];
      GetCons(t, k, q[1..]);
      assert k in t && t[k].DictV?;
      WalkComplete(t[k].entries, q[1..], d);
      assert ("/" + k + DirPath(q[1..]), d) in Walk(t);
    }
  }

  /** The key `flatten_dict` gives the leaf at `p`: "/" and the keys joined by "/". */
  function PathKey(p: Path): string
  {
    "/" + Join(p, '/')
  }

  lemma {:induction false} DirPathKey(q: Path, k: string)
    ensures DirPath(q) + k == PathKey(q + [k])
  {
    if |q| > 0 {
      DirPathKey(q[1..], k);
      var rest := q[1..] + [k];
      assert (q + [k])[0] == q[0] && (q + [k])[1..] == rest;
      assert Join(q + [k], '/') == q[0] + "/" + Join(rest, '/');
      calc {
        DirPath(q) + k;
        ("/" + q[0] + DirPath(q[1..])) + k;
        "/" + q[0] + (DirPath(q[1..]) + k);
        "/" + q[0] + ("/" + Join(rest, '/'));
        "/" + (q[0] + "/" + Join(rest, '/'));
      }
    }
  }

  /** What `unflatten_dict` does with a key: split on "/" and drop the first part. */
  function Comps(k: string): Path
  {
    Split(k, '/')[1..]
  }

  predicate SlashFree(p: Path)
  {
    forall i :: 0 <= i < |p| ==> '/' !in p[i]
  }

  lemma CompsPathKey(p: Path)
    requires |p| > 0 && SlashFree(p)
    ensures Comps(PathKey(p)) == p
  {
    SplitJoin(p, '/');
    SplitAfterPart("", '/', Join(p, '/'));
    assert "" + ['/'] + Join(p, '/') == PathKey(p);
  }

  /** No key on the way to an array contains "/". */
  predicate WF(t: Tree)
  {
    forall p :: p in LeafPaths(t) ==> SlashFree(p)
  }

  /** The flat dictionary of a well-formed tree: its array leaves, keyed by PathKey. */
  function FlattenSpec(t: Tree): (m: map<string, NdArray>)
    requires WF(t)
    ensures forall p :: p in LeafPaths(t) ==> PathKey(p) in m && m[PathKey(p)] == ArrayAt(t, p).value
    ensures forall k :: k in m ==> Comps(k) in LeafPaths(t) && PathKey(Comps(k)) == k
  {
    forall p | p in LeafPaths(t) ensures |p| > 0 && Comps(PathKey(p)) == p {
      CompsPathKey(p);
    }
    map p | p in LeafPaths(t) :: PathKey(p) := ArrayAt(t, p).value
  }

  /** Every entry of `flat` is the array at a leaf path whose PathKey is the entry's key. */
  ghost predicate FlatSound(t: Tree, flat: map<string, NdArray>)
  {
    forall k :: k in flat ==> exists p :: p in LeafPaths(t) && PathKey(p) == k && ArrayAt(t, p) == Some(flat[k])
  }

  /** An array item of a sub-dict is a leaf of the tree, keyed by the dict's path plus the item's key. */
  lemma ItemLeaf(t: Tree, q: Path, d: Tree, key: string)
    requires Get(t, q) == Some(DictV(d)) && key in d && d[key].ArrayV?
    ensures q + [key] in LeafPaths(t)
    ensures ArrayAt(t, q + [key]) == Some(d[key].arr)
    ensures PathKey(q + [key]) == DirPath(q) + key
  {
    AtAppend(DictV(t), q, [key]);
    GetOne(d, key);
    DirPathKey(q, key);
  }

  /** A leaf path ends in an array item of a walked sub-dict. */
  lemma LeafItem(t: Tree, p: Path)
    requires p in LeafPaths(t)
    ensures |p| > 0
    ensures var q := p[..|p| - 1];
      && Get(t, q).Some? && Get(t, q).value.DictV?
      && (DirPath(q), Get(t, q).value.entries) in Walk(t)
      && p[|p| - 1] in Get(t, q).value.entries
      && Get(t, q).value.entries[p[|p| - 1]].ArrayV?
      && DirPath(q) + p[|p| - 1] == PathKey(p)
  {
    assert |p| > 0;
    var q := p[..|p| - 1];
    var key := p[|p| - 1];
    assert p == q + [key];
    AtAppend(DictV(t), q, [key]);
    var d := Get(t, q).value.entries;
    GetOne(d, key);
    WalkComplete(t, q, d);
    DirPathKey(q, key);
  }

  lemma FlatSoundAdd(t: Tree, flat: map<string, NdArray>, p: Path)
    requires FlatSound(t, flat) && p in LeafPaths(t)
    ensures FlatSound(t, flat[PathKey(p) := ArrayAt(t, p).value])
  {
  }

  /** Every array item of the walked dicts in `ws` but not in `rest` has its entry in `flat`. */
  predicate Covered(flat: map<string, NdArray>, ws: set<(string, Tree)>, rest: set<(string, Tree)>)
  {
    forall w, key :: w in ws && w !in rest && key in w.1 && w.1[key].ArrayV? ==> w.0 + key in flat
  }

  /** The array items of `d` whose keys are not in `rest` have their entries in `flat`. */
  predicate ItemsCovered(flat: map<string, NdArray>, path: string, d: Tree, rest: set<string>)
  {
    forall key :: key in d && key !in rest && d[key].ArrayV? ==> path + key in flat
  }

  /**
   * `flatten_dict`: every array item of every walked dict is stored at
   * the walked path plus its key; nothing else is stored.
   */
  method FlattenDict(t: Tree) returns (flat: map<string, NdArray>)
    ensures forall p :: p in LeafPaths(t) ==> PathKey(p) in flat
    ensures FlatSound(t, flat)
    ensures WF(t) ==> flat == FlattenSpec(t)
  {
    var walked := Walk(t);
    forall w | w in walked
      ensures exists q :: Get(t, q) == Some(DictV(w.1)) && w.0 == DirPath(q)
    {
      var q := WalkSound(t, w);
    }
    flat := StoreArrayItems(t, walked);
    forall p | p in LeafPaths(t)
      ensures PathKey(p) in flat
    {
      LeafItem(t, p);
    }
    if WF(t) {
      FlatSoundIsSpec(t, flat);
    }
  }

  /** The outer loop of `flatten_dict`, over the walked dicts. */
  method StoreArrayItems(t: Tree, walk: set<(string, Tree)>) returns (flat: map<string, NdArray>)
    requires forall w :: w in walk ==> exists q :: Get(t, q) == Some(DictV(w.1)) && w.0 == DirPath(q)
    ensures FlatSound(t, flat)
    ensures Covered(flat, walk, {})
  {
    flat := map[];
    var walked := walk;
    while walked != {}
      invariant walked <= walk
      invariant FlatSound(t, flat)
      invariant Covered(flat, walk, walked)
      decreases |walked|
    {
      var w :| w in walked;
      ghost var q :| Get(t, q) == Some(DictV(w.1)) && w.0 == DirPath(q);
      flat := StoreDictItems(t, q, w.0, w.1, flat);
      walked := walked - {w};
    }
  }

  /** The inner loop of `flatten_dict`, over the items of one walked dict. */
  method StoreDictItems(t: Tree, ghost q: Path, path: string, d: Tree, flat0: map<string, NdArray>)
    returns (flat: map<string, NdArray>)
    requires Get(t, q) == Some(DictV(d)) && path == DirPath(q)
    requires FlatSound(t, flat0)
    ensures FlatSound(t, flat)
    ensures flat0.Keys <= flat.Keys
    ensures ItemsCovered(flat, path, d, {})
  {
    flat := flat0;
    var keys := d.Keys;
    while keys != {}
      invariant keys <= d.Keys
      invariant FlatSound(t, flat)
      invariant flat0.Keys <= flat.Keys
      invariant ItemsCovered(flat, path, d, keys)
      decreases |keys|
    {
      var key :| key in keys;
      if d[key].ArrayV? {
        ItemLeaf(t, q, d, key);
        FlatSoundAdd(t, flat, q + [key]);
        flat := flat[path + key := d[key].arr];
      }
      keys := keys - {key};
    }
  }

  /** For a well-formed tree, a sound flat map that covers every leaf is FlattenSpec. */
  lemma FlatSoundIsSpec(t: Tree, flat: map<string, NdArray>)
    requires WF(t) && FlatSound(t, flat)
    requires forall p :: p in LeafPaths(t) ==> PathKey(p) in flat
    ensures flat == FlattenSpec(t)
  {
    var spec := FlattenSpec(t);
    forall k | k in flat
      ensures k in spec && spec[k] == flat[k]
    {
      var p :| p in LeafPaths(t) && PathKey(p) == k && ArrayAt(t, p) == Some(flat[k]);
      CompsPathKey(p);
    }
    forall k | k in spec ensures k in flat {
      assert PathKey(Comps(k)) == k;
    }
    MapExt(flat, spec);
  }

  // ---------------------------------------------------------------------
  // unflatten_dict

  /**
   * A flat dictionary `unflatten_dict` turns back into a tree without
   * loss: every key has a component after the leading "/", different keys
   * give different paths, and no path runs through another one's leaf.
   */
  predicate ValidFlat(flat: map<string, NdArray>)
  {
    (forall k :: k in flat ==> |Comps(k)| > 0)
    && (forall k1, k2 :: k1 in flat && k2 in flat && Comps(k1) == Comps(k2) ==> k1 == k2)
    && (forall k1, k2 :: k1 in flat && k2 in flat ==> !(Comps(k1) < Comps(k2)))
  }

  /** The leaves the entries of a valid flat dictionary with keys in `ks` describe. */
  function CompMapOn(flat: map<string, NdArray>, ks: set<string>): (m: LeafMap)
    requires ValidFlat(flat)
    ensures forall k :: k in flat && k in ks ==> Comps(k) in m && m[Comps(k)] == flat[k]
    ensures forall q :: q in m ==> exists k :: k in flat && k in ks && Comps(k) == q
  {
    map k | k in flat && k in ks :: Comps(k) := flat[k]
  }

  /** The leaves a valid flat dictionary describes. */
  function CompMap(flat: map<string, NdArray>): (m: LeafMap)
    requires ValidFlat(flat)
    ensures LeafMapShape(m)
    ensures forall k :: k in flat ==> Comps(k) in m && m[Comps(k)] == flat[k]
    ensures forall q :: q in m ==> exists k :: k in flat && Comps(k) == q
  {
    var m := CompMapOn(flat, flat.Keys);
    forall p, q | p in m && q in m ensures !(p < q) {
      var k1 :| k1 in flat && Comps(k1) == p;
      var k2 :| k2 in flat && Comps(k2) == q;
    }
    m
  }

  /**
   * The loop state of `unflatten_dict` on a valid flat dictionary while
   * the keys in `todo` remain: a clean tree whose leaves are exactly the
   * components of the other keys, holding their arrays.
   */
  ghost predicate Rebuilt(flat: map<string, NdArray>, todo: set<string>, cur: Tree)
  {
    ValidFlat(flat) ==>
      && Clean(cur)
      && (forall k :: k in flat && k !in todo ==> ArrayAt(cur, Comps(k)) == Some(flat[k]))
      && (forall q :: ArrayAt(cur, q).Some? ==> exists k :: k in flat && k !in todo && Comps(k) == q)
  }

  lemma UnflattenUnrelated(flat: map<string, NdArray>, todo: set<string>, cur: Tree, k: string)
    requires ValidFlat(flat) && k in flat && k in todo
    requires forall q :: ArrayAt(cur, q).Some? ==> exists k :: k in flat && k !in todo && Comps(k) == q
    ensures forall q :: ArrayAt(cur, q).Some? ==> !(q <= Comps(k)) && !(Comps(k) <= q)
  {
    forall q | ArrayAt(cur, q).Some?
      ensures !(q <= Comps(k)) && !(Comps(k) <= q)
    {
      var k' :| k' in flat && k' !in todo && Comps(k') == q;
      assert k' != k;
    }
  }

  /** One `set_leaf` of `unflatten_dict` on a valid flat dictionary adds exactly that entry's leaf. */
  lemma UnflattenStep(flat: map<string, NdArray>, todo: set<string>, cur: Tree, k: string)
    requires k in flat && k in todo && Rebuilt(flat, todo, cur)
    ensures ValidFlat(flat) ==> SetLeaf(cur, Comps(k), ArrayV(flat[k])).Ok?
    ensures SetLeaf(cur, Comps(k), ArrayV(flat[k])).Ok? ==>
              Rebuilt(flat, todo - {k}, SetLeaf(cur, Comps(k), ArrayV(flat[k])).value)
  {
    if !ValidFlat(flat) { return; }
    UnflattenUnrelated(flat, todo, cur, k);
    SetLeafClean(cur, Comps(k), flat[k]);
    var res := SetLeaf(cur, Comps(k), ArrayV(flat[k])).value;
    forall k' | k' in flat && k' !in todo - {k}
      ensures ArrayAt(res, Comps(k')) == Some(flat[k'])
    {
      if k' != k {
        assert Comps(k') != Comps(k);
      }
    }
    forall q | ArrayAt(res, q).Some?
      ensures exists k' :: k' in flat && k' !in todo - {k} && Comps(k') == q
    {
      if q != Comps(k) {
        var k' :| k' in flat && k' !in todo && Comps(k') == q;
        assert k' !in todo - {k};
      }
    }
  }

  /** Before the loop of `unflatten_dict`: the empty tree holds no entry. */
  lemma RebuiltStart(flat: map<string, NdArray>)
    ensures Rebuilt(flat, flat.Keys, map[])
  {
    var cur: Tree := map[];
    assert Clean(cur) by {
      forall q | Get(cur, q).Some? ensures CleanNode(q, Get(cur, q).value) { }
    }
    forall q ensures ArrayAt(cur, q) == None {
      if q != [] {
        GetCons(cur, q[0], q[1..]);
        assert q == [q[0]] + q[1..];
      }
    }
  }

  /** The leaves rebuilt from all the entries of a valid flat dictionary are its component map. */
  lemma RebuiltLeaves(flat: map<string, NdArray>, cur: Tree)
    requires ValidFlat(flat) && Rebuilt(flat, {}, cur)
    ensures Leaves(cur) == CompMap(flat)
  {
    var m := CompMap(flat);
    var l := Leaves(cur);
    forall q | q in l ensures q in m && m[q] == l[q] {
      assert ArrayAt(cur, q).Some?;
      var k :| k in flat && k !in {} && Comps(k) == q;
      assert ArrayAt(cur, Comps(k)) == Some(flat[k]);
      assert Comps(k) in m && m[Comps(k)] == flat[k];
    }
    forall q | q in m ensures q in l {
      var k :| k in flat && Comps(k) == q;
      assert ArrayAt(cur, Comps(k)) == Some(flat[k]);
    }
    MapExt(l, m);
  }

  /** After the loop of `unflatten_dict`: every entry was inserted. */
  lemma UnflattenDone(flat: map<string, NdArray>, cur: Tree)
    requires Rebuilt(flat, {}, cur)
    requires forall k :: k in flat ==> |Comps(k)| > 0
    ensures !exists k :: k in flat && |Comps(k)| == 0
    ensures ValidFlat(flat) ==> Clean(cur) && Leaves(cur) == CompMap(flat)
    ensures ValidFlat(flat) ==> cur == Build(CompMap(flat))
  {
    if ValidFlat(flat) {
      var m := CompMap(flat);
      RebuiltLeaves(flat, cur);
      BuildLeaves(m);
      SameLeaves(cur, Build(m));
      CleanUnique(cur, Build(m));
    }
  }

  /**
   * `unflatten_dict`: insert every entry with `set_leaf` along its
   * components.  A key without a component after the leading "/" makes
   * set_leaf fail; a valid flat dictionary gives the clean tree with
   * exactly its leaves, whatever the iteration order.
   */
  method UnflattenDict(flat: map<string, NdArray>) returns (r: Result<Tree>)
    ensures (exists k :: k in flat && |Comps(k)| == 0) ==> r.Err?
    ensures ValidFlat(flat) ==> r.Ok? && Clean(r.value) && Leaves(r.value) == CompMap(flat)
    ensures ValidFlat(flat) ==> r == Ok(Build(CompMap(flat)))
  {
    var cur: Tree := map[];
    var todo := flat.Keys;
    RebuiltStart(flat);
    while todo != {}
      invariant todo <= flat.Keys
      invariant forall k :: k in flat && k !in todo ==> |Comps(k)| > 0
      invariant Rebuilt(flat, todo, cur)
      decreases |todo|
    {
      var k :| k in todo;
      var res := SetLeaf(cur, Comps(k), ArrayV(flat[k]));
      UnflattenStep(flat, todo, cur, k);
      if res.Err? {
        return Err(res.error);
      }
      cur := res.value;
      todo := todo - {k};
    }
    UnflattenDone(flat, cur);
    r := Ok(cur);
  }

  lemma FlattenValid(t: Tree)
    requires WF(t)
    ensures ValidFlat(FlattenSpec(t))
  {
    var f := FlattenSpec(t);
    LeavesShape(t);
    forall k1, k2 | k1 in f && k2 in f
      ensures |Comps(k1)| > 0
      ensures !(Comps(k1) < Comps(k2))
    {
      assert Comps(k1) in Leaves(t) && Comps(k2) in Leaves(t);
    }
  }

  lemma CompMapFlattenSub(t: Tree)
    requires WF(t) && ValidFlat(FlattenSpec(t))
    ensures forall q :: q in CompMap(FlattenSpec(t)) ==> q in Leaves(t) && Leaves(t)[q] == CompMap(FlattenSpec(t))[q]
  {
    var f := FlattenSpec(t);
    forall q | q in CompMap(f) ensures q in Leaves(t) && Leaves(t)[q] == CompMap(f)[q] {
      var k :| k in f && Comps(k) == q;
    }
  }

  lemma CompMapFlattenSup(t: Tree)
    requires WF(t) && ValidFlat(FlattenSpec(t))
    ensures forall q :: q in Leaves(t) ==> q in CompMap(FlattenSpec(t))
  {
    forall q | q in Leaves(t) ensures q in CompMap(FlattenSpec(t)) {
      CompsPathKey(q);
    }
  }

  /** The leaves the flattening of a well-formed tree describes are the tree's leaves. */
  lemma CompMapFlatten(t: Tree)
    requires WF(t)
    ensures ValidFlat(FlattenSpec(t))
    ensures CompMap(FlattenSpec(t)) == Leaves(t)
  {
    FlattenValid(t);
    CompMapFlattenSub(t);
    CompMapFlattenSup(t);
    MapExt(CompMap(FlattenSpec(t)), Leaves(t));
  }

  /** Unflattening the flattening of a clean, well-formed tree gives the tree back. */
  lemma UnflattenFlatten(t: Tree)
    requires WF(t) && Clean(t)
    ensures ValidFlat(FlattenSpec(t))
    ensures Build(CompMap(FlattenSpec(t))) == t
  {
    CompMapFlatten(t);
    BuildOfLeaves(t);
  }
}
