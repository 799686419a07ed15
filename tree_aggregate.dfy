/**
 * process_tools/tree_tools.py, `aggregate_tree`: stack the arrays of N
 * result trees into one tree whose leaves have a leading axis of length
 * N, slice i holding tree i's array.  The first tree decides which
 * paths exist, their dtype and their shape.
 */
module TreeAggregate {
  import opened PyValues
  import opened TreePaths
  import opened TreeTools

  /** `numpy.zeros((n,) + a.shape, dtype=a.dtype)`. */
  function ZeroStack(a: NdArray, n: nat): (z: NdArray)
    ensures z.dtype == a.dtype && z.shape == [n] + a.shape
    ensures z.cells.Rows? && |z.cells.rows| == n
    ensures forall j :: 0 <= j < n ==> z.cells.rows[j] == Zeros(a.shape)
  {
    var s := [n] + a.shape;
    assert s[1..] == a.shape;
    NdArray(a.dtype, s, Zeros(s))
  }

  /** `a[i, ...] = c`: row `i` of the leading axis replaced, shape and dtype kept. */
  function SetRow(a: NdArray, i: nat, c: Cells): NdArray
    requires a.cells.Rows? && i < |a.cells.rows|
  {
    a.(cells := Rows(a.cells.rows[i := c]))
  }

  /** Every path of `entry` exists in `first` with the same shape, so its slice can be assigned. */
  predicate Fits(first: map<string, NdArray>, entry: map<string, NdArray>)
  {
    forall k :: k in entry ==> k in first && entry[k].shape == first[k].shape
  }

  /**
   * The error an entry that does not fit raises: KeyError for a path the
   * first entry lacks, ValueError for a slice of another shape.
   */
  predicate Unfit(first: map<string, NdArray>, entry: map<string, NdArray>, e: Error)
  {
    match e
    case KeyError => exists k :: k in entry && k !in first
    case ValueError => exists k :: k in entry && k in first && entry[k].shape != first[k].shape
    case _ => false
  }

  /** Every flat dictionary of the list fits the first one. */
  predicate Compatible(flats: seq<map<string, NdArray>>)
    requires |flats| > 0
  {
    forall j :: 0 <= j < |flats| ==> Fits(flats[0], flats[j])
  }

  /**
   * The array `aggregate_tree` holds at `k` once the entries before
   * `upto` are written: the first entry's dtype, shape `(N,) + shape`,
   * slice j the j-th entry's array when j < upto and the entry has `k`,
   * zeros otherwise.
   */
  function Stacked(flats: seq<map<string, NdArray>>, k: string, upto: nat): NdArray
    requires |flats| > 0 && k in flats[0]
  {
    var a := flats[0][k];
    NdArray(a.dtype, [|flats|] + a.shape,
      Rows(seq(|flats|, j requires 0 <= j < |flats| =>
        if j < upto && k in flats[j] then flats[j][k].cells else Zeros(a.shape))))
  }

  /** Before any entry is written the stacked array is `ZeroStack`. */
  lemma StackedZero(flats: seq<map<string, NdArray>>, k: string)
    requires |flats| > 0 && k in flats[0]
    ensures Stacked(flats, k, 0) == ZeroStack(flats[0][k], |flats|)
  {
    var a := flats[0][k];
    var z := ZeroStack(a, |flats|);
    var s := Stacked(flats, k, 0);
    assert s.cells.rows == z.cells.rows;
  }

  /** Writing entry `upto`'s array (if it has `k`) moves the stacked array one entry on. */
  lemma StackedStep(flats: seq<map<string, NdArray>>, k: string, upto: nat)
    requires |flats| > 0 && k in flats[0] && upto < |flats|
    ensures k in flats[upto] ==>
              SetRow(Stacked(flats, k, upto), upto, flats[upto][k].cells) == Stacked(flats, k, upto + 1)
    ensures k !in flats[upto] ==> Stacked(flats, k, upto) == Stacked(flats, k, upto + 1)
  {
    var s0 := Stacked(flats, k, upto);
    var s1 := Stacked(flats, k, upto + 1);
    if k in flats[upto] {
      assert SetRow(s0, upto, flats[upto][k].cells).cells.rows == s1.cells.rows;
    } else {
      assert s0.cells.rows == s1.cells.rows;
    }
  }

  /** The first loop of `aggregate_tree`: a zero array `(n,) + shape` for every path of the first entry. */
  method AllocateZeros(first: map<string, NdArray>, n: nat) returns (agg: map<string, NdArray>)
    ensures forall k :: k in agg <==> k in first
    ensures forall k :: k in agg ==> agg[k] == ZeroStack(first[k], n)
  {
    agg := map[];
    var todo := first.Keys;
    while todo != {}
      invariant todo <= first.Keys
      invariant forall k :: k in agg <==> k in first && k !in todo
      invariant forall k :: k in agg ==> agg[k] == ZeroStack(first[k], n)
      decreases |todo|
    {
      var k :| k in todo;
      agg := agg[k := ZeroStack(first[k], n)];
      todo := todo - {k};
    }
  }

  /**
   * The inner loop of `aggregate_tree`: `agg_tree[k][index, ...] = v`
   * for every item of one entry.  `first` is the entry the arrays were
   * allocated from.  A path the arrays were not allocated for raises
   * KeyError, a slice of another shape ValueError.
   */
  method FillEntry(agg: map<string, NdArray>, index: nat, entry: map<string, NdArray>, ghost first: map<string, NdArray>)
    returns (r: Result<map<string, NdArray>>)
    requires forall k :: k in agg <==> k in first
    requires forall k :: k in agg ==>
               agg[k].cells.Rows? && index < |agg[k].cells.rows| && |agg[k].shape| > 0 && agg[k].shape[1..] == first[k].shape
    ensures r.Ok? <==> Fits(first, entry)
    ensures r.Err? ==> Unfit(first, entry, r.error)
    ensures r.Ok? ==> forall k :: k in r.value <==> k in agg
    ensures r.Ok? ==> forall k :: k in agg ==>
              r.value[k] == if k in entry then SetRow(agg[k], index, entry[k].cells) else agg[k]
  {
    var cur := agg;
    var todo := entry.Keys;
    while todo != {}
      invariant todo <= entry.Keys
      invariant forall k :: k in cur <==> k in agg
      invariant forall k :: k in agg ==>
                  cur[k] == if k in entry && k !in todo then SetRow(agg[k], index, entry[k].cells) else agg[k]
      invariant forall k :: k in entry && k !in todo ==> k in first && entry[k].shape == first[k].shape
      decreases |todo|
    {
      var k :| k in todo;
      if k !in cur {
        return Err(KeyError);
      }
      var v := entry[k];
      if v.shape != cur[k].shape[1..] {
        return Err(ValueError);
      }
      cur := cur[k := SetRow(cur[k], index, v.cells)];
      todo := todo - {k};
    }
    return Ok(cur);
  }

  /** The allocated arrays hold the first `upto` entries and zeros after. */
  ghost predicate FilledUpTo(flats: seq<map<string, NdArray>>, agg: map<string, NdArray>, upto: nat)
    requires |flats| > 0
  {
    && (forall k :: k in agg <==> k in flats[0])
    && (forall k :: k in agg ==> agg[k] == Stacked(flats, k, upto))
  }

  lemma FilledStart(flats: seq<map<string, NdArray>>, agg: map<string, NdArray>)
    requires |flats| > 0
    requires forall k :: k in agg <==> k in flats[0]
    requires forall k :: k in agg ==> agg[k] == ZeroStack(flats[0][k], |flats|)
    ensures FilledUpTo(flats, agg, 0)
  {
    forall k | k in agg ensures agg[k] == Stacked(flats, k, 0) {
      StackedZero(flats, k);
    }
  }

  lemma FilledSlices(flats: seq<map<string, NdArray>>, agg: map<string, NdArray>, index: nat)
    requires |flats| > 0 && index < |flats| && FilledUpTo(flats, agg, index)
    ensures forall k :: k in agg ==>
              agg[k].cells.Rows? && index < |agg[k].cells.rows| && |agg[k].shape| > 0 && agg[k].shape[1..] == flats[0][k].shape
  {
    forall k | k in agg
      ensures agg[k].cells.Rows? && index < |agg[k].cells.rows| && |agg[k].shape| > 0 && agg[k].shape[1..] == flats[0][k].shape
    {
      assert agg[k].shape == [|flats|] + flats[0][k].shape;
    }
  }

  lemma FilledNext(flats: seq<map<string, NdArray>>, agg: map<string, NdArray>, next: map<string, NdArray>, index: nat)
    requires |flats| > 0 && index < |flats| && FilledUpTo(flats, agg, index)
    requires forall k :: k in next <==> k in agg
    requires forall k :: k in agg ==>
               next[k] == if k in flats[index] then SetRow(agg[k], index, flats[index][k].cells) else agg[k]
    ensures FilledUpTo(flats, next, index + 1)
  {
    forall k | k in next ensures next[k] == Stacked(flats, k, index + 1) {
      StackedStep(flats, k, index);
    }
  }

  /**
   * The outer loop of `aggregate_tree` over `enumerate(flat_list)`:
   * fill slice `index` of every allocated array from entry `index`.
   * The first entry that does not fit stops the loop with its error.
   */
  method FillAll(flats: seq<map<string, NdArray>>, agg0: map<string, NdArray>)
    returns (r: Result<map<string, NdArray>>)
    requires |flats| > 0 && FilledUpTo(flats, agg0, 0)
    ensures r.Ok? <==> Compatible(flats)
    ensures r.Err? ==> exists j :: 0 <= j < |flats| && Unfit(flats[0], flats[j], r.error)
    ensures r.Ok? ==> forall k :: k in r.value <==> k in flats[0]
    ensures r.Ok? ==> forall k :: k in r.value ==> r.value[k] == Stacked(flats, k, |flats|)
  {
    var agg := agg0;
    var index := 0;
    while index < |flats|
      invariant 0 <= index <= |flats|
      invariant FilledUpTo(flats, agg, index)
      invariant forall j :: 0 <= j < index ==> Fits(flats[0], flats[j])
    {
      FilledSlices(flats, agg, index);
      var step := FillEntry(agg, index, flats[index], flats[0]);
      if step.Err? {
        return Err(step.error);
      }
      FilledNext(flats, agg, step.value, index);
      agg := step.value;
      index := index + 1;
    }
    return Ok(agg);
  }

  /** What `flatten_dict` promises about one tree's flat dictionary. */
  ghost predicate FlatOf(t: Tree, flat: map<string, NdArray>)
  {
    FlatSound(t, flat) && (WF(t) ==> flat == FlattenSpec(t))
  }

  /** The loop building `flat_list`: `flatten_dict` of every tree, in order. */
  method FlattenAll(trees: seq<Tree>) returns (flats: seq<map<string, NdArray>>)
    ensures |flats| == |trees|
    ensures forall j :: 0 <= j < |trees| ==> FlatOf(trees[j], flats[j])
  {
    flats := [];
    for i := 0 to |trees|
      invariant |flats| == i
      invariant forall j :: 0 <= j < i ==> FlatOf(trees[j], flats[j])
    {
      var f := FlattenDict(trees[i]);
      assert FlatOf(trees[i], f);
      flats := flats + [f];
    }
  }

  // ---------------------------------------------------------------------
  // The same result, stated on the trees' leaves.

  predicate AllWF(trees: seq<Tree>)
  {
    forall j :: 0 <= j < |trees| ==> WF(trees[j])
  }

  /** Every leaf of every tree is a leaf of the first tree, of the same shape. */
  predicate TreesCompatible(trees: seq<Tree>)
    requires |trees| > 0
  {
    forall j, p :: 0 <= j < |trees| && p in Leaves(trees[j]) ==>
      p in Leaves(trees[0]) && Leaves(trees[j])[p].shape == Leaves(trees[0])[p].shape
  }

  /**
   * The aggregated leaf at a path of the first tree: its dtype, shape
   * `(N,) + shape`, slice j tree j's array there, or zeros where tree j
   * has no array at that path.
   */
  function StackLeaf(trees: seq<Tree>, p: Path): NdArray
    requires |trees| > 0 && p in Leaves(trees[0])
  {
    var a := Leaves(trees[0])[p];
    NdArray(a.dtype, [|trees|] + a.shape,
      Rows(seq(|trees|, j requires 0 <= j < |trees| =>
        if p in Leaves(trees[j]) then Leaves(trees[j])[p].cells else Zeros(a.shape))))
  }

  /** The leaves of the aggregated tree: the first tree's paths, each stacked over all trees. */
  function StackLeaves(trees: seq<Tree>): LeafMap
    requires |trees| > 0
  {
    map p | p in Leaves(trees[0]) :: StackLeaf(trees, p)
  }

  /** A leaf path of a well-formed tree is non-empty and its PathKey gives it back. */
  lemma LeafKey(t: Tree, p: Path)
    requires WF(t) && p in Leaves(t)
    ensures |p| > 0 && Comps(PathKey(p)) == p
    ensures PathKey(p) in FlattenSpec(t) && FlattenSpec(t)[PathKey(p)] == Leaves(t)[p]
  {
    LeavesShape(t);
    CompsPathKey(p);
  }

  /** For a well-formed tree, the flat key of a slash-free path is present exactly when the path is a leaf. */
  lemma KeyLeaf(t: Tree, p: Path)
    requires WF(t) && |p| > 0 && SlashFree(p)
    ensures PathKey(p) in FlattenSpec(t) <==> p in Leaves(t)
  {
    CompsPathKey(p);
  }

  /** A leaf path of a well-formed tree is slash-free. */
  lemma LeafSlashFree(t: Tree, p: Path)
    requires WF(t) && p in Leaves(t)
    ensures SlashFree(p)
  {
    assert p in LeafPaths(t);
  }

  /** The leaves of a tree whose flat dictionary fits the first one are leaves of the first tree, of the same shape. */
  lemma FitsLeaves(t0: Tree, t: Tree)
    requires WF(t0) && WF(t) && Fits(FlattenSpec(t0), FlattenSpec(t))
    ensures forall p :: p in Leaves(t) ==> p in Leaves(t0) && Leaves(t)[p].shape == Leaves(t0)[p].shape
  {
    forall p | p in Leaves(t) ensures p in Leaves(t0) && Leaves(t)[p].shape == Leaves(t0)[p].shape {
      LeafKey(t, p);
      LeafSlashFree(t, p);
      KeyLeaf(t0, p);
      LeafKey(t0, p);
    }
  }

  /** Entries that all fit the first one mean trees whose leaves all sit at the first tree's leaves. */
  lemma CompatibleTrees(trees: seq<Tree>, flats: seq<map<string, NdArray>>)
    requires |trees| > 0 && |flats| == |trees| && AllWF(trees)
    requires forall j :: 0 <= j < |trees| ==> flats[j] == FlattenSpec(trees[j])
    requires Compatible(flats)
    ensures TreesCompatible(trees)
  {
    forall j | 0 <= j < |trees|
      ensures forall p :: p in Leaves(trees[j]) ==>
                p in Leaves(trees[0]) && Leaves(trees[j])[p].shape == Leaves(trees[0])[p].shape
    {
      assert Fits(flats[0], flats[j]);
      FitsLeaves(trees[0], trees[j]);
    }
  }

  /** A flat key of entry j missing from the first entry is a leaf of tree j missing from the first tree. */
  lemma MissingLeaf(trees: seq<Tree>, flats: seq<map<string, NdArray>>, j: nat, k: string)
    requires |trees| > 0 && |flats| == |trees| && AllWF(trees)
    requires forall i :: 0 <= i < |trees| ==> flats[i] == FlattenSpec(trees[i])
    requires j < |flats| && k in flats[j] && k !in flats[0]
    ensures Comps(k) in Leaves(trees[j]) && Comps(k) !in Leaves(trees[0])
  {
    var p := Comps(k);
    assert p in LeafPaths(trees[j]) && PathKey(p) == k;
    if p in Leaves(trees[0]) {
      LeafKey(trees[0], p);
    }
  }

  /** A flat key whose arrays differ in shape is a common leaf whose arrays differ in shape. */
  lemma MisshapenLeaf(trees: seq<Tree>, flats: seq<map<string, NdArray>>, j: nat, k: string)
    requires |trees| > 0 && |flats| == |trees| && AllWF(trees)
    requires forall i :: 0 <= i < |trees| ==> flats[i] == FlattenSpec(trees[i])
    requires j < |flats| && k in flats[j] && k in flats[0] && flats[j][k].shape != flats[0][k].shape
    ensures Comps(k) in Leaves(trees[j]) && Comps(k) in Leaves(trees[0])
    ensures Leaves(trees[j])[Comps(k)].shape != Leaves(trees[0])[Comps(k)].shape
  {
    var p := Comps(k);
    assert p in LeafPaths(trees[j]) && PathKey(p) == k;
    assert p in LeafPaths(trees[0]);
    LeafKey(trees[j], p);
    LeafKey(trees[0], p);
  }

  /** The stacked flat entry at a leaf's key is the stacked leaf. */
  lemma StackedIsLeaf(trees: seq<Tree>, flats: seq<map<string, NdArray>>, p: Path)
    requires |trees| > 0 && |flats| == |trees| && AllWF(trees)
    requires forall i :: 0 <= i < |trees| ==> flats[i] == FlattenSpec(trees[i])
    requires p in Leaves(trees[0])
    ensures PathKey(p) in flats[0]
    ensures Stacked(flats, PathKey(p), |flats|) == StackLeaf(trees, p)
  {
    LeafKey(trees[0], p);
    LeafSlashFree(trees[0], p);
    var k := PathKey(p);
    var s := Stacked(flats, k, |flats|);
    var l := StackLeaf(trees, p);
    forall j | 0 <= j < |trees| ensures s.cells.rows[j] == l.cells.rows[j] {
      KeyLeaf(trees[j], p);
      if p in Leaves(trees[j]) {
        LeafKey(trees[j], p);
      }
    }
    assert s.cells.rows == l.cells.rows;
  }

  /** The fully stacked flat dictionary unflattens to the stacked leaves of the trees. */
  lemma AggregateLeaves(trees: seq<Tree>, flats: seq<map<string, NdArray>>, agg: map<string, NdArray>)
    requires |trees| > 0 && |flats| == |trees| && AllWF(trees)
    requires forall i :: 0 <= i < |trees| ==> flats[i] == FlattenSpec(trees[i])
    requires forall k :: k in agg <==> k in flats[0]
    requires forall k :: k in agg ==> agg[k] == Stacked(flats, k, |flats|)
    ensures ValidFlat(agg)
    ensures CompMap(agg) == StackLeaves(trees)
  {
    FlattenValid(trees[0]);
    assert ValidFlat(agg);
    var cm := CompMap(agg);
    var sl := StackLeaves(trees);
    forall q | q in cm ensures q in sl && cm[q] == sl[q] {
      var k :| k in agg && Comps(k) == q;
      assert q in LeafPaths(trees[0]) && PathKey(q) == k;
      StackedIsLeaf(trees, flats, q);
    }
    forall q | q in sl ensures q in cm {
      StackedIsLeaf(trees, flats, q);
      LeafKey(trees[0], q);
    }
    MapExt(cm, sl);
  }


  /** The tree-level reading of Unfit: a leaf tree j has and the first tree lacks, or a common leaf of another shape. */
  predicate LeafUnfit(t0: Tree, t: Tree, e: Error)
  {
    match e
    case KeyError => exists p :: p in Leaves(t) && p !in Leaves(t0)
    case ValueError => exists p :: p in Leaves(t) && p in Leaves(t0) && Leaves(t)[p].shape != Leaves(t0)[p].shape
    case _ => false
  }

  /** An entry that does not fit comes from a tree that does not fit, for the same reason. */
  lemma UnfitLeaf(trees: seq<Tree>, flats: seq<map<string, NdArray>>, j: nat, e: Error)
    requires |trees| > 0 && |flats| == |trees| && AllWF(trees)
    requires forall i :: 0 <= i < |trees| ==> flats[i] == FlattenSpec(trees[i])
    requires j < |flats| && Unfit(flats[0], flats[j], e)
    ensures LeafUnfit(trees[0], trees[j], e)
  {
    match e
    case KeyError =>
      var k :| k in flats[j] && k !in flats[0];
      MissingLeaf(trees, flats, j, k);
      assert Comps(k) in Leaves(trees[j]) && Comps(k) !in Leaves(trees[0]);
    case ValueError =>
      var k :| k in flats[j] && k in flats[0] && flats[j][k].shape != flats[0][k].shape;
      MisshapenLeaf(trees, flats, j, k);
      var p := Comps(k);
      assert p in Leaves(trees[j]) && p in Leaves(trees[0]) && Leaves(trees[j])[p].shape != Leaves(trees[0])[p].shape;
  }

  /** A tree that does not fit the first one makes the list incompatible. */
  lemma UnfitNotCompatible(trees: seq<Tree>, j: nat, e: Error)
    requires |trees| > 0 && j < |trees| && LeafUnfit(trees[0], trees[j], e)
    ensures !TreesCompatible(trees)
  {
  }

  /**
   * `aggregate_tree`: flatten every tree, allocate zero arrays
   * `(N,) + shape` for the first tree's leaves, write slice j from tree
   * j, and unflatten.  An empty list fails on `flat_list[0]`.  For
   * well-formed trees the result is the clean tree whose leaves are the
   * first tree's leaves stacked over all trees, and it fails exactly when
   * some tree has a leaf the first lacks or one of another shape.
   */
  method AggregateTree(trees: seq<Tree>) returns (r: Result<Tree>)
    ensures |trees| == 0 ==> r == Err(IndexError)
    ensures |trees| > 0 && AllWF(trees) ==> (r.Ok? <==> TreesCompatible(trees))
    ensures |trees| > 0 && AllWF(trees) && r.Ok? ==> Clean(r.value) && Leaves(r.value) == StackLeaves(trees)
    ensures |trees| > 0 && AllWF(trees) && r.Err? ==>
              exists j :: 0 <= j < |trees| && LeafUnfit(trees[0], trees[j], r.error)
  {
    var numRun := |trees|;
    var flatList := FlattenAll(trees);
    if |flatList| == 0 {
      return Err(IndexError);
    }
    var agg := AllocateZeros(flatList[0], numRun);
    FilledStart(flatList, agg);
    var filled := FillAll(flatList, agg);
    if filled.Err? {
      if AllWF(trees) {
        var j :| 0 <= j < |flatList| && Unfit(flatList[0], flatList[j], filled.error);
        UnfitLeaf(trees, flatList, j, filled.error);
        UnfitNotCompatible(trees, j, filled.error);
      }
      return Err(filled.error);
    }
    r := UnflattenDict(filled.value);
    if AllWF(trees) {
      CompatibleTrees(trees, flatList);
      AggregateLeaves(trees, flatList, filled.value);
    }
  }

  /** Every array leaf of every tree conforms to its own shape. */
  predicate AllWellShaped(trees: seq<Tree>)
  {
    forall j, p :: 0 <= j < |trees| && p in Leaves(trees[j]) ==> WellShaped(Leaves(trees[j])[p])
  }

  /**
   * Each aggregated leaf has shape `(N,) + shape` of the first tree's
   * leaf, and for compatible, well-shaped trees its cells conform to
   * that shape, so it is a genuine `N`-stack of slices.
   */
  lemma StackLeafShaped(trees: seq<Tree>, p: Path)
    requires |trees| > 0 && p in Leaves(trees[0])
    requires TreesCompatible(trees) && AllWellShaped(trees)
    ensures StackLeaf(trees, p).shape == [|trees|] + Leaves(trees[0])[p].shape
    ensures StackLeaf(trees, p).dtype == Leaves(trees[0])[p].dtype
    ensures WellShaped(StackLeaf(trees, p))
  {
    var a := Leaves(trees[0])[p];
    var l := StackLeaf(trees, p);
    var sh := [|trees|] + a.shape;
    assert sh[1..] == a.shape;
    forall j | 0 <= j < |trees| ensures Conforms(l.cells.rows[j], a.shape) {
      if p in Leaves(trees[j]) {
        assert WellShaped(Leaves(trees[j])[p]);
      }
    }
  }
}
