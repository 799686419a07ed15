/**
 * process_tools/h5py_tree.py: writing a dictionary tree of arrays into an
 * HDF5 file through flat `/`-joined names under a prefix, and reading a
 * group of the file back as a dictionary tree.
 */
module H5pyTree {
  import opened PyValues
  import opened Strings
  import opened TreePaths
  import opened Hdf5

  /** No component holds a slash, as for the parts of `path.split("/")`. */
  predicate SlashFree(p: Path)
  {
    forall i :: 0 <= i < |p| ==> '/' !in p[i]
  }

  /** Every dataset of `t0` is still in `t`, unchanged. */
  ghost predicate Kept(t0: Tree, t: Tree)
  {
    forall q :: ArrayAt(t0, q).Some? ==> ArrayAt(t, q) == ArrayAt(t0, q)
  }

  /** No dataset of `t` lies on the way to, at, or below a place where a leaf of `data` goes under `w`. */
  ghost predicate Vacant(t: Tree, w: Path, data: Tree)
  {
    forall q, p :: ArrayAt(t, q).Some? && ArrayAt(data, p).Some? ==> !(q <= w + p) && !(w + p <= q)
  }

  /**
   * Every dataset of `t` was already in `t0`, or is the leaf of `data`
   * found below one of the keys `ks`, placed under `w`.
   */
  ghost predicate FromData(t0: Tree, t: Tree, w: Path, data: Tree, ks: set<string>)
  {
    forall q :: ArrayAt(t, q).Some? ==>
      ArrayAt(t0, q) == ArrayAt(t, q)
      || (w < q && q[|w|] in ks && ArrayAt(data, q[|w|..]) == ArrayAt(t, q))
  }

  /** Every leaf of `data` below one of the keys `ks` is a dataset of `t`, placed under `w`. */
  ghost predicate Placed(t: Tree, w: Path, data: Tree, ks: set<string>)
  {
    forall p :: ArrayAt(data, p).Some? && |p| > 0 && p[0] in ks ==> ArrayAt(t, w + p) == ArrayAt(data, p)
  }

  /** The item `k: v` of `data`, a plain tree written under a slash-free prefix. */
  predicate Fits(pre: Path, k: string, v: Value, data: Tree)
  {
    SlashFree(pre) && PlainV(DictV(data)) && k in data && data[k] == v
  }

  // ---------------------------------------------------------------------
  // How one item's writes relate to the whole tree's.

  /** The flat name `"/".join(pre + (k,))` reaches the non-empty parts of `pre`, then `k`. */
  lemma ItemName(pre: Path, k: string)
    requires SlashFree(pre) && k != "" && '/' !in k
    ensures Resolve([], Join(pre + [k], '/')) == NonEmpty(pre) + [k]
    ensures NonEmpty(pre + [k]) == NonEmpty(pre) + [k]
  {
    assert SlashFree(pre + [k]);
    H5PathJoin(pre + [k]);
    NonEmptyAppend(pre, [k]);
    assert NonEmpty([k]) == [k] + NonEmpty([k][1..]);
    assert [] + H5Path(Join(pre + [k], '/')) == H5Path(Join(pre + [k], '/'));
  }

  lemma PlainChild(data: Tree, k: string)
    requires PlainV(DictV(data)) && k in data && data[k].DictV?
    ensures PlainV(data[k])
  {
  }

  /** The datasets a sub-dictionary adds are the tree's leaves below its key. */
  lemma LiftFromData(t0: Tree, cur: Tree, t: Tree, w: Path, data: Tree, done: set<string>, k: string)
    requires k in data && data[k].DictV?
    requires FromData(t0, cur, w, data, done)
    requires FromData(cur, t, w + [k], data[k].entries, data[k].entries.Keys)
    ensures FromData(t0, t, w, data, done + {k})
  {
    var c := data[k].entries;
    forall q | ArrayAt(t, q).Some?
      ensures ArrayAt(t0, q) == ArrayAt(t, q)
              || (w < q && q[|w|] in done + {k} && ArrayAt(data, q[|w|..]) == ArrayAt(t, q))
    {
      if ArrayAt(cur, q) != ArrayAt(t, q) {
        var rest := q[|w| + 1..];
        assert q[..|w| + 1] == w + [k];
        assert q[|w|..] == [k] + rest;
        GetCons(data, k, rest);
      }
    }
  }

  /** Placing a sub-dictionary's leaves under `w + [k]` places the tree's leaves below `k` under `w`. */
  lemma LiftPlaced(t: Tree, w: Path, data: Tree, k: string)
    requires k in data && data[k].DictV?
    requires Placed(t, w + [k], data[k].entries, data[k].entries.Keys)
    ensures Placed(t, w, data, {k})
  {
    var c := data[k].entries;
    forall p | ArrayAt(data, p).Some? && |p| > 0 && p[0] in {k}
      ensures ArrayAt(t, w + p) == ArrayAt(data, p)
    {
      var rest := p[1..];
      assert p == [k] + rest;
      GetCons(data, k, rest);
      assert ArrayAt(c, rest).Some?;
      assert |rest| > 0 && rest[0] in c;
      assert (w + [k]) + rest == w + p;
    }
  }

  /** A sub-dictionary still to be written meets no dataset: neither an old one nor one written for an earlier key. */
  lemma LiftVacant(t0: Tree, cur: Tree, w: Path, data: Tree, done: set<string>, k: string)
    requires k in data && data[k].DictV?
    ensures k !in done && Vacant(t0, w, data) && FromData(t0, cur, w, data, done) ==> Vacant(cur, w + [k], data[k].entries)
  {
    var c := data[k].entries;
    if k !in done && Vacant(t0, w, data) && FromData(t0, cur, w, data, done) {
      forall q, p | ArrayAt(cur, q).Some? && ArrayAt(c, p).Some?
        ensures !(q <= (w + [k]) + p) && !((w + [k]) + p <= q)
      {
        GetCons(data, k, p);
        assert (w + [k]) + p == w + ([k] + p);
        assert ArrayAt(data, [k] + p).Some?;
        if ArrayAt(t0, q) != ArrayAt(cur, q) {
          assert q[|w|] != k;
          assert (w + ([k] + p))[|w|] == k;
        }
      }
    }
  }

  /** An array item still to be written can be created: its name meets no dataset. */
  lemma ArrayCreatable(t0: Tree, cur: Tree, w: Path, data: Tree, done: set<string>, k: string)
    requires k in data && data[k].ArrayV?
    ensures k !in done && Clean(cur) && Vacant(t0, w, data) && FromData(t0, cur, w, data, done) ==> Creatable(cur, w + [k])
  {
    if k !in done && Clean(cur) && Vacant(t0, w, data) && FromData(t0, cur, w, data, done) {
      GetOne(data, k);
      assert ArrayAt(data, [k]).Some?;
      forall q | ArrayAt(cur, q).Some?
        ensures !(q <= w + [k]) && !(w + [k] <= q)
      {
        if ArrayAt(t0, q) != ArrayAt(cur, q) {
          assert q[|w|] != k;
          assert (w + [k])[|w|] == k;
        }
      }
      CleanCreatable(cur, w + [k]);
    }
  }

  /** An array item written at `w + [k]` places the tree's one leaf below `k`. */
  lemma PlacedArray(t: Tree, w: Path, data: Tree, k: string, a: NdArray)
    requires k in data && data[k] == ArrayV(a) && ArrayAt(t, w + [k]) == Some(a)
    ensures Placed(t, w, data, {k})
  {
    forall p | ArrayAt(data, p).Some? && |p| > 0 && p[0] in {k}
      ensures ArrayAt(t, w + p) == ArrayAt(data, p)
    {
      assert p == [k] + p[1..];
      GetCons(data, k, p[1..]);
      assert |p[1..]| == 0;
      assert p == [k];
    }
  }

  /** An item that is neither an array nor a dictionary has no leaf below its key. */
  lemma PlacedSkipped(t: Tree, w: Path, data: Tree, k: string)
    requires k in data && !data[k].ArrayV? && !data[k].DictV?
    ensures Placed(t, w, data, {k})
  {
    forall p | |p| > 0 && p[0] in {k}
      ensures ArrayAt(data, p).None?
    {
      assert p == [k] + p[1..];
      GetCons(data, k, p[1..]);
    }
  }

  lemma PlacedKept(t: Tree, t': Tree, w: Path, data: Tree, ks: set<string>)
    requires Placed(t, w, data, ks) && Kept(t, t')
    ensures Placed(t', w, data, ks)
  {
    forall p | ArrayAt(data, p).Some? && |p| > 0 && p[0] in ks
      ensures ArrayAt(t', w + p) == ArrayAt(data, p)
    {
      assert ArrayAt(t, w + p).Some?;
    }
  }

  // ---------------------------------------------------------------------
  // _traverse_data_dict / convert_numpytree_hdf5

  /**
   * `_traverse_data_dict(data_dict, h5pyobj, path)`: every array is
   * stored in the file under the flat name `"/".join(path + keys)`, every
   * dictionary is walked with its key added to the path, and every other
   * value is skipped.  A name that cannot be created stops the walk.
   * Whatever happens, existing datasets are kept and a clean file stays
   * clean; for a plain tree the new datasets are exactly its leaves under
   * the non-empty parts of the prefix, and the walk succeeds when those
   * places are vacant.
   */
  method TraverseDataDict(data: Tree, f: H5File, pre: Path) returns (r: Result<()>)
    modifies f
    ensures r.Err? ==> r.error == RuntimeError
    ensures Kept(old(f.root), f.root)
    ensures Clean(old(f.root)) ==> Clean(f.root)
    ensures SlashFree(pre) && PlainV(DictV(data)) ==> FromData(old(f.root), f.root, NonEmpty(pre), data, data.Keys)
    ensures SlashFree(pre) && PlainV(DictV(data)) && r.Ok? ==> Placed(f.root, NonEmpty(pre), data, data.Keys)
    ensures SlashFree(pre) && PlainV(DictV(data)) && Clean(old(f.root)) && Vacant(old(f.root), NonEmpty(pre), data) ==> r.Ok?
    decreases DictV(data), 0
  {
    ghost var t0 := f.root;
    ghost var w := NonEmpty(pre);
    ghost var good := SlashFree(pre) && PlainV(DictV(data));
    var todo := data.Keys;
    ghost var done: set<string> := {};
    while todo != {}
      invariant todo <= data.Keys && done == data.Keys - todo
      invariant Kept(t0, f.root)
      invariant Clean(t0) ==> Clean(f.root)
      invariant good ==> FromData(t0, f.root, w, data, done)
      invariant good ==> Placed(f.root, w, data, done)
      decreases todo
    {
      var k :| k in todo;
      ghost var before := f.root;
      r := WriteItem(f, pre, k, data[k], t0, data, done);
      if r.Err? {
        return;
      }
      if good {
        PlacedKept(before, f.root, w, data, done);
      }
      todo := todo - {k};
      done := done + {k};
    }
    return Ok(());
  }

  /** One item `k: v` of the walk: an array stored, a dictionary walked, anything else skipped. */
  method WriteItem(f: H5File, pre: Path, k: string, v: Value, ghost t0: Tree, ghost data: Tree, ghost done: set<string>)
    returns (r: Result<()>)
    modifies f
    ensures r.Err? ==> r.error == RuntimeError
    ensures Kept(old(f.root), f.root)
    ensures Clean(old(f.root)) ==> Clean(f.root)
    ensures Fits(pre, k, v, data) && FromData(t0, old(f.root), NonEmpty(pre), data, done) ==>
              FromData(t0, f.root, NonEmpty(pre), data, done + {k})
    ensures Fits(pre, k, v, data) && r.Ok? ==> Placed(f.root, NonEmpty(pre), data, {k})
    ensures (Fits(pre, k, v, data) && k !in done && Clean(old(f.root)) && Vacant(t0, NonEmpty(pre), data)
             && FromData(t0, old(f.root), NonEmpty(pre), data, done)) ==> r.Ok?
    decreases v, 1
  {
    ghost var w := NonEmpty(pre);
    ghost var cur := f.root;
    ghost var good := Fits(pre, k, v, data);
    if good {
      ItemName(pre, k);
    }
    if v.ArrayV? {
      var name := Join(pre + [k], '/');
      if good {
        ArrayCreatable(t0, cur, w, data, done, k);
      }
      r := f.Store([], name, v.arr);
      if r.Ok? {
        StoreEffect(cur, Resolve([], name), v.arr);
        if good {
          PlacedArray(f.root, w, data, k, v.arr);
          assert ArrayAt(data, [k]) == Some(v.arr) by {
            GetOne(data, k);
          }
          assert (w + [k])[..|w|] == w && (w + [k])[|w|..] == [k];
        }
      }
    } else if v.DictV? {
      if good {
        LiftVacant(t0, cur, w, data, done, k);
        PlainChild(data, k);
        assert SlashFree(pre + [k]);
      }
      r := TraverseDataDict(v.entries, f, pre + [k]);
      if good && FromData(t0, cur, w, data, done) {
        LiftFromData(t0, cur, f.root, w, data, done, k);
      }
      if good {
        if r.Ok? {
          LiftPlaced(f.root, w, data, k);
        }
      }
    } else {
      r := Ok(());
      if good {
        PlacedSkipped(f.root, w, data, k);
      }
    }
  }

  /**
   * `convert_numpytree_hdf5(data_dict, filename, path)`: the file is
   * opened for appending, so `contents` is what it held, and the tree is
   * written under the prefix `path.split("/")`.
   */
  method ConvertNumpytreeHdf5(data: Tree, contents: Tree, path: string) returns (f: H5File, r: Result<()>)
    ensures fresh(f)
    ensures r.Err? ==> r.error == RuntimeError
    ensures Kept(contents, f.root)
    ensures Clean(contents) ==> Clean(f.root)
    ensures PlainV(DictV(data)) ==> FromData(contents, f.root, H5Path(path), data, data.Keys)
    ensures PlainV(DictV(data)) && r.Ok? ==> Placed(f.root, H5Path(path), data, data.Keys)
    ensures PlainV(DictV(data)) && Clean(contents) && Vacant(contents, H5Path(path), data) ==> r.Ok?
  {
    f := new H5File.Open(contents);
    var prefix := Split(path, '/');
    r := TraverseDataDict(data, f, prefix);
  }

  // ---------------------------------------------------------------------
  // _traverse_hd5_dict / convert_hdf5_dict_tree

  /**
   * `_traverse_hd5_dict(group)`: a fresh dictionary with each dataset's
   * value and, for each sub-group, the dictionary read from it -- the
   * group's own contents.
   */
  method TraverseHd5Dict(g: Tree) returns (out: Tree)
    ensures out == g
    decreases DictV(g)
  {
    out := map[];
    var todo := g.Keys;
    while todo != {}
      invariant todo <= g.Keys
      invariant forall k :: k in out <==> k in g && k !in todo
      invariant forall k :: k in out ==> out[k] == g[k]
      decreases todo
    {
      var k :| k in todo;
      if g[k].DictV? {
        var sub := TraverseHd5Dict(g[k].entries);
        out := out[k := DictV(sub)];
      } else {
        out := out[k := g[k]];
      }
      todo := todo - {k};
    }
    MapExt(out, g);
  }

  /** `file[name]` as a group: a missing name is a KeyError, a dataset is not a group. */
  function GroupAt(t: Tree, name: string): (r: Result<Tree>)
    ensures r.Ok? <==> Get(t, H5Path(name)).Some? && Get(t, H5Path(name)).value.DictV?
    ensures r == Err(KeyError) <==> Get(t, H5Path(name)).None?
  {
    match Get(t, H5Path(name))
    case None => Err(KeyError)
    case Some(DictV(c)) => Ok(c)
    case Some(_) => Err(TypeError)
  }

  /** `convert_hdf5_dict_tree(file[name])`: the dictionary tree of the group `name`. */
  method ConvertHdf5DictTree(t: Tree, name: string) returns (r: Result<Tree>)
    ensures r.Ok? <==> Get(t, H5Path(name)).Some? && Get(t, H5Path(name)).value.DictV?
    ensures r.Ok? ==> Get(t, H5Path(name)) == Some(DictV(r.value))
    ensures r == Err(KeyError) <==> Get(t, H5Path(name)).None?
  {
    var g := GroupAt(t, name);
    if g.Err? {
      return Err(g.error);
    }
    var d := TraverseHd5Dict(g.value);
    return Ok(d);
  }

  // ---------------------------------------------------------------------
  // Writing and reading back.

  /** The empty file is clean. */
  lemma CleanEmpty()
    ensures Clean(map[])
  {
    forall q | Get(map[], q).Some?
      ensures CleanNode(q, Get(map[], q).value)
    {
      assert Get(map[], q) == if |q| == 0 then Some(DictV(map[])) else None;
    }
  }

  /** The empty file has no dataset in anyone's way. */
  lemma VacantEmpty(w: Path, data: Tree)
    ensures Vacant(map[], w, data)
  {
    forall q
      ensures ArrayAt(map[], q).None?
    {
      assert Get(map[], q) == if |q| == 0 then Some(DictV(map[])) else None;
    }
  }

  /** Two trees ending at the same array at every path have the same leaves. */
  lemma LeavesAgree(t1: Tree, t2: Tree)
    requires forall p :: ArrayAt(t1, p) == ArrayAt(t2, p)
    ensures Leaves(t1) == Leaves(t2)
  {
    forall p | p in Leaves(t1)
      ensures p in Leaves(t2) && Leaves(t1)[p] == Leaves(t2)[p]
    {
      assert ArrayAt(t1, p) == Some(Leaves(t1)[p]);
    }
    forall p | p in Leaves(t2)
      ensures p in Leaves(t1)
    {
      assert ArrayAt(t2, p).Some?;
    }
    MapExt(Leaves(t1), Leaves(t2));
  }

  /** Once a leaf of `data` is placed under `w`, a group stands at `w`. */
  lemma GroupAtPrefix(t: Tree, w: Path, data: Tree, p: Path)
    requires Placed(t, w, data, data.Keys) && ArrayAt(data, p).Some?
    ensures Get(t, w).Some? && Get(t, w).value.DictV?
  {
    assert |p| > 0 && p[0] in data;
    AtAppend(DictV(t), w, p);
  }

  /** The group at `w` of a file written from an empty one ends at the same arrays as `data`. */
  lemma GroupArrays(t: Tree, w: Path, data: Tree, c: Tree)
    requires Get(t, w) == Some(DictV(c))
    requires FromData(map[], t, w, data, data.Keys) && Placed(t, w, data, data.Keys)
    ensures forall p :: ArrayAt(c, p) == ArrayAt(data, p)
  {
    forall p
      ensures ArrayAt(c, p) == ArrayAt(data, p)
    {
      AtAppend(DictV(t), w, p);
      if ArrayAt(data, p).Some? {
        assert |p| > 0 && p[0] in data;
        assert ArrayAt(t, w + p) == ArrayAt(data, p);
      }
      if ArrayAt(c, p).Some? {
        assert ArrayAt(t, w + p).Some?;
        assert (w + p)[|w|..] == p;
      }
    }
  }

  /**
   * A clean file written from an empty one, whose datasets are exactly
   * the leaves of `data` under `w`: the group at `w` is the clean tree of
   * those leaves.
   */
  lemma ReadBack(t: Tree, w: Path, data: Tree)
    requires Clean(t) && |Leaves(data)| > 0
    requires FromData(map[], t, w, data, data.Keys) && Placed(t, w, data, data.Keys)
    ensures Get(t, w) == Some(DictV(Build(Leaves(data))))
  {
    var p0 :| p0 in Leaves(data);
    GroupAtPrefix(t, w, data, p0);
    var c := Get(t, w).value.entries;
    CleanSub(t, w, c);
    GroupArrays(t, w, data, c);
    LeavesAgree(c, data);
    BuildOfLeaves(c);
  }

  /** Every dataset of a file written from an empty one is a leaf of `data` placed under `w`. */
  lemma FromEmpty(t: Tree, w: Path, data: Tree)
    requires FromData(map[], t, w, data, data.Keys)
    ensures forall q :: ArrayAt(t, q).Some? ==> w < q && q[|w|..] in Leaves(data)
  {
    forall q | ArrayAt(t, q).Some?
      ensures w < q && q[|w|..] in Leaves(data)
    {
      assert Get(map[], q) == if |q| == 0 then Some(DictV(map[])) else None;
    }
  }

  /** A tree without leaves writes nothing: the file stays empty. */
  lemma ReadBackEmpty(t: Tree, w: Path, data: Tree)
    requires Clean(t) && |Leaves(data)| == 0
    requires FromData(map[], t, w, data, data.Keys)
    ensures t == map[]
  {
    FromEmpty(t, w, data);
    if |t| > 0 {
      CleanHasLeaf(t);
    }
  }

  /**
   * The round trip of the doctest: write `data` into a new file under
   * `path`, then read the group `file[path]`.  A plain tree with at least
   * one array reads back as its array-only subtree (itself, when it is
   * clean); one without arrays leaves no group to read.
   */
  method WriteThenRead(data: Tree, path: string) returns (r: Result<Tree>)
    ensures PlainV(DictV(data)) && |Leaves(data)| > 0 ==> r == Ok(Build(Leaves(data)))
    ensures PlainV(DictV(data)) && Clean(data) && |data| > 0 ==> r == Ok(data)
    ensures PlainV(DictV(data)) && |Leaves(data)| == 0 && |H5Path(path)| > 0 ==> r == Err(KeyError)
  {
    CleanEmpty();
    VacantEmpty(H5Path(path), data);
    var f, res := ConvertNumpytreeHdf5(data, map[], path);
    if res.Err? {
      return Err(res.error);
    }
    r := ConvertHdf5DictTree(f.root, path);
    if PlainV(DictV(data)) && |Leaves(data)| > 0 {
      ReadBack(f.root, H5Path(path), data);
    }
    if PlainV(DictV(data)) && |Leaves(data)| == 0 {
      ReadBackEmpty(f.root, H5Path(path), data);
    }
    if PlainV(DictV(data)) {
      if Clean(data) && |data| > 0 {
        BuildOfLeaves(data);
        CleanHasLeaf(data);
        var q :| ArrayAt(data, q).Some?;
        assert q in Leaves(data);
      }
    }
  }
}
