/**
 * An HDF5 file as h5py presents it: groups behave as dictionaries and
 * datasets as arrays, so the file's contents are a Tree whose inner
 * nodes are groups and whose array leaves are datasets.  Objects are
 * addressed by `/`-separated names relative to a group.
 */
module Hdf5 {
  import opened PyValues
  import opened Strings
  import opened TreePaths

  /** The non-empty strings of `parts`, in order. */
  function NonEmpty(parts: seq<string>): (r: seq<string>)
    ensures forall i :: 0 <= i < |r| ==> r[i] != ""
    ensures forall s :: s in r <==> s in parts && s != ""
  {
    if |parts| == 0 then []
    else if parts[0] == "" then NonEmpty(parts[1..])
    else [parts[0]] + NonEmpty(parts[1..])
  }

  lemma {:induction false} NonEmptyAppend(a: seq<string>, b: seq<string>)
    ensures NonEmpty(a + b) == NonEmpty(a) + NonEmpty(b)
  {
    if |a| == 0 {
      assert a + b == b;
    } else {
      assert (a + b)[1..] == a[1..] + b;
      NonEmptyAppend(a[1..], b);
    }
  }

  /** Components that are neither empty nor contain a slash. */
  predicate Plain(p: Path)
  {
    forall i :: 0 <= i < |p| ==> p[i] != "" && '/' !in p[i]
  }

  lemma {:induction false} NonEmptyPlain(p: Path)
    requires Plain(p)
    ensures NonEmpty(p) == p
  {
    if |p| > 0 {
      NonEmptyPlain(p[1..]);
      assert [p[0]] + p[1..] == p;
    }
  }

  /** A dictionary whose keys on every level are non-empty and free of slashes, so each key names one HDF5 component. */
  predicate PlainV(v: Value)
  {
    match v
    case DictV(c) => forall k :: k in c ==> k != "" && '/' !in k && PlainV(c[k])
    case _ => true
  }

  /**
   * The path HDF5 reads from an object name: its `/`-separated
   * components, where leading, trailing and repeated slashes add none.
   */
  function H5Path(name: string): Path
  {
    NonEmpty(Split(name, '/'))
  }

  /** `"/".join(parts)` names the non-empty parts when no part holds a slash. */
  lemma H5PathJoin(parts: seq<string>)
    requires |parts| > 0
    requires forall i :: 0 <= i < |parts| ==> '/' !in parts[i]
    ensures H5Path(Join(parts, '/')) == NonEmpty(parts)
  {
    SplitJoin(parts, '/');
  }

  /** A name relative to group `g`; a leading slash makes it absolute. */
  function Resolve(g: Path, name: string): Path
  {
    if |name| > 0 && name[0] == '/' then H5Path(name) else g + H5Path(name)
  }

  /**
   * `w` with the object at `g` replaced by `v`, the groups missing on the
   * way created empty (h5py creates intermediate groups).
   */
  function Graft(w: Value, g: Path, v: Value): (r: Value)
    ensures w.DictV? && |g| > 0 ==> r.DictV?
    decreases g
  {
    if |g| == 0 then v
    else match w
      case DictV(c) =>
        DictV(c[g[0] := Graft(if g[0] in c then c[g[0]] else DictV(map[]), g[1..], v)])
      case _ => w
  }

  /** Grafting a whole tree at its root path replaces the tree. */
  function GraftTree(t: Tree, g: Path, v: Value): Tree
    requires |g| > 0
  {
    Graft(DictV(t), g, v).entries
  }

  /** On a traversable path SetLeaf and Graft agree. */
  lemma {:induction false} SetLeafIsGraft(t: Tree, b: Path, v: Value)
    requires |b| > 0 && Traversable(t, b)
    ensures SetLeaf(t, b, v) == Ok(GraftTree(t, b, v))
    decreases b
  {
    TraversableCons2(t, b);
    if |b| > 1 {
      var c: Tree := if b[0] in t then t[b[0]].entries else map[];
      SetLeafIsGraft(c, b[1..], v);
    } else {
      assert Graft(DictV(t), b, v) == DictV(t[b[0] := Graft(if b[0] in t then t[b[0]] else DictV(map[]), b[1..], v)]);
      assert |b[1..]| == 0;
    }
  }

  lemma TraversableCons2(t: Tree, b: Path)
    requires |b| > 0 && Traversable(t, b)
    ensures |b| > 1 ==> (b[0] !in t || t[b[0]].DictV?)
    ensures |b| > 1 ==> Traversable(if b[0] in t then t[b[0]].entries else map[], b[1..])
  {
    if |b| > 1 {
      TraversableCons(t, b);
    }
  }

  /** Grafting twice at the same path keeps the second value. */
  lemma {:induction false} GraftTwice(w: Value, g: Path, v1: Value, v2: Value)
    ensures Graft(Graft(w, g, v1), g, v2) == Graft(w, g, v2)
    decreases g
  {
    if |g| > 0 && w.DictV? {
      var c := w.entries;
      var sub := if g[0] in c then c[g[0]] else DictV(map[]);
      var x1 := Graft(sub, g[1..], v1);
      var x2 := Graft(sub, g[1..], v2);
      GraftTwice(sub, g[1..], v1, v2);
      assert Graft(x1, g[1..], v2) == x2;
      assert c[g[0] := x1][g[0] := x2] == c[g[0] := x2];
    } else if |g| > 0 {
      assert Graft(w, g, v1) == w;
    }
  }

  /** Grafting what is already there changes nothing. */
  lemma {:induction false} GraftSame(w: Value, g: Path)
    requires At(w, g).Some?
    ensures Graft(w, g, At(w, g).value) == w
    decreases g
  {
    if |g| > 0 {
      var c := w.entries;
      GraftSame(c[g[0]], g[1..]);
      assert c[g[0] := c[g[0]]] == c;
    }
  }

  /** Grafting at a child of a group is grafting the updated group. */
  lemma {:induction false} GraftChild(w: Value, g: Path, k: string, v: Value, c: map<string, Value>)
    requires At(w, g) == Some(DictV(c))
    ensures Graft(w, g + [k], v) == Graft(w, g, DictV(c[k := v]))
    decreases g
  {
    if |g| == 0 {
      assert g + [k] == [k];
    } else {
      assert (g + [k])[0] == g[0] && (g + [k])[1..] == g[1..] + [k];
      GraftChild(w.entries[g[0]], g[1..], k, v, c);
    }
  }

  /** After a graft at `g`, `g` holds the grafted value. */
  lemma {:induction false} GraftGet(w: Value, g: Path, v: Value)
    requires w.DictV? && (forall i :: 0 < i < |g| ==> DictOrAbsent(At(w, g[..i])))
    ensures At(Graft(w, g, v), g) == Some(v)
    decreases g
  {
    if |g| > 0 {
      var c := w.entries;
      var sub := if g[0] in c then c[g[0]] else DictV(map[]);
      if |g| > 1 {
        assert g[..1] == [g[0]];
        assert At(w, g[..1]) == if g[0] in c then At(c[g[0]], []) else None;
        assert DictOrAbsent(At(w, g[..1]));
        assert sub.DictV?;
        forall i | 0 < i < |g[1..]| ensures DictOrAbsent(At(sub, g[1..][..i])) {
          assert g[..i + 1] == [g[0]] + g[1..][..i];
          assert ([g[0]] + g[1..][..i])[1..] == g[1..][..i];
          assert DictOrAbsent(At(w, g[..i + 1]));
        }
        GraftGet(sub, g[1..], v);
      } else {
        assert |g[1..]| == 0;
      }
    }
  }

  /** A name can be created when it is not the file itself, nothing is stored there, and no dataset lies on the way. */
  predicate Creatable(t: Tree, b: Path)
  {
    |b| > 0 && Get(t, b).None? && Traversable(t, b)
  }

  /** The subtree below a group of a clean tree is clean. */
  lemma CleanSub(t: Tree, b: Path, c: Tree)
    requires Clean(t) && Get(t, b) == Some(DictV(c))
    ensures Clean(c)
  {
    forall r | Get(c, r).Some?
      ensures CleanNode(r, Get(c, r).value)
    {
      AtAppend(DictV(t), b, r);
      if |r| > 0 {
        assert CleanNode(b + r, Get(t, b + r).value);
      }
    }
  }

  /** Below every object of a clean tree, except the root, lies a dataset. */
  lemma CleanReaches(t: Tree, b: Path)
    requires Clean(t) && |b| > 0
    ensures Get(t, b).Some? ==> exists q :: b <= q && ArrayAt(t, q).Some?
  {
    if Get(t, b).Some? {
      if Get(t, b).value.ArrayV? {
        assert ArrayAt(t, b).Some?;
      } else {
        assert CleanNode(b, Get(t, b).value);
        var c := Get(t, b).value.entries;
        CleanSub(t, b, c);
        CleanHasLeaf(c);
        var q :| ArrayAt(c, q).Some?;
        AtAppend(DictV(t), b, q);
        assert ArrayAt(t, b + q).Some?;
      }
    }
  }

  /** In a clean tree a path unrelated to every dataset can be created. */
  lemma CleanCreatable(t: Tree, b: Path)
    requires Clean(t) && |b| > 0
    requires forall q :: ArrayAt(t, q).Some? ==> !(q <= b) && !(b <= q)
    ensures Creatable(t, b)
  {
    SetLeafClean(t, b, NdArray("", [], Scalar(0)));
    CleanReaches(t, b);
  }

  /** No dataset lies on the way to a creatable path, at it or below it. */
  lemma CreatableFree(t: Tree, b: Path)
    requires Creatable(t, b)
    ensures forall q :: q <= b || b <= q ==> ArrayAt(t, q).None?
  {
    forall q | q <= b || b <= q
      ensures ArrayAt(t, q).None?
    {
      if b <= q {
        AtAppend(DictV(t), b, q[|b|..]);
        assert q == b + q[|b|..];
      } else if |q| > 0 {
        assert q == b[..|q|];
        assert DictOrAbsent(Get(t, b[..|q|]));
      }
    }
  }

  /**
   * Creating a dataset at a creatable path adds exactly that dataset:
   * every other path ends at the same array as before, and a clean file
   * stays clean.
   */
  lemma StoreEffect(t: Tree, b: Path, a: NdArray)
    requires Creatable(t, b)
    ensures forall q :: ArrayAt(GraftTree(t, b, ArrayV(a)), q) == if q == b then Some(a) else ArrayAt(t, q)
    ensures Clean(t) ==> Clean(GraftTree(t, b, ArrayV(a)))
  {
    SetLeafIsGraft(t, b, ArrayV(a));
    CreatableFree(t, b);
    var r := GraftTree(t, b, ArrayV(a));
    forall q
      ensures ArrayAt(r, q) == if q == b then Some(a) else ArrayAt(t, q)
    {
      SetLeafAt(t, b, ArrayV(a), q);
      if b <= q && q != b {
        assert q[|b|..] != [];
      }
    }
    if Clean(t) {
      SetLeafClean(t, b, a);
    }
  }

  /** An h5py file object: its contents change in place as objects are written. */
  class H5File {
    var root: Tree

    /** `h5py.File(name, "w")`: a new, empty file. */
    constructor Create()
      ensures root == map[]
    {
      root := map[];
    }

    /** `h5py.File(name, "a")`: an existing file, its contents kept. */
    constructor Open(contents: Tree)
      ensures root == contents
    {
      root := contents;
    }

    /**
     * `group[name] = array`: a new dataset.  A name that exists already,
     * the group itself, or a path through a dataset is refused.
     */
    method Store(g: Path, name: string, a: NdArray) returns (r: Result<()>)
      modifies this
      ensures r.Ok? <==> Creatable(old(root), Resolve(g, name))
      ensures r.Ok? ==> root == GraftTree(old(root), Resolve(g, name), ArrayV(a))
      ensures r.Err? ==> r.error == RuntimeError && root == old(root)
    {
      var b := Resolve(g, name);
      if |b| == 0 || Get(root, b).Some? || !Traversable(root, b) {
        return Err(RuntimeError);
      }
      root := GraftTree(root, b, ArrayV(a));
      return Ok(());
    }

    /** `group.create_group(name)`: a new empty group, refused like Store; returns its path. */
    method CreateGroup(g: Path, name: string) returns (r: Result<Path>)
      modifies this
      ensures r.Ok? <==> Creatable(old(root), Resolve(g, name))
      ensures r.Ok? ==> r.value == Resolve(g, name) && root == GraftTree(old(root), r.value, DictV(map[]))
      ensures r.Err? ==> r.error == RuntimeError && root == old(root)
    {
      var b := Resolve(g, name);
      if |b| == 0 || Get(root, b).Some? || !Traversable(root, b) {
        return Err(RuntimeError);
      }
      root := GraftTree(root, b, DictV(map[]));
      return Ok(b);
    }
  }
}
