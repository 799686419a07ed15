/**
 * file_tools.py: writing a dictionary tree into an HDF5 file group by
 * group, and the path and formatting helpers.
 */
module FileTools {
  import opened PyValues
  import opened Strings
  import opened TreePaths
  import opened Hdf5

  // ---------------------------------------------------------------------
  // _traverse_data_dict / convert_numpytree_hdf5

  /** Arrays and dicts are written; every other value is skipped. */
  predicate Written(v: Value)
  {
    v.ArrayV? || v.DictV?
  }

  /** The tree as the file holds it: arrays and (possibly empty) groups, nothing else. */
  function PruneV(v: Value): Value
  {
    match v
    case DictV(c) => DictV(map k | k in c && Written(c[k]) :: PruneV(c[k]))
    case _ => v
  }

  /** Pruning keeps every array where it was and adds none. */
  lemma {:induction false} PruneArrays(v: Value, p: Path)
    ensures (match At(PruneV(v), p) case Some(ArrayV(a)) => Some(a) case _ => None)
         == (match At(v, p) case Some(ArrayV(a)) => Some(a) case _ => None)
    decreases p
  {
    if |p| > 0 && v.DictV? {
      var c := v.entries;
      if p[0] in c {
        PruneArrays(c[p[0]], p[1..]);
        if !Written(c[p[0]]) && |p| > 1 {
          assert At(c[p[0]], p[1..]) == None;
        }
      }
    }
  }

  /** Pruning keeps every group where it was, and only values of those two kinds remain. */
  lemma {:induction false} PruneGroups(v: Value, p: Path)
    requires v.DictV?
    ensures (match At(PruneV(v), p) case Some(DictV(_)) => true case _ => false)
        <==> (match At(v, p) case Some(DictV(_)) => true case _ => false)
    ensures At(PruneV(v), p).Some? ==> Written(At(PruneV(v), p).value)
    decreases p
  {
    if |p| > 0 {
      var c := v.entries;
      if p[0] in c {
        if c[p[0]].DictV? {
          PruneGroups(c[p[0]], p[1..]);
        } else if |p| > 1 {
          assert At(c[p[0]], p[1..]) == None;
        }
      }
    }
  }

  /** Every proper prefix of a path that reaches something reaches a dict. */
  lemma PrefixDicts(w: Value, g: Path, i: nat)
    requires At(w, g).Some? && i < |g|
    ensures At(w, g[..i]).Some? && At(w, g[..i]).value.DictV?
  {
    assert g == g[..i] + g[i..];
    AtAppend(w, g[..i], g[i..]);
  }

  /** The group `g` of the file after grafting `c` there, and its children. */
  lemma GraftedGroup(t: Tree, g: Path, c: map<string, Value>, k: string)
    requires Get(t, g).Some? && Get(t, g).value.DictV?
    ensures At(Graft(DictV(t), g, DictV(c)), g) == Some(DictV(c))
    ensures At(Graft(DictV(t), g, DictV(c)), g + [k]) == if k in c then Some(c[k]) else None
  {
    forall i | 0 < i < |g| ensures DictOrAbsent(At(DictV(t), g[..i])) {
      PrefixDicts(DictV(t), g, i);
    }
    GraftGet(DictV(t), g, DictV(c));
    AtAppend(Graft(DictV(t), g, DictV(c)), g, [k]);
    assert [k][1..] == [];
  }

  /** A plain key names exactly one child of the group. */
  lemma ResolvePlain(g: Path, k: string)
    requires k != "" && '/' !in k
    ensures Resolve(g, k) == g + [k]
  {
    SplitNoSep(k, '/');
    assert k[0] in k;
    assert NonEmpty([k]) == [k] + NonEmpty([k][1..]);
    assert [k][1..] == [];
  }

  /**
   * Adding a new child `k` holding `v` to group `g`, when the group holds
   * `c` and lacks `k`: the name is free, and the result is the file with
   * the group holding `c[k := v]`.
   */
  lemma AddChild(t0: Tree, g: Path, c: map<string, Value>, k: string, v: Value)
    requires Get(t0, g).Some? && Get(t0, g).value.DictV?
    requires k != "" && '/' !in k && k !in c
    ensures var t := Graft(DictV(t0), g, DictV(c));
      && t.DictV?
      && Creatable(t.entries, Resolve(g, k))
      && Graft(t, Resolve(g, k), v) == Graft(DictV(t0), g, DictV(c[k := v]))
  {
    var t := Graft(DictV(t0), g, DictV(c));
    ResolvePlain(g, k);
    GraftedGroup(t0, g, c, k);
    var b := g + [k];
    forall i | 0 < i < |b| ensures DictOrAbsent(Get(t.entries, b[..i])) {
      assert b[..i] == g[..i];
      if i < |g| {
        PrefixDicts(t, g, i);
      } else {
        assert g[..i] == g;
      }
    }
    GraftChild(t, g, k, v, c);
    GraftTwice(DictV(t0), g, DictV(c), DictV(c[k := v]));
  }

  /** File `t` is file `t0` with group `g` holding `cur`, and `k` is a new plain key for it. */
  ghost predicate Slot(t0: Tree, g: Path, t: Tree, cur: map<string, Value>, k: string)
  {
    && Get(t0, g).Some? && Get(t0, g).value.DictV?
    && k != "" && '/' !in k && k !in cur
    && DictV(t) == Graft(DictV(t0), g, DictV(cur))
  }

  /** The loop of `_traverse_data_dict` has written the keys not in `todo` into group `g`. */
  ghost predicate Filled(t0: Tree, g: Path, t: Tree, data: Tree, todo: set<string>, cur: map<string, Value>)
  {
    && DictV(t) == Graft(DictV(t0), g, DictV(cur))
    && (forall k :: k in cur <==> k in data && k !in todo && Written(data[k]))
    && (forall k :: k in cur ==> cur[k] == PruneV(data[k]))
  }

  /**
   * `_traverse_data_dict(data_dict, h5pyobj)` on group `g`: each item is
   * written by WriteItem.  With plain keys and an empty group, it
   * succeeds and the group ends up holding the pruned tree.
   */
  method TraverseDataDict(data: Tree, f: H5File, g: Path) returns (r: Result<()>)
    modifies f
    ensures r.Err? ==> r.error == RuntimeError
    ensures PlainV(DictV(data)) && Get(old(f.root), g) == Some(DictV(map[])) ==>
              r.Ok? && DictV(f.root) == Graft(DictV(old(f.root)), g, PruneV(DictV(data)))
    decreases DictV(data), 0
  {
    ghost var t0 := f.root;
    ghost var good := PlainV(DictV(data)) && Get(f.root, g) == Some(DictV(map[]));
    ghost var cur: map<string, Value> := map[];
    if good {
      GraftSame(DictV(t0), g);
    }
    var todo := data.Keys;
    while todo != {}
      invariant todo <= data.Keys
      invariant good ==> Filled(t0, g, f.root, data, todo, cur)
      decreases |todo|
    {
      var k :| k in todo;
      var res := WriteItem(f, g, k, data[k], t0, cur);
      if res.Err? {
        return Err(res.error);
      }
      if Written(data[k]) {
        cur := cur[k := PruneV(data[k])];
      }
      todo := todo - {k};
    }
    if good {
      MapExt(cur, PruneV(DictV(data)).entries);
    }
    return Ok(());
  }

  /**
   * One item of `_traverse_data_dict`: an array becomes a dataset named
   * by its key, a dict a new group filled recursively, anything else is
   * skipped.  Into a group that lacks the key, a plain item is written
   * whole, pruned.
   */
  method WriteItem(f: H5File, g: Path, k: string, v: Value, ghost t0: Tree, ghost cur: map<string, Value>)
    returns (r: Result<()>)
    modifies f
    ensures r.Err? ==> r.error == RuntimeError
    ensures !Written(v) ==> r.Ok? && f.root == old(f.root)
    ensures Written(v) && PlainV(v) && Slot(t0, g, old(f.root), cur, k) ==>
              r.Ok? && DictV(f.root) == Graft(DictV(t0), g, DictV(cur[k := PruneV(v)]))
    decreases v, 1
  {
    var good := Written(v) && PlainV(v) && Slot(t0, g, f.root, cur, k);
    if v.ArrayV? {
      if good {
        AddChild(t0, g, cur, k, v);
      }
      r := f.Store(g, k, v.arr);
    } else if v.DictV? {
      if good {
        AddChild(t0, g, cur, k, DictV(map[]));
      }
      var sub := f.CreateGroup(g, k);
      if sub.Err? {
        return Err(sub.error);
      }
      ghost var t1 := f.root;
      ghost var c1 := cur[k := DictV(map[])];
      if good {
        ResolvePlain(g, k);
        GraftedGroup(t0, g, c1, k);
      }
      r := TraverseDataDict(v.entries, f, sub.value);
      if good && r.Ok? {
        GraftChild(DictV(t1), g, k, PruneV(v), c1);
        assert c1[k := PruneV(v)] == cur[k := PruneV(v)];
        GraftTwice(DictV(t0), g, DictV(c1), DictV(cur[k := PruneV(v)]));
      }
    } else {
      r := Ok(());
    }
  }

  /**
   * `convert_numpytree_hdf5(data_dict, filename)`: a new file ("w")
   * written from the root group.  With plain keys it succeeds, and the
   * file holds exactly the arrays and dicts of the tree.
   */
  method ConvertNumpytreeHdf5(data: Tree) returns (f: H5File, r: Result<()>)
    ensures fresh(f)
    ensures r.Err? ==> r.error == RuntimeError
    ensures PlainV(DictV(data)) ==> r.Ok? && DictV(f.root) == PruneV(DictV(data))
  {
    f := new H5File.Create();
    r := TraverseDataDict(data, f, []);
  }

  // ---------------------------------------------------------------------
  // Path helpers

  /** The directory `mkparents(path)` creates: the text before the last slash, unless that slash is the first character or there is none. */
  function MkparentsDir(path: string): (r: Option<string>)
  {
    var last := RFind(path, '/');
    if last > 0 then Some(path[..last]) else None
  }

  /** A directory is made exactly when some slash follows the first character; it is the path up to the last slash. */
  lemma MkparentsDirSpec(path: string)
    ensures MkparentsDir(path).Some? <==> exists i :: 0 < i < |path| && path[i] == '/'
    ensures MkparentsDir(path).Some? ==>
              var d := MkparentsDir(path).value;
              && 0 < |d| < |path| && path[..|d|] == d && path[|d|] == '/'
              && forall i :: |d| < i < |path| ==> path[i] != '/'
  {
    var last := RFind(path, '/');
    if exists i :: 0 < i < |path| && path[i] == '/' {
      var i :| 0 < i < |path| && path[i] == '/';
      assert last >= i;
    }
  }

  /** `abbreviate_file_path(fname)`: the last two `/`-components, or the name itself when it has one. */
  function AbbreviateFilePath(fname: string): string
  {
    var parts := Split(fname, '/');
    if |parts| > 1 then parts[|parts| - 2] + "/" + parts[|parts| - 1] else fname
  }

  /** A split with two or more parts joins as the front parts, a slash, and the last part. */
  lemma JoinLast(parts: seq<string>)
    requires |parts| > 1
    ensures Join(parts, '/') == Join(parts[..|parts| - 1], '/') + "/" + parts[|parts| - 1]
  {
    assert parts == parts[..|parts| - 1] + [parts[|parts| - 1]];
    JoinAppend(parts[..|parts| - 1], parts[|parts| - 1], '/');
  }

  lemma JoinLastTwo(parts: seq<string>)
    requires |parts| > 1
    ensures EndsWith(Join(parts, '/'), parts[|parts| - 2] + "/" + parts[|parts| - 1])
  {
    var n := |parts|;
    var tail := parts[n - 2] + "/" + parts[n - 1];
    JoinLast(parts);
    var front := parts[..n - 1];
    if n == 2 {
      assert Join(front, '/') == parts[0];
      assert Join(parts, '/') == tail;
    } else {
      JoinLast(front);
      assert front[..n - 2] == parts[..n - 2];
      var a := Join(parts[..n - 2], '/') + "/";
      var p := parts[n - 2];
      var q := parts[n - 1];
      assert Join(front, '/') == a + p;
      assert Join(parts, '/') == ((a + p) + "/") + q;
      AppendAssoc(a, p, "/");
      AppendAssoc(a, p + "/", q);
      assert Join(parts, '/') == a + tail;
    }
  }

  /** A name with a slash splits into two or more parts. */
  lemma SplitHasSep(s: string)
    ensures '/' in s ==> |Split(s, '/')| > 1
  {
    var parts := Split(s, '/');
    JoinSplit(s, '/');
    if |parts| == 1 {
      assert Join(parts, '/') == parts[0];
      assert '/' !in s;
    }
  }

  /**
   * The abbreviation is a suffix of the name; a name without a slash is
   * kept, otherwise the abbreviation has exactly the last two components.
   */
  lemma AbbreviateSpec(fname: string)
    ensures EndsWith(fname, AbbreviateFilePath(fname))
    ensures '/' !in fname ==> AbbreviateFilePath(fname) == fname
    ensures '/' in fname ==>
              var parts := Split(fname, '/');
              |parts| > 1 && Split(AbbreviateFilePath(fname), '/') == parts[|parts| - 2..]
  {
    var parts := Split(fname, '/');
    var n := |parts|;
    JoinSplit(fname, '/');
    if '/' !in fname {
      SplitNoSep(fname, '/');
    } else {
      SplitHasSep(fname);
      JoinLastTwo(parts);
      var two := parts[n - 2..];
      assert two == [parts[n - 2], parts[n - 1]];
      assert Join(two, '/') == parts[n - 2] + "/" + parts[n - 1] by {
        assert two[1..] == [parts[n - 1]];
      }
      SplitJoin(two, '/');
    }
  }

  /** The components of a name before its last, joined by slashes. */
  function DirPart(pathname: string): string
  {
    Join(Split(pathname, '/')[..|Split(pathname, '/')| - 1], '/')
  }

  /** The component of a name after its last slash. */
  function LastPart(pathname: string): string
  {
    Split(pathname, '/')[|Split(pathname, '/')| - 1]
  }

  /** `extract_rootdir(pathname)` as written: the components before the last, "." when that is empty, and a trailing slash. */
  function ExtractRootdir(pathname: string): string
  {
    (if DirPart(pathname) == "" then "." else DirPart(pathname)) + "/"
  }

  /** A name with a slash is its directory part, that slash and its last part. */
  lemma SplitLast(s: string)
    requires '/' in s
    ensures |Split(s, '/')| > 1 && s == DirPart(s) + "/" + LastPart(s)
  {
    var parts := Split(s, '/');
    JoinSplit(s, '/');
    SplitHasSep(s);
    JoinLast(parts);
  }

  /**
   * The root directory always ends with a slash, a bare name lives in
   * "./", and otherwise the name is that directory followed by its last
   * component -- except for a name directly under "/", see below.
   */
  lemma RootdirSpec(pathname: string)
    ensures EndsWith(ExtractRootdir(pathname), "/")
    ensures '/' !in pathname ==> ExtractRootdir(pathname) == "./"
    ensures '/' in pathname && ExtractRootdir(pathname) != "./" ==>
              pathname == ExtractRootdir(pathname) + LastPart(pathname)
  {
    if '/' !in pathname {
      SplitNoSep(pathname, '/');
    } else {
      SplitLast(pathname);
      if DirPart(pathname) != "" {
        AppendAssoc(DirPart(pathname), "/", LastPart(pathname));
      }
    }
  }

  /** The as-written root directory of a file directly under "/", such as "/data.txt", is "./", not "/". */
  lemma RootdirAtRoot(name: string)
    requires '/' !in name
    ensures ExtractRootdir("/" + name) == "./"
    ensures ExtractRootdir("/" + name) + name != "/" + name
  {
    SplitAfterPart("", '/', name);
    assert "" + ['/'] + name == "/" + name;
    SplitNoSep(name, '/');
    assert Split("/" + name, '/') == ["", name];
    assert DirPart("/" + name) == Join([""], '/');
    assert ("./" + name)[0] != ("/" + name)[0];
  }

  /** `extract_rootdir` with a name directly under "/" answered by "/". */
  function ExtractRootdirFixed(pathname: string): string
  {
    if DirPart(pathname) == "" && |Split(pathname, '/')| > 1 then "/"
    else (if DirPart(pathname) == "" then "." else DirPart(pathname)) + "/"
  }

  /** The corrected root directory is always the name's own directory: the name is it followed by the last component. */
  lemma RootdirFixedSpec(pathname: string)
    ensures EndsWith(ExtractRootdirFixed(pathname), "/")
    ensures '/' !in pathname ==> ExtractRootdirFixed(pathname) == "./"
    ensures '/' in pathname ==> pathname == ExtractRootdirFixed(pathname) + LastPart(pathname)
  {
    if '/' !in pathname {
      SplitNoSep(pathname, '/');
    } else {
      SplitLast(pathname);
      if DirPart(pathname) == "" {
        assert pathname == "" + "/" + LastPart(pathname);
        assert "" + "/" == "/";
      } else {
        AppendAssoc(DirPart(pathname), "/", LastPart(pathname));
      }
    }
  }

  // ---------------------------------------------------------------------
  // repl_bracketed_env

  /** `string_in.translate(string.maketrans("[]", "[["))`: closing brackets become opening ones. */
  function Bracketless(s: string): (r: string)
    ensures |r| == |s| && ']' !in r
  {
    seq(|s|, i requires 0 <= i < |s| => if s[i] == ']' then '[' else s[i])
  }

  /** The fragments `repl_bracketed_env` looks at: the text split at every bracket. */
  function Fragments(s: string): seq<string>
  {
    Split(Bracketless(s), '[')
  }

  /** An all-capital fragment names an environment variable; `get_env` exits when it is unset. */
  predicate Resolvable(item: string, env: map<string, string>)
  {
    IsUpper(item) ==> item in env
  }

  /** A fragment as it appears in the result: the variable's value, or the fragment itself. */
  function Replaced(item: string, env: map<string, string>): string
  {
    if IsUpper(item) && item in env then env[item] else item
  }

  function Replacements(items: seq<string>, env: map<string, string>): (r: seq<string>)
  {
    seq(|items|, j requires 0 <= j < |items| => Replaced(items[j], env))
  }

  /**
   * `repl_bracketed_env(string_in)` with the environment as a map: split
   * at brackets, replace the all-capital fragments, join without
   * brackets.
   */
  method ReplBracketedEnv(s: string, env: map<string, string>) returns (r: Result<string>)
    ensures r.Ok? <==> forall j :: 0 <= j < |Fragments(s)| ==> Resolvable(Fragments(s)[j], env)
    ensures r.Err? ==> r.error == SystemExit
    ensures r.Ok? ==> r.value == Concat(Replacements(Fragments(s), env))
  {
    var breakup := Fragments(s);
    var retval: seq<string> := [];
    for i := 0 to |breakup|
      invariant |retval| == i
      invariant forall j :: 0 <= j < i ==> Resolvable(breakup[j], env) && retval[j] == Replaced(breakup[j], env)
    {
      var item := breakup[i];
      if IsUpper(item) {
        if item !in env {
          assert !Resolvable(breakup[i], env);
          assert exists j :: 0 <= j < |breakup| && !Resolvable(breakup[j], env);
          return Err(SystemExit);
        }
        item := env[item];
      }
      retval := retval + [item];
    }
    assert retval == Replacements(breakup, env);
    return Ok(Concat(retval));
  }

  /** The text with every bracket deleted. */
  function Unbracketed(s: string): (r: string)
  {
    if |s| == 0 then ""
    else (if s[0] == '[' || s[0] == ']' then "" else [s[0]]) + Unbracketed(s[1..])
  }

  /** Joining the fragments of a split gives the text without separators. */
  lemma {:induction false} ConcatSplit(s: string)
    ensures Concat(Fragments(s)) == Unbracketed(s)
  {
    if |s| > 0 {
      ConcatSplit(s[1..]);
      assert Bracketless(s)[1..] == Bracketless(s[1..]);
      var rest := Split(Bracketless(s[1..]), '[');
      if s[0] == '[' || s[0] == ']' {
        assert Split(Bracketless(s), '[') == [""] + rest;
        assert (([""] + rest)[1..]) == rest;
      } else {
        var parts := [[s[0]] + rest[0]] + rest[1..];
        assert Split(Bracketless(s), '[') == parts;
        assert parts[1..] == rest[1..];
        assert Concat(rest) == rest[0] + Concat(rest[1..]);
      }
    }
  }

  /** Text without all-capital fragments comes back with its brackets removed and nothing else changed. */
  lemma ReplPlainText(s: string, env: map<string, string>)
    requires forall j :: 0 <= j < |Fragments(s)| ==> !IsUpper(Fragments(s)[j])
    ensures Concat(Replacements(Fragments(s), env)) == Unbracketed(s)
  {
    var items := Fragments(s);
    var replaced := Replacements(items, env);
    forall j | 0 <= j < |items| ensures replaced[j] == items[j] {
      assert !IsUpper(items[j]);
    }
    assert replaced == items;
    ConcatSplit(s);
  }

  // ---------------------------------------------------------------------
  // print_multicolumn

  /** The shortest column length, the number of rows `zip(*args)` yields. */
  function MinLen(columns: seq<seq<Value>>): (n: nat)
    ensures forall j :: 0 <= j < |columns| ==> n <= |columns[j]|
    ensures |columns| > 0 ==> exists j :: 0 <= j < |columns| && n == |columns[j]|
    ensures |columns| == 0 ==> n == 0
  {
    if |columns| == 0 then 0
    else if |columns| == 1 then |columns[0]|
    else
      var m := MinLen(columns[1..]);
      assert forall j :: 1 <= j < |columns| ==> columns[1..][j - 1] == columns[j];
      if |columns[0]| <= m then |columns[0]| else m
  }

  /** The directory print_multicolumn makes for `outfile`: the part before the last slash, unless empty or ".". */
  function MulticolumnDir(outfile: string): Option<string>
  {
    if |DirPart(outfile)| > 0 && DirPart(outfile) != "." then Some(DirPart(outfile)) else None
  }

  lemma MulticolumnDirSpec(outfile: string)
    ensures '/' !in outfile ==> MulticolumnDir(outfile).None?
    ensures MulticolumnDir(outfile).Some? ==> outfile == MulticolumnDir(outfile).value + "/" + LastPart(outfile)
  {
    if '/' !in outfile {
      SplitNoSep(outfile, '/');
    } else {
      SplitLast(outfile);
    }
  }

  /** The number of times `c` occurs in `s`. */
  function Count(s: string, c: char): nat
  {
    if |s| == 0 then 0 else (if s[0] == c then 1 else 0) + Count(s[1..], c)
  }

  lemma {:induction false} CountAppend(a: string, b: string, c: char)
    ensures Count(a + b, c) == Count(a, c) + Count(b, c)
  {
    if |a| == 0 {
      assert a + b == b;
    } else {
      assert (a + b)[1..] == a[1..] + b;
      CountAppend(a[1..], b, c);
    }
  }

  /** The row format `(format + " ") * numarg + "\n"`. */
  function RowFormat(format: string, numarg: nat): string
  {
    Repeat(format + " ", numarg) + "\n"
  }

  /** With a single conversion in `format`, the row format has one conversion per column. */
  lemma {:induction false} RowFormatConversions(format: string, numarg: nat)
    ensures Count(RowFormat(format, numarg), '%') == numarg * Count(format, '%')
  {
    RepeatCount(format + " ", numarg);
    CountAppend(format, " ", '%');
    CountAppend(Repeat(format + " ", numarg), "\n", '%');
    assert Count(" ", '%') == 0 && Count("\n", '%') == 0 by {
      assert " "[1..] == [] && "\n"[1..] == [];
    }
  }

  lemma {:induction false} RepeatCount(s: string, n: nat)
    ensures Count(Repeat(s, n), '%') == n * Count(s, '%')
  {
    if n > 0 {
      RepeatCount(s, n - 1);
      CountAppend(s, Repeat(s, n - 1), '%');
    }
  }

  datatype Multicolumn = Multicolumn(outfile: string, makeDir: Option<string>, rowFormat: string, rows: seq<seq<Value>>)

  /**
   * A keyword argument that must be a string, or the default when absent;
   * `notStr` is what its first use raises on any other value.
   */
  function StrKw(kw: KwArgs, name: string, default: string, notStr: Error): (r: Result<string>)
    ensures name !in Keys(kw) ==> r == Ok(default)
    ensures r.Ok? && name in Keys(kw) ==> KwGet(kw, name) == Ok(StrV(r.value))
    ensures r.Err? <==> name in Keys(kw) && !KwGet(kw, name).value.StrV?
    ensures r.Err? ==> r.error == notStr
  {
    match KwGet(kw, name)
    case Err(_) => Ok(default)
    case Ok(StrV(s)) => Ok(s)
    case Ok(_) => Err(notStr)
  }

  /**
   * `print_multicolumn(*args, **kwargs)`: the output name and format
   * (defaults "multicolumns.dat" and "%10.15g"), the directory to make,
   * the row format and the rows `zip(*args)` yields, one per index up to
   * the shortest column.  A non-string `outfile` has no `split`
   * (AttributeError); a non-string `format` cannot be added to `" "`
   * (TypeError).
   */
  method PrintMulticolumn(columns: seq<seq<Value>>, kw: KwArgs) returns (r: Result<Multicolumn>)
    ensures r.Ok? <==> StrKw(kw, "outfile", "multicolumns.dat", AttributeError).Ok? && StrKw(kw, "format", "%10.15g", TypeError).Ok?
    ensures StrKw(kw, "outfile", "multicolumns.dat", AttributeError).Err? ==> r == Err(AttributeError)
    ensures StrKw(kw, "outfile", "multicolumns.dat", AttributeError).Ok? ==>
              StrKw(kw, "format", "%10.15g", TypeError).Err? ==> r == Err(TypeError)
    ensures r.Ok? ==> r.value.outfile == StrKw(kw, "outfile", "multicolumns.dat", AttributeError).value
    ensures r.Ok? ==> r.value.makeDir == MulticolumnDir(r.value.outfile)
    ensures r.Ok? ==> r.value.rowFormat == RowFormat(StrKw(kw, "format", "%10.15g", TypeError).value, |columns|)
    ensures r.Ok? ==> |r.value.rows| == MinLen(columns)
    ensures r.Ok? ==> forall i :: 0 <= i < |r.value.rows| ==>
              |r.value.rows[i]| == |columns| && forall j :: 0 <= j < |columns| ==> r.value.rows[i][j] == columns[j][i]
  {
    var outfile := StrKw(kw, "outfile", "multicolumns.dat", AttributeError);
    if outfile.Err? {
      return Err(AttributeError);
    }
    var format := StrKw(kw, "format", "%10.15g", TypeError);
    if format.Err? {
      return Err(TypeError);
    }
    var numarg := |columns|;
    var n := MinLen(columns);
    var rows: seq<seq<Value>> := [];
    for i := 0 to n
      invariant |rows| == i
      invariant forall i' :: 0 <= i' < i ==>
                  |rows[i']| == numarg && forall j :: 0 <= j < numarg ==> rows[i'][j] == columns[j][i']
    {
      var row := seq(numarg, j requires 0 <= j < numarg => columns[j][i]);
      rows := rows + [row];
    }
    return Ok(Multicolumn(outfile.value, MulticolumnDir(outfile.value), RowFormat(format.value, numarg), rows));
  }
}
