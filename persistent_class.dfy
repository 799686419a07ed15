/**
 * `ClassPersistence`: an instance saves a chosen subset of its attributes
 * into a fresh shelve file and loads a chosen subset back, skipping names
 * the file lacks; `TestClassPersistence` builds an instance either from
 * positional values or from such a file.  The instance's `__dict__` is the
 * map `attrs`; a name list is taken as a set, since saving or loading the
 * same name twice changes nothing.
 */
module PersistentClass {
  import opened PyValues
  import opened Storage

  // ---------------------------------------------------------------------
  // os.path.dirname

  /** The length of `p` up to and including its last slash (0 without one). */
  function HeadLength(p: string): (n: nat)
    ensures n <= |p|
    ensures n > 0 <==> '/' in p
    ensures n > 0 ==> p[n - 1] == '/'
  {
    if |p| == 0 then 0
    else if p[|p| - 1] == '/' then |p|
    else HeadLength(p[..|p| - 1])
  }

  /** `s.rstrip('/')`. */
  function RStripSlash(s: string): (r: string)
    ensures |r| <= |s| && r == s[..|r|]
    ensures |r| > 0 ==> r[|r| - 1] != '/'
    ensures (exists i :: 0 <= i < |s| && s[i] != '/') ==> |r| > 0
  {
    if |s| == 0 || s[|s| - 1] != '/' then s else RStripSlash(s[..|s| - 1])
  }

  /**
   * `os.path.dirname(p)`: everything up to the last slash, with trailing
   * slashes stripped unless it is all slashes.  A name without a slash has
   * the empty directory part, any other name a non-empty one.
   */
  function DirName(p: string): (d: string)
    ensures '/' !in p ==> d == ""
    ensures '/' in p ==> d != ""
  {
    var head := p[..HeadLength(p)];
    if |head| > 0 && exists i :: 0 <= i < |head| && head[i] != '/' then RStripSlash(head) else head
  }

  /**
   * `shelve_variables` gets past its directory check: the directory part
   * is empty or already a directory, or `os.mkdir` can create it (no
   * file of that name, and its own parent exists).
   */
  predicate CanShelve(filename: string, e: map<string, Content>, d: set<string>)
  {
    var root := DirName(filename);
    root == "" || Canon(root) in d || (Canon(root) !in e && ParentIn(d, root))
  }

  // ---------------------------------------------------------------------
  // Which names are saved or loaded

  /** The names listed by a list or tuple of strings; anything else does not serve as a name list. */
  function NamesOf(v: Value): (r: Result<set<string>>)
    ensures r.Ok? <==> (v.ListV? && forall e :: e in v.elems ==> e.StrV?) || (v.TupleV? && forall e :: e in v.items ==> e.StrV?)
    ensures r.Ok? && v.ListV? ==> forall n :: n in r.value <==> StrV(n) in v.elems
    ensures r.Ok? && v.TupleV? ==> forall n :: n in r.value <==> StrV(n) in v.items
    ensures r.Err? ==> r.error == TypeError
  {
    if v.ListV? && forall e :: e in v.elems ==> e.StrV? then Ok(set e | e in v.elems :: e.s)
    else if v.TupleV? && forall e :: e in v.items ==> e.StrV? then Ok(set e | e in v.items :: e.s)
    else Err(TypeError)
  }

  /**
   * The names to save or load: those given, else the instance's `varlist`
   * attribute, else `all` (every attribute when saving, every stored key
   * when loading).
   */
  function Chosen(given: Option<set<string>>, attrs: map<string, Value>, all: set<string>): (r: Result<set<string>>)
    ensures given.Some? ==> r == Ok(given.value)
    ensures given.None? && "varlist" in attrs ==> r == NamesOf(attrs["varlist"])
    ensures given.None? && "varlist" !in attrs ==> r == Ok(all)
  {
    match given
    case Some(names) => Ok(names)
    case None => if "varlist" in attrs then NamesOf(attrs["varlist"]) else Ok(all)
  }

  /** The store `shelve_variables` fills: the listed attributes. */
  function Stored(attrs: map<string, Value>, names: set<string>): (s: Shelf)
    requires names <= attrs.Keys
    ensures s.Keys == names
    ensures forall k :: k in s ==> s[k] == attrs[k]
  {
    map k | k in names :: attrs[k]
  }

  /** The attributes after loading `names` from `s`: each listed name the store holds is set, the rest kept. */
  function Overlay(attrs: map<string, Value>, s: Shelf, names: set<string>): (r: map<string, Value>)
    ensures forall k :: k in r <==> k in attrs || (k in names && k in s)
    ensures forall k :: k in names && k in s ==> r[k] == s[k]
    ensures forall k :: k in attrs && !(k in names && k in s) ==> r[k] == attrs[k]
  {
    map k | k in attrs.Keys + (names * s.Keys) :: if k in names && k in s then s[k] else attrs[k]
  }

  /** Loading one more name. */
  lemma OverlayStep(attrs: map<string, Value>, s: Shelf, names: set<string>, k: string)
    requires k !in names
    ensures k in s ==> Overlay(attrs, s, names)[k := s[k]] == Overlay(attrs, s, names + {k})
    ensures k !in s ==> Overlay(attrs, s, names) == Overlay(attrs, s, names + {k})
  {
    var before, after := Overlay(attrs, s, names), Overlay(attrs, s, names + {k});
    if k in s {
      assert forall n :: n in before[k := s[k]] <==> n in after;
      assert forall n :: n in after ==> before[k := s[k]][n] == after[n];
      MapExt(before[k := s[k]], after);
    } else {
      assert forall n :: n in before <==> n in after;
      assert forall n :: n in after ==> before[n] == after[n];
      MapExt(before, after);
    }
  }

  /** Loading no name keeps every attribute. */
  lemma OverlayNone(attrs: map<string, Value>, s: Shelf)
    ensures Overlay(attrs, s, {}) == attrs
  {
    assert forall n :: n in Overlay(attrs, s, {}) <==> n in attrs;
    MapExt(Overlay(attrs, s, {}), attrs);
  }

  /**
   * Saving the listed attributes of one instance and loading the same
   * names into another restores exactly those attributes; the other
   * instance's remaining attributes stay.
   */
  lemma ShelveLoadRoundTrip(a: map<string, Value>, b: map<string, Value>, names: set<string>)
    requires names <= a.Keys
    ensures forall k :: k in names ==> k in Overlay(b, Stored(a, names), names) && Overlay(b, Stored(a, names), names)[k] == a[k]
    ensures forall k :: k in Overlay(b, Stored(a, names), names) && k !in names ==> k in b && Overlay(b, Stored(a, names), names)[k] == b[k]
  {
    var s := Stored(a, names);
    forall k | k in names
      ensures k in Overlay(b, s, names) && Overlay(b, s, names)[k] == a[k]
    {
      assert k in s;
    }
  }

  /**
   * A listed name the store lacks is skipped: the attribute keeps its
   * value (or stays absent), while every other listed name the store
   * holds is loaded.
   */
  lemma MissingSkipped(attrs: map<string, Value>, s: Shelf, names: set<string>, k: string)
    requires k in names && k !in s
    ensures k in Overlay(attrs, s, names) <==> k in attrs
    ensures k in attrs ==> Overlay(attrs, s, names)[k] == attrs[k]
    ensures forall j :: j in names && j in s ==> Overlay(attrs, s, names)[j] == s[j]
  {
  }

  /**
   * What `load_variables(filename, varlist_in)` returns and the attributes
   * it leaves: an unreadable store raises with nothing changed, as does a
   * `varlist` that is not a list of names; otherwise every chosen name the
   * store holds becomes an attribute with the stored value, and a name it
   * lacks is skipped.
   */
  function LoadOutcome(attrs: map<string, Value>, given: Option<set<string>>, e: map<string, Content>, filename: string)
    : (o: (Result<()>, map<string, Value>))
    ensures ShelfAt(e, filename).Err? ==> o == (Err(DbError), attrs)
    ensures ShelfAt(e, filename).Ok? && Chosen(given, attrs, ShelfAt(e, filename).value.Keys).Err? ==> o == (Err(TypeError), attrs)
    ensures ShelfAt(e, filename).Ok? && Chosen(given, attrs, ShelfAt(e, filename).value.Keys).Ok? ==>
              o.0 == Ok(()) && o.1 == Overlay(attrs, ShelfAt(e, filename).value, Chosen(given, attrs, ShelfAt(e, filename).value.Keys).value)
  {
    match ShelfAt(e, filename)
    case Err(err) => (Err(err), attrs)
    case Ok(s) =>
      match Chosen(given, attrs, s.Keys)
      case Err(err) => (Err(err), attrs)
      case Ok(names) => (Ok(()), Overlay(attrs, s, names))
  }

  /** The `varlist` `TestClassPersistence` sets names its two variables. */
  lemma TestVarlistNames()
    ensures NamesOf(TestVarlist) == Ok({"var1", "var2"})
  {
    var names := NamesOf(TestVarlist).value;
    assert StrV("var1") in TestVarlist.elems && StrV("var2") in TestVarlist.elems;
    assert forall n :: n in names ==> n == "var1" || n == "var2";
    assert names == {"var1", "var2"};
  }

  /** The `varlist` `TestClassPersistence` sets. */
  const TestVarlist: Value := ListV([StrV("var1"), StrV("var2")])

  class Persistent {
    /** The instance's `__dict__`. */
    var attrs: map<string, Value>

    constructor(attrs: map<string, Value>)
      ensures this.attrs == attrs
    {
      this.attrs := attrs;
    }

    /**
     * Fill the freshly created store `filename` with the listed attributes,
     * one at a time: a name that is not an attribute raises KeyError, with
     * the attributes written before it kept in the store (`partial`).
     */
    method WriteNames(filename: string, names: set<string>, dir: Directory)
      returns (r: Result<()>, ghost partial: Shelf)
      modifies dir
      ensures r == if names <= attrs.Keys then Ok(()) else Err(KeyError)
      ensures r.Ok? ==> partial == Stored(attrs, names)
      ensures forall k :: k in partial ==> k in names && k in attrs && partial[k] == attrs[k]
      ensures dir.entries == old(dir.entries)[Canon(filename) := Db(partial)]
      ensures dir.dirs == old(dir.dirs)
    {
      var store: Shelf := map[];
      dir.Write(filename, Db(store));
      var todo := names;
      while todo != {}
        invariant todo <= names
        invariant forall k :: k in store <==> k in names && k !in todo
        invariant forall k :: k in store ==> k in attrs && store[k] == attrs[k]
        invariant dir.entries == old(dir.entries)[Canon(filename) := Db(store)]
        invariant dir.dirs == old(dir.dirs)
        decreases |todo|
      {
        var key :| key in todo;
        if key !in attrs {
          partial := store;
          r := Err(KeyError);
          return;
        }
        store := store[key := attrs[key]];
        todo := todo - {key};
        dir.Write(filename, Db(store));
      }
      partial := store;
      MapExt(store, Stored(attrs, names));
      r := Ok(());
    }

    /**
     * `shelve_variables(filename, varlist_in)` as written: the directory
     * part of `filename` is created when it is not a directory, which
     * fails for the empty directory part of a name in the working
     * directory; then the store is created afresh and filled.
     */
    method ShelveVariablesAsWritten(filename: string, varlistIn: Option<set<string>>, dir: Directory)
      returns (r: Result<()>)
      modifies dir
      ensures '/' !in filename ==> r == Err(OSError) && dir.entries == old(dir.entries) && dir.dirs == old(dir.dirs)
    {
      var root := DirName(filename);
      var isDir := dir.IsDir(root);
      if !isDir {
        var made := dir.MakeDir(root);
        if made.Err? {
          return made;
        }
      }
      r := FillStore(filename, varlistIn, dir);
    }

    /**
     * `shelve_variables(filename, varlist_in)`, creating the directory
     * part only when there is one: `os.mkdir` raising OSError (a
     * non-directory in the way, or a missing parent) stops it; otherwise the store is created afresh, and with the
     * names chosen it holds exactly the listed attributes.
     */
    method ShelveVariables(filename: string, varlistIn: Option<set<string>>, dir: Directory)
      returns (r: Result<()>)
      modifies dir
      ensures !CanShelve(filename, old(dir.entries), old(dir.dirs)) ==>
                r == Err(OSError) && dir.entries == old(dir.entries) && dir.dirs == old(dir.dirs)
      ensures CanShelve(filename, old(dir.entries), old(dir.dirs)) ==>
                Canon(filename) in dir.entries && dir.entries[Canon(filename)].Db?
                && (Chosen(varlistIn, attrs, attrs.Keys).Err? ==> r == Err(TypeError) && dir.entries[Canon(filename)] == Db(map[]))
                && (Chosen(varlistIn, attrs, attrs.Keys).Ok? && Chosen(varlistIn, attrs, attrs.Keys).value <= attrs.Keys ==>
                      r == Ok(()) && dir.entries[Canon(filename)] == Db(Stored(attrs, Chosen(varlistIn, attrs, attrs.Keys).value)))
                && (Chosen(varlistIn, attrs, attrs.Keys).Ok? && !(Chosen(varlistIn, attrs, attrs.Keys).value <= attrs.Keys) ==>
                      r == Err(KeyError))
    {
      var root := DirName(filename);
      var isDir := dir.IsDir(root);
      if root != "" && !isDir {
        var made := dir.MakeDir(root);
        if made.Err? {
          return made;
        }
      }
      r := FillStore(filename, varlistIn, dir);
    }

    /** `shelve.open(filename, 'n')`, the choice of names and the writing. */
    method FillStore(filename: string, varlistIn: Option<set<string>>, dir: Directory) returns (r: Result<()>)
      modifies dir
      ensures Canon(filename) in dir.entries && dir.entries[Canon(filename)].Db?
      ensures Chosen(varlistIn, attrs, attrs.Keys).Err? ==> r == Err(TypeError) && dir.entries[Canon(filename)] == Db(map[])
      ensures Chosen(varlistIn, attrs, attrs.Keys).Ok? ==>
                r == (if Chosen(varlistIn, attrs, attrs.Keys).value <= attrs.Keys then Ok(()) else Err(KeyError))
      ensures Chosen(varlistIn, attrs, attrs.Keys).Ok? && Chosen(varlistIn, attrs, attrs.Keys).value <= attrs.Keys ==>
                dir.entries[Canon(filename)] == Db(Stored(attrs, Chosen(varlistIn, attrs, attrs.Keys).value))
      ensures forall n :: n in old(dir.entries) ==> n in dir.entries
      ensures forall n :: n in dir.entries && n != Canon(filename) ==> n in old(dir.entries) && dir.entries[n] == old(dir.entries)[n]
      ensures dir.dirs == old(dir.dirs)
    {
      dir.Write(filename, Db(map[]));
      var names := Chosen(varlistIn, attrs, attrs.Keys);
      if names.Err? {
        return Err(names.error);
      }
      ghost var partial;
      r, partial := WriteNames(filename, names.value, dir);
    }

    /**
     * `load_variables(filename, varlist_in)`: an unreadable store raises;
     * otherwise every chosen name the store holds becomes an attribute
     * with the stored value, and a name it lacks is skipped.
     */
    method LoadVariables(filename: string, varlistIn: Option<set<string>>, dir: Directory) returns (r: Result<()>)
      modifies this
      ensures (r, attrs) == LoadOutcome(old(attrs), varlistIn, dir.entries, filename)
    {
      var shelf := ShelfAt(dir.entries, filename);
      if shelf.Err? {
        return Err(shelf.error);
      }
      var names := Chosen(varlistIn, attrs, shelf.value.Keys);
      if names.Err? {
        return Err(names.error);
      }
      SetNames(shelf.value, names.value);
      r := Ok(());
    }

    /** The `setattr` loop: each name in turn, skipping the ones the store lacks. */
    method SetNames(shelf: Shelf, names: set<string>)
      modifies this
      ensures attrs == Overlay(old(attrs), shelf, names)
    {
      var todo := names;
      ghost var done: set<string> := {};
      OverlayNone(attrs, shelf);
      while todo != {}
        invariant done + todo == names && done !! todo
        invariant attrs == Overlay(old(attrs), shelf, done)
        decreases |todo|
      {
        var key :| key in todo;
        OverlayStep(old(attrs), shelf, done, key);
        if key in shelf {
          attrs := attrs[key := shelf[key]];
        }
        done := done + {key};
        todo := todo - {key};
      }
    }

    /**
     * `TestClassPersistence(*args, **kwargs)`: `varlist` is set first; with
     * no positional values and a `shelve_filename` keyword the listed
     * variables are loaded from that file, otherwise `var1` and `var2` are
     * the first two positional values (IndexError when there are fewer).
     */
    method Init(args: seq<Value>, kw: KwArgs, dir: Directory) returns (r: Result<()>)
      modifies this
      ensures |args| == 0 && "shelve_filename" in Keys(kw) && KwGet(kw, "shelve_filename").value.StrV?
              && ShelfAt(dir.entries, KwGet(kw, "shelve_filename").value.s).Ok? ==>
                r == Ok(())
                && attrs == Overlay(old(attrs)["varlist" := TestVarlist],
                                    ShelfAt(dir.entries, KwGet(kw, "shelve_filename").value.s).value, {"var1", "var2"})
      ensures |args| == 0 && "shelve_filename" in Keys(kw) && KwGet(kw, "shelve_filename").value.StrV?
              && ShelfAt(dir.entries, KwGet(kw, "shelve_filename").value.s).Err? ==>
                r == Err(DbError)
      ensures !(|args| == 0 && "shelve_filename" in Keys(kw)) && |args| >= 2 ==>
                r == Ok(()) && attrs == old(attrs)["varlist" := TestVarlist]["var1" := args[0]]["var2" := args[1]]
      ensures !(|args| == 0 && "shelve_filename" in Keys(kw)) && |args| < 2 ==> r == Err(IndexError)
    {
      attrs := attrs["varlist" := TestVarlist];
      if |args| == 0 && "shelve_filename" in Keys(kw) {
        var shelveFilename := KwGet(kw, "shelve_filename").value;
        if !shelveFilename.StrV? {
          return Err(TypeError);
        }
        TestVarlistNames();
        r := LoadVariables(shelveFilename.s, None, dir);
        return;
      }
      if |args| == 0 {
        return Err(IndexError);
      }
      attrs := attrs["var1" := args[0]];
      if |args| == 1 {
        return Err(IndexError);
      }
      attrs := attrs["var2" := args[1]];
      r := Ok(());
    }
  }

  /**
   * The doctest's first half for a store in the working directory, as
   * written: an instance built from two values cannot shelve them there.
   */
  method ShelveHereAsWritten(x: Value, y: Value, filename: string, e0: map<string, Content>, d0: set<string>)
    returns (r: Result<()>)
    requires '/' !in filename
    ensures r == Err(OSError)
  {
    var dir := new Directory(e0, d0);
    var test := new Persistent(map[]);
    var _ := test.Init([x, y], [], dir);
    r := test.ShelveVariablesAsWritten(filename, None, dir);
  }

  /**
   * The doctest's round trip: shelve an instance built from two values,
   * then build a second instance from the store; it gets both values back.
   */
  method DoctestRoundTrip(x: Value, y: Value, filename: string, e0: map<string, Content>, d0: set<string>)
    returns (second: map<string, Value>)
    requires CanShelve(filename, e0, d0)
    ensures second == map["varlist" := TestVarlist, "var1" := x, "var2" := y]
  {
    var dir := new Directory(e0, d0);
    var test := new Persistent(map[]);
    var _ := test.Init([x, y], [], dir);
    ghost var a := map["varlist" := TestVarlist, "var1" := x, "var2" := y];
    assert test.attrs == a;
    TestVarlistNames();
    assert Chosen(None, a, a.Keys) == Ok({"var1", "var2"});
    var _ := test.ShelveVariables(filename, None, dir);
    ghost var s := Stored(a, {"var1", "var2"});
    assert ShelfAt(dir.entries, filename) == Ok(s);
    second := LoadBack(filename, dir);
    ShelveLoadRoundTrip(a, map["varlist" := TestVarlist], {"var1", "var2"});
    assert forall k :: k in second <==> k in a;
    MapExt(second, a);
  }

  /**
   * `TestClassPersistence(shelve_filename=filename)`: a fresh instance whose
   * `var1` and `var2` come from the store, when it holds them.
   */
  method LoadBack(filename: string, dir: Directory) returns (loaded: map<string, Value>)
    ensures ShelfAt(dir.entries, filename).Ok? ==>
              loaded == Overlay(map["varlist" := TestVarlist], ShelfAt(dir.entries, filename).value, {"var1", "var2"})
  {
    var test := new Persistent(map[]);
    assert KwGet([("shelve_filename", StrV(filename))], "shelve_filename") == Ok(StrV(filename));
    var _ := test.Init([], [("shelve_filename", StrV(filename))], dir);
    assert map[]["varlist" := TestVarlist] == map["varlist" := TestVarlist];
    loaded := test.attrs;
  }

  /**
   * The doctest's second half: after shelving only `var1` to the same
   * file, an instance built from it has `var1` and no `var2`.
   */
  method DoctestPartial(x: Value, y: Value, filename: string, e0: map<string, Content>, d0: set<string>)
    returns (third: map<string, Value>)
    requires CanShelve(filename, e0, d0)
    ensures "var1" in third && third["var1"] == x && "var2" !in third
  {
    var dir := new Directory(e0, d0);
    var test := new Persistent(map[]);
    var _ := test.Init([x, y], [], dir);
    ghost var a := map["varlist" := TestVarlist, "var1" := x, "var2" := y];
    assert test.attrs == a;
    var _ := test.ShelveVariables(filename, Some({"var1"}), dir);
    ghost var s := Stored(a, {"var1"});
    assert ShelfAt(dir.entries, filename) == Ok(s);
    third := LoadBack(filename, dir);
    MissingSkipped(map["varlist" := TestVarlist], s, {"var1", "var2"}, "var2");
  }
}
