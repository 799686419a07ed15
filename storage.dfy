/**
 * The file system as the tools see it: a directory of named files, each
 * either an empty marker, a text file, a shelve database or an HDF5 file,
 * plus a set of sub-directory names.  POSIX treats a run of slashes in a
 * path as one slash, so every operation looks a file up under its
 * slash-collapsed name.
 */
module Storage {
  import opened PyValues
  import opened Strings

  /** The records a `shelve` database holds. */
  type Shelf = map<string, Value>

  datatype Content =
    | Marker
    | Text(text: string)
    | Db(shelf: Shelf)
    | H5(tree: Tree)

  /** The name under which the operating system finds a path. */
  function Canon(name: string): (r: string)
    ensures NoDoubleSlash(r)
  {
    CollapseSlashes(name)
  }

  /** Every file is stored under its own canonical name. */
  predicate Canonical(e: map<string, Content>)
  {
    forall n :: n in e ==> Canon(n) == n
  }

  /** Storing under a canonical name keeps the directory canonical. */
  lemma CanonicalUpdate(e: map<string, Content>, name: string, c: Content)
    requires Canonical(e)
    ensures Canonical(e[Canon(name) := c])
  {
    CollapseIdempotent(name);
  }

  /** `shelve.open(name, "r")`: the record map, or the dbm error when the file is missing or not a database. */
  function ShelfAt(e: map<string, Content>, name: string): (r: Result<Shelf>)
    ensures r.Ok? <==> Canon(name) in e && e[Canon(name)].Db?
    ensures r.Ok? ==> e[Canon(name)] == Db(r.value)
    ensures r.Err? ==> r.error == DbError
  {
    if Canon(name) in e && e[Canon(name)].Db? then Ok(e[Canon(name)].shelf) else Err(DbError)
  }

  /** `shelf[key]`, failing with KeyError. */
  function Lookup(s: Shelf, key: string): (r: Result<Value>)
    ensures r.Ok? <==> key in s
    ensures r.Ok? ==> r.value == s[key]
    ensures r.Err? ==> r.error == KeyError
  {
    if key in s then Ok(s[key]) else Err(KeyError)
  }

  /** A glob `*` component: non-empty, no slash, not a hidden name. */
  predicate Stem(b: string)
  {
    |b| > 0 && b[0] != '.' && '/' !in b
  }

  /** `n` is `prefix + stem + ext` for some stem a glob `*` matches. */
  predicate Matches(n: string, prefix: string, ext: string)
  {
    |prefix| + |ext| < |n| && n[..|prefix|] == prefix && EndsWith(n, ext)
    && Stem(n[|prefix|..|n| - |ext|])
  }

  /**
   * `glob.glob(prefix + "*" + ext)`: the files directly in the directory
   * `prefix` (written with its trailing slash, or empty for the working
   * directory) whose names end in `ext`.
   */
  function Glob(e: map<string, Content>, prefix: string, ext: string): (r: set<string>)
    ensures forall n :: n in r <==> n in e && Matches(n, prefix, ext)
  {
    set n | n in e && Matches(n, prefix, ext)
  }

  lemma MatchesBuilt(prefix: string, b: string, ext: string)
    requires Stem(b)
    ensures Matches(prefix + b + ext, prefix, ext)
  {
    var n := prefix + b + ext;
    assert n[..|prefix|] == prefix;
    assert n[|n| - |ext|..] == ext;
    assert n[|prefix|..|n| - |ext|] == b;
  }

  /**
   * The directory `os.mkdir(d)` creates `d` in exists: the part of the
   * canonical name before its last slash (a trailing slash ignored) is a
   * known sub-directory, or there is no such part and the parent is the
   * working directory or the root, which always exist.
   */
  predicate ParentIn(dirs: set<string>, d: string)
  {
    var c := Canon(d);
    var s := if |c| > 0 && c[|c| - 1] == '/' then c[..|c| - 1] else c;
    var k := RFind(s, '/');
    k <= 0 || s[..k] in dirs
  }

  class Directory {
    /** The files, by canonical name. */
    var entries: map<string, Content>
    /** The sub-directories, by canonical name. */
    var dirs: set<string>

    constructor(e: map<string, Content>, d: set<string>)
      ensures entries == e && dirs == d
    {
      entries := e;
      dirs := d;
    }

    /** Create or truncate a file with the given content (`open(name, "w")`, `shelve.open(name, "n")`). */
    method Write(name: string, c: Content)
      modifies this
      ensures entries == old(entries)[Canon(name) := c]
      ensures dirs == old(dirs)
    {
      entries := entries[Canon(name) := c];
    }

    /** `os.remove`: OSError when there is no such file. */
    method Remove(name: string) returns (r: Result<()>)
      modifies this
      ensures r == if Canon(name) in old(entries) then Ok(()) else Err(OSError)
      ensures entries == old(entries) - {Canon(name)}
      ensures dirs == old(dirs)
    {
      if Canon(name) in entries {
        entries := entries - {Canon(name)};
        r := Ok(());
      } else {
        r := Err(OSError);
      }
    }

    /** `os.rename`: the file moves, replacing any file at the target; OSError when the source is missing. */
    method Rename(src: string, dst: string) returns (r: Result<()>)
      modifies this
      ensures r == if Canon(src) in old(entries) then Ok(()) else Err(OSError)
      ensures r.Err? ==> entries == old(entries)
      ensures r.Ok? ==> entries == (old(entries) - {Canon(src)})[Canon(dst) := old(entries)[Canon(src)]]
      ensures dirs == old(dirs)
    {
      if Canon(src) in entries {
        var c := entries[Canon(src)];
        entries := (entries - {Canon(src)})[Canon(dst) := c];
        r := Ok(());
      } else {
        r := Err(OSError);
      }
    }

    /** `os.path.isdir`. */
    function IsDir(d: string): (b: bool)
      reads this
      ensures b ==> d != ""
    {
      d != "" && Canon(d) in dirs
    }

    /** `os.mkdir`: OSError for the empty name, a name already in use, or a missing parent directory. */
    method MakeDir(d: string) returns (r: Result<()>)
      modifies this
      ensures r == if d != "" && Canon(d) !in old(dirs) && Canon(d) !in old(entries) && ParentIn(old(dirs), d)
                   then Ok(()) else Err(OSError)
      ensures r.Err? ==> dirs == old(dirs)
      ensures r.Ok? ==> dirs == old(dirs) + {Canon(d)}
      ensures entries == old(entries)
    {
      if d != "" && Canon(d) !in dirs && Canon(d) !in entries && ParentIn(dirs, d) {
        dirs := dirs + {Canon(d)};
        r := Ok(());
      } else {
        r := Err(OSError);
      }
    }
  }
}
