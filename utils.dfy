/**
 * Shared helpers: timing decorators, the argument printer, and the
 * free-standing wrapper that resolves a dotted function name, runs the call
 * and saves its record for `MemoizeBatch`.
 */
module Utils {
  import opened PyValues
  import opened Strings
  import opened Storage
  import opened MemoizeBatch

  // ---------------------------------------------------------------------
  // log_timing / log_timing_func

  /** A Python function as the decorators see it: name, docstring and behaviour (a value or an exception). */
  datatype PyFunction = PyFunction(name: string, doc: string, body: (seq<Value>, KwArgs) -> Result<Value>)

  /**
   * `log_timing(f)`: a wrapper that reports the elapsed time and returns f's
   * result, with f's name and docstring; an exception from f propagates.
   */
  function LogTiming(f: PyFunction): (w: PyFunction)
    ensures w.name == f.name && w.doc == f.doc
    ensures forall args, kw :: w.body(args, kw) == f.body(args, kw)
  {
    PyFunction(f.name, f.doc, (args, kw) => f.body(args, kw))
  }

  /** `log_timing_func()`: the decorator generator; the decorator it returns behaves as `log_timing`. */
  function LogTimingFunc(): (decorator: PyFunction -> PyFunction)
    ensures forall f :: decorator(f).name == f.name && decorator(f).doc == f.doc
    ensures forall f, args, kw :: decorator(f).body(args, kw) == f.body(args, kw)
  {
    f => LogTiming(f)
  }

  // ---------------------------------------------------------------------
  // short_repr

  /** `if maxlen:` -- None and zero are false. */
  predicate Truthy(maxlen: Option<int>)
  {
    maxlen.Some? && maxlen.value != 0
  }

  /**
   * `short_repr(input_var, maxlen)` as written, given `text == repr(input_var)`:
   * the length test reads the misspelt name `rep_rout`, so any true maxlen
   * raises NameError.
   */
  function ShortReprAsWritten(text: string, maxlen: Option<int>): (r: Result<string>)
    ensures r.Err? <==> Truthy(maxlen)
    ensures r.Err? ==> r.error == NameError
    ensures r.Ok? ==> r.value == text && r.value == ShortRepr(text, maxlen)
  {
    if Truthy(maxlen) then Err(NameError) else Ok(text)
  }

  /**
   * `short_repr` as intended: the repr, or `"BIG_ARG"` when a maximum is given
   * and the repr is longer; the output never exceeds a maximum of at least
   * seven characters.
   */
  function ShortRepr(text: string, maxlen: Option<int>): (r: string)
    ensures r == text || r == "BIG_ARG"
    ensures !Truthy(maxlen) ==> r == text
    ensures Truthy(maxlen) && |text| > maxlen.value ==> r == "BIG_ARG"
    ensures Truthy(maxlen) && |text| <= maxlen.value ==> r == text
    ensures Truthy(maxlen) && maxlen.value >= |"BIG_ARG"| ==> |r| <= maxlen.value
  {
    if Truthy(maxlen) && |text| > maxlen.value then "BIG_ARG" else text
  }

  // ---------------------------------------------------------------------
  // print_call

  /** The `k=repr` items, in the dictionary's order. */
  function KwItems(repr: Value -> string, kw: KwArgs): (items: seq<string>)
    ensures |items| == |kw|
    ensures forall i :: 0 <= i < |kw| ==> items[i] == kw[i].0 + "=" + repr(kw[i].1)
  {
    seq(|kw|, i requires 0 <= i < |kw| => kw[i].0 + "=" + ShortRepr(repr(kw[i].1), None))
  }

  function ArgItems(repr: Value -> string, args: seq<Value>): (items: seq<string>)
    ensures |items| == |args|
    ensures forall i :: 0 <= i < |args| ==> items[i] == repr(args[i])
  {
    seq(|args|, i requires 0 <= i < |args| => ShortRepr(repr(args[i]), None))
  }

  /**
   * `print_call(args_package)`: the printed line
   * `funcname(args, kwargs) -> filename` and the file name it returns, which
   * is the file the batch saves the call's result in.
   */
  function PrintCall(p: ArgsPackage, repr: Value -> string): (r: (string, string))
    ensures r.1 == ResultFile(p)
    ensures p.funcname + "(" <= r.0
    ensures EndsWith(r.0, ") -> " + r.1)
  {
    var filename := CollapseSlashes(p.directory + "/" + p.identifier + ".shelve");
    var line := p.funcname + "(" + JoinStr(ArgItems(repr, p.args), ", ") + ", "
                + JoinStr(KwItems(repr, p.kwargs), ", ") + ") -> " + filename;
    assert line[..|p.funcname| + 1] == p.funcname + "(";
    assert line[|line| - |") -> " + filename|..] == ") -> " + filename;
    (line, filename)
  }

  /** Adding a keyword argument adds one more `, k=repr` item at the end of the keyword text. */
  lemma KwStringAppend(repr: Value -> string, kw: KwArgs, k: string, v: Value)
    ensures JoinStr(KwItems(repr, kw + [(k, v)]), ", ")
            == if |kw| == 0 then k + "=" + repr(v) else JoinStr(KwItems(repr, kw), ", ") + ", " + k + "=" + repr(v)
  {
    assert KwItems(repr, kw + [(k, v)]) == KwItems(repr, kw) + [k + "=" + repr(v)];
    JoinStrAppend(KwItems(repr, kw), k + "=" + repr(v), ", ");
    if |kw| > 0 {
      AppendAssoc(JoinStr(KwItems(repr, kw), ", ") + ", ", k + "=", repr(v));
    }
  }

  // ---------------------------------------------------------------------
  // function_wrapper

  /** What a dotted name can reach: a module with attributes, or a function. */
  datatype PyObj = ModuleObj(attrs: map<string, PyObj>) | FunctionObj(id: string)

  /** `getattr(o, name)`. */
  function GetAttr(o: PyObj, name: string): (r: Result<PyObj>)
    ensures r.Ok? <==> o.ModuleObj? && name in o.attrs
    ensures r.Err? ==> r.error == AttributeError
  {
    if o.ModuleObj? && name in o.attrs then Ok(o.attrs[name]) else Err(AttributeError)
  }

  /** Follow attribute names one after the other. */
  function Walk(o: PyObj, names: seq<string>): Result<PyObj>
  {
    if |names| == 0 then Ok(o)
    else match GetAttr(o, names[0])
      case Ok(c) => Walk(c, names[1..])
      case Err(err) => Err(err)
  }

  /** Every prefix of `names` leads to a module. */
  predicate ModulePath(o: PyObj, names: seq<string>)
  {
    o.ModuleObj? && (|names| > 0 ==> names[0] in o.attrs && ModulePath(o.attrs[names[0]], names[1..]))
  }

  /** `__import__` succeeds on the dotted module path `names`. */
  predicate Importable(packages: map<string, PyObj>, names: seq<string>)
  {
    |names| > 0 && names[0] in packages && ModulePath(packages[names[0]], names[1..])
  }

  /** Walking a module path succeeds and ends at a module. */
  lemma {:induction false} WalkModulePath(o: PyObj, names: seq<string>)
    requires ModulePath(o, names)
    ensures Walk(o, names).Ok? && Walk(o, names).value.ModuleObj?
  {
    if |names| > 0 {
      WalkModulePath(o.attrs[names[0]], names[1..]);
    }
  }

  /** Walking a path is walking its front and then its last name. */
  lemma {:induction false} WalkAppend(o: PyObj, names: seq<string>, last: string)
    ensures Walk(o, names + [last]) == match Walk(o, names) case Ok(m) => GetAttr(m, last) case Err(err) => Err(err)
  {
    if |names| > 0 {
      assert (names + [last])[1..] == names[1..] + [last];
      match GetAttr(o, names[0])
      case Ok(c) => WalkAppend(c, names[1..], last);
      case Err(_) =>
    } else {
      assert [last][1..] == [];
    }
  }

  /**
   * How `function_wrapper` finds the function a dotted name denotes: with
   * more than one component, import the module path of all but the last
   * (ImportError when it is missing), walk from the top package through the
   * middle components, and take the last one as an attribute; a single
   * name is looked up among the globals (KeyError when absent).
   */
  function Resolve(funcname: string, packages: map<string, PyObj>, globals: map<string, PyObj>): Result<PyObj>
  {
    var parts := Split(funcname, '.');
    if |parts| > 1 then
      if !Importable(packages, parts[..|parts| - 1]) then Err(ImportError)
      else Walk(packages[parts[0]], parts[1..])
    else if parts[0] in globals then Ok(globals[parts[0]])
    else Err(KeyError)
  }

  /**
   * Once the module path imports, resolution can only fail at the last
   * name, and then with AttributeError: the function is the attribute of
   * the innermost module.
   */
  lemma ResolveDotted(funcname: string, packages: map<string, PyObj>, globals: map<string, PyObj>)
    requires |Split(funcname, '.')| > 1
    requires Importable(packages, Split(funcname, '.')[..|Split(funcname, '.')| - 1])
    ensures Walk(packages[Split(funcname, '.')[0]], Split(funcname, '.')[1..|Split(funcname, '.')| - 1]).Ok?
    ensures Resolve(funcname, packages, globals)
            == GetAttr(Walk(packages[Split(funcname, '.')[0]], Split(funcname, '.')[1..|Split(funcname, '.')| - 1]).value,
                       Split(funcname, '.')[|Split(funcname, '.')| - 1])
  {
    var parts := Split(funcname, '.');
    var n := |parts|;
    var front := parts[..n - 1];
    assert front[1..] == parts[1..n - 1];
    WalkModulePath(packages[parts[0]], parts[1..n - 1]);
    assert parts[1..] == parts[1..n - 1] + [parts[n - 1]];
    WalkAppend(packages[parts[0]], parts[1..n - 1], parts[n - 1]);
  }

  /**
   * The lookup itself: import, then rebind `mod` through the middle
   * components, then take the last component.
   */
  method LookupFunction(funcname: string, packages: map<string, PyObj>, globals: map<string, PyObj>)
    returns (r: Result<PyObj>)
    ensures r == Resolve(funcname, packages, globals)
  {
    var funcsplit := Split(funcname, '.');
    var n := |funcsplit|;
    if n > 1 {
      if !Importable(packages, funcsplit[..n - 1]) {
        return Err(ImportError);
      }
      var mod := packages[funcsplit[0]];
      var i := 1;
      while i < n - 1
        invariant 1 <= i <= n - 1
        invariant Walk(packages[funcsplit[0]], funcsplit[1..i]) == Ok(mod)
        invariant ModulePath(mod, funcsplit[i..n - 1])
      {
        WalkAppend(packages[funcsplit[0]], funcsplit[1..i], funcsplit[i]);
        assert funcsplit[1..i + 1] == funcsplit[1..i] + [funcsplit[i]];
        assert funcsplit[i..n - 1][1..] == funcsplit[i + 1..n - 1];
        mod := mod.attrs[funcsplit[i]];
        i := i + 1;
      }
      WalkAppend(packages[funcsplit[0]], funcsplit[1..n - 1], funcsplit[n - 1]);
      assert funcsplit[1..] == funcsplit[1..n - 1] + [funcsplit[n - 1]];
      r := GetAttr(mod, funcsplit[n - 1]);
    } else {
      if funcsplit[0] in globals {
        r := Ok(globals[funcsplit[0]]);
      } else {
        r := Err(KeyError);
      }
    }
  }

  /** The record `function_wrapper` saves: as `_function_wrapper`'s, with the identifier under "signature". */
  function SignatureRecord(p: ArgsPackage, result: Value): (s: Shelf)
    ensures s.Keys == {"signature", "filename", "funcname", "args", "kwargs", "result"}
    ensures forall k :: k in s && k != "signature" ==> s[k] == BatchRecord(p, result)[k]
    ensures s["signature"] == BatchRecord(p, result)["identifier"]
  {
    map["signature" := StrV(p.identifier), "filename" := StrV(ResultFile(p)),
        "funcname" := StrV(p.funcname), "args" := TupleV(p.args),
        "kwargs" := DictV(KwDict(p.kwargs)), "result" := result]
  }

  /**
   * `function_wrapper(args_package)`: resolve the function, call it (a
   * non-function is a TypeError), save the record in the file `print_call`
   * names and return the identifier.  `call` runs a function object; an
   * exception it raises propagates before anything is written.
   */
  method FunctionWrapper(p: ArgsPackage, packages: map<string, PyObj>, globals: map<string, PyObj>,
                         call: (string, seq<Value>, KwArgs) -> Result<Value>, repr: Value -> string, dir: Directory)
    returns (r: Result<string>)
    modifies dir
    ensures Resolve(p.funcname, packages, globals).Err? ==>
              r == Err(Resolve(p.funcname, packages, globals).error) && dir.entries == old(dir.entries)
    ensures Resolve(p.funcname, packages, globals).Ok? && !Resolve(p.funcname, packages, globals).value.FunctionObj? ==>
              r == Err(TypeError) && dir.entries == old(dir.entries)
    ensures Resolve(p.funcname, packages, globals).Ok? && Resolve(p.funcname, packages, globals).value.FunctionObj? ==>
              var res := call(Resolve(p.funcname, packages, globals).value.id, p.args, p.kwargs);
              (res.Ok? ==> r == Ok(p.identifier)
                           && dir.entries == old(dir.entries)[Canon(ResultFile(p)) := Db(SignatureRecord(p, res.value))])
              && (res.Err? ==> r == Err(res.error) && dir.entries == old(dir.entries))
    ensures dir.dirs == old(dir.dirs)
  {
    var filename := PrintCall(p, repr).1;
    var funcattr := LookupFunction(p.funcname, packages, globals);
    if funcattr.Err? {
      return Err(funcattr.error);
    }
    if !funcattr.value.FunctionObj? {
      return Err(TypeError);
    }
    var result := call(funcattr.value.id, p.args, p.kwargs);
    if result.Err? {
      return Err(result.error);
    }
    dir.Write(filename, Db(SignatureRecord(p, result.value)));
    r := Ok(p.identifier);
  }
}
