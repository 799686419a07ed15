/**
 * `MemoizeBatch`: in generate mode each `execute` call is stacked as an
 * argument package; `multiprocess_stack` runs the stack and saves every
 * result in a shelve file named by the call's identifier; in read mode
 * `execute` returns the saved result.
 */
module MemoizeBatch {
  import opened PyValues
  import opened Strings
  import opened Storage
  import opened CallIdentity

  /** `(identifier, directory, funcname, args, kwargs)`. */
  datatype ArgsPackage = ArgsPackage(identifier: string, directory: string, funcname: string,
                                     args: seq<Value>, kwargs: KwArgs)

  /** `utils.func_exec(funcname, args, kwargs)`: the named function applied to the arguments; it returns or raises. */
  type Exec = (string, seq<Value>, KwArgs) -> Result<Value>

  function Run(exec: Exec, p: ArgsPackage): Result<Value>
  {
    exec(p.funcname, p.args, p.kwargs)
  }

  /** The shelve file a package's result goes to. */
  function ResultFile(p: ArgsPackage): (f: string)
    ensures NoDoubleSlash(f)
  {
    ShelveName(p.directory, p.identifier)
  }

  /** The record `_function_wrapper` saves. */
  function BatchRecord(p: ArgsPackage, result: Value): (s: Shelf)
    ensures s.Keys == {"identifier", "filename", "funcname", "args", "kwargs", "result"}
    ensures s["identifier"] == StrV(p.identifier) && s["filename"] == StrV(ResultFile(p))
    ensures s["args"] == TupleV(p.args) && s["kwargs"] == DictV(KwDict(p.kwargs))
    ensures s["result"] == result
  {
    map["identifier" := StrV(p.identifier), "filename" := StrV(ResultFile(p)),
        "funcname" := StrV(p.funcname), "args" := TupleV(p.args),
        "kwargs" := DictV(KwDict(p.kwargs)), "result" := result]
  }

  /**
   * `_function_wrapper(args_package)`: run the call, save its record, return
   * the identifier.  An exception from the call propagates before anything
   * is written.
   */
  method FunctionWrapper(p: ArgsPackage, exec: Exec, dir: Directory) returns (r: Result<string>)
    modifies dir
    ensures Run(exec, p).Ok? ==>
              r == Ok(p.identifier) && dir.entries == old(dir.entries)[Canon(ResultFile(p)) := Saved(p, exec)]
    ensures Run(exec, p).Err? ==> r == Err(Run(exec, p).error) && dir.entries == old(dir.entries)
    ensures dir.dirs == old(dir.dirs)
  {
    var filename := ShelveName(p.directory, p.identifier);
    var result := exec(p.funcname, p.args, p.kwargs);
    if result.Err? {
      return Err(result.error);
    }
    dir.Write(filename, Db(BatchRecord(p, result.value)));
    r := Ok(p.identifier);
  }

  /** The content `_function_wrapper` leaves in the result file of a package whose call returned. */
  function Saved(p: ArgsPackage, exec: Exec): Content
    requires Run(exec, p).Ok?
  {
    Db(BatchRecord(p, Run(exec, p).value))
  }

  /** Every package of the stack returns. */
  predicate AllReturn(stack: seq<ArgsPackage>, exec: Exec)
  {
    forall i :: 0 <= i < |stack| ==> Run(exec, stack[i]).Ok?
  }

  /** The position of the first package whose call raises, or the length when none does. */
  function FirstFail(stack: seq<ArgsPackage>, exec: Exec): (k: nat)
    ensures k <= |stack|
    ensures k < |stack| ==> Run(exec, stack[k]).Err?
    ensures AllReturn(stack[..k], exec)
  {
    if |stack| == 0 || Run(exec, stack[0]).Err? then 0
    else
      var k := 1 + FirstFail(stack[1..], exec);
      assert forall i :: 1 <= i < k ==> stack[..k][i] == stack[1..][..k - 1][i - 1];
      k
  }

  /**
   * Before the first raising package every call returns: the package at a
   * position up to that one raises exactly when it is that one, and the
   * packages up to a returning one all return.
   */
  lemma FirstFailStep(stack: seq<ArgsPackage>, exec: Exec, i: nat)
    requires i < |stack| && i <= FirstFail(stack, exec)
    ensures Run(exec, stack[i]).Err? <==> FirstFail(stack, exec) == i
    ensures Run(exec, stack[i]).Ok? ==> AllReturn(stack[..i + 1], exec)
  {
    var k := FirstFail(stack, exec);
    if i < k {
      var done, upto := stack[..k], stack[..i + 1];
      assert done[i] == stack[i];
      forall j | 0 <= j < |upto|
        ensures Run(exec, upto[j]).Ok?
      {
        assert upto[j] == done[j];
      }
    }
  }

  /** The directory after a file was written for each package of `stack` in order, `save` giving its content. */
  function WriteEach(e: map<string, Content>, stack: seq<ArgsPackage>, save: ArgsPackage --> Content): map<string, Content>
    requires forall i :: 0 <= i < |stack| ==> save.requires(stack[i])
  {
    if |stack| == 0 then e
    else WriteEach(e, stack[..|stack| - 1], save)[Canon(ResultFile(stack[|stack| - 1])) := save(stack[|stack| - 1])]
  }

  function SaveWith(exec: Exec): (save: ArgsPackage --> Content)
    ensures forall p :: Run(exec, p).Ok? ==> save.requires(p)
  {
    p requires Run(exec, p).Ok? => Saved(p, exec)
  }

  /** The directory after the packages of `stack`, all of which return, ran in order. */
  function WriteAll(e: map<string, Content>, stack: seq<ArgsPackage>, exec: Exec): map<string, Content>
    requires AllReturn(stack, exec)
  {
    WriteEach(e, stack, SaveWith(exec))
  }

  function Identifiers(stack: seq<ArgsPackage>): (ids: seq<string>)
    ensures |ids| == |stack| && forall i :: 0 <= i < |stack| ==> ids[i] == stack[i].identifier
  {
    seq(|stack|, i requires 0 <= i < |stack| => stack[i].identifier)
  }

  /** Running one more package of the stack: its identifier follows, and its record is written last. */
  lemma RunStep(e: map<string, Content>, stack: seq<ArgsPackage>, i: nat, exec: Exec)
    requires i < |stack| && AllReturn(stack[..i + 1], exec)
    ensures Identifiers(stack[..i + 1]) == Identifiers(stack[..i]) + [stack[i].identifier]
    ensures WriteAll(e, stack[..i + 1], exec)
         == WriteAll(e, stack[..i], exec)[Canon(ResultFile(stack[i])) := Saved(stack[i], exec)]
  {
    assert stack[..i + 1][..i] == stack[..i];
    assert stack[..i + 1][i] == stack[i];
  }

  /** Reading a result back: the dbm error for a missing file, KeyError for a record without a result. */
  function ReadResult(e: map<string, Content>, filename: string): (r: Result<Value>)
    ensures r.Ok? <==> ShelfAt(e, filename).Ok? && "result" in ShelfAt(e, filename).value
    ensures r.Ok? ==> r.value == ShelfAt(e, filename).value["result"]
    ensures r.Err? ==> r.error == (if ShelfAt(e, filename).Ok? then KeyError else DbError)
  {
    match ShelfAt(e, filename)
    case Ok(s) => Lookup(s, "result")
    case Err(err) => Err(err)
  }

  /**
   * A package whose result file no later package rewrites can be read back
   * after the stack ran, and holds its own function's result.
   */
  lemma ReadAfterRun(e: map<string, Content>, stack: seq<ArgsPackage>, exec: Exec, i: nat)
    requires i < |stack| && AllReturn(stack, exec)
    requires forall j :: i < j < |stack| ==> Canon(ResultFile(stack[j])) != Canon(ResultFile(stack[i]))
    ensures ReadResult(WriteAll(e, stack, exec), ResultFile(stack[i])) == Run(exec, stack[i])
  {
    StoredAfterRun(e, stack, exec, i);
    assert ShelfAt(WriteAll(e, stack, exec), ResultFile(stack[i])) == Ok(BatchRecord(stack[i], Run(exec, stack[i]).value));
  }

  /** The result file of such a package holds its record after the stack ran. */
  lemma StoredAfterRun(e: map<string, Content>, stack: seq<ArgsPackage>, exec: Exec, i: nat)
    requires i < |stack| && AllReturn(stack, exec)
    requires forall j :: i < j < |stack| ==> Canon(ResultFile(stack[j])) != Canon(ResultFile(stack[i]))
    ensures Canon(ResultFile(stack[i])) in WriteAll(e, stack, exec)
    ensures WriteAll(e, stack, exec)[Canon(ResultFile(stack[i]))] == Saved(stack[i], exec)
  {
    LastWriteKept(e, stack, SaveWith(exec), i);
  }

  /** A file that no later package rewrites keeps what its own package wrote. */
  lemma {:induction false} LastWriteKept(e: map<string, Content>, stack: seq<ArgsPackage>, save: ArgsPackage --> Content, i: nat)
    requires i < |stack| && forall j :: 0 <= j < |stack| ==> save.requires(stack[j])
    requires forall j :: i < j < |stack| ==> Canon(ResultFile(stack[j])) != Canon(ResultFile(stack[i]))
    ensures Canon(ResultFile(stack[i])) in WriteEach(e, stack, save)
    ensures WriteEach(e, stack, save)[Canon(ResultFile(stack[i]))] == save(stack[i])
  {
    var n := |stack| - 1;
    var init := stack[..n];
    if i < n {
      assert init[i] == stack[i];
      forall j | i < j < |init|
        ensures Canon(ResultFile(init[j])) != Canon(ResultFile(init[i]))
      {
        assert init[j] == stack[j];
      }
      LastWriteKept(e, init, save, i);
    }
  }

  /**
   * The keyword arguments that are hashed: a copy in which an `inifile`
   * keyword's file name is replaced by the text of that file.  `files`
   * holds the text of the readable files; a missing file is an IOError and
   * a file name that is not a string a TypeError.
   */
  function HashedKwargs(kw: KwArgs, files: map<string, string>): (r: Result<KwArgs>)
    ensures "inifile" !in Keys(kw) ==> r == Ok(kw)
    ensures r.Ok? ==> |r.value| == |kw| && forall i :: 0 <= i < |kw| ==>
              r.value[i].0 == kw[i].0 && (kw[i].0 != "inifile" ==> r.value[i] == kw[i])
    ensures r.Ok? && "inifile" in Keys(kw) ==>
              KwGet(kw, "inifile").value.StrV? && KwGet(kw, "inifile").value.s in files
              && KwGet(r.value, "inifile") == Ok(StrV(files[KwGet(kw, "inifile").value.s]))
    ensures r.Err? ==> ("inifile" in Keys(kw)
                        && r.error == (if KwGet(kw, "inifile").value.StrV? then IOError else TypeError))
  {
    if "inifile" in Keys(kw) then
      match KwGet(kw, "inifile").value
      case StrV(path) =>
        if path in files then
          var r := KwSet(kw, "inifile", StrV(files[path]));
          KwSetGet(kw, "inifile", StrV(files[path]));
          Ok(r)
        else Err(IOError)
      case _ => Err(TypeError)
    else Ok(kw)
  }

  /** After `kw[name] = v` on a present keyword, reading it gives `v`. */
  lemma KwSetGet(kw: KwArgs, name: string, v: Value)
    requires name in Keys(kw)
    ensures KwGet(KwSet(kw, name, v), name) == Ok(v)
  {
    var r := KwSet(kw, name, v);
    var i :| 0 <= i < |kw| && kw[i].0 == name;
    assert r[i].0 == name;
    assert name in Keys(r);
    var j :| 0 <= j < |r| && r[j] == (name, KwGet(r, name).value);
  }

  /** The identifier of a call in a batch, once its hashed keywords are known. */
  function BatchIdentifier(digest: CallKey -> string, funcname: string, args: seq<Value>,
                           kw: KwArgs, files: map<string, string>): string
    requires HashedKwargs(kw, files).Ok?
  {
    Identifier(digest, funcname, args, HashedKwargs(kw, files).value)
  }

  class Batch {
    const funcname: string
    const directory: string
    const generate: bool
    var callStack: seq<ArgsPackage>

    constructor(funcname: string, directory: string, generate: bool)
      ensures this.funcname == funcname && this.directory == directory && this.generate == generate
      ensures callStack == []
    {
      this.funcname := funcname;
      this.directory := directory;
      this.generate := generate;
      callStack := [];
    }

    function PackageOf(digest: CallKey -> string, args: seq<Value>, kw: KwArgs, files: map<string, string>): ArgsPackage
      requires HashedKwargs(kw, files).Ok?
    {
      ArgsPackage(BatchIdentifier(digest, funcname, args, kw, files), directory, funcname, args, kw)
    }

    /**
     * `execute(*args, **kwargs)`.  Generate mode stacks exactly one package,
     * carrying the original keywords, and returns the identifier; read mode
     * leaves the stack alone and returns the saved result.
     */
    method Execute(args: seq<Value>, kw: KwArgs, digest: CallKey -> string,
                   files: map<string, string>, dir: Directory) returns (r: Result<Value>)
      modifies this
      ensures HashedKwargs(kw, files).Err? ==>
                r == Err(HashedKwargs(kw, files).error) && callStack == old(callStack)
      ensures HashedKwargs(kw, files).Ok? && generate ==>
                r == Ok(StrV(BatchIdentifier(digest, funcname, args, kw, files)))
                && callStack == old(callStack) + [PackageOf(digest, args, kw, files)]
      ensures HashedKwargs(kw, files).Ok? && !generate ==>
                r == ReadResult(dir.entries, ShelveName(directory, BatchIdentifier(digest, funcname, args, kw, files)))
                && callStack == old(callStack)
    {
      var kwini := HashedKwargs(kw, files);
      if kwini.Err? {
        return Err(kwini.error);
      }
      var identifier := Identifier(digest, funcname, args, kwini.value);
      var package := ArgsPackage(identifier, directory, funcname, args, kw);
      if generate {
        callStack := callStack + [package];
        r := Ok(StrV(identifier));
      } else {
        var filename := ShelveName(directory, identifier);
        r := ReadResult(dir.entries, filename);
      }
    }

    /**
     * Running the stack one package after another, as the debug branch
     * means to and as `pool.map` returns: the identifiers in stack order,
     * every result saved; the first package whose call raises ends the run
     * with its exception, after the packages before it were saved.
     */
    method RunStack(exec: Exec, dir: Directory) returns (r: Result<seq<string>>)
      modifies dir
      ensures dir.entries == WriteAll(old(dir.entries), callStack[..FirstFail(callStack, exec)], exec)
      ensures r == if FirstFail(callStack, exec) < |callStack|
                   then Err(Run(exec, callStack[FirstFail(callStack, exec)]).error)
                   else Ok(Identifiers(callStack))
      ensures dir.dirs == old(dir.dirs)
    {
      var stack := callStack;
      var results := [];
      var i := 0;
      while i < |stack|
        invariant 0 <= i <= FirstFail(stack, exec)
        invariant results == Identifiers(stack[..i])
        invariant dir.entries == WriteAll(old(dir.entries), stack[..i], exec)
        invariant dir.dirs == old(dir.dirs)
      {
        var id := FunctionWrapper(stack[i], exec, dir);
        FirstFailStep(stack, exec, i);
        if id.Err? {
          return Err(id.error);
        }
        RunStep(old(dir.entries), stack, i, exec);
        results := results + [id.value];
        i := i + 1;
      }
      assert stack[..i] == stack;
      r := Ok(results);
    }

    /**
     * `multiprocess_stack(save_cpu, debug)` as written.  The debug branch
     * calls `print_call`, which this module never imports, so it fails with
     * NameError on the first package; the pool branch needs at least one
     * process.  The stack itself is kept.
     */
    method MultiprocessStack(saveCpu: int, debug: bool, cpuCount: nat, exec: Exec, dir: Directory)
      returns (r: Result<seq<string>>)
      modifies dir
      ensures debug && |callStack| > 0 ==> r == Err(NameError) && dir.entries == old(dir.entries)
      ensures !debug && cpuCount - saveCpu < 1 ==> r == Err(ValueError) && dir.entries == old(dir.entries)
      ensures (debug && |callStack| == 0) || (!debug && cpuCount - saveCpu >= 1) ==>
                dir.entries == WriteAll(old(dir.entries), callStack[..FirstFail(callStack, exec)], exec)
                && r == if FirstFail(callStack, exec) < |callStack|
                        then Err(Run(exec, callStack[FirstFail(callStack, exec)]).error)
                        else Ok(Identifiers(callStack))
      ensures dir.dirs == old(dir.dirs)
    {
      if debug && |callStack| > 0 {
        r := Err(NameError);
      } else if !debug && cpuCount - saveCpu < 1 {
        r := Err(ValueError);
      } else {
        r := RunStack(exec, dir);
      }
    }
  }

  /**
   * The two-phase use: stack a call in generate mode, run the stack, then
   * ask a read-mode batch for the same call: it returns the function's
   * result.
   */
  method GenerateThenRead(funcname: string, directory: string, args: seq<Value>, kw: KwArgs,
                          digest: CallKey -> string, files: map<string, string>, exec: Exec,
                          e0: map<string, Content>)
    returns (r: Result<Value>)
    ensures HashedKwargs(kw, files).Ok? ==> r == exec(funcname, args, kw)
    ensures HashedKwargs(kw, files).Err? ==> r == Err(HashedKwargs(kw, files).error)
  {
    var dir := new Directory(e0, {});
    var writer := new Batch(funcname, directory, true);
    var id := writer.Execute(args, kw, digest, files, dir);
    if id.Err? {
      return id;
    }
    var results := writer.RunStack(exec, dir);
    if results.Err? {
      return Err(results.error);
    }
    ReadAfterRun(e0, writer.callStack, exec, 0);
    var reader := new Batch(funcname, directory, false);
    r := reader.Execute(args, kw, digest, files, dir);
  }
}
