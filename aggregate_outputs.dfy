/**
 * `AggregateOutputs`: `execute` stacks calls, each named by the value of
 * its `execute_key` keyword; `multiprocess_stack` runs the stack, empties
 * it and saves each call's `(args_package, result)` pair in a fresh shelve
 * under its execute key.  The module calls `function_wrapper` without
 * defining or importing it; the model takes it to be the pair-returning
 * `_function_wrapper` of the top-level daemon, whose result's first item
 * is the package the keying expects.
 */
module AggregateOutputs {
  import opened PyValues
  import opened Storage
  import opened ScatterGather
  import opened ProcessDaemonLegacy
  import ProcessDaemon

  /** The Python value of a result pair `(args_package, retval)`, as the store holds it. */
  function PairValue(res: (Package, Value)): Value
  {
    TupleV([TupleV([res.0.tag, res.0.funcname, res.0.args, res.0.kwargs]), res.1])
  }

  /**
   * The wrapped calls of `stack`, run one after another, as the debug
   * branch does and as `pool.map` returns them: every result in stack
   * order, or the first exception.
   */
  function RunAll(stack: seq<Package>, exec: ProcessDaemon.JobExec): (r: Result<seq<(Package, Value)>>)
    ensures r.Ok? <==> forall i :: 0 <= i < |stack| ==> FunctionWrapper(stack[i], exec).Ok?
    ensures r.Ok? ==> |r.value| == |stack|
                      && forall i :: 0 <= i < |stack| ==> r.value[i] == FunctionWrapper(stack[i], exec).value
    ensures r.Err? ==> exists i :: 0 <= i < |stack| && FunctionWrapper(stack[i], exec) == Err(r.error)
  {
    if |stack| == 0 then Ok([])
    else
      match RunAll(stack[..|stack| - 1], exec)
      case Err(err) => Err(err)
      case Ok(rs) =>
        match FunctionWrapper(stack[|stack| - 1], exec)
        case Err(err) => Err(err)
        case Ok(x) => Ok(rs + [x])
  }

  /**
   * Writing `results` in order into the store `s`, each under its execute
   * key: the store reached and how the writing ended.  A key that is not a
   * string raises TypeError, with the earlier writes kept.
   */
  function Fill(s: Shelf, results: seq<(Package, Value)>): (Shelf, Result<()>)
    decreases |results|
  {
    if |results| == 0 then (s, Ok(()))
    else if !results[0].0.tag.StrV? then (s, Err(TypeError))
    else Fill(s[results[0].0.tag.s := PairValue(results[0])], results[1..])
  }

  /** The writing succeeds exactly when every execute key is a string. */
  lemma {:induction false} FillOk(s: Shelf, results: seq<(Package, Value)>)
    ensures Fill(s, results).1.Ok? <==> forall i :: 0 <= i < |results| ==> results[i].0.tag.StrV?
    ensures Fill(s, results).1.Err? ==> Fill(s, results).1 == Err(TypeError)
    decreases |results|
  {
    if |results| > 0 && results[0].0.tag.StrV? {
      FillOk(s[results[0].0.tag.s := PairValue(results[0])], results[1..]);
      assert forall i :: 1 <= i < |results| ==> results[i] == results[1..][i - 1];
    }
  }

  /** Running a stack of two calls that both return. */
  lemma RunTwo(p1: Package, p2: Package, exec: ProcessDaemon.JobExec)
    requires FunctionWrapper(p1, exec).Ok? && FunctionWrapper(p2, exec).Ok?
    ensures RunAll([p1, p2], exec) == Ok([FunctionWrapper(p1, exec).value, FunctionWrapper(p2, exec).value])
  {
    var stack := [p1, p2];
    assert stack[0] == p1 && stack[1] == p2;
    assert forall i :: 0 <= i < |stack| ==> FunctionWrapper(stack[i], exec).Ok?;
    var r := RunAll(stack, exec);
    assert |r.value| == 2 && r.value[0] == FunctionWrapper(p1, exec).value && r.value[1] == FunctionWrapper(p2, exec).value;
    assert r.value == [FunctionWrapper(p1, exec).value, FunctionWrapper(p2, exec).value];
  }

  /** Two results under the same execute key: the store keeps the second one only. */
  lemma FillSameKey(r1: (Package, Value), r2: (Package, Value), key: string)
    requires r1.0.tag == StrV(key) && r2.0.tag == StrV(key)
    ensures Fill(map[], [r1, r2]) == (map[key := PairValue(r2)], Ok(()))
  {
    var m1 := map[key := PairValue(r1)];
    assert [r1, r2][1..] == [r2];
    assert Fill(map[], [r1, r2]) == Fill(m1, [r2]);
    assert [r2][1..] == [];
    assert Fill(m1, [r2]) == Fill(m1[key := PairValue(r2)], []);
    assert m1[key := PairValue(r2)] == map[key := PairValue(r2)];
  }

  /** After a successful writing the store holds its old keys and exactly the execute keys. */
  lemma {:induction false} FillKeys(s: Shelf, results: seq<(Package, Value)>)
    requires Fill(s, results).1.Ok?
    ensures forall k :: k in Fill(s, results).0 <==>
              k in s || exists i :: 0 <= i < |results| && results[i].0.tag == StrV(k)
    decreases |results|
  {
    if |results| > 0 {
      var s1 := s[results[0].0.tag.s := PairValue(results[0])];
      FillKeys(s1, results[1..]);
      forall k
        ensures (exists i :: 0 <= i < |results| && results[i].0.tag == StrV(k))
                <==> k == results[0].0.tag.s || exists i :: 0 <= i < |results[1..]| && results[1..][i].0.tag == StrV(k)
      {
        if exists i :: 0 <= i < |results| && results[i].0.tag == StrV(k) {
          var i :| 0 <= i < |results| && results[i].0.tag == StrV(k);
          if i > 0 {
            assert results[1..][i - 1].0.tag == StrV(k);
          }
        }
        if exists i :: 0 <= i < |results[1..]| && results[1..][i].0.tag == StrV(k) {
          var i :| 0 <= i < |results[1..]| && results[1..][i].0.tag == StrV(k);
          assert results[i + 1].0.tag == StrV(k);
        }
      }
    }
  }

  /**
   * The last write wins: a result whose execute key no later result
   * repeats is what the store holds under that key.
   */
  lemma {:induction false} LastWriteWins(s: Shelf, results: seq<(Package, Value)>, i: nat)
    requires Fill(s, results).1.Ok?
    requires i < |results|
    requires forall j :: i < j < |results| ==> results[j].0.tag != results[i].0.tag
    ensures results[i].0.tag.StrV?
    ensures results[i].0.tag.s in Fill(s, results).0
    ensures Fill(s, results).0[results[i].0.tag.s] == PairValue(results[i])
    decreases |results|
  {
    var s1 := s[results[0].0.tag.s := PairValue(results[0])];
    if i == 0 {
      FillUntouched(s1, results[1..], results[0].0.tag.s);
    } else {
      forall j | i - 1 < j < |results[1..]|
        ensures results[1..][j].0.tag != results[1..][i - 1].0.tag
      {
        assert results[1..][j] == results[j + 1];
      }
      LastWriteWins(s1, results[1..], i - 1);
    }
  }

  /** A key that no result names keeps its value. */
  lemma {:induction false} FillUntouched(s: Shelf, results: seq<(Package, Value)>, k: string)
    requires Fill(s, results).1.Ok?
    requires forall j :: 0 <= j < |results| ==> results[j].0.tag != StrV(k)
    requires k in s
    ensures k in Fill(s, results).0 && Fill(s, results).0[k] == s[k]
    decreases |results|
  {
    if |results| > 0 {
      var s1 := s[results[0].0.tag.s := PairValue(results[0])];
      assert forall j :: 0 <= j < |results[1..]| ==> results[1..][j] == results[j + 1];
      FillUntouched(s1, results[1..], k);
    }
  }

  /** The first exception ends the run: a failing prefix fails the whole stack the same way. */
  lemma {:induction false} RunAllStops(stack: seq<Package>, k: nat, exec: ProcessDaemon.JobExec)
    requires k <= |stack| && RunAll(stack[..k], exec).Err?
    ensures RunAll(stack, exec) == RunAll(stack[..k], exec)
    decreases |stack| - k
  {
    if k < |stack| {
      assert stack[..k + 1][..k] == stack[..k];
      RunAllStops(stack, k + 1, exec);
    } else {
      assert stack[..k] == stack;
    }
  }

  class Aggregator {
    const funcname: string
    const verbose: bool
    /** `self.call_stack`: the packages of the stacked calls. */
    var callStack: seq<Package>

    constructor(funcname: string, verbose: bool)
      ensures this.funcname == funcname && this.verbose == verbose && callStack == []
    {
      this.funcname := funcname;
      this.verbose := verbose;
      callStack := [];
    }

    /** The package of a call whose keywords hold the execute key. */
    function PackageOf(args: seq<Value>, kw: KwArgs): (p: Package)
      requires ExecuteKey in Keys(kw)
      ensures p.tag == KwGet(kw, ExecuteKey).value && p.funcname == StrV(funcname) && p.args == TupleV(args)
      ensures p.kwargs.DictV? && ExecuteKey !in p.kwargs.entries
    {
      Package(KwGet(kw, ExecuteKey).value, StrV(funcname), TupleV(args), DictV(KwDict(KwDel(kw, ExecuteKey))))
    }

    /**
     * `execute(*args, **kwargs)`: the execute key is required (KeyError);
     * the verbose branch calls `print_call`, which this module never
     * imports (NameError); otherwise exactly one package is stacked, its
     * keywords without the execute key.
     */
    method Execute(args: seq<Value>, kw: KwArgs) returns (r: Result<()>)
      modifies this
      ensures ExecuteKey !in Keys(kw) ==> r == Err(KeyError) && callStack == old(callStack)
      ensures ExecuteKey in Keys(kw) && verbose ==> r == Err(NameError) && callStack == old(callStack)
      ensures ExecuteKey in Keys(kw) && !verbose ==> r == Ok(()) && callStack == old(callStack) + [PackageOf(args, kw)]
    {
      var key := KwGet(kw, ExecuteKey);
      if key.Err? {
        return Err(key.error);
      }
      var package := Package(key.value, StrV(funcname), TupleV(args), DictV(KwDict(KwDel(kw, ExecuteKey))));
      if verbose {
        return Err(NameError);
      }
      callStack := callStack + [package];
      r := Ok(());
    }

    /** Running the stacked calls in order, stopping at the first exception. */
    method RunStack(exec: ProcessDaemon.JobExec) returns (r: Result<seq<(Package, Value)>>)
      ensures r == RunAll(callStack, exec)
    {
      var results: seq<(Package, Value)> := [];
      var i := 0;
      while i < |callStack|
        invariant 0 <= i <= |callStack|
        invariant RunAll(callStack[..i], exec) == Ok(results)
      {
        var item := FunctionWrapper(callStack[i], exec);
        assert callStack[..i + 1][..i] == callStack[..i];
        if item.Err? {
          RunAllStops(callStack, i + 1, exec);
          return Err(item.error);
        }
        results := results + [item.value];
        i := i + 1;
      }
      assert callStack[..i] == callStack;
      r := Ok(results);
    }

    /**
     * `multiprocess_stack(filename, save_cpu, debug, ncpu)`.  The pool
     * branch asks for `ncpu` processes when `ncpu` is non-zero, else for
     * `cpu_count() - save_cpu`, and fails with ValueError below one.  An
     * exception of a call leaves the stack and the directory alone.
     * Otherwise the stack is emptied and the store is created afresh and
     * filled with the results in order.
     */
    method MultiprocessStack(filename: string, saveCpu: int, debug: bool, ncpu: int, cpuCount: int,
                             exec: ProcessDaemon.JobExec, dir: Directory)
      returns (r: Result<()>)
      modifies this, dir
      ensures !debug && (if ncpu != 0 then ncpu else cpuCount - saveCpu) < 1 ==>
                r == Err(ValueError) && callStack == old(callStack) && dir.entries == old(dir.entries)
      ensures (debug || (if ncpu != 0 then ncpu else cpuCount - saveCpu) >= 1) && RunAll(old(callStack), exec).Err? ==>
                r == Err(RunAll(old(callStack), exec).error) && callStack == old(callStack) && dir.entries == old(dir.entries)
      ensures (debug || (if ncpu != 0 then ncpu else cpuCount - saveCpu) >= 1) && RunAll(old(callStack), exec).Ok? ==>
                r == Fill(map[], RunAll(old(callStack), exec).value).1 && callStack == []
                && dir.entries == old(dir.entries)[Canon(filename) := Db(Fill(map[], RunAll(old(callStack), exec).value).0)]
      ensures dir.dirs == old(dir.dirs)
    {
      if !debug {
        var numCpus := cpuCount - saveCpu;
        if ncpu != 0 {
          numCpus := ncpu;
        }
        if numCpus < 1 {
          return Err(ValueError);
        }
      }
      var results := RunStack(exec);
      if results.Err? {
        return Err(results.error);
      }
      ghost var ran := RunAll(old(callStack), exec);
      assert results == ran;
      callStack := [];
      var store: Shelf := map[];
      dir.Write(filename, Db(store));
      var i := 0;
      r := Ok(());
      while i < |results.value|
        invariant 0 <= i <= |results.value|
        invariant Fill(store, results.value[i..]) == Fill(map[], results.value)
        invariant dir.entries == old(dir.entries)[Canon(filename) := Db(store)]
        invariant callStack == []
        invariant dir.dirs == old(dir.dirs)
      {
        var item := results.value[i];
        assert results.value[i..][1..] == results.value[i + 1..];
        if !item.0.tag.StrV? {
          assert Fill(store, results.value[i..]) == (store, Err(TypeError));
          assert Fill(map[], ran.value) == (store, Err(TypeError));
          return Err(TypeError);
        }
        store := store[item.0.tag.s := PairValue(item)];
        dir.Write(filename, Db(store));
        i := i + 1;
      }
    }
  }

  /**
   * Two calls under the same execute key, stacked and run in debug mode:
   * the store keeps only the second call's pair, and the stack is empty.
   */
  method SameKeyTwice(funcname: string, a1: seq<Value>, a2: seq<Value>, kw1: KwArgs, kw2: KwArgs, key: string,
                      exec: ProcessDaemon.JobExec, filename: string, e0: map<string, Content>)
    returns (store: Result<Shelf>, stack: seq<Package>)
    requires KwGet(kw1, ExecuteKey) == Ok(StrV(key)) && KwGet(kw2, ExecuteKey) == Ok(StrV(key))
    requires exec(StrV(funcname), TupleV(a1), DictV(KwDict(KwDel(kw1, ExecuteKey)))).Ok?
    requires exec(StrV(funcname), TupleV(a2), DictV(KwDict(KwDel(kw2, ExecuteKey)))).Ok?
    ensures stack == []
    ensures store == Ok(map[key := TupleV([TupleV([StrV(key), StrV(funcname), TupleV(a2), DictV(KwDict(KwDel(kw2, ExecuteKey)))]),
                                           exec(StrV(funcname), TupleV(a2), DictV(KwDict(KwDel(kw2, ExecuteKey)))).value])])
  {
    var dir := new Directory(e0, {});
    var agg := new Aggregator(funcname, false);
    ghost var p1 := agg.PackageOf(a1, kw1);
    ghost var p2 := agg.PackageOf(a2, kw2);
    var _ := agg.Execute(a1, kw1);
    var _ := agg.Execute(a2, kw2);
    assert agg.callStack == [p1, p2];
    ghost var w1, w2 := FunctionWrapper(p1, exec).value, FunctionWrapper(p2, exec).value;
    RunTwo(p1, p2, exec);
    FillSameKey(w1, w2, key);
    var _ := agg.MultiprocessStack(filename, 0, true, 0, 0, exec, dir);
    stack := agg.callStack;
    store := Ok(dir.entries[Canon(filename)].shelf);
    assert store.value == map[key := PairValue(w2)];
    assert p2 == Package(StrV(key), StrV(funcname), TupleV(a2), DictV(KwDict(KwDel(kw2, ExecuteKey))));
    assert PairValue(w2) == TupleV([TupleV([StrV(key), StrV(funcname), TupleV(a2), DictV(KwDict(KwDel(kw2, ExecuteKey)))]),
                                    exec(StrV(funcname), TupleV(a2), DictV(KwDict(KwDel(kw2, ExecuteKey)))).value]);
  }
}
