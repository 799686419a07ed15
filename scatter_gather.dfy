/**
 * `ScatterGather` of `process_tools`: `scatter` writes one job file per
 * call into the job directory for the daemon's workers and remembers the
 * call's identifier; `gather` merges each finished job's return value
 * into an HDF5 file under the call's tag and forgets the identifier.
 */
module ScatterGather {
  import opened PyValues
  import opened Strings
  import opened Storage
  import opened CallIdentity
  import opened TreePaths
  import opened Hdf5
  import opened H5pyTree
  import ProcessDaemon

  /** The keyword that names a call's output and is not passed to the function. */
  const ExecuteKey: string := "execute_key"

  /** `utils.readable_call(funcname, args, kwargs)`, given. */
  type ReadableCall = (string, seq<Value>, KwArgs) -> string

  /** `"%s/%s.job" % (job_directory, identifier)`, and the done and log files named alike. */
  function JobFile(id: string): string { ProcessDaemon.JobDirectory + "/" + id + ".job" }

  function DoneFileOf(id: string): string { ProcessDaemon.JobDirectory + "/" + id + ".done" }

  function LogFileOf(id: string): string { ProcessDaemon.JobDirectory + "/" + id + ".log" }

  /** The job record: the call without its execute key, the key's value as the tag, the identifier and the readable call. */
  function JobRecord(funcname: string, args: seq<Value>, kw: KwArgs, id: string, call: string): (s: Shelf)
    requires ExecuteKey in Keys(kw)
    ensures s.Keys == {"funcname", "args", "kwargs", "tag", "identifier", "call"}
    ensures s["tag"] == KwGet(kw, ExecuteKey).value && s["identifier"] == StrV(id)
    ensures s["kwargs"] == DictV(KwDict(KwDel(kw, ExecuteKey))) && ExecuteKey !in s["kwargs"].entries
    ensures s["funcname"] == StrV(funcname) && s["args"] == TupleV(args) && s["call"] == StrV(call)
  {
    map["funcname" := StrV(funcname), "args" := TupleV(args),
        "kwargs" := DictV(KwDict(KwDel(kw, ExecuteKey))), "tag" := KwGet(kw, ExecuteKey).value,
        "identifier" := StrV(id), "call" := StrV(call)]
  }

  /**
   * Removing a lurking finished job: the done file, and then the job file;
   * a missing done file raises before the job file is touched.
   */
  function Cleared(e: map<string, Content>, id: string): map<string, Content>
  {
    if Canon(DoneFileOf(id)) in e then e - {Canon(DoneFileOf(id))} - {Canon(JobFile(id))} else e
  }

  /** The identifiers of `s`, in order, but those in `ids`. */
  function Without(s: seq<string>, ids: set<string>): (r: seq<string>)
    ensures forall x :: x in r <==> x in s && x !in ids
    ensures |r| <= |s|
  {
    if |s| == 0 then []
    else if s[0] in ids then Without(s[1..], ids)
    else [s[0]] + Without(s[1..], ids)
  }

  /** Dropping no identifier keeps the stack. */
  lemma {:induction false} WithoutNone(s: seq<string>)
    ensures Without(s, {}) == s
  {
    if |s| > 0 {
      WithoutNone(s[1..]);
    }
  }

  /** Dropping one set of identifiers and then another drops both at once. */
  lemma {:induction false} WithoutTwice(s: seq<string>, a: set<string>, b: set<string>)
    ensures Without(Without(s, a), b) == Without(s, a + b)
  {
    if |s| > 0 {
      WithoutTwice(s[1..], a, b);
      if s[0] !in a {
        assert Without(s, a) == [s[0]] + Without(s[1..], a);
        assert Without(s, a)[1..] == Without(s[1..], a);
      }
    }
  }

  /** What `gather` does with one done file. */
  datatype Verdict = Skip | Merge(id: string, tag: string, retval: Tree) | Fail(error: Error)

  /** An empty list, tuple or string: walking it as a dictionary visits no key. */
  predicate EmptyIterable(v: Value)
  {
    v == ListV([]) || v == TupleV([]) || v == StrV("")
  }

  /**
   * The done file at `filename` read against the pending identifiers: an
   * unreadable file raises; a missing identifier, tag or return value, or
   * an identifier that is not pending, is reported and skipped; a tag that
   * is not a string cannot be appended to the path.  A dictionary return
   * value is merged, an empty iterable merges nothing, and any other
   * return value cannot be walked.
   */
  function Classify(e: map<string, Content>, stack: seq<string>, filename: string): (v: Verdict)
    ensures ShelfAt(e, filename).Err? ==> v == Fail(DbError)
    ensures v.Merge? <==> ShelfAt(e, filename).Ok?
                          && var s := ShelfAt(e, filename).value;
                          "identifier" in s && s["identifier"].StrV? && s["identifier"].s in stack
                          && "tag" in s && s["tag"].StrV? && "retval" in s
                          && (s["retval"].DictV? || EmptyIterable(s["retval"]))
    ensures v.Merge? ==> var s := ShelfAt(e, filename).value;
                         s["identifier"] == StrV(v.id) && v.id in stack && s["tag"] == StrV(v.tag)
                         && (if s["retval"].DictV? then s["retval"] == DictV(v.retval) else v.retval == map[])
    ensures v.Fail? && ShelfAt(e, filename).Ok? ==> v.error == TypeError
  {
    match ShelfAt(e, filename)
    case Err(_) => Fail(DbError)
    case Ok(s) =>
      if "identifier" !in s || !s["identifier"].StrV? || s["identifier"].s !in stack then Skip
      else if "tag" !in s then Skip
      else if !s["tag"].StrV? then Fail(TypeError)
      else if "retval" !in s then Skip
      else if s["retval"].DictV? then Merge(s["identifier"].s, s["tag"].s, s["retval"].entries)
      else if EmptyIterable(s["retval"]) then Merge(s["identifier"].s, s["tag"].s, map[])
      else Fail(TypeError)
  }

  /** The output file opened for appending: a missing file starts empty, a file that is not HDF5 cannot be opened. */
  function OutContents(e: map<string, Content>, outfile: string): (r: Result<Tree>)
    ensures Canon(outfile) !in e ==> r == Ok(map[])
    ensures r.Ok? && Canon(outfile) in e ==> e[Canon(outfile)] == H5(r.value)
    ensures r.Err? <==> Canon(outfile) in e && !e[Canon(outfile)].H5?
    ensures r.Err? ==> r.error == IOError
  {
    if Canon(outfile) !in e then Ok(map[])
    else if e[Canon(outfile)].H5? then Ok(e[Canon(outfile)].tree)
    else Err(IOError)
  }

  /** The done file `filename` is merged: its verdict is a merge and the output file opens. */
  predicate Merging(e: map<string, Content>, stack: seq<string>, filename: string, outfile: string)
  {
    Classify(e, stack, filename).Merge? && OutContents(e, outfile).Ok?
  }

  /**
   * What appending `data` at `w` to the output file's `contents` gives, as
   * `written`: everything kept, nothing unclean made, the data's arrays
   * placed when the write did not `fail`, and no failure when the place
   * was free.
   */
  ghost predicate MergedTree(contents: Tree, written: Tree, w: Path, data: Tree, fail: bool)
  {
    Kept(contents, written) && (Clean(contents) ==> Clean(written))
    && (PlainV(DictV(data)) ==> FromData(contents, written, w, data, data.Keys))
    && (!fail && PlainV(DictV(data)) ==> Placed(written, w, data, data.Keys))
    && (PlainV(DictV(data)) && Clean(contents) && Vacant(contents, w, data) ==> !fail)
  }

  /** The entries after a merge: the new output file, without the done file and the job's log. */
  function MergedEntries(e: map<string, Content>, filename: string, outfile: string, written: Tree, id: string)
    : (r: map<string, Content>)
    ensures Canon(outfile) != Canon(filename) && Canon(outfile) != Canon(LogFileOf(id)) ==>
              Canon(outfile) in r && r[Canon(outfile)] == H5(written)
    ensures Canon(filename) !in r && Canon(LogFileOf(id)) !in r
  {
    e[Canon(outfile) := H5(written)] - {Canon(filename)} - {Canon(LogFileOf(id))}
  }

  /** One done file handled by `gather`: the file, its verdict, and the state, result and written output after it. */
  datatype Handled = Handled(file: string, verdict: Verdict, entries: map<string, Content>, stack: seq<string>,
                             result: Result<()>, written: Tree)

  /**
   * `gather`'s handling of one done file, from entries `e` and pending
   * `stack` to the state `h` records.  A skipped done file changes nothing,
   * and a failure raises without changes.  A merge appends the return value
   * to the output file under `path + "/" + tag` (the file keeps what it
   * held, `h.written` is its new content); a failed HDF5 write stops there;
   * otherwise the identifier leaves the stack and the done file and then
   * the job's log are removed, the log's absence raising.
   */
  ghost predicate GatherStep(e: map<string, Content>, stack: seq<string>, outfile: string, path: string, h: Handled)
  {
    h.verdict == Classify(e, stack, h.file)
    && (!h.verdict.Merge? ==>
          h.stack == stack && h.entries == e && h.result == (if h.verdict.Fail? then Err(h.verdict.error) else Ok(())))
    && (h.verdict.Merge? && OutContents(e, outfile).Err? ==>
          h.stack == stack && h.entries == e && h.result == Err(IOError))
    && (h.verdict.Merge? && OutContents(e, outfile).Ok? ==>
          MergedTree(OutContents(e, outfile).value, h.written, H5Path(path + "/" + h.verdict.tag),
                     h.verdict.retval, h.result == Err(RuntimeError))
          && (h.result == Err(RuntimeError) ==> h.stack == stack && h.entries == e[Canon(outfile) := H5(h.written)])
          && (h.result != Err(RuntimeError) ==>
                h.stack == Without(stack, {h.verdict.id})
                && h.entries == MergedEntries(e, h.file, outfile, h.written, h.verdict.id)
                && h.result == (if Canon(LogFileOf(h.verdict.id)) in e[Canon(outfile) := H5(h.written)] - {Canon(h.file)}
                                then Ok(()) else Err(OSError))))
  }

  /** The step merged its job: the identifier left the stack. */
  predicate Merged(h: Handled)
  {
    h.verdict.Merge? && (h.result == Ok(()) || h.result == Err(OSError))
  }

  /** The entries and the stack before the `i`-th handled file. */
  function Before(e0: map<string, Content>, s0: seq<string>, trace: seq<Handled>, i: nat)
    : (map<string, Content>, seq<string>)
    requires i <= |trace|
  {
    if i == 0 then (e0, s0) else (trace[i - 1].entries, trace[i - 1].stack)
  }

  /**
   * `trace` is a run of `gather`'s pass from `e0` and `s0`: distinct done
   * files, each handled in the state the previous one left, and only the
   * last one may raise.
   */
  ghost predicate Traced(e0: map<string, Content>, s0: seq<string>, outfile: string, path: string, trace: seq<Handled>)
  {
    (forall i :: 0 <= i < |trace| ==> StepAt(e0, s0, outfile, path, trace, i))
    && (forall i :: 0 <= i < |trace| - 1 ==> trace[i].result.Ok?)
    && (forall i, j :: 0 <= i < j < |trace| ==> trace[i].file != trace[j].file)
  }

  /** The `i`-th handled file of a run went as `GatherStep` says, from the state before it. */
  ghost predicate StepAt(e0: map<string, Content>, s0: seq<string>, outfile: string, path: string, trace: seq<Handled>, i: nat)
    requires i < |trace|
  {
    GatherStep(Before(e0, s0, trace, i).0, Before(e0, s0, trace, i).1, outfile, path, trace[i])
  }

  /** Appending a handled file keeps the steps before it as they were. */
  lemma StepsSnoc(e0: map<string, Content>, s0: seq<string>, outfile: string, path: string, trace: seq<Handled>, h: Handled)
    requires forall i :: 0 <= i < |trace| ==> StepAt(e0, s0, outfile, path, trace, i)
    requires GatherStep(Before(e0, s0, trace, |trace|).0, Before(e0, s0, trace, |trace|).1, outfile, path, h)
    ensures forall i :: 0 <= i < |trace| + 1 ==> StepAt(e0, s0, outfile, path, trace + [h], i)
  {
    var t := trace + [h];
    forall i | 0 <= i < |t|
      ensures StepAt(e0, s0, outfile, path, t, i)
    {
      if i < |trace| {
        StepSame(e0, s0, outfile, path, trace, t, i);
      } else {
        StepSame(e0, s0, outfile, path, t, t, i);
        assert Before(e0, s0, t, i) == Before(e0, s0, trace, |trace|);
      }
    }
  }

  /** A step depends only on the handled file and the one before it. */
  lemma StepSame(e0: map<string, Content>, s0: seq<string>, outfile: string, path: string,
                 a: seq<Handled>, b: seq<Handled>, i: nat)
    requires i < |a| && i < |b| && a[i] == b[i] && (i > 0 ==> a[i - 1] == b[i - 1])
    ensures StepAt(e0, s0, outfile, path, a, i) == StepAt(e0, s0, outfile, path, b, i)
  {
    assert Before(e0, s0, a, i) == Before(e0, s0, b, i);
  }

  /** The done files a run handled. */
  function Files(trace: seq<Handled>): set<string>
  {
    if |trace| == 0 then {} else Files(trace[..|trace| - 1]) + {trace[|trace| - 1].file}
  }

  /** The identifiers a run merged. */
  function MergedIds(trace: seq<Handled>): set<string>
  {
    if |trace| == 0 then {}
    else MergedIds(trace[..|trace| - 1]) + (if Merged(trace[|trace| - 1]) then {trace[|trace| - 1].verdict.id} else {})
  }

  /** A run extended by one more handled file, after a step that did not raise, is a run. */
  lemma TracedSnoc(e0: map<string, Content>, s0: seq<string>, outfile: string, path: string, trace: seq<Handled>, h: Handled)
    requires Traced(e0, s0, outfile, path, trace)
    requires |trace| > 0 ==> trace[|trace| - 1].result.Ok?
    requires GatherStep(Before(e0, s0, trace, |trace|).0, Before(e0, s0, trace, |trace|).1, outfile, path, h)
    requires h.file !in Files(trace)
    ensures Traced(e0, s0, outfile, path, trace + [h])
  {
    var t := trace + [h];
    StepsSnoc(e0, s0, outfile, path, trace, h);
    DistinctSnoc(trace, h);
    forall i | 0 <= i < |t| - 1
      ensures t[i].result.Ok?
    {
      assert t[i] == trace[i];
    }
  }

  /** A file not handled yet keeps the handled files distinct. */
  lemma DistinctSnoc(trace: seq<Handled>, h: Handled)
    requires forall i, j :: 0 <= i < j < |trace| ==> trace[i].file != trace[j].file
    requires h.file !in Files(trace)
    ensures forall i, j :: 0 <= i < j < |trace| + 1 ==> (trace + [h])[i].file != (trace + [h])[j].file
  {
    var t := trace + [h];
    forall i, j | 0 <= i < j < |t|
      ensures t[i].file != t[j].file
    {
      assert t[i] == trace[i];
      if j == |trace| {
        FileHandled(trace, i);
      } else {
        assert t[j] == trace[j];
      }
    }
  }

  /** One more handled file adds its file, its identifier when it merged, and its state as the last. */
  lemma RunSnoc(e0: map<string, Content>, s0: seq<string>, trace: seq<Handled>, h: Handled)
    ensures Files(trace + [h]) == Files(trace) + {h.file}
    ensures MergedIds(trace + [h]) == MergedIds(trace) + (if Merged(h) then {h.verdict.id} else {})
    ensures Before(e0, s0, trace + [h], |trace| + 1) == (h.entries, h.stack)
  {
    assert (trace + [h])[..|trace|] == trace;
  }

  /** A handled file leaves the stack without its identifier exactly when it merged, and only a pending one merges. */
  lemma StepStack(e: map<string, Content>, stack: seq<string>, outfile: string, path: string, h: Handled)
    requires GatherStep(e, stack, outfile, path, h)
    ensures h.stack == if Merged(h) then Without(stack, {h.verdict.id}) else stack
    ensures Merged(h) ==> h.verdict.id in stack
  {
  }

  /** The first steps of a run are a run. */
  lemma TracedFront(e0: map<string, Content>, s0: seq<string>, outfile: string, path: string, trace: seq<Handled>)
    requires |trace| > 0 && Traced(e0, s0, outfile, path, trace)
    ensures Traced(e0, s0, outfile, path, trace[..|trace| - 1])
  {
    var p := trace[..|trace| - 1];
    forall i | 0 <= i < |p|
      ensures StepAt(e0, s0, outfile, path, p, i)
    {
      StepSame(e0, s0, outfile, path, trace, p, i);
    }
    forall i, j | 0 <= i < j < |p|
      ensures p[i].file != p[j].file
    {
      assert p[i] == trace[i] && p[j] == trace[j];
    }
    forall i | 0 <= i < |p| - 1
      ensures p[i].result.Ok?
    {
      assert p[i] == trace[i];
    }
  }

  /**
   * After a run of `gather`'s pass the stack is the old stack without
   * exactly the identifiers the run merged, all of which were pending.
   */
  lemma {:induction false} PassStack(e0: map<string, Content>, s0: seq<string>, outfile: string, path: string,
                                     trace: seq<Handled>)
    requires Traced(e0, s0, outfile, path, trace)
    ensures Before(e0, s0, trace, |trace|).1 == Without(s0, MergedIds(trace))
    ensures forall x :: x in MergedIds(trace) ==> x in s0
  {
    var n := |trace|;
    if n == 0 {
      WithoutNone(s0);
    } else {
      var p := trace[..n - 1];
      TracedFront(e0, s0, outfile, path, trace);
      PassStack(e0, s0, outfile, path, p);
      assert StepAt(e0, s0, outfile, path, trace, n - 1);
      assert Before(e0, s0, trace, n - 1) == Before(e0, s0, p, n - 1);
      PassStackStep(e0, s0, outfile, path, p, trace[n - 1]);
      assert p + [trace[n - 1]] == trace;
    }
  }

  /** The stack after one more handled file, from the stack after the run before it. */
  lemma PassStackStep(e0: map<string, Content>, s0: seq<string>, outfile: string, path: string,
                      p: seq<Handled>, h: Handled)
    requires Before(e0, s0, p, |p|).1 == Without(s0, MergedIds(p))
    requires forall x :: x in MergedIds(p) ==> x in s0
    requires GatherStep(Before(e0, s0, p, |p|).0, Before(e0, s0, p, |p|).1, outfile, path, h)
    ensures Before(e0, s0, p + [h], |p| + 1).1 == Without(s0, MergedIds(p + [h]))
    ensures forall x :: x in MergedIds(p + [h]) ==> x in s0
  {
    StepStack(Before(e0, s0, p, |p|).0, Before(e0, s0, p, |p|).1, outfile, path, h);
    RunSnoc(e0, s0, p, h);
    if Merged(h) {
      WithoutTwice(s0, MergedIds(p), {h.verdict.id});
    } else {
      assert MergedIds(p + [h]) == MergedIds(p);
    }
  }

  /** Every handled file is among the run's files. */
  lemma {:induction false} FileHandled(trace: seq<Handled>, i: nat)
    requires i < |trace|
    ensures trace[i].file in Files(trace)
  {
    if i < |trace| - 1 {
      assert trace[..|trace| - 1][i] == trace[i];
      FileHandled(trace[..|trace| - 1], i);
    }
  }

  class Scatterer {
    const funcname: string
    /** `self.call_stack`: the identifiers still waiting to be gathered. */
    var callStack: seq<string>

    constructor(funcname: string)
      ensures this.funcname == funcname && callStack == []
    {
      this.funcname := funcname;
      callStack := [];
    }

    /**
     * `scatter(*args, **kwargs)`.  Without an execute key nothing happens.
     * Otherwise the identifier is taken over all keywords, the execute key
     * included, a stale done file (and then the job file) is removed, the
     * job record is written and the identifier stacked.
     */
    method Scatter(args: seq<Value>, kw: KwArgs, digest: CallKey -> string, readable: ReadableCall, dir: Directory)
      modifies this, dir
      ensures ExecuteKey !in Keys(kw) ==> callStack == old(callStack) && dir.entries == old(dir.entries)
      ensures ExecuteKey in Keys(kw) ==>
                var id := Identifier(digest, funcname, args, kw);
                callStack == old(callStack) + [id]
                && dir.entries == Cleared(old(dir.entries), id)
                     [Canon(JobFile(id)) := Db(JobRecord(funcname, args, kw, id, readable(funcname, args, kw)))]
      ensures dir.dirs == old(dir.dirs)
    {
      if ExecuteKey !in Keys(kw) {
        return;
      }
      var identifier := Identifier(digest, funcname, args, kw);
      var call := readable(funcname, args, kw);
      var jobfileName := JobFile(identifier);
      var donefileName := DoneFileOf(identifier);
      var removed := dir.Remove(donefileName);
      if removed.Ok? {
        var _ := dir.Remove(jobfileName);
      }
      dir.Write(jobfileName, Db(JobRecord(funcname, args, kw, identifier, call)));
      callStack := callStack + [identifier];
    }

    /** One done file of a `gather` pass, handled as `GatherStep` describes. */
    method GatherOne(filename: string, outfile: string, path: string, dir: Directory)
      returns (r: Result<()>, ghost written: Tree)
      modifies this, dir
      ensures GatherStep(old(dir.entries), old(callStack), outfile, path,
                         Handled(filename, Classify(old(dir.entries), old(callStack), filename),
                                 dir.entries, callStack, r, written))
      ensures dir.dirs == old(dir.dirs)
    {
      written := map[];
      var v := Classify(dir.entries, callStack, filename);
      match v {
        case Skip =>
          r := Ok(());
        case Fail(err) =>
          r := Err(err);
        case Merge(jobid, tag, retval) =>
          var contents := OutContents(dir.entries, outfile);
          if contents.Err? {
            r := Err(contents.error);
            return;
          }
          var f, res := ConvertNumpytreeHdf5(retval, contents.value, path + "/" + tag);
          written := f.root;
          dir.Write(outfile, H5(f.root));
          if res.Err? {
            r := res;
            return;
          }
          callStack := Without(callStack, {jobid});
          var _ := dir.Remove(filename);
          r := dir.Remove(LogFileOf(jobid));
      }
    }

    /**
     * The next done file of a pass, any one not handled yet, handled by
     * `GatherOne` and recorded at the end of the run.
     */
    method HandleNext(outfile: string, path: string, dir: Directory, ghost done: set<string>, todo: set<string>,
                      ghost e0: map<string, Content>, ghost s0: seq<string>, ghost trace: seq<Handled>)
      returns (r: Result<()>, left: set<string>, ghost next: seq<Handled>)
      modifies this, dir
      requires todo != {} && Files(trace) <= done && todo == done - Files(trace)
      requires Traced(e0, s0, outfile, path, trace)
      requires |trace| > 0 ==> trace[|trace| - 1].result.Ok?
      requires (dir.entries, callStack) == Before(e0, s0, trace, |trace|)
      ensures Traced(e0, s0, outfile, path, next)
      ensures Files(next) <= done && left == done - Files(next) && |left| < |todo|
      ensures r == next[|next| - 1].result
      ensures (dir.entries, callStack) == Before(e0, s0, next, |next|)
      ensures dir.dirs == old(dir.dirs)
    {
      var filename :| filename in todo;
      left := todo - {filename};
      ghost var v := Classify(dir.entries, callStack, filename);
      ghost var w;
      r, w := GatherOne(filename, outfile, path, dir);
      ghost var h := Handled(filename, v, dir.entries, callStack, r, w);
      TracedSnoc(e0, s0, outfile, path, trace, h);
      RunSnoc(e0, s0, trace, h);
      next := trace + [h];
    }

    /**
     * One pass of `gather`'s polling loop over the done files of the job
     * directory, in the glob's order: `trace` records each file handled; the
     * first exception ends the pass, and without one every globbed done file
     * was handled.
     */
    method GatherPass(outfile: string, path: string, dir: Directory)
      returns (r: Result<()>, ghost trace: seq<Handled>)
      modifies this, dir
      ensures Traced(old(dir.entries), old(callStack), outfile, path, trace)
      ensures Files(trace) <= Glob(old(dir.entries), ProcessDaemon.JobPrefix, ".done")
      ensures r.Ok? ==> Files(trace) == Glob(old(dir.entries), ProcessDaemon.JobPrefix, ".done")
      ensures r == if |trace| == 0 then Ok(()) else trace[|trace| - 1].result
      ensures (dir.entries, callStack) == Before(old(dir.entries), old(callStack), trace, |trace|)
      ensures dir.dirs == old(dir.dirs)
    {
      ghost var done := Glob(dir.entries, ProcessDaemon.JobPrefix, ".done");
      var todo := Glob(dir.entries, ProcessDaemon.JobPrefix, ".done");
      r := Ok(());
      trace := [];
      while todo != {} && r.Ok?
        invariant Traced(old(dir.entries), old(callStack), outfile, path, trace)
        invariant Files(trace) <= done && todo == done - Files(trace)
        invariant r == if |trace| == 0 then Ok(()) else trace[|trace| - 1].result
        invariant (dir.entries, callStack) == Before(old(dir.entries), old(callStack), trace, |trace|)
        invariant dir.dirs == old(dir.dirs)
        decreases |todo|
      {
        r, todo, trace := HandleNext(outfile, path, dir, done, todo, old(dir.entries), old(callStack), trace);
      }
    }

    /**
     * `gather(outfile, path)`: any old output file is removed (a missing
     * one is fine), then the done files are merged while identifiers are
     * pending; with nothing pending the loop does not run.
     */
    method Gather(outfile: string, path: string, dir: Directory)
      returns (r: Result<()>, ghost trace: seq<Handled>)
      modifies this, dir
      ensures old(callStack) == [] ==>
                r == Ok(()) && trace == [] && dir.entries == old(dir.entries) - {Canon(outfile)}
      ensures old(callStack) != [] ==>
                var e1 := old(dir.entries) - {Canon(outfile)};
                Traced(e1, old(callStack), outfile, path, trace)
                && Files(trace) <= Glob(e1, ProcessDaemon.JobPrefix, ".done")
                && (r.Ok? ==> Files(trace) == Glob(e1, ProcessDaemon.JobPrefix, ".done"))
                && (dir.entries, callStack) == Before(e1, old(callStack), trace, |trace|)
      ensures r == if |trace| == 0 then Ok(()) else trace[|trace| - 1].result
      ensures callStack == Without(old(callStack), MergedIds(trace))
      ensures forall x :: x in MergedIds(trace) ==> x in old(callStack)
      ensures dir.dirs == old(dir.dirs)
    {
      var _ := dir.Remove(outfile);
      if |callStack| == 0 {
        r := Ok(());
        trace := [];
        WithoutNone(callStack);
        return;
      }
      ghost var e1 := dir.entries;
      r, trace := GatherPass(outfile, path, dir);
      PassStack(e1, old(callStack), outfile, path, trace);
    }
  }

  /** `kw[name]` is the value paired with `name`, as keywords are distinct. */
  lemma KwGetOf(kw: KwArgs, name: string, v: Value)
    requires DistinctKeys(kw) && (name, v) in kw
    ensures KwGet(kw, name) == Ok(v)
  {
    var j :| 0 <= j < |kw| && kw[j] == (name, v);
    assert name in Keys(kw);
    var i :| 0 <= i < |kw| && kw[i] == (name, KwGet(kw, name).value);
    assert i == j;
  }

  /** A keyword found in one list is found, with the same value, in any reordering of it. */
  lemma KwGetMoved(kw1: KwArgs, kw2: KwArgs, name: string)
    requires DistinctKeys(kw2) && multiset(kw1) == multiset(kw2)
    ensures KwGet(kw1, name).Ok? ==> KwGet(kw2, name) == KwGet(kw1, name)
  {
    if KwGet(kw1, name).Ok? {
      var i :| 0 <= i < |kw1| && kw1[i] == (name, KwGet(kw1, name).value);
      assert kw1[i] in multiset(kw2);
      KwGetOf(kw2, name, KwGet(kw1, name).value);
    }
  }

  /** The same keyword items in another order give the same value for every keyword. */
  lemma KwGetSame(kw1: KwArgs, kw2: KwArgs, name: string)
    requires DistinctKeys(kw1) && DistinctKeys(kw2) && multiset(kw1) == multiset(kw2)
    ensures KwGet(kw1, name) == KwGet(kw2, name)
  {
    KwGetMoved(kw1, kw2, name);
    KwGetMoved(kw2, kw1, name);
  }

  /**
   * The tag is hashed with the call: with a collision-free digest, the
   * same call under two different execute keys (or with and without one)
   * gets two identifiers, so the two results are gathered apart.
   */
  lemma TagInHash(digest: CallKey -> string, funcname: string, args: seq<Value>, kw1: KwArgs, kw2: KwArgs)
    requires Injective(digest) && DistinctKeys(kw1) && DistinctKeys(kw2)
    requires KwGet(kw1, ExecuteKey) != KwGet(kw2, ExecuteKey)
    ensures Identifier(digest, funcname, args, kw1) != Identifier(digest, funcname, args, kw2)
  {
    IdentifierSeparates(digest, funcname, args, kw1, funcname, args, kw2);
    if multiset(kw1) == multiset(kw2) {
      KwGetSame(kw1, kw2, ExecuteKey);
    }
  }

  /** The job directory as the scatter writes it, before the slashes collapse. */
  const JobDirSlash: string := "./jobs//"

  /**
   * The names of a scattered job: as the worker derives them from the job
   * file, as the gather writes them, and as the directory stores them.
   */
  lemma JobNamesOf(id: string)
    requires Stem(id)
    ensures JobFile(id) == JobDirSlash + id + ".job"
    ensures ProcessDaemon.Base(JobFile(id)) == JobDirSlash + id
    ensures ProcessDaemon.DoneFile(JobFile(id)) == DoneFileOf(id)
    ensures ProcessDaemon.LogName(JobFile(id)) == LogFileOf(id)
    ensures Canon(JobFile(id)) == ProcessDaemon.JobPrefix + id + ".job"
    ensures Canon(DoneFileOf(id)) == ProcessDaemon.JobPrefix + id + ".done"
    ensures Canon(LogFileOf(id)) == ProcessDaemon.JobPrefix + id + ".log"
    ensures Canon(ProcessDaemon.RunName(JobFile(id))) == ProcessDaemon.JobPrefix + id + ".run"
  {
    SplitExtOf(JobDirSlash, id, ".job");
    JobDirAppend(id, ".job");
    JobDirAppend(id, ".done");
    JobDirAppend(id, ".log");
    JobDirAppend(id, ".run");
  }

  /** A job-directory name written with the doubled slash collapses to the prefix the glob uses. */
  lemma JobDirAppend(id: string, ext: string)
    requires Stem(id) && '/' !in ext
    ensures Canon(JobDirSlash + id + ext) == ProcessDaemon.JobPrefix + id + ext
  {
    assert CollapseSlashes(JobDirSlash) == ProcessDaemon.JobPrefix;
    assert '/' !in id + ext by {
      forall k | 0 <= k < |id + ext| ensures (id + ext)[k] != '/' {
        if k >= |id| {
          assert (id + ext)[k] == ext[k - |id|];
        } else {
          assert (id + ext)[k] == id[k];
        }
      }
    }
    AppendAssoc(JobDirSlash, id, ext);
    CollapseAppend(JobDirSlash, id + ext);
    AppendAssoc(ProcessDaemon.JobPrefix, id, ext);
  }

  /** The last character of a name ending in a non-empty suffix is the suffix's last. */
  lemma LastChar(n: string, suffix: string)
    requires EndsWith(n, suffix) && |suffix| > 0
    ensures n[|n| - 1] == suffix[|suffix| - 1]
  {
    assert n[|n| - |suffix|..][|suffix| - 1] == suffix[|suffix| - 1];
  }

  /**
   * After a scattered job ran in a directory without done files, and the
   * output file was removed, the job's done file is the only one -- when
   * the call returned; otherwise there is none.
   */
  lemma DonesAfterJob(e0: map<string, Content>, e1: map<string, Content>, e3: map<string, Content>,
                      id: string, rec: Shelf, exec: ProcessDaemon.JobExec, outfile: string)
    requires Stem(id) && Glob(e0, ProcessDaemon.JobPrefix, ".done") == {}
    requires "funcname" in rec && "args" in rec && "kwargs" in rec
    requires e1 == e0[Canon(JobFile(id)) := Db(rec)]
    requires OutApart(outfile, id)
    requires e3 == ProcessDaemon.JobEffect(e1, JobFile(id), exec).0 - {Canon(outfile)}
    ensures ProcessDaemon.Call(exec, rec).Err? ==> Glob(e3, ProcessDaemon.JobPrefix, ".done") == {}
    ensures ProcessDaemon.Call(exec, rec).Ok? ==>
              Glob(e3, ProcessDaemon.JobPrefix, ".done") == {Canon(DoneFileOf(id))}
              && e3[Canon(DoneFileOf(id))] == Db(rec["retval" := ProcessDaemon.Call(exec, rec).value])
              && Canon(LogFileOf(id)) in e3
  {
    var job := JobFile(id);
    JobNamesOf(id);
    ProcessDaemon.JobOutcome(e1, job, exec);
    MatchesBuilt(ProcessDaemon.JobPrefix, id, ".done");
    var done := Canon(DoneFileOf(id));
    var e2 := ProcessDaemon.JobEffect(e1, job, exec).0;
    assert ProcessDaemon.Readable(e1, job) && ProcessDaemon.Spec(e1, job) == rec;
    var pj, pr, pl := ProcessDaemon.JobPrefix + id + ".job", ProcessDaemon.JobPrefix + id + ".run",
                      ProcessDaemon.JobPrefix + id + ".log";
    assert pj[|pj| - 1] == 'b' && pr[|pr| - 1] == 'n' && pl[|pl| - 1] == 'g';
    OnlyOwnDone(e0, Db(rec), e2, e3, ProcessDaemon.JobPrefix, pj, pr, done, pl);
  }

  /** With no done file before, the only done file after is the one written: every other new name ends otherwise. */
  lemma OnlyOwnDone(e0: map<string, Content>, c: Content, e2: map<string, Content>, e3: map<string, Content>,
                    prefix: string, job: string, run: string, done: string, log: string)
    requires Glob(e0, prefix, ".done") == {}
    requires forall n :: n in e2 && n != run && n != done && n != log ==> n in e0[job := c]
    requires forall n :: n in e3 ==> n in e2
    requires |job| > 0 && job[|job| - 1] == 'b' && |run| > 0 && run[|run| - 1] == 'n' && |log| > 0 && log[|log| - 1] == 'g'
    ensures forall n :: n in e3 && Matches(n, prefix, ".done") ==> n == done
  {
    forall n | n in e3 && Matches(n, prefix, ".done")
      ensures n == done
    {
      LastChar(n, ".done");
    }
  }

  /** The done file of a scattered job that returned a tree is merged, into an output file that was removed. */
  lemma MergeReady(e: map<string, Content>, id: string, rec: Shelf, t: Tree, tag: string, outfile: string)
    requires Stem(id) && "identifier" in rec && rec["identifier"] == StrV(id) && "tag" in rec && rec["tag"] == StrV(tag)
    requires Canon(DoneFileOf(id)) in e && e[Canon(DoneFileOf(id))] == Db(rec["retval" := DictV(t)])
    requires Canon(outfile) !in e
    ensures Classify(e, [id], Canon(DoneFileOf(id))) == Merge(id, tag, t)
    ensures OutContents(e, outfile) == Ok(map[])
  {
    var f := Canon(DoneFileOf(id));
    var s := rec["retval" := DictV(t)];
    CollapseIdempotent(DoneFileOf(id));
    assert Canon(f) == f;
    assert ShelfAt(e, f) == Ok(s);
    assert s["identifier"] == StrV(id) && s["tag"] == StrV(tag) && s["retval"] == DictV(t);
  }

  /** What the worker's call returns for a scattered call: the function on the stored fields, without the tag. */
  function Returned(exec: ProcessDaemon.JobExec, funcname: string, args: seq<Value>, kw: KwArgs): Result<Value>
  {
    exec(StrV(funcname), TupleV(args), DictV(KwDict(KwDel(kw, ExecuteKey))))
  }

  /** The output file is neither the job's done file nor its log. */
  predicate OutApart(outfile: string, id: string)
  {
    Canon(outfile) != Canon(DoneFileOf(id)) && Canon(outfile) != Canon(LogFileOf(id))
  }

  /**
   * The doctest's round trip for one call: scatter it under a tag, let a
   * worker process its job file, then run `gather`'s pass -- whose glob,
   * `dones`, finds exactly this job's done file when the call returned --
   * and read the group `path/tag` of the output file.  A call returning a
   * plain tree with arrays leaves nothing pending and reads back as the
   * tree's arrays; a call that raises leaves no done file, and the
   * identifier stays pending.
   */
  method ScatterRunGather(e0: map<string, Content>, funcname: string, args: seq<Value>, kw: KwArgs,
                          digest: CallKey -> string, readable: ReadableCall, exec: ProcessDaemon.JobExec,
                          outfile: string, path: string)
    returns (dones: set<string>, pending: seq<string>, r: Result<Tree>)
    requires ExecuteKey in Keys(kw) && KwGet(kw, ExecuteKey).value.StrV?
    requires Stem(Identifier(digest, funcname, args, kw))
    requires Glob(e0, ProcessDaemon.JobPrefix, ".done") == {}
    requires OutApart(outfile, Identifier(digest, funcname, args, kw))
    ensures Returned(exec, funcname, args, kw).Err? ==>
              dones == {} && pending == [Identifier(digest, funcname, args, kw)]
    ensures Returned(exec, funcname, args, kw).Ok? ==>
              dones == {Canon(DoneFileOf(Identifier(digest, funcname, args, kw)))}
    ensures Returned(exec, funcname, args, kw).Ok? && Returned(exec, funcname, args, kw).value.DictV?
            && PlainV(Returned(exec, funcname, args, kw).value)
            && |Leaves(Returned(exec, funcname, args, kw).value.entries)| > 0 ==>
              pending == [] && r == Ok(Build(Leaves(Returned(exec, funcname, args, kw).value.entries)))
  {
    var id := Identifier(digest, funcname, args, kw);
    var tag := KwGet(kw, ExecuteKey).value.s;
    var dir := new Directory(e0, {});
    var sg := new Scatterer(funcname);
    JobNamesOf(id);
    MatchesBuilt(ProcessDaemon.JobPrefix, id, ".done");
    sg.Scatter(args, kw, digest, readable, dir);
    assert Cleared(e0, id) == e0;
    var job := JobFile(id);
    ghost var e1 := dir.entries;
    var _ := ProcessDaemon.ProcessJob(job, exec, dir);
    ProcessDaemon.JobOutcome(e1, job, exec);
    ghost var e2 := dir.entries;
    var _ := dir.Remove(outfile);
    dones := Glob(dir.entries, ProcessDaemon.JobPrefix, ".done");
    ghost var rec := JobRecord(funcname, args, kw, id, readable(funcname, args, kw));
    assert ProcessDaemon.Call(exec, rec) == Returned(exec, funcname, args, kw);
    assert e1 == e0[Canon(job) := Db(rec)];
    DonesAfterJob(e0, e1, dir.entries, id, rec, exec, outfile);
    pending := sg.callStack;
    r := Err(IOError);
    if dones != {} {
      var f := Canon(DoneFileOf(id));
      ghost var ret := Returned(exec, funcname, args, kw);
      ghost var good := ret.Ok? && ret.value.DictV? && PlainV(ret.value) && |Leaves(ret.value.entries)| > 0;
      ghost var t := if good then ret.value.entries else map[];
      if good {
        MergeReady(dir.entries, id, rec, t, tag, outfile);
      }
      pending, r := GatherScattered(sg, dir, id, tag, good, t, outfile, path);
    }
  }

  /**
   * `gather`'s handling of the one done file of a scattered call, with an
   * empty output file: its arrays are placed under `path/tag`, read back
   * as the call's plain tree, and the identifier leaves the call stack.
   */
  method GatherScattered(sg: Scatterer, dir: Directory, id: string, tag: string, ghost good: bool, ghost t: Tree,
                         outfile: string, path: string)
    returns (pending: seq<string>, r: Result<Tree>)
    modifies sg, dir
    requires Stem(id) && OutApart(outfile, id)
    requires good ==> sg.callStack == [id] && Classify(dir.entries, [id], Canon(DoneFileOf(id))) == Merge(id, tag, t)
                      && OutContents(dir.entries, outfile) == Ok(map[])
                      && PlainV(DictV(t)) && |Leaves(t)| > 0
    ensures good ==> pending == [] && r == Ok(Build(Leaves(t)))
  {
    var f := Canon(DoneFileOf(id));
    ghost var w := H5Path(path + "/" + tag);
    CleanEmpty();
    VacantEmpty(w, t);
    ghost var e3 := dir.entries;
    ghost var written;
    var g;
    g, written := sg.GatherOne(f, outfile, path, dir);
    pending := sg.callStack;
    if good {
      assert g != Err(RuntimeError);
      assert pending == Without([id], {id});
      assert dir.entries == MergedEntries(e3, f, outfile, written, id);
      ReadBack(written, w, t);
    }
    r := Err(IOError);
    if Canon(outfile) in dir.entries && dir.entries[Canon(outfile)].H5? {
      r := ConvertHdf5DictTree(dir.entries[Canon(outfile)].tree, path + "/" + tag);
    }
  }
}
