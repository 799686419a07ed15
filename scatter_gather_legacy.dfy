/**
 * The older top-level `ScatterGather`: `scatter` writes one job file per
 * keyed call and stacks its identifier, without first clearing a lurking
 * finished job; `gather` is a stub.  Two names it reads do not exist in
 * the top-level modules it imports: `utils.readable_call` (the top-level
 * `utils` defines no such function) and `pd.job_directory` (it belongs to
 * the newer daemon module).  The first of them is reached first.
 */
module ScatterGatherLegacy {
  import opened PyValues
  import opened Storage
  import opened CallIdentity
  import opened ScatterGather

  /** `"%s/%s.job" % (job_directory, identifier)` for a given job directory. */
  function JobFileIn(jobDir: string, id: string): string { jobDir + "/" + id + ".job" }

  class Scatterer {
    const funcname: string
    /** `self.call_stack`: the identifiers of the scattered calls. */
    var callStack: seq<string>

    constructor(funcname: string)
      ensures this.funcname == funcname && callStack == []
    {
      this.funcname := funcname;
      callStack := [];
    }

    /**
     * `scatter` as written: without the execute key it returns at once;
     * with it, the identifier is computed and then the missing function
     * `readable_call` of the imported `utils` raises AttributeError, before
     * any file is written or the stack grows.
     */
    method ScatterAsWritten(args: seq<Value>, kw: KwArgs, digest: CallKey -> string, readable: ReadableCall)
      returns (r: Result<()>)
      ensures r == if ExecuteKey in Keys(kw) then Err(AttributeError) else Ok(())
    {
      if ExecuteKey !in Keys(kw) {
        return Ok(());
      }
      var identifier := Identifier(digest, funcname, args, kw);
      r := Err(AttributeError);
    }

    /**
     * `scatter` with the job directory it means, `jobDir`: a call without
     * the execute key changes nothing; otherwise the job file is created
     * afresh (shelve mode `"n"`) with the call's record, whatever was there,
     * and exactly one identifier is stacked.
     */
    method Scatter(args: seq<Value>, kw: KwArgs, digest: CallKey -> string, readable: ReadableCall,
                   jobDir: string, dir: Directory)
      modifies this, dir
      ensures ExecuteKey !in Keys(kw) ==> callStack == old(callStack) && dir.entries == old(dir.entries)
      ensures ExecuteKey in Keys(kw) ==>
                callStack == old(callStack) + [Identifier(digest, funcname, args, kw)]
                && dir.entries == old(dir.entries)[Canon(JobFileIn(jobDir, Identifier(digest, funcname, args, kw))) :=
                     Db(JobRecord(funcname, args, kw, Identifier(digest, funcname, args, kw), readable(funcname, args, kw)))]
      ensures dir.dirs == old(dir.dirs)
    {
      if ExecuteKey !in Keys(kw) {
        return;
      }
      var identifier := Identifier(digest, funcname, args, kw);
      var call := readable(funcname, args, kw);
      var jobfileName := JobFileIn(jobDir, identifier);
      dir.Write(jobfileName, Db(JobRecord(funcname, args, kw, identifier, call)));
      callStack := callStack + [identifier];
    }
  }

  /**
   * The doctest's calls as written: one call without the key and two keyed
   * calls leave the stack empty, the keyed ones failing.
   */
  method DoctestAsWritten(funcname: string, a1: seq<Value>, kw1: KwArgs, a2: seq<Value>, kw2: KwArgs,
                          digest: CallKey -> string, readable: ReadableCall)
    returns (r1: Result<()>, r2: Result<()>, stack: seq<string>)
    requires ExecuteKey !in Keys(kw1) && ExecuteKey in Keys(kw2)
    ensures r1 == Ok(()) && r2 == Err(AttributeError)
    ensures stack == []
  {
    var sg := new Scatterer(funcname);
    r1 := sg.ScatterAsWritten(a1, kw1, digest, readable);
    r2 := sg.ScatterAsWritten(a2, kw2, digest, readable);
    stack := sg.callStack;
  }

  /**
   * The doctest's calls with `readable_call` given and the job directory
   * in place: the call without the key is ignored, the keyed ones each
   * stack their identifier in call order, and the last job file holds the
   * last call's record.
   */
  method DoctestScattered(funcname: string, a1: seq<Value>, kw1: KwArgs, a2: seq<Value>, kw2: KwArgs,
                          a3: seq<Value>, kw3: KwArgs, digest: CallKey -> string, readable: ReadableCall,
                          jobDir: string, e0: map<string, Content>)
    returns (stack: seq<string>, e: map<string, Content>)
    requires ExecuteKey !in Keys(kw1) && ExecuteKey in Keys(kw2) && ExecuteKey in Keys(kw3)
    ensures stack == [Identifier(digest, funcname, a2, kw2), Identifier(digest, funcname, a3, kw3)]
    ensures Canon(JobFileIn(jobDir, Identifier(digest, funcname, a3, kw3))) in e
    ensures e[Canon(JobFileIn(jobDir, Identifier(digest, funcname, a3, kw3)))]
            == Db(JobRecord(funcname, a3, kw3, Identifier(digest, funcname, a3, kw3), readable(funcname, a3, kw3)))
    ensures Canon(JobFileIn(jobDir, Identifier(digest, funcname, a2, kw2))) in e
    ensures forall n :: n in e0 ==> n in e
  {
    var dir := new Directory(e0, {});
    var sg := new Scatterer(funcname);
    sg.Scatter(a1, kw1, digest, readable, jobDir, dir);
    ScatterTwo(sg, a2, kw2, a3, kw3, digest, readable, jobDir, dir);
    stack := sg.callStack;
    e := dir.entries;
  }

  /** Two keyed calls in a row: both identifiers stacked in order, both job files present, the second one's record last. */
  method ScatterTwo(sg: Scatterer, a2: seq<Value>, kw2: KwArgs, a3: seq<Value>, kw3: KwArgs,
                    digest: CallKey -> string, readable: ReadableCall, jobDir: string, dir: Directory)
    requires ExecuteKey in Keys(kw2) && ExecuteKey in Keys(kw3)
    modifies sg, dir
    ensures sg.callStack == old(sg.callStack) + [Identifier(digest, sg.funcname, a2, kw2), Identifier(digest, sg.funcname, a3, kw3)]
    ensures Canon(JobFileIn(jobDir, Identifier(digest, sg.funcname, a3, kw3))) in dir.entries
    ensures dir.entries[Canon(JobFileIn(jobDir, Identifier(digest, sg.funcname, a3, kw3)))]
            == Db(JobRecord(sg.funcname, a3, kw3, Identifier(digest, sg.funcname, a3, kw3), readable(sg.funcname, a3, kw3)))
    ensures Canon(JobFileIn(jobDir, Identifier(digest, sg.funcname, a2, kw2))) in dir.entries
    ensures forall n :: n in old(dir.entries) ==> n in dir.entries
  {
    ghost var e0 := dir.entries;
    sg.Scatter(a2, kw2, digest, readable, jobDir, dir);
    ghost var e2 := dir.entries;
    sg.Scatter(a3, kw3, digest, readable, jobDir, dir);
    TwoWrites(e0, e2, dir.entries, Canon(JobFileIn(jobDir, Identifier(digest, sg.funcname, a2, kw2))),
              Canon(JobFileIn(jobDir, Identifier(digest, sg.funcname, a3, kw3))));
  }

  /** Two successive writes keep every earlier name and the second write's content. */
  lemma TwoWrites<V>(e0: map<string, V>, e2: map<string, V>, e: map<string, V>, k2: string, k3: string)
    requires e2.Keys == e0.Keys + {k2}
    requires k3 in e && e.Keys == e2.Keys + {k3}
    ensures k2 in e && forall n :: n in e0 ==> n in e
  {
  }
}
