/**
 * The older top-level job daemon.  Its worker loop is the one of
 * `ProcessDaemon` (rename to `.run`, store `retval`, rename to `.done`,
 * write the log, carry on after an exception).  It differs in the polling
 * pass, which looks for `*.job` files in the working directory and queues
 * every one of them on every pass without renaming it, and in its kill
 * file, which is named as given; and it has a function wrapper that pairs
 * the argument package with the result.
 */
module ProcessDaemonLegacy {
  import opened PyValues
  import opened Strings
  import opened Storage
  import ProcessDaemon

  /** `args_package = (execute_key, funcname, args, kwargs)`. */
  datatype Package = Package(tag: Value, funcname: Value, args: Value, kwargs: Value)

  /**
   * `_function_wrapper(args_package)`: the package paired with what the
   * call returns, so a caller can tell results apart by the package's
   * execute key; an exception of the call propagates.
   */
  function FunctionWrapper(p: Package, exec: ProcessDaemon.JobExec): (r: Result<(Package, Value)>)
    ensures r.Ok? <==> exec(p.funcname, p.args, p.kwargs).Ok?
    ensures r.Ok? ==> r.value.0 == p && r.value.1 == exec(p.funcname, p.args, p.kwargs).value
    ensures r.Err? ==> r.error == exec(p.funcname, p.args, p.kwargs).error
  {
    match exec(p.funcname, p.args, p.kwargs)
    case Ok(v) => Ok((p, v))
    case Err(err) => Err(err)
  }

  // ---------------------------------------------------------------------
  // start_workers: one pass of the polling loop

  /** `glob.glob('*.job')`: the job files of the working directory. */
  function JobFiles(e: map<string, Content>): (r: set<string>)
    ensures forall j :: j in r <==> j in e && Matches(j, "", ".job")
  {
    Glob(e, "", ".job")
  }

  /** `added` queues each of `jobs` exactly once and nothing else. */
  ghost predicate EnqueuedOnce(added: seq<Option<string>>, jobs: set<string>)
  {
    forall x :: multiset(added)[x] == if x.Some? && x.value in jobs then 1 else 0
  }

  lemma EnqueueOnceStep(added: seq<Option<string>>, jobs: set<string>, j: string)
    requires EnqueuedOnce(added, jobs) && j !in jobs
    ensures EnqueuedOnce(added + [Some(j)], jobs + {j})
  {
    assert multiset(added + [Some(j)]) == multiset(added) + multiset{Some(j)};
  }

  /**
   * One pass of `start_workers`' loop: with the kill file present, queue
   * one sentinel per worker, remove the kill file and stop; otherwise
   * queue every job file once, in the glob's order, and leave the
   * directory as it is.
   */
  method DaemonPass(killfile: string, nWorker: nat, queue: seq<Option<string>>, dir: Directory)
    returns (q: seq<Option<string>>, stop: bool)
    modifies dir
    ensures stop <==> Canon(killfile) in old(dir.entries)
    ensures stop ==> q == queue + ProcessDaemon.Nones(nWorker) && dir.entries == old(dir.entries) - {Canon(killfile)}
    ensures !stop ==> dir.entries == old(dir.entries) && |q| >= |queue| && q[..|queue|] == queue
                      && EnqueuedOnce(q[|queue|..], JobFiles(old(dir.entries)))
    ensures dir.dirs == old(dir.dirs)
  {
    if Canon(killfile) in dir.entries {
      q := queue + ProcessDaemon.Nones(nWorker);
      var _ := dir.Remove(killfile);
      stop := true;
      return;
    }
    stop := false;
    var jobs := JobFiles(dir.entries);
    var todo := jobs;
    var added: seq<Option<string>> := [];
    assert jobs - todo == {};
    while todo != {}
      invariant todo <= jobs
      invariant EnqueuedOnce(added, jobs - todo)
      invariant dir.entries == old(dir.entries) && dir.dirs == old(dir.dirs)
      decreases |todo|
    {
      var j :| j in todo;
      EnqueueOnceStep(added, jobs - todo, j);
      assert jobs - (todo - {j}) == (jobs - todo) + {j};
      added := added + [Some(j)];
      todo := todo - {j};
    }
    q := queue + added;
    assert q[..|queue|] == queue && q[|queue|..] == added;
    assert jobs - todo == jobs;
  }

  /** The items queued by consecutive passes, in order. */
  function Concat(passes: seq<seq<Option<string>>>): seq<Option<string>>
  {
    if |passes| == 0 then [] else Concat(passes[..|passes| - 1]) + passes[|passes| - 1]
  }

  /**
   * A job file that stays in the directory is queued once per pass: after
   * `n` passes that each queued the same job files, the queue holds it
   * `n` times.
   */
  lemma {:induction false} RepeatedEnqueue(passes: seq<seq<Option<string>>>, jobs: set<string>, j: string)
    requires forall i :: 0 <= i < |passes| ==> EnqueuedOnce(passes[i], jobs)
    requires j in jobs
    ensures multiset(Concat(passes))[Some(j)] == |passes|
  {
    if |passes| > 0 {
      var init := passes[..|passes| - 1];
      assert forall i :: 0 <= i < |init| ==> init[i] == passes[i];
      RepeatedEnqueue(init, jobs, j);
      assert multiset(Concat(passes)) == multiset(Concat(init)) + multiset(passes[|passes| - 1]);
    }
  }

  /**
   * Only a worker's rename ends the requeueing: once a worker has taken a
   * job file of the working directory, whatever the job's outcome, the
   * next pass no longer finds it.
   */
  lemma TakenNotRequeued(e: map<string, Content>, j: string, exec: ProcessDaemon.JobExec)
    requires j in e && Matches(j, "", ".job")
    ensures j in JobFiles(e)
    ensures j !in JobFiles(ProcessDaemon.JobEffect(e, j, exec).0)
  {
    var stem := j[..|j| - 4];
    assert j == "" + stem + ".job";
    SplitExtOf("", stem, ".job");
    assert '/' !in j by {
      forall i | 0 <= i < |j|
        ensures j[i] != '/'
      {
        if i < |stem| { assert j[i] == stem[i]; } else { assert j[i] == ".job"[i - |stem|]; }
      }
    }
    NoSlashCanon(j);
    ProcessDaemon.CanonAppend(stem, ".run");
    ProcessDaemon.CanonAppend(stem, ".done");
    ProcessDaemon.CanonAppend(stem, ".log");
    var c := Canon(stem);
    assert j[|j| - 1] == 'b';
    assert (c + ".run")[|c| + 3] == 'n' && (c + ".done")[|c| + 4] == 'e' && (c + ".log")[|c| + 3] == 'g';
    JobFileGone(e, j, exec);
  }

  /** The worker moves the job file away and adds only the run, done and log files. */
  lemma JobFileGone(e: map<string, Content>, job: string, exec: ProcessDaemon.JobExec)
    requires Canon(job) in e
    requires Canon(job) != Canon(ProcessDaemon.RunName(job)) && Canon(job) != Canon(ProcessDaemon.DoneFile(job))
             && Canon(job) != Canon(ProcessDaemon.LogName(job))
    ensures Canon(job) !in ProcessDaemon.JobEffect(e, job, exec).0
  {
  }

  /** A name without slashes is its own canonical form. */
  lemma NoSlashCanon(s: string)
    requires '/' !in s
    ensures Canon(s) == s
  {
    CollapseNoDouble(s);
  }
}
