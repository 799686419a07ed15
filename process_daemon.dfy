/**
 * The job daemon of the `process_tools` package.  A job is a shelve file
 * `<id>.job` in the job directory; the daemon's scan renames it to
 * `<id>.queue` and queues that name, a worker renames it to `<id>.run`,
 * runs the stored call, stores the return value, renames it to
 * `<id>.done` and writes `<id>.log`.  A kill file in the job directory
 * makes the daemon queue one shutdown sentinel per worker and stop.
 */
module ProcessDaemon {
  import opened PyValues
  import opened Strings
  import opened Storage

  /** `job_directory`. */
  const JobDirectory: string := "./jobs/"

  /** The directory part the job-file glob puts before each name it returns. */
  const JobPrefix: string := "./jobs/"

  /** `utils.func_exec(funcname, args, kwargs)` on the stored values; an exception is an error. */
  type JobExec = (Value, Value, Value) -> Result<Value>

  function Base(job: string): string { SplitExt(job).0 }

  function RunName(job: string): string { Base(job) + ".run" }

  function DoneFile(job: string): string { Base(job) + ".done" }

  function LogName(job: string): string { Base(job) + ".log" }

  /** The job file holds a readable spec with the three call fields. */
  predicate Readable(e: map<string, Content>, job: string)
  {
    Canon(job) in e && e[Canon(job)].Db?
    && "funcname" in e[Canon(job)].shelf && "args" in e[Canon(job)].shelf && "kwargs" in e[Canon(job)].shelf
  }

  function Spec(e: map<string, Content>, job: string): Shelf
    requires Readable(e, job)
  {
    e[Canon(job)].shelf
  }

  function Call(exec: JobExec, s: Shelf): Result<Value>
    requires "funcname" in s && "args" in s && "kwargs" in s
  {
    exec(s["funcname"], s["args"], s["kwargs"])
  }

  /**
   * What `process_job(job)` does to the directory, and how it ends: rename
   * to `.run`, read the spec, run the call, store `retval`, rename to
   * `.done`, write the log.  An error stops the sequence where it occurs.
   */
  function JobEffect(e: map<string, Content>, job: string, exec: JobExec): (map<string, Content>, Result<()>)
  {
    if Canon(job) !in e then (e, Err(OSError))
    else
      var moved := (e - {Canon(job)})[Canon(RunName(job)) := e[Canon(job)]];
      if !e[Canon(job)].Db? then (moved, Err(DbError))
      else if !Readable(e, job) then (moved, Err(KeyError))
      else match Call(exec, Spec(e, job))
        case Err(err) => (moved, Err(err))
        case Ok(v) =>
          var stored := moved[Canon(RunName(job)) := Db(Spec(e, job)["retval" := v])];
          var finished := (stored - {Canon(RunName(job))})[Canon(DoneFile(job)) := Db(Spec(e, job)["retval" := v])];
          (finished[Canon(LogName(job)) := Marker], Ok(()))
  }

  /** `process_job(job_filename)`. */
  method ProcessJob(job: string, exec: JobExec, dir: Directory) returns (r: Result<()>)
    modifies dir
    ensures (dir.entries, r) == JobEffect(old(dir.entries), job, exec)
    ensures dir.dirs == old(dir.dirs)
  {
    var basename := SplitExt(job).0;
    var logFilename := basename + ".log";
    var runFilename := basename + ".run";
    var doneFilename := basename + ".done";
    ghost var e := dir.entries;
    r := dir.Rename(job, runFilename);
    if r.Err? {
      return;
    }
    ghost var moved := dir.entries;
    assert moved[Canon(runFilename)] == e[Canon(job)];
    var jobspec := ShelfAt(dir.entries, runFilename);
    if jobspec.Err? {
      assert !e[Canon(job)].Db?;
      assert JobEffect(e, job, exec) == (moved, Err(DbError));
      return Err(DbError);
    }
    assert e[Canon(job)] == Db(jobspec.value);
    if "funcname" !in jobspec.value || "args" !in jobspec.value || "kwargs" !in jobspec.value {
      assert JobEffect(e, job, exec) == (moved, Err(KeyError));
      return Err(KeyError);
    }
    assert Readable(e, job) && Spec(e, job) == jobspec.value;
    var retval := exec(jobspec.value["funcname"], jobspec.value["args"], jobspec.value["kwargs"]);
    assert retval == Call(exec, Spec(e, job));
    if retval.Err? {
      assert JobEffect(e, job, exec) == (moved, Err(retval.error));
      return Err(retval.error);
    }
    dir.Write(runFilename, Db(jobspec.value["retval" := retval.value]));
    r := dir.Rename(runFilename, doneFilename);
    dir.Write(logFilename, Marker);
  }

  /** Appending a slash-free suffix commutes with collapsing slashes. */
  lemma CanonAppend(s: string, suffix: string)
    requires '/' !in suffix
    ensures Canon(s + suffix) == Canon(s) + suffix
  {
    CollapseAppend(s, suffix);
  }

  /** The run, done and log names of a job are three different files. */
  lemma JobNamesDistinct(job: string)
    ensures Canon(RunName(job)) != Canon(DoneFile(job))
    ensures Canon(RunName(job)) != Canon(LogName(job))
    ensures Canon(DoneFile(job)) != Canon(LogName(job))
  {
    CanonAppend(Base(job), ".run");
    CanonAppend(Base(job), ".done");
    CanonAppend(Base(job), ".log");
    var c := Canon(Base(job));
    assert (c + ".run")[|c| + 1] == 'r' && (c + ".done")[|c| + 1] == 'd' && (c + ".log")[|c| + 1] == 'l';
  }

  /**
   * How a job ends.  It succeeds exactly when its file exists and holds a
   * readable spec whose call returns; then the done file holds the spec
   * with `retval`, the run file is gone and the log exists.  When the call
   * raises, the spec stays, unchanged, at the run name and no done file
   * appears.  No other file changes.
   */
  lemma JobOutcome(e: map<string, Content>, job: string, exec: JobExec)
    ensures JobEffect(e, job, exec).1.Ok? <==> Readable(e, job) && Call(exec, Spec(e, job)).Ok?
    ensures JobEffect(e, job, exec).1.Ok? ==>
              var e2 := JobEffect(e, job, exec).0;
              Canon(DoneFile(job)) in e2 && e2[Canon(DoneFile(job))] == Db(Spec(e, job)["retval" := Call(exec, Spec(e, job)).value])
              && Canon(RunName(job)) !in e2
              && Canon(LogName(job)) in e2
    ensures Readable(e, job) && Call(exec, Spec(e, job)).Err? ==>
              var e2 := JobEffect(e, job, exec).0;
              Canon(RunName(job)) in e2 && e2[Canon(RunName(job))] == e[Canon(job)]
              && (Canon(DoneFile(job)) in e2 ==> Canon(DoneFile(job)) in e)
    ensures Canon(job) !in e ==> JobEffect(e, job, exec) == (e, Err(OSError))
    ensures forall n :: n in JobEffect(e, job, exec).0 && n != Canon(RunName(job)) && n != Canon(DoneFile(job)) && n != Canon(LogName(job))
              ==> n in e && JobEffect(e, job, exec).0[n] == e[n]
    ensures forall n :: n in e && n != Canon(job) && n != Canon(RunName(job)) && n != Canon(DoneFile(job)) && n != Canon(LogName(job))
              ==> n in JobEffect(e, job, exec).0
  {
    JobNamesDistinct(job);
  }

  // ---------------------------------------------------------------------
  // Worker.run

  /** The position of the first shutdown sentinel, or the length when there is none. */
  function FirstNone(queue: seq<Option<string>>): (i: nat)
    ensures i <= |queue|
    ensures i < |queue| ==> queue[i].None?
    ensures forall j :: 0 <= j < i ==> queue[j].Some?
  {
    if |queue| == 0 || queue[0].None? then 0 else 1 + FirstNone(queue[1..])
  }

  function Jobs(queue: seq<Option<string>>): (jobs: seq<string>)
    requires forall j :: 0 <= j < |queue| ==> queue[j].Some?
    ensures |jobs| == |queue| && forall j :: 0 <= j < |queue| ==> queue[j] == Some(jobs[j])
  {
    seq(|queue|, j requires 0 <= j < |queue| && queue[j].Some? => queue[j].value)
  }

  /** The directory after the jobs ran one after the other, whatever each one's outcome. */
  function RunJobs(e: map<string, Content>, jobs: seq<string>, exec: JobExec): map<string, Content>
    decreases |jobs|
  {
    if |jobs| == 0 then e
    else RunJobs(JobEffect(e, jobs[0], exec).0, jobs[1..], exec)
  }

  /**
   * How a worker's loop ends: at a shutdown sentinel; because a job raised
   * SystemExit, which `except Exception` does not catch; or, in the model,
   * because the given queue ran out.
   */
  datatype WorkerEnd = Shutdown | Exited | Waiting

  /** `Worker.run` over a given queue: the directory, how the loop ends, and the queue items left. */
  function Work(e: map<string, Content>, queue: seq<Option<string>>, exec: JobExec)
    : (map<string, Content>, WorkerEnd, seq<Option<string>>)
    decreases |queue|
  {
    if |queue| == 0 then (e, Waiting, [])
    else if queue[0].None? then (e, Shutdown, queue[1..])
    else
      var (e2, res) := JobEffect(e, queue[0].value, exec);
      if res == Err(SystemExit) then (e2, Exited, queue[1..])
      else Work(e2, queue[1..], exec)
  }

  /** How many jobs the worker takes off the queue. */
  function Taken(e: map<string, Content>, queue: seq<Option<string>>, exec: JobExec): nat
    decreases |queue|
  {
    if |queue| == 0 || queue[0].None? then 0
    else
      var (e2, res) := JobEffect(e, queue[0].value, exec);
      if res == Err(SystemExit) then 1 else 1 + Taken(e2, queue[1..], exec)
  }

  /**
   * The worker takes every job up to the first sentinel, whatever their
   * outcome, unless a job raising SystemExit ends it early; it stops at the
   * sentinel and leaves what follows it in the queue.
   */
  lemma {:induction false} WorkEnds(e: map<string, Content>, queue: seq<Option<string>>, exec: JobExec)
    ensures Taken(e, queue, exec) <= FirstNone(queue)
    ensures Work(e, queue, exec).1 == Exited ==> Work(e, queue, exec).2 == queue[Taken(e, queue, exec)..]
    ensures Work(e, queue, exec).1 != Exited ==>
              Taken(e, queue, exec) == FirstNone(queue)
              && (Work(e, queue, exec).1 == Shutdown <==> FirstNone(queue) < |queue|)
              && Work(e, queue, exec).2 == (if FirstNone(queue) < |queue| then queue[FirstNone(queue) + 1..] else [])
    decreases |queue|
  {
    if |queue| > 0 && queue[0].Some? {
      var (e2, res) := JobEffect(e, queue[0].value, exec);
      if res != Err(SystemExit) {
        var tail := queue[1..];
        WorkEnds(e2, tail, exec);
        assert queue[Taken(e2, tail, exec) + 1..] == tail[Taken(e2, tail, exec)..];
        assert FirstNone(queue) < |queue| ==> queue[FirstNone(queue) + 1..] == tail[FirstNone(tail) + 1..];
      }
    }
  }

  /** The directory the worker leaves is that of the jobs it took, run in order. */
  lemma {:induction false} WorkRunsJobs(e: map<string, Content>, queue: seq<Option<string>>, exec: JobExec)
    ensures Taken(e, queue, exec) <= FirstNone(queue)
    ensures Work(e, queue, exec).0 == RunJobs(e, Jobs(queue[..Taken(e, queue, exec)]), exec)
    decreases |queue|
  {
    if |queue| > 0 && queue[0].Some? {
      var (e2, res) := JobEffect(e, queue[0].value, exec);
      if res != Err(SystemExit) {
        WorkRunsJobs(e2, queue[1..], exec);
        RunJobsCons(e, queue, Taken(e2, queue[1..], exec) + 1, exec);
      }
    }
  }

  /** The outcome of the `j`-th queued job when the worker runs the jobs before it first. */
  function NthOutcome(e: map<string, Content>, queue: seq<Option<string>>, j: nat, exec: JobExec): Result<()>
    requires j < FirstNone(queue)
  {
    JobEffect(RunJobs(e, Jobs(queue[..j]), exec), queue[j].value, exec).1
  }

  /** The `j`-th job's outcome seen from the state after the first job. */
  lemma NthOutcomeCons(e: map<string, Content>, queue: seq<Option<string>>, j: nat, exec: JobExec)
    requires 1 <= j < FirstNone(queue)
    ensures NthOutcome(e, queue, j, exec)
            == NthOutcome(JobEffect(e, queue[0].value, exec).0, queue[1..], j - 1, exec)
  {
    RunJobsCons(e, queue, j, exec);
    assert queue[j] == queue[1..][j - 1];
  }

  /** The worker ends with Exited exactly when the last job it took raised SystemExit. */
  lemma {:induction false} WorkExitsAt(e: map<string, Content>, queue: seq<Option<string>>, exec: JobExec)
    ensures Taken(e, queue, exec) <= FirstNone(queue)
    ensures Work(e, queue, exec).1 == Exited <==>
              Taken(e, queue, exec) > 0 && NthOutcome(e, queue, Taken(e, queue, exec) - 1, exec) == Err(SystemExit)
    decreases |queue|
  {
    if |queue| > 0 && queue[0].Some? {
      var (e2, res) := JobEffect(e, queue[0].value, exec);
      if res != Err(SystemExit) {
        WorkExitsAt(e2, queue[1..], exec);
        var t := Taken(e2, queue[1..], exec);
        if t > 0 {
          NthOutcomeCons(e, queue, t, exec);
        }
      }
    }
  }

  /** Every job the worker took before the last one had an outcome other than SystemExit. */
  lemma {:induction false} WorkCarriesOn(e: map<string, Content>, queue: seq<Option<string>>, exec: JobExec)
    ensures Taken(e, queue, exec) <= FirstNone(queue)
    ensures forall j :: 0 <= j < Taken(e, queue, exec) - 1 ==> NthOutcome(e, queue, j, exec) != Err(SystemExit)
    decreases |queue|
  {
    if |queue| > 0 && queue[0].Some? {
      var (e2, res) := JobEffect(e, queue[0].value, exec);
      if res != Err(SystemExit) {
        WorkCarriesOn(e2, queue[1..], exec);
        forall j | 1 <= j < Taken(e, queue, exec) - 1
          ensures NthOutcome(e, queue, j, exec) != Err(SystemExit)
        {
          NthOutcomeCons(e, queue, j, exec);
        }
      }
    }
  }

  /** Running the first `k` queued jobs is running the first one, then the next `k - 1`. */
  lemma RunJobsCons(e: map<string, Content>, queue: seq<Option<string>>, k: nat, exec: JobExec)
    requires 1 <= k <= FirstNone(queue)
    ensures RunJobs(e, Jobs(queue[..k]), exec)
            == RunJobs(JobEffect(e, queue[0].value, exec).0, Jobs(queue[1..][..k - 1]), exec)
  {
    assert Jobs(queue[..k])[1..] == Jobs(queue[1..][..k - 1]);
  }

  /**
   * `Worker.run`: take queue items in order and process each job, carrying
   * on after a failed one; return at the first sentinel, and end at a job
   * that raised SystemExit.  `rest` is what is left in the queue.
   */
  method WorkerRun(queue: seq<Option<string>>, exec: JobExec, dir: Directory)
    returns (end: WorkerEnd, rest: seq<Option<string>>)
    modifies dir
    ensures (dir.entries, end, rest) == Work(old(dir.entries), queue, exec)
    ensures dir.dirs == old(dir.dirs)
  {
    var i := 0;
    while i < |queue|
      invariant 0 <= i <= |queue|
      invariant Work(old(dir.entries), queue, exec) == Work(dir.entries, queue[i..], exec)
      invariant dir.dirs == old(dir.dirs)
    {
      assert queue[i..][1..] == queue[i + 1..];
      if queue[i].None? {
        return Shutdown, queue[i + 1..];
      }
      var r := ProcessJob(queue[i].value, exec, dir);
      if r == Err(SystemExit) {
        return Exited, queue[i + 1..];
      }
      i := i + 1;
    }
    return Waiting, [];
  }

  // ---------------------------------------------------------------------
  // start_workers: one pass of the polling loop

  /** `kill_watchfile`. */
  function KillFile(killfile: string): string { JobDirectory + "/" + killfile }

  /** `n_worker` shutdown sentinels. */
  function Nones(n: nat): (s: seq<Option<string>>)
    ensures |s| == n && forall i :: 0 <= i < n ==> s[i].None?
  {
    seq(n, _ => None)
  }

  function QueueName(job: string): string { Base(job) + ".queue" }

  /** The job files a scan moves to the queue: every `*.job` but those shelve is still writing (`__db.`). */
  function Eligible(e: map<string, Content>): (r: set<string>)
    ensures forall j :: j in r <==> j in Glob(e, JobPrefix, ".job") && !Contains(j, "__db.")
  {
    set j | j in Glob(e, JobPrefix, ".job") && !Contains(j, "__db.")
  }

  /** A globbed job file keeps its name up to the extension, and its queue name is canonical and ends in `.queue`. */
  lemma QueueNameOf(j: string)
    requires Matches(j, JobPrefix, ".job") && Canon(j) == j
    ensures Base(j) == j[..|j| - 4]
    ensures QueueName(j) == j[..|j| - 4] + ".queue"
    ensures Canon(QueueName(j)) == QueueName(j)
    ensures EndsWith(QueueName(j), ".queue")
  {
    var stem := j[|JobPrefix|..|j| - 4];
    assert j == JobPrefix + stem + ".job";
    SplitExtOf(JobPrefix, stem, ".job");
    assert JobPrefix + stem == j[..|j| - 4];
    var b := j[..|j| - 4];
    assert NoDoubleSlash(b) by {
      assert NoDoubleSlash(Canon(j));
      forall i | 0 <= i < |b| - 1 ensures !(b[i] == '/' && b[i + 1] == '/') {
        assert b[i] == j[i] && b[i + 1] == j[i + 1];
      }
    }
    CollapseNoDouble(b);
    CanonAppend(b, ".queue");
    var q := b + ".queue";
    assert q[|q| - 6..] == ".queue";
  }

  /** Distinct job files get distinct queue names, and a queue name is never a job name. */
  lemma QueueNamesSeparate(j1: string, j2: string)
    requires Matches(j1, JobPrefix, ".job") && Canon(j1) == j1
    requires Matches(j2, JobPrefix, ".job") && Canon(j2) == j2
    ensures QueueName(j1) == QueueName(j2) ==> j1 == j2
    ensures QueueName(j1) != j2
  {
    QueueNameOf(j1);
    QueueNameOf(j2);
    var q1, q2 := QueueName(j1), QueueName(j2);
    assert q1[|q1| - 1] == 'e' && j2[|j2| - 1] == 'b' by {
      assert j2[|j2| - 4..] == ".job";
      assert j2[|j2| - 1] == j2[|j2| - 4..][3];
    }
    if q1 == q2 {
      assert j1[..|j1| - 4] == q1[..|q1| - 6] == j2[..|j2| - 4];
      assert j1 == j1[..|j1| - 4] + ".job" by { assert j1[|j1| - 4..] == ".job"; }
      assert j2 == j2[..|j2| - 4] + ".job" by { assert j2[|j2| - 4..] == ".job"; }
    }
  }

  /** The queue names of the given job files. */
  function Targets(moved: set<string>): (t: set<string>)
    ensures forall j :: j in moved ==> QueueName(j) in t
  {
    set j | j in moved :: QueueName(j)
  }

  lemma TargetsAdd(moved: set<string>, j: string)
    ensures Targets(moved + {j}) == Targets(moved) + {QueueName(j)}
  {
    forall x | x in Targets(moved + {j})
      ensures x in Targets(moved) + {QueueName(j)}
    {
      var k :| k in moved + {j} && x == QueueName(k);
    }
  }

  /** Every moved job file is gone and its content sits under its queue name. */
  ghost predicate MovedAway(e0: map<string, Content>, e: map<string, Content>, moved: set<string>)
  {
    forall j :: j in moved ==> j in e0 && j !in e && QueueName(j) in e && e[QueueName(j)] == e0[j]
  }

  /** Every file that is neither moved nor a queue target is unchanged. */
  ghost predicate Untouched(e0: map<string, Content>, e: map<string, Content>, moved: set<string>)
  {
    forall n :: n in e0 && n !in moved && n !in Targets(moved) ==> n in e && e[n] == e0[n]
  }

  /** Nothing but queue files appears. */
  ghost predicate OnlyQueues(e0: map<string, Content>, e: map<string, Content>)
  {
    forall n :: n in e && n !in e0 ==> EndsWith(n, ".queue")
  }

  /** The effect of a scan on the directory, after the files in `moved` were moved. */
  ghost predicate Scanned(e0: map<string, Content>, e: map<string, Content>, moved: set<string>)
  {
    MovedAway(e0, e, moved) && Untouched(e0, e, moved) && OnlyQueues(e0, e)
  }

  /** The queue items a scan adds: one per eligible job, each its queue name. */
  ghost predicate Enqueued(added: seq<Option<string>>, moved: set<string>)
  {
    |added| == |moved|
    && (forall i, k :: 0 <= i < k < |added| ==> added[i] != added[k])
    && (forall x :: x in added <==> exists j :: j in moved && x == Some(QueueName(j)))
  }

  /** Names a job-file glob returns, each canonical. */
  ghost predicate JobNames(names: set<string>)
  {
    forall k :: k in names ==> Matches(k, JobPrefix, ".job") && Canon(k) == k
  }

  /** Distinct job files have distinct queue names, and no queue name is a job file. */
  lemma SeparateAll(eligible: set<string>, j: string)
    requires JobNames(eligible) && j in eligible
    ensures forall k :: k in eligible ==> QueueName(k) != j && QueueName(j) != k && (k != j ==> QueueName(k) != QueueName(j))
  {
    forall k | k in eligible
      ensures QueueName(k) != j && QueueName(j) != k && (k != j ==> QueueName(k) != QueueName(j))
    {
      QueueNamesSeparate(k, j);
      QueueNamesSeparate(j, k);
    }
  }

  /** A file moved earlier stays moved when another file `j` is moved to `q`. */
  lemma KeepMoved(e0: map<string, Content>, e: map<string, Content>, k: string, qk: string, j: string, q: string)
    requires j in e && k in e0 && k !in e && qk in e && e[qk] == e0[k]
    requires k != q && qk != j && qk != q
    ensures k !in (e - {j})[q := e[j]] && qk in (e - {j})[q := e[j]] && (e - {j})[q := e[j]][qk] == e0[k]
  {
  }

  /** Moving one more job file keeps every earlier move in place and records this one. */
  lemma MovedAwayStep(e0: map<string, Content>, e: map<string, Content>, moved: set<string>, j: string, eligible: set<string>)
    requires JobNames(eligible) && moved <= eligible && j in eligible && j !in moved
    requires j in e && j in e0 && e[j] == e0[j]
    requires MovedAway(e0, e, moved)
    ensures MovedAway(e0, (e - {j})[QueueName(j) := e[j]], moved + {j})
  {
    var e2 := (e - {j})[QueueName(j) := e[j]];
    var q := QueueName(j);
    SeparateAll(eligible, j);
    forall k | k in moved
      ensures k in e0 && k !in e2 && QueueName(k) in e2 && e2[QueueName(k)] == e0[k]
    {
      KeepMoved(e0, e, k, QueueName(k), j, q);
    }
    assert j !in e2 && q in e2 && e2[q] == e0[j];
  }

  /** Moving one more job file leaves every other file that is not its target alone. */
  lemma UntouchedStep(e0: map<string, Content>, e: map<string, Content>, moved: set<string>, j: string)
    requires j in e
    requires Untouched(e0, e, moved)
    ensures Untouched(e0, (e - {j})[QueueName(j) := e[j]], moved + {j})
  {
    var e2 := (e - {j})[QueueName(j) := e[j]];
    var q := QueueName(j);
    TargetsAdd(moved, j);
    forall n | n in e0 && n !in moved + {j} && n !in Targets(moved + {j})
      ensures n in e2 && e2[n] == e0[n]
    {
      assert n != j && n != q && n !in Targets(moved);
    }
  }

  /** Moving a job file to its queue name adds only a queue file. */
  lemma OnlyQueuesStep(e0: map<string, Content>, e: map<string, Content>, j: string)
    requires Matches(j, JobPrefix, ".job") && Canon(j) == j
    requires j in e
    requires OnlyQueues(e0, e)
    ensures OnlyQueues(e0, (e - {j})[QueueName(j) := e[j]])
  {
    QueueNameOf(j);
    OnlyQueuesMove(e0, e, j, QueueName(j));
  }

  /** Moving any file to a queue name adds only that queue file. */
  lemma OnlyQueuesMove(e0: map<string, Content>, e: map<string, Content>, j: string, q: string)
    requires j in e && OnlyQueues(e0, e) && EndsWith(q, ".queue")
    ensures OnlyQueues(e0, (e - {j})[q := e[j]])
  {
    var e2 := (e - {j})[q := e[j]];
    forall n | n in e2 && n !in e0
      ensures EndsWith(n, ".queue")
    {
      if n != q {
        assert n in e;
      }
    }
  }

  /** Moving one more job file to its queue name extends the scan's effect by that file. */
  lemma ScanStep(e0: map<string, Content>, e: map<string, Content>, moved: set<string>, j: string, eligible: set<string>)
    requires JobNames(eligible) && moved <= eligible && j in eligible && j !in moved
    requires j in e && j in e0 && e[j] == e0[j]
    requires Scanned(e0, e, moved)
    ensures Scanned(e0, (e - {j})[QueueName(j) := e[j]], moved + {j})
  {
    MovedAwayStep(e0, e, moved, j, eligible);
    UntouchedStep(e0, e, moved, j);
    OnlyQueuesStep(e0, e, j);
  }

  /** Queueing one more job's queue name extends the queued items by that job. */
  lemma EnqueueStep(added: seq<Option<string>>, moved: set<string>, j: string, eligible: set<string>)
    requires JobNames(eligible) && moved <= eligible && j in eligible && j !in moved
    requires Enqueued(added, moved)
    ensures Enqueued(added + [Some(QueueName(j))], moved + {j})
  {
    var a2 := added + [Some(QueueName(j))];
    forall k | k in moved
      ensures QueueName(k) != QueueName(j)
    {
      QueueNamesSeparate(k, j);
    }
    assert Some(QueueName(j)) !in added;
    forall x
      ensures x in a2 <==> exists k :: k in moved + {j} && x == Some(QueueName(k))
    {
      if x in a2 && x != Some(QueueName(j)) {
        assert x in added;
      }
      if exists k :: k in moved + {j} && x == Some(QueueName(k)) {
        var k :| k in moved + {j} && x == Some(QueueName(k));
        if k != j {
          assert x in added;
        }
      }
    }
    forall i, k | 0 <= i < k < |a2| ensures a2[i] != a2[k] {
      if k == |a2| - 1 {
        assert a2[i] in added;
      } else {
        assert a2[i] == added[i] && a2[k] == added[k];
      }
    }
    assert |moved + {j}| == |moved| + 1;
  }

  /** The invariant of the scan loop: `todo` still waits, the rest of `eligible` was moved and queued. */
  ghost predicate ScanInvariant(e0: map<string, Content>, e: map<string, Content>, eligible: set<string>,
                                todo: set<string>, added: seq<Option<string>>)
  {
    JobNames(eligible) && todo <= eligible && Canonical(e)
    && (forall j :: j in todo ==> j in e && j in e0 && e[j] == e0[j])
    && Scanned(e0, e, eligible - todo)
    && Enqueued(added, eligible - todo)
  }

  /** One turn of the scan loop keeps its invariant. */
  lemma ScanLoopStep(e0: map<string, Content>, e: map<string, Content>, eligible: set<string>,
                     todo: set<string>, added: seq<Option<string>>, j: string)
    requires ScanInvariant(e0, e, eligible, todo, added) && j in todo
    ensures Canon(j) == j && Canon(QueueName(j)) == QueueName(j)
    ensures ScanInvariant(e0, (e - {j})[QueueName(j) := e[j]], eligible, todo - {j},
                          added + [Some(QueueName(j))])
  {
    var e2 := (e - {j})[QueueName(j) := e[j]];
    QueueNameOf(j);
    var moved := eligible - todo;
    DoneOneMore(eligible, todo, j);
    ScanStep(e0, e, moved, j, eligible);
    EnqueueStep(added, moved, j, eligible);
    SeparateAll(eligible, j);
    TodoStep(e0, e, todo, j, QueueName(j));
    CanonicalStep(e, j, QueueName(j));
    assert Canon(j) == j;
    assert ScanInvariant(e0, e2, eligible, todo - {j}, added + [Some(QueueName(j))]);
  }

  /** Taking `j` off the to-do list adds it to what is done. */
  lemma DoneOneMore(eligible: set<string>, todo: set<string>, j: string)
    requires j in todo && todo <= eligible
    ensures eligible - (todo - {j}) == (eligible - todo) + {j}
  {
  }

  /** Files still waiting are untouched by moving `j` to `q`, which none of them is. */
  lemma TodoStep(e0: map<string, Content>, e: map<string, Content>, todo: set<string>, j: string, q: string)
    requires j in e
    requires forall k :: k in todo ==> k in e && k in e0 && e[k] == e0[k]
    requires forall k :: k in todo ==> q != k
    ensures forall k :: k in todo - {j} ==> k in (e - {j})[q := e[j]] && k in e0 && (e - {j})[q := e[j]][k] == e0[k]
  {
  }

  /** Moving a file to a canonical name keeps the directory canonical. */
  lemma CanonicalStep(e: map<string, Content>, j: string, q: string)
    requires Canonical(e) && j in e && Canon(q) == q
    ensures Canonical((e - {j})[q := e[j]])
  {
    var e2 := (e - {j})[q := e[j]];
    forall n | n in e2
      ensures Canon(n) == n
    {
      if n != q {
        assert n in e;
      }
    }
  }

  /** The names a scan moves are canonical job file names. */
  lemma EligibleJobNames(e: map<string, Content>)
    requires Canonical(e)
    ensures JobNames(Eligible(e))
  {
  }

  /**
   * One pass of `start_workers`' loop: with the kill file present, queue
   * one sentinel per worker, remove the kill file and stop; otherwise move
   * every eligible job file to its queue name and queue that name once.
   */
  method DaemonPass(killfile: string, nWorker: nat, queue: seq<Option<string>>, dir: Directory)
    returns (q: seq<Option<string>>, stop: bool)
    requires Canonical(dir.entries)
    modifies dir
    ensures stop <==> Canon(KillFile(killfile)) in old(dir.entries)
    ensures stop ==> q == queue + Nones(nWorker) && dir.entries == old(dir.entries) - {Canon(KillFile(killfile))}
    ensures !stop ==> |q| >= |queue| && q[..|queue|] == queue
                      && Enqueued(q[|queue|..], Eligible(old(dir.entries)))
                      && Scanned(old(dir.entries), dir.entries, Eligible(old(dir.entries)))
    ensures dir.dirs == old(dir.dirs)
  {
    if Canon(KillFile(killfile)) in dir.entries {
      q := queue + Nones(nWorker);
      var _ := dir.Remove(KillFile(killfile));
      stop := true;
      return;
    }
    stop := false;
    ghost var e0 := dir.entries;
    var eligible := Eligible(dir.entries);
    EligibleJobNames(dir.entries);
    var todo := eligible;
    var added: seq<Option<string>> := [];
    assert eligible - todo == {};
    while todo != {}
      invariant ScanInvariant(e0, dir.entries, eligible, todo, added)
      invariant dir.dirs == old(dir.dirs)
      decreases |todo|
    {
      var j :| j in todo;
      ScanLoopStep(e0, dir.entries, eligible, todo, added, j);
      var _ := dir.Rename(j, QueueName(j));
      added := added + [Some(QueueName(j))];
      todo := todo - {j};
    }
    q := queue + added;
    assert q[..|queue|] == queue && q[|queue|..] == added;
    assert eligible - todo == eligible;
  }
}
