/**
 * `memoize_persistent`: a cache kept in shelve files so that several
 * processes share it.  A call whose cache file is marked done, or marked
 * busy by another process, waits for the done marker and reads the stored
 * result; any other call marks the file busy, computes, writes the record,
 * marks it done and clears the busy marker.
 */
module PersistentMemoize {
  import opened PyValues
  import opened Strings
  import opened Storage
  import opened CallIdentity

  /** `memoize_directory`. */
  const MemoizeDirectory: string := "./"

  /** How a call ends: a value, an exception, or still polling for another process. */
  datatype Outcome = Returned(value: Value) | Raised(error: Error) | Waiting

  /** The cache file of a call. */
  function CacheFile(digest: CallKey -> string, funcname: string, args: seq<Value>, kw: KwArgs): string
  {
    ShelveName(MemoizeDirectory, Identifier(digest, funcname, args, kw))
  }

  /** `os.access(name, os.F_OK)`. */
  predicate Present(e: map<string, Content>, name: string)
  {
    Canon(name) in e
  }

  /** Another process has finished, or is computing, this cache file. */
  predicate Marked(e: map<string, Content>, filename: string)
  {
    Present(e, DoneName(filename)) || Present(e, BusyName(filename))
  }

  /** The record a computed call leaves in its cache file. */
  function CallRecord(identifier: string, filename: string, funcname: string,
                      args: seq<Value>, kw: KwArgs, result: Value): (s: Shelf)
    ensures s.Keys == {"signature", "filename", "funcname", "args", "kwargs", "result"}
    ensures s["result"] == result && s["signature"] == StrV(identifier)
    ensures s["kwargs"] == DictV(KwDict(kw)) && s["args"] == ListV(args)
  {
    map["signature" := StrV(identifier), "filename" := StrV(filename),
        "funcname" := StrV(funcname), "args" := ListV(args),
        "kwargs" := DictV(KwDict(kw)), "result" := result]
  }

  /** Reading a finished call back: the stored result, or ValueError for a missing, unreadable or result-less file. */
  function ReadCached(e: map<string, Content>, filename: string): (o: Outcome)
    ensures o.Returned? <==> ShelfAt(e, filename).Ok? && "result" in ShelfAt(e, filename).value
    ensures o.Returned? ==> o.value == ShelfAt(e, filename).value["result"]
    ensures !o.Returned? ==> o == Raised(ValueError)
  {
    match ShelfAt(e, filename)
    case Ok(s) => if "result" in s then Returned(s["result"]) else Raised(ValueError)
    case Err(_) => Raised(ValueError)
  }

  /**
   * The polling loop: the directory is `e` and then each snapshot in turn,
   * one per second; it stops at the first state holding `done`.  The flag
   * says whether one did.
   */
  function Polled(e: map<string, Content>, polls: seq<map<string, Content>>, done: string)
    : (r: (map<string, Content>, bool))
    ensures r.1 <==> Present(r.0, done)
    ensures r.0 == e || r.0 in polls
    ensures Present(e, done) ==> r == (e, true)
    decreases |polls|
  {
    if Present(e, done) then (e, true)
    else if |polls| == 0 then (e, false)
    else Polled(polls[0], polls[1..], done)
  }

  /** The directory after a miss: busy marker, record, done marker, busy marker removed. */
  function AfterMiss(e: map<string, Content>, filename: string, rec: Shelf): map<string, Content>
  {
    (e[Canon(BusyName(filename)) := Text("working")]
      [Canon(filename) := Db(rec)]
      [Canon(DoneName(filename)) := Marker])
      - {Canon(BusyName(filename))}
  }

  /** A name with collapsed slashes followed by a slash-free suffix is its own canonical name. */
  lemma CanonSuffix(filename: string, suffix: string)
    requires NoDoubleSlash(filename) && '/' !in suffix
    ensures Canon(filename + suffix) == filename + suffix
  {
    CollapseAppend(filename, suffix);
    CollapseNoDouble(filename);
  }

  /**
   * After a miss the record is stored, the done marker exists and the busy
   * marker is gone, nothing else changes, and reading the cache file back
   * gives the computed result.
   */
  lemma MissEffect(e: map<string, Content>, filename: string, rec: Shelf)
    requires NoDoubleSlash(filename) && !Present(e, BusyName(filename))
    ensures AfterMiss(e, filename, rec) == e[filename := Db(rec)][DoneName(filename) := Marker]
    ensures Present(AfterMiss(e, filename, rec), DoneName(filename))
    ensures !Present(AfterMiss(e, filename, rec), BusyName(filename))
    ensures ReadCached(AfterMiss(e, filename, rec), filename)
            == if "result" in rec then Returned(rec["result"]) else Raised(ValueError)
  {
    CanonSuffix(filename, ".busy");
    CanonSuffix(filename, ".done");
    CollapseNoDouble(filename);
    var b, d := BusyName(filename), DoneName(filename);
    assert b[|filename| + 4] == 'y' && d[|filename| + 4] == 'e';
    assert b != filename && d != filename && b != d;
    var lhs := AfterMiss(e, filename, rec);
    var rhs := e[filename := Db(rec)][d := Marker];
    MapExt(lhs, rhs);
    assert Canon(d) in rhs && Canon(b) !in lhs;
  }

  /**
   * A call whose function raised leaves the busy marker and no done marker:
   * every later call for the same cache file is marked and waits for a done
   * marker that only another process could write.
   */
  lemma RaiseLeavesBusy(e: map<string, Content>, filename: string, polls: seq<map<string, Content>>)
    requires NoDoubleSlash(filename) && !Marked(e, filename)
    ensures Marked(e[Canon(BusyName(filename)) := Text("working")], filename)
    ensures !Present(e[Canon(BusyName(filename)) := Text("working")], DoneName(filename))
    ensures (forall i :: 0 <= i < |polls| ==> !Present(polls[i], DoneName(filename))) ==>
              Polled(e[Canon(BusyName(filename)) := Text("working")], polls, DoneName(filename)).1 == false
  {
    CanonSuffix(filename, ".busy");
    CanonSuffix(filename, ".done");
    var b, d := BusyName(filename), DoneName(filename);
    assert b[|filename| + 4] == 'y' && d[|filename| + 4] == 'e';
    PolledNever(e[Canon(b) := Text("working")], polls, d);
  }

  /** Polling never succeeds when neither the start state nor any snapshot holds `done`. */
  lemma {:induction false} PolledNever(e: map<string, Content>, polls: seq<map<string, Content>>, done: string)
    requires !Present(e, done)
    ensures (forall i :: 0 <= i < |polls| ==> !Present(polls[i], done)) ==> Polled(e, polls, done).1 == false
    decreases |polls|
  {
    if |polls| > 0 && forall i :: 0 <= i < |polls| ==> !Present(polls[i], done) {
      assert !Present(polls[0], done);
      PolledNever(polls[0], polls[1..], done);
    }
  }

  /** A later call finds the done marker at once and returns the stored result without waiting. */
  lemma HitAfterMiss(e: map<string, Content>, filename: string, rec: Shelf, polls: seq<map<string, Content>>)
    requires NoDoubleSlash(filename) && !Present(e, BusyName(filename)) && "result" in rec
    ensures Marked(AfterMiss(e, filename, rec), filename)
    ensures Polled(AfterMiss(e, filename, rec), polls, DoneName(filename)) == (AfterMiss(e, filename, rec), true)
    ensures ReadCached(AfterMiss(e, filename, rec), filename) == Returned(rec["result"])
  {
    MissEffect(e, filename, rec);
  }

  /**
   * The decorated function `memoize(*args, **kwargs)`.  `polls` are the
   * states the directory passes through while this call sleeps waiting for
   * another process; `busyDuringCall` records that the busy marker was in
   * place when the function ran.  When the function raises, the exception
   * propagates and the busy marker stays behind.
   */
  method Memoize(dir: Directory, func: (seq<Value>, KwArgs) -> Result<Value>, digest: CallKey -> string,
                 funcname: string, args: seq<Value>, kw: KwArgs, polls: seq<map<string, Content>>)
    returns (o: Outcome, ghost busyDuringCall: bool)
    modifies dir
    ensures Marked(old(dir.entries), CacheFile(digest, funcname, args, kw)) ==>
              var p := Polled(old(dir.entries), polls, DoneName(CacheFile(digest, funcname, args, kw)));
              dir.entries == p.0
              && o == (if p.1 then ReadCached(p.0, CacheFile(digest, funcname, args, kw)) else Waiting)
    ensures !Marked(old(dir.entries), CacheFile(digest, funcname, args, kw)) && func(args, kw).Ok? ==>
              busyDuringCall && o == Returned(func(args, kw).value)
              && dir.entries == AfterMiss(old(dir.entries), CacheFile(digest, funcname, args, kw),
                   CallRecord(Identifier(digest, funcname, args, kw), CacheFile(digest, funcname, args, kw),
                              funcname, args, kw, func(args, kw).value))
    ensures !Marked(old(dir.entries), CacheFile(digest, funcname, args, kw)) && func(args, kw).Err? ==>
              busyDuringCall && o == Raised(func(args, kw).error)
              && dir.entries == old(dir.entries)[Canon(BusyName(CacheFile(digest, funcname, args, kw))) := Text("working")]
    ensures dir.dirs == old(dir.dirs)
  {
    var identifier := Identifier(digest, funcname, args, kw);
    var filename := ShelveName(MemoizeDirectory, identifier);
    var doneFilename := DoneName(filename);
    var busyFilename := BusyName(filename);
    busyDuringCall := false;
    if Present(dir.entries, doneFilename) || Present(dir.entries, busyFilename) {
      var i := 0;
      while !Present(dir.entries, doneFilename) && i < |polls|
        invariant 0 <= i <= |polls|
        invariant Polled(dir.entries, polls[i..], doneFilename) == Polled(old(dir.entries), polls, doneFilename)
        invariant dir.dirs == old(dir.dirs)
        decreases |polls| - i
      {
        assert polls[i..][0] == polls[i] && polls[i..][1..] == polls[i + 1..];
        dir.entries := polls[i];
        i := i + 1;
      }
      if Present(dir.entries, doneFilename) {
        o := ReadCached(dir.entries, filename);
      } else {
        o := Waiting;
      }
    } else {
      dir.Write(busyFilename, Text("working"));
      busyDuringCall := Present(dir.entries, busyFilename);
      var retval := func(args, kw);
      if retval.Err? {
        return Raised(retval.error), busyDuringCall;
      }
      dir.Write(filename, Db(CallRecord(identifier, filename, funcname, args, kw, retval.value)));
      dir.Write(doneFilename, Marker);
      var _ := dir.Remove(busyFilename);
      o := Returned(retval.value);
    }
  }

  /**
   * Two calls in one process on a directory without markers for the call:
   * when the function returns, the first call computes, the second reads the
   * cache, and both return the function's value, even with the keywords
   * written in another order; when it raises, the first call raises and the
   * second finds the busy marker and is still waiting.
   */
  method CallTwice(e0: map<string, Content>, func: (seq<Value>, KwArgs) -> Result<Value>, digest: CallKey -> string,
                   funcname: string, args: seq<Value>, kw: KwArgs, kwReordered: KwArgs)
    returns (o1: Outcome, o2: Outcome)
    requires !Marked(e0, CacheFile(digest, funcname, args, kw))
    requires DistinctKeys(kw) && DistinctKeys(kwReordered) && multiset(kw) == multiset(kwReordered)
    ensures func(args, kw).Ok? ==> o1 == Returned(func(args, kw).value) && o2 == o1
    ensures func(args, kw).Err? ==> o1 == Raised(func(args, kw).error) && o2 == Waiting
  {
    var dir := new Directory(e0, {});
    ghost var b;
    o1, b := Memoize(dir, func, digest, funcname, args, kw, []);
    KeywordOrderIrrelevant(digest, funcname, args, kw, kwReordered);
    var f := CacheFile(digest, funcname, args, kw);
    if func(args, kw).Ok? {
      HitAfterMiss(e0, f, CallRecord(Identifier(digest, funcname, args, kw), f, funcname, args, kw, func(args, kw).value), []);
    } else {
      RaiseLeavesBusy(e0, f, []);
    }
    o2, b := Memoize(dir, func, digest, funcname, args, kwReordered, []);
  }
}
