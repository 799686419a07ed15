/**
 * The in-memory `memoized` decorator: a dictionary from the tuple of
 * positional arguments to the value the wrapped function returned.
 */
module Memoize {
  import opened PyValues

  class Memoized {
    /** The wrapped function, taking positional arguments only; it returns or raises. */
    const func: seq<Value> -> Result<Value>
    /** `self.cache`, keyed by the argument tuple. */
    var cache: map<seq<Value>, Value>

    /** Every cached value is what the function returned on its arguments. */
    ghost predicate Valid()
      reads this
    {
      forall a :: a in cache ==> func(a) == Ok(cache[a])
    }

    constructor(f: seq<Value> -> Result<Value>)
      ensures func == f && cache == map[]
      ensures Valid()
    {
      func := f;
      cache := map[];
    }

    /**
     * `__call__(*args)`.  A hit returns the stored value without calling
     * the function; a miss calls it and stores what it returns; arguments
     * that cannot be hashed (a list, say) are passed through uncached.  An
     * exception from the function propagates and nothing is stored.
     * `called` says whether the wrapped function ran.
     */
    method Call(args: seq<Value>) returns (r: Result<Value>, ghost called: bool)
      modifies this
      ensures called <==> !(Hashable(TupleV(args)) && args in old(cache))
      ensures !called ==> r == Ok(old(cache)[args])
      ensures called ==> r == func(args)
      ensures Hashable(TupleV(args)) && r.Ok? ==> cache == old(cache)[args := r.value]
      ensures !Hashable(TupleV(args)) || r.Err? ==> cache == old(cache)
      ensures old(Valid()) ==> Valid() && r == func(args)
    {
      if !Hashable(TupleV(args)) {
        r := func(args);
        called := true;
      } else if args in cache {
        r := Ok(cache[args]);
        called := false;
      } else {
        r := func(args);
        if r.Ok? {
          cache := cache[args := r.value];
        }
        called := true;
      }
    }
  }

  /**
   * Calling twice with the same arguments: when the arguments hash and the
   * first call returns, the second is a hit; both calls agree.
   */
  method CallTwice(f: seq<Value> -> Result<Value>, args: seq<Value>) returns (r1: Result<Value>, r2: Result<Value>, ghost calls: nat)
    ensures r1 == f(args) && r2 == r1
    ensures calls == if Hashable(TupleV(args)) && r1.Ok? then 1 else 2
  {
    var m := new Memoized(f);
    ghost var c1, c2;
    r1, c1 := m.Call(args);
    r2, c2 := m.Call(args);
    calls := (if c1 then 1 else 0) + (if c2 then 1 else 0);
  }
}
