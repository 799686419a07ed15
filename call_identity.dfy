/**
 * How a function call is named on disk.  Every cache and job file is keyed
 * by `sha224(pickle.dumps((funcname, args, tuple(sorted(kwargs.items())))))`:
 * sorting the keyword items makes the name independent of the order the
 * keywords were written in.  The digest is a parameter of the model.
 */
module CallIdentity {
  import opened PyValues
  import opened Strings

  /** Keyword items in strictly increasing keyword order. */
  predicate SortedKw(kw: KwArgs)
  {
    forall i, j :: 0 <= i < j < |kw| ==> StrLt(kw[i].0, kw[j].0)
  }

  /** Insert one item before the first item whose keyword is not smaller. */
  function InsertKw(item: (string, Value), kw: KwArgs): KwArgs
  {
    if |kw| == 0 then [item]
    else if !StrLt(kw[0].0, item.0) then [item] + kw
    else [kw[0]] + InsertKw(item, kw[1..])
  }

  /** `sorted(kwargs.items())`, ordered by keyword. */
  function SortKw(kw: KwArgs): KwArgs
  {
    if |kw| == 0 then [] else InsertKw(kw[0], SortKw(kw[1..]))
  }

  lemma SortedTail(s: KwArgs)
    requires SortedKw(s) && |s| > 0
    ensures SortedKw(s[1..])
  {
    forall i, j | 0 <= i < j < |s[1..]| ensures StrLt(s[1..][i].0, s[1..][j].0) {
      assert s[1..][i] == s[i + 1] && s[1..][j] == s[j + 1];
    }
  }

  lemma SortedCons(x: (string, Value), r: KwArgs)
    requires SortedKw(r)
    requires forall y :: y in r ==> StrLt(x.0, y.0)
    ensures SortedKw([x] + r)
  {
    forall i, j | 0 <= i < j < |[x] + r| ensures StrLt(([x] + r)[i].0, ([x] + r)[j].0) {
      assert ([x] + r)[j] == r[j - 1] && r[j - 1] in r;
      if i > 0 {
        assert ([x] + r)[i] == r[i - 1];
      }
    }
  }

  lemma {:induction false} InsertKwPerm(item: (string, Value), kw: KwArgs)
    ensures multiset(InsertKw(item, kw)) == multiset(kw) + multiset{item}
  {
    if |kw| > 0 {
      InsertKwPerm(item, kw[1..]);
      assert kw == [kw[0]] + kw[1..];
    }
  }

  lemma {:induction false} InsertKwSorted(item: (string, Value), kw: KwArgs)
    requires SortedKw(kw) && item.0 !in Keys(kw)
    ensures SortedKw(InsertKw(item, kw))
  {
    if |kw| > 0 {
      assert kw[0].0 in Keys(kw);
      if StrLt(kw[0].0, item.0) {
        SortedTail(kw);
        assert Keys(kw[1..]) <= Keys(kw) by {
          forall k | k in Keys(kw[1..]) ensures k in Keys(kw) {
            var i :| 0 <= i < |kw[1..]| && kw[1..][i].0 == k;
            assert kw[i + 1].0 == k;
          }
        }
        InsertKwSorted(item, kw[1..]);
        InsertKwPerm(item, kw[1..]);
        var r := InsertKw(item, kw[1..]);
        forall x | x in r ensures StrLt(kw[0].0, x.0) {
          assert x in multiset(r);
          if x != item {
            assert x in multiset(kw[1..]);
            var i :| 0 <= i < |kw[1..]| && kw[1..][i] == x;
            assert kw[i + 1] == x;
          }
        }
        SortedCons(kw[0], r);
      } else {
        StrLtTotal(kw[0].0, item.0);
        forall y | y in kw ensures StrLt(item.0, y.0) {
          var j :| 0 <= j < |kw| && kw[j] == y;
          if j > 0 {
            StrLtTransitive(item.0, kw[0].0, kw[j].0);
          }
        }
        SortedCons(item, kw);
      }
    }
  }

  /** Two orderings of one keyword set sort to the same sequence. */
  lemma {:induction false} SortKwSpec(kw: KwArgs)
    ensures multiset(SortKw(kw)) == multiset(kw)
    ensures DistinctKeys(kw) ==> SortedKw(SortKw(kw))
  {
    if |kw| > 0 {
      var rest := kw[1..];
      SortKwSpec(rest);
      InsertKwPerm(kw[0], SortKw(rest));
      assert kw == [kw[0]] + rest;
      if DistinctKeys(kw) {
        FreshHead(kw, SortKw(rest));
        InsertKwSorted(kw[0], SortKw(rest));
      }
    }
  }

  /**
   * With distinct keywords, the tail's keywords are distinct too, and a
   * reordering of the tail does not hold the head's keyword.
   */
  lemma FreshHead(kw: KwArgs, s: KwArgs)
    requires |kw| > 0 && DistinctKeys(kw) && multiset(s) == multiset(kw[1..])
    ensures DistinctKeys(kw[1..])
    ensures kw[0].0 !in Keys(s)
  {
    var rest := kw[1..];
    forall i, j | 0 <= i < j < |rest| ensures rest[i].0 != rest[j].0 {
      assert rest[i] == kw[i + 1] && rest[j] == kw[j + 1];
    }
    forall k | k in Keys(s) ensures k != kw[0].0 {
      var i :| 0 <= i < |s| && s[i].0 == k;
      assert s[i] in multiset(rest);
      var j :| 0 <= j < |rest| && rest[j] == s[i];
      assert kw[j + 1].0 == k;
    }
  }

  /** The smallest item of a sorted sequence comes first. */
  lemma MinFirst(s: KwArgs, x: (string, Value))
    requires SortedKw(s) && x in s
    ensures x == s[0] || StrLt(s[0].0, x.0)
  {
    var i :| 0 <= i < |s| && s[i] == x;
  }

  /** A sorted sequence is determined by its elements. */
  lemma {:induction false} SortedUnique(a: KwArgs, b: KwArgs)
    requires SortedKw(a) && SortedKw(b) && multiset(a) == multiset(b)
    ensures a == b
  {
    if |a| > 0 {
      SameHead(a, b);
      SameTail(a, b);
      SortedTail(a);
      SortedTail(b);
      SortedUnique(a[1..], b[1..]);
    } else {
      assert |b| == |multiset(b)|;
    }
  }

  /** Two sorted sequences with the same elements start alike. */
  lemma SameHead(a: KwArgs, b: KwArgs)
    requires SortedKw(a) && SortedKw(b) && multiset(a) == multiset(b) && |a| > 0
    ensures |b| > 0 && a[0] == b[0]
  {
    assert a[0] in multiset(b) && |b| > 0;
    assert b[0] in multiset(a);
    MinFirst(a, b[0]);
    MinFirst(b, a[0]);
    StrLtIrreflexive(a[0].0);
    StrLtIrreflexive(b[0].0);
    if StrLt(a[0].0, b[0].0) {
      StrLtAsymmetric(a[0].0, b[0].0);
    }
  }

  /** Dropping the same head from two sequences with the same elements leaves the same elements. */
  lemma SameTail(a: KwArgs, b: KwArgs)
    requires |a| > 0 && |b| > 0 && a[0] == b[0] && multiset(a) == multiset(b)
    ensures multiset(a[1..]) == multiset(b[1..])
  {
    assert a == [a[0]] + a[1..] && b == [b[0]] + b[1..];
    assert multiset(a) == multiset{a[0]} + multiset(a[1..]);
    assert multiset(b) == multiset{a[0]} + multiset(b[1..]);
    assert multiset(a[1..]) == multiset(a) - multiset{a[0]};
    assert multiset(b[1..]) == multiset(b) - multiset{a[0]};
  }

  /** What is pickled: the function's dotted name, the positional arguments and the sorted keyword items. */
  datatype CallKey = CallKey(funcname: string, args: seq<Value>, kwargs: KwArgs)

  function Canonical(funcname: string, args: seq<Value>, kw: KwArgs): CallKey
  {
    CallKey(funcname, args, SortKw(kw))
  }

  /** `sha224(pickle.dumps(key)).hexdigest()`, with the digest given. */
  function Identifier(digest: CallKey -> string, funcname: string, args: seq<Value>, kw: KwArgs): string
  {
    digest(Canonical(funcname, args, kw))
  }

  /** A digest without collisions on the keys it meets. */
  ghost predicate Injective(digest: CallKey -> string)
  {
    forall k1, k2 :: digest(k1) == digest(k2) ==> k1 == k2
  }

  /** Rewriting the keywords of a call in another order leaves its identifier unchanged. */
  lemma KeywordOrderIrrelevant(digest: CallKey -> string, funcname: string, args: seq<Value>, kw1: KwArgs, kw2: KwArgs)
    requires DistinctKeys(kw1) && DistinctKeys(kw2) && multiset(kw1) == multiset(kw2)
    ensures Identifier(digest, funcname, args, kw1) == Identifier(digest, funcname, args, kw2)
  {
    SortKwSpec(kw1);
    SortKwSpec(kw2);
    SortedUnique(SortKw(kw1), SortKw(kw2));
  }

  /**
   * With a collision-free digest, two calls share an identifier only when
   * they name the same function with the same positional arguments and
   * the same keyword items: `f(arg=True)` and `f()` are cached apart.
   */
  lemma IdentifierSeparates(digest: CallKey -> string, f1: string, a1: seq<Value>, kw1: KwArgs,
                            f2: string, a2: seq<Value>, kw2: KwArgs)
    requires Injective(digest)
    ensures Identifier(digest, f1, a1, kw1) == Identifier(digest, f2, a2, kw2)
            ==> f1 == f2 && a1 == a2 && multiset(kw1) == multiset(kw2)
  {
    SortKwSpec(kw1);
    SortKwSpec(kw2);
  }

  /** `re.sub('/+', '/', "%s/%s.shelve" % (directory, identifier))`. */
  function ShelveName(directory: string, identifier: string): string
  {
    CollapseSlashes(directory + "/" + identifier + ".shelve")
  }

  function DoneName(filename: string): string { filename + ".done" }

  function BusyName(filename: string): string { filename + ".busy" }

  /**
   * The cache file sits directly in the collapsed directory under the
   * identifier's own name, and the two marker files are distinct from it
   * and from each other.
   */
  lemma ShelveNameSpec(directory: string, identifier: string)
    requires '/' !in identifier
    ensures ShelveName(directory, identifier) == CollapseSlashes(directory + "/") + identifier + ".shelve"
    ensures NoDoubleSlash(ShelveName(directory, identifier))
    ensures EndsWith(ShelveName(directory, identifier), ".shelve")
    ensures DoneName(ShelveName(directory, identifier)) != BusyName(ShelveName(directory, identifier))
    ensures DoneName(ShelveName(directory, identifier)) != ShelveName(directory, identifier)
    ensures BusyName(ShelveName(directory, identifier)) != ShelveName(directory, identifier)
  {
    var s := identifier + ".shelve";
    assert '/' !in s by {
      assert forall i :: 0 <= i < |s| ==> s[i] == if i < |identifier| then identifier[i] else ".shelve"[i - |identifier|];
    }
    AppendAssoc(directory + "/", identifier, ".shelve");
    CollapseAppend(directory + "/", s);
    AppendAssoc(CollapseSlashes(directory + "/"), identifier, ".shelve");
    var n := ShelveName(directory, identifier);
    assert n[|n| - 7..] == ".shelve";
    assert DoneName(n)[|n| + 4] == 'e' && BusyName(n)[|n| + 4] == 'y';
  }

  /** Marker names of different cache files never coincide. */
  lemma MarkersSeparate(f1: string, f2: string)
    ensures DoneName(f1) == DoneName(f2) <==> f1 == f2
    ensures BusyName(f1) == BusyName(f2) <==> f1 == f2
  {
    if DoneName(f1) == DoneName(f2) {
      assert f1 == DoneName(f1)[..|f1|] && f2 == DoneName(f2)[..|f2|];
    }
    if BusyName(f1) == BusyName(f2) {
      assert f1 == BusyName(f1)[..|f1|] && f2 == BusyName(f2)[..|f2|];
    }
  }
}
