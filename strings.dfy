/**
 * The string operations the tools use to build file names and tree
 * paths: `str.split`/`str.join` on one separator, `re.sub('/+', '/', s)`,
 * ordering of keyword names, `os.path.splitext` and `str.isupper`.
 */
module Strings {

  /** Python's `s.split(sep)`: always at least one part, none containing sep. */
  function Split(s: string, sep: char): (r: seq<string>)
    ensures |r| >= 1
    ensures forall i :: 0 <= i < |r| ==> sep !in r[i]
  {
    if |s| == 0 then [""]
    else
      var rest := Split(s[1..], sep);
      if s[0] == sep then [""] + rest
      else [[s[0]] + rest[0]] + rest[1..]
  }

  /** Python's `sep.join(parts)`. */
  function Join(parts: seq<string>, sep: char): string
  {
    if |parts| == 0 then ""
    else if |parts| == 1 then parts[0]
    else parts[0] + [sep] + Join(parts[1..], sep)
  }

  lemma {:induction false} JoinSplit(s: string, sep: char)
    ensures Join(Split(s, sep), sep) == s
  {
    if |s| > 0 {
      JoinSplit(s[1..], sep);
      var rest := Split(s[1..], sep);
      if s[0] != sep {
        assert s == [s[0]] + s[1..];
        if |rest| > 1 {
          assert Join(rest, sep) == rest[0] + [sep] + Join(rest[1..], sep);
        }
      }
    }
  }

  /** A string without the separator splits into itself. */
  lemma {:induction false} SplitNoSep(s: string, sep: char)
    requires sep !in s
    ensures Split(s, sep) == [s]
  {
    if |s| > 0 {
      SplitNoSep(s[1..], sep);
      assert [s[0]] + s[1..] == s;
    }
  }

  lemma {:induction false} SplitAfterPart(a: string, sep: char, b: string)
    requires sep !in a
    ensures Split(a + [sep] + b, sep) == [a] + Split(b, sep)
  {
    if |a| == 0 {
      assert a + [sep] + b == [sep] + b;
      assert ([sep] + b)[1..] == b;
    } else {
      SplitAfterPart(a[1..], sep, b);
      assert (a + [sep] + b)[1..] == a[1..] + [sep] + b;
      assert [a[0]] + a[1..] == a;
    }
  }

  lemma {:induction false} SplitJoin(parts: seq<string>, sep: char)
    requires |parts| >= 1
    requires forall i :: 0 <= i < |parts| ==> sep !in parts[i]
    ensures Split(Join(parts, sep), sep) == parts
  {
    if |parts| == 1 {
      SplitNoSep(parts[0], sep);
    } else {
      SplitJoin(parts[1..], sep);
      SplitAfterPart(parts[0], sep, Join(parts[1..], sep));
      assert [parts[0]] + parts[1..] == parts;
    }
  }

  lemma {:induction false} JoinAppend(parts: seq<string>, last: string, sep: char)
    requires |parts| >= 1
    ensures Join(parts + [last], sep) == Join(parts, sep) + [sep] + last
  {
    if |parts| > 1 {
      JoinAppend(parts[1..], last, sep);
      assert (parts + [last])[1..] == parts[1..] + [last];
    }
  }

  predicate NoDoubleSlash(s: string)
  {
    forall i :: 0 <= i < |s| - 1 ==> !(s[i] == '/' && s[i + 1] == '/')
  }

  /** `re.sub('/+', '/', s)`: every run of slashes becomes one slash. */
  function CollapseSlashes(s: string): (r: string)
    ensures |r| <= |s|
    ensures NoDoubleSlash(r)
    ensures |s| > 0 ==> |r| > 0 && r[0] == s[0]
  {
    if |s| <= 1 then s
    else if s[0] == '/' && s[1] == '/' then CollapseSlashes(s[1..])
    else [s[0]] + CollapseSlashes(s[1..])
  }

  lemma {:induction false} CollapseNoDouble(s: string)
    requires NoDoubleSlash(s)
    ensures CollapseSlashes(s) == s
  {
    if |s| > 1 {
      CollapseNoDouble(s[1..]);
      assert [s[0]] + s[1..] == s;
    }
  }

  /** Collapsing twice is collapsing once. */
  lemma CollapseIdempotent(s: string)
    ensures CollapseSlashes(CollapseSlashes(s)) == CollapseSlashes(s)
  {
    CollapseNoDouble(CollapseSlashes(s));
  }

  lemma AppendAssoc<T>(x: seq<T>, y: seq<T>, z: seq<T>)
    ensures (x + y) + z == x + (y + z)
  {
  }

  /** One step of the collapse, on a string given by its first character. */
  lemma CollapseCons(c: char, s: string)
    ensures CollapseSlashes([c] + s)
            == if c == '/' && |s| > 0 && s[0] == '/' then CollapseSlashes(s) else [c] + CollapseSlashes(s)
  {
    var cs := [c] + s;
    assert cs[1..] == s;
    if |s| == 0 {
      assert cs == [c];
    } else {
      assert cs[0] == c && cs[1] == s[0];
    }
  }

  /** A slash-free suffix passes through the collapse unchanged. */
  lemma {:induction false} CollapseAppend(a: string, b: string)
    requires '/' !in b
    ensures CollapseSlashes(a + b) == CollapseSlashes(a) + b
  {
    assert NoDoubleSlash(b);
    CollapseNoDouble(b);
    if |a| == 0 {
      assert a + b == b;
    } else {
      var c, r := a[0], a[1..];
      assert a == [c] + r && a + b == [c] + (r + b);
      CollapseAppend(r, b);
      CollapseCons(c, r + b);
      CollapseCons(c, r);
      if c == '/' && |r| > 0 && r[0] == '/' {
        assert (r + b)[0] == r[0];
      } else {
        if |r| == 0 && |b| > 0 {
          assert b[0] in b;
          assert (r + b)[0] == b[0];
        } else if |r| > 0 {
          assert (r + b)[0] == r[0];
        }
        assert CollapseSlashes(a + b) == [c] + (CollapseSlashes(r) + b);
        AppendAssoc([c], CollapseSlashes(r), b);
      }
    }
  }

  /** Strict lexicographic order on code points, as Python compares str. */
  predicate StrLt(a: string, b: string)
  {
    |b| > 0 && (|a| == 0 || a[0] < b[0] || (a[0] == b[0] && StrLt(a[1..], b[1..])))
  }

  lemma {:induction false} StrLtIrreflexive(a: string)
    ensures !StrLt(a, a)
  {
    if |a| > 0 {
      StrLtIrreflexive(a[1..]);
    }
  }

  lemma {:induction false} StrLtTransitive(a: string, b: string, c: string)
    requires StrLt(a, b) && StrLt(b, c)
    ensures StrLt(a, c)
  {
    if |a| > 0 && a[0] == b[0] && b[0] == c[0] {
      StrLtTransitive(a[1..], b[1..], c[1..]);
    }
  }

  lemma {:induction false} StrLtTotal(a: string, b: string)
    requires a != b
    ensures StrLt(a, b) || StrLt(b, a)
  {
    if |a| > 0 && |b| > 0 && a[0] == b[0] {
      StrLtTotal(a[1..], b[1..]);
    }
  }

  lemma {:induction false} StrLtAsymmetric(a: string, b: string)
    requires StrLt(a, b)
    ensures !StrLt(b, a)
  {
    if |a| > 0 && a[0] == b[0] {
      StrLtAsymmetric(a[1..], b[1..]);
    }
  }

  predicate EndsWith(s: string, suffix: string)
  {
    |suffix| <= |s| && s[|s| - |suffix|..] == suffix
  }

  /** `sub in s` for strings. */
  predicate Contains(s: string, sub: string)
  {
    exists i :: 0 <= i <= |s| && sub <= s[i..]
  }

  /** `s.rfind(c)`: the last index of c, or -1. */
  function RFind(s: string, c: char): (r: int)
    ensures -1 <= r < |s|
    ensures r >= 0 ==> s[r] == c
    ensures forall i :: r < i < |s| ==> s[i] != c
  {
    if |s| == 0 then -1
    else if s[|s| - 1] == c then |s| - 1
    else RFind(s[..|s| - 1], c)
  }

  /** Python 2 `str.isupper` on ASCII text: some upper-case letter and no lower-case one. */
  predicate IsUpper(s: string)
  {
    (exists i :: 0 <= i < |s| && 'A' <= s[i] <= 'Z')
    && forall i :: 0 <= i < |s| ==> !('a' <= s[i] <= 'z')
  }

  /** `''.join(parts)`. */
  function Concat(parts: seq<string>): string
  {
    if |parts| == 0 then "" else parts[0] + Concat(parts[1..])
  }

  lemma {:induction false} ConcatAppend(parts: seq<string>, last: string)
    ensures Concat(parts + [last]) == Concat(parts) + last
  {
    if |parts| > 0 {
      assert (parts + [last])[1..] == parts[1..] + [last];
      ConcatAppend(parts[1..], last);
    }
  }

  /** `s * n`. */
  function Repeat(s: string, n: nat): string
  {
    if n == 0 then "" else s + Repeat(s, n - 1)
  }

  /** `sep.join(parts)` for a separator string. */
  function JoinStr(parts: seq<string>, sep: string): string
  {
    if |parts| == 0 then ""
    else if |parts| == 1 then parts[0]
    else parts[0] + sep + JoinStr(parts[1..], sep)
  }

  /** Joining one more part puts exactly one separator before it. */
  lemma {:induction false} JoinStrAppend(parts: seq<string>, last: string, sep: string)
    ensures JoinStr(parts + [last], sep) == if |parts| == 0 then last else JoinStr(parts, sep) + sep + last
  {
    if |parts| > 1 {
      assert (parts + [last])[1..] == parts[1..] + [last];
      JoinStrAppend(parts[1..], last, sep);
    } else if |parts| == 1 {
      assert (parts + [last])[1..] == [last];
    }
  }

  /** The last occurrence of c in s + t is in t when t has one. */
  lemma {:induction false} RFindAppend(s: string, t: string, c: char)
    ensures RFind(s + t, c) == if c in t then |s| + RFind(t, c) else RFind(s, c)
  {
    if |t| > 0 {
      assert (s + t)[..|s + t| - 1] == s + t[..|t| - 1];
      assert (s + t)[|s + t| - 1] == t[|t| - 1];
      RFindAppend(s, t[..|t| - 1], c);
      assert c in t <==> t[|t| - 1] == c || c in t[..|t| - 1] by {
        assert t == t[..|t| - 1] + [t[|t| - 1]];
      }
    } else {
      assert s + t == s;
    }
  }

  /** Some character strictly between lo and hi is not a dot. */
  predicate NonDotBetween(p: string, lo: int, hi: int)
    requires -1 <= lo && hi <= |p|
  {
    exists i :: lo < i < hi && p[i] != '.'
  }

  /**
   * `os.path.splitext(p)`: the extension runs from the last dot of the last
   * path component, unless everything before that dot in the component is
   * dots (a hidden file's leading dot is not an extension).
   */
  function SplitExt(p: string): (r: (string, string))
    ensures r.0 + r.1 == p
    ensures r.1 == "" || (r.1[0] == '.' && '/' !in r.1 && '.' !in r.1[1..])
  {
    var sep := RFind(p, '/');
    var dot := RFind(p, '.');
    if dot > sep && NonDotBetween(p, sep, dot) then
      assert '/' !in p[dot..] by {
        forall k | 0 <= k < |p[dot..]| ensures p[dot..][k] != '/' { assert p[dot..][k] == p[dot + k]; }
      }
      assert '.' !in p[dot..][1..] by {
        forall k | 0 <= k < |p[dot..][1..]| ensures p[dot..][1..][k] != '.' { assert p[dot..][1..][k] == p[dot + 1 + k]; }
      }
      (p[..dot], p[dot..])
    else (p, "")
  }

  /**
   * A name made of a directory prefix, a stem that does not start with a
   * dot, and a one-dot extension splits back into the prefix plus stem and
   * the extension.
   */
  lemma SplitExtOf(prefix: string, stem: string, ext: string)
    requires |stem| > 0 && stem[0] != '.' && '/' !in stem
    requires |ext| > 0 && ext[0] == '.' && '/' !in ext && '.' !in ext[1..]
    ensures SplitExt(prefix + stem + ext) == (prefix + stem, ext)
  {
    var p := prefix + stem + ext;
    AppendAssoc(prefix, stem, ext);
    assert '/' !in stem + ext by {
      forall k | 0 <= k < |stem + ext| ensures (stem + ext)[k] != '/' {
        if k < |stem| { assert (stem + ext)[k] == stem[k]; } else { assert (stem + ext)[k] == ext[k - |stem|]; }
      }
    }
    RFindAppend(prefix, stem + ext, '/');
    RFindAppend(prefix + stem, ext, '.');
    assert ext == [ext[0]] + ext[1..];
    RFindAppend([ext[0]], ext[1..], '.');
    assert RFind([ext[0]], '.') == 0;
    var dot := |prefix| + |stem|;
    assert RFind(p, '.') == dot;
    assert RFind(p, '/') < |prefix|;
    assert p[|prefix|] == stem[0];
    assert NonDotBetween(p, RFind(p, '/'), dot);
    assert p[..dot] == prefix + stem;
    assert p[dot..] == ext;
  }
}
