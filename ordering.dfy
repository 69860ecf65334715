/** Python's ordering of `str` values (code point by code point, a proper
    prefix first) and `sorted` on a list of paths (seo_audit.py:139). */
module PathOrder {

  /** `a < b` on Python strings. */
  predicate Less(a: string, b: string)
  {
    if a == [] then b != []
    else b != [] && (a[0] < b[0] || (a[0] == b[0] && Less(a[1..], b[1..])))
  }

  lemma {:induction false} LessIrreflexive(a: string)
    ensures !Less(a, a)
  {
    if a != [] {
      LessIrreflexive(a[1..]);
    }
  }

  lemma {:induction false} LessTransitive(a: string, b: string, c: string)
    requires Less(a, b) && Less(b, c)
    ensures Less(a, c)
  {
    if a != [] && b != [] && c != [] && a[0] == b[0] && b[0] == c[0] {
      LessTransitive(a[1..], b[1..], c[1..]);
    }
  }

  /** Any two distinct strings are ordered one way or the other. */
  lemma {:induction false} LessTotal(a: string, b: string)
    requires a != b
    ensures Less(a, b) || Less(b, a)
  {
    if a != [] && b != [] && a[0] == b[0] {
      assert a == [a[0]] + a[1..] && b == [b[0]] + b[1..];
      LessTotal(a[1..], b[1..]);
    }
  }

  lemma {:induction false} LessAsymmetric(a: string, b: string)
    requires Less(a, b)
    ensures !Less(b, a)
  {
    if a != [] && b != [] && a[0] == b[0] {
      LessAsymmetric(a[1..], b[1..]);
    }
  }

  /** Strictly increasing, hence also free of repeats. */
  ghost predicate Ascending(s: seq<string>) {
    forall i, j :: 0 <= i < j < |s| ==> Less(s[i], s[j])
  }

  ghost predicate Distinct<T>(s: seq<T>) {
    forall i, j :: 0 <= i < j < |s| ==> s[i] != s[j]
  }

  /** Puts `x` in front of the first element not below it. */
  function InsertPath(x: string, s: seq<string>): (r: seq<string>)
    ensures multiset(r) == multiset(s) + multiset{x}
  {
    if s == [] then [x]
    else if !Less(s[0], x) then [x] + s
    else
      assert s == [s[0]] + s[1..];
      [s[0]] + InsertPath(x, s[1..])
  }

  lemma {:induction false} InsertPathAscending(x: string, s: seq<string>)
    ensures Ascending(s) && x !in s ==> Ascending(InsertPath(x, s))
  {
    if s != [] && Ascending(s) && x !in s {
      if !Less(s[0], x) {
        LessTotal(x, s[0]);
        forall j | 0 <= j < |s| ensures Less(x, s[j]) {
          if j > 0 {
            LessTransitive(x, s[0], s[j]);
          }
        }
      } else {
        var rest := InsertPath(x, s[1..]);
        InsertPathAscending(x, s[1..]);
        forall j | 0 <= j < |rest| ensures Less(s[0], rest[j]) {
          assert rest[j] in multiset(rest);
          if rest[j] != x {
            assert rest[j] in multiset(s[1..]);
            var k :| 0 <= k < |s[1..]| && s[1..][k] == rest[j];
            assert s[k + 1] == rest[j];
          }
        }
      }
    }
  }

  /** `sorted(pages)`: a permutation of the paths, strictly ascending when the
      paths are distinct (as the directory walk produces them). */
  function SortPaths(s: seq<string>): (r: seq<string>)
    ensures multiset(r) == multiset(s)
    ensures Distinct(s) ==> Ascending(r)
  {
    if s == [] then []
    else
      var rest := SortPaths(s[1..]);
      assert s == [s[0]] + s[1..];
      SortHeadFresh(s, rest);
      InsertPathAscending(s[0], rest);
      InsertPath(s[0], rest)
  }

  lemma SortHeadFresh(s: seq<string>, rest: seq<string>)
    requires s != []
    requires multiset(rest) == multiset(s[1..])
    ensures Distinct(s) ==> Distinct(s[1..]) && s[0] !in rest
  {
    if Distinct(s) {
      assert s[0] !in multiset(s[1..]);
    }
  }
}
