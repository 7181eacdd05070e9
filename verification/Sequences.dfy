/** Facts about finite sequences that the pool and the lists under it share. */
module Sequences {

  ghost predicate NoDup<T>(s: seq<T>) {
    forall i, j :: 0 <= i < j < |s| ==> s[i] != s[j]
  }

  /** `s` with an occurrence of `x` taken out; in a sequence free of duplicates, the only one. */
  ghost function Without<T>(s: seq<T>, x: T): (r: seq<T>)
    requires x in s
    ensures |r| == |s| - 1
  {
    var k :| 0 <= k < |s| && s[k] == x;
    s[..k] + s[k + 1..]
  }

  /** Taking out the element at index `k` of a duplicate-free sequence. */
  lemma WithoutAt<T>(s: seq<T>, k: nat)
    requires NoDup(s) && k < |s|
    ensures Without(s, s[k]) == s[..k] + s[k + 1..]
  {
  }

  lemma WithoutFacts<T>(s: seq<T>, x: T)
    requires NoDup(s) && x in s
    ensures NoDup(Without(s, x))
    ensures forall y :: y in Without(s, x) <==> y in s && y != x
  {
    var k :| 0 <= k < |s| && s[k] == x;
    WithoutAt(s, k);
    var r := Without(s, x);
    forall y | y in s && y != x
      ensures y in r
    {
      var j :| 0 <= j < |s| && s[j] == y;
      assert y == if j < k then r[j] else r[j - 1];
    }
  }

  lemma AppendFacts<T>(s: seq<T>, x: T)
    requires NoDup(s) && x !in s
    ensures NoDup(s + [x])
    ensures forall y :: y in s + [x] <==> y in s || y == x
  {
  }

  /** The sum of `f` over a sequence. */
  ghost function Total<T>(f: T -> int, s: seq<T>): int {
    if s == [] then 0 else Total(f, s[..|s| - 1]) + f(s[|s| - 1])
  }

  lemma TotalAppend<T>(f: T -> int, s: seq<T>, x: T)
    ensures Total(f, s + [x]) == Total(f, s) + f(x)
  {
    assert (s + [x])[..|s|] == s;
  }

  lemma {:induction false} TotalUpdate<T>(f: T -> int, s: seq<T>, i: nat, x: T)
    requires i < |s|
    ensures Total(f, s[i := x]) == Total(f, s) - f(s[i]) + f(x)
  {
    var last := |s| - 1;
    if i == last {
      assert s[i := x][..last] == s[..last];
    } else {
      TotalUpdate(f, s[..last], i, x);
      assert s[i := x][..last] == s[..last][i := x];
    }
  }

  /** Sequences that weigh the same position by position have the same sum. */
  lemma {:induction false} TotalSame<T>(f: T -> int, s: seq<T>, t: seq<T>)
    requires |s| == |t|
    requires forall i :: 0 <= i < |s| ==> f(s[i]) == f(t[i])
    ensures Total(f, s) == Total(f, t)
  {
    if s != [] {
      TotalSame(f, s[..|s| - 1], t[..|t| - 1]);
    }
  }

  /** A sum of non-negative weights is zero exactly when every weight is. */
  lemma {:induction false} TotalZero<T>(f: T -> int, s: seq<T>)
    requires forall i :: 0 <= i < |s| ==> f(s[i]) >= 0
    ensures Total(f, s) >= 0
    ensures Total(f, s) == 0 <==> forall i :: 0 <= i < |s| ==> f(s[i]) == 0
  {
    if s != [] {
      var t := s[..|s| - 1];
      TotalZero(f, t);
      if Total(f, s) == 0 {
        forall i | 0 <= i < |s|
          ensures f(s[i]) == 0
        {
          assert i < |t| ==> s[i] == t[i];
        }
      }
    }
  }
}
