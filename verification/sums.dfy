/** Sums and counts over sequences, defined from the back so that a loop
    accumulating from the front extends them one element at a time. */
module Sums {

  function SumReal<T>(s: seq<T>, f: T -> real): real {
    if |s| == 0 then 0.0 else SumReal(s[..|s| - 1], f) + f(s[|s| - 1])
  }

  function SumInt<T>(s: seq<T>, f: T -> int): int {
    if |s| == 0 then 0 else SumInt(s[..|s| - 1], f) + f(s[|s| - 1])
  }

  /** Number of elements satisfying `p` (LINQ `Count(p)`). */
  function CountWhere<T>(s: seq<T>, p: T -> bool): (n: nat)
    ensures n <= |s|
  {
    if |s| == 0 then 0 else CountWhere(s[..|s| - 1], p) + (if p(s[|s| - 1]) then 1 else 0)
  }

  /** Elements satisfying `p`, in order (LINQ `Where(p)`). */
  function Where<T>(s: seq<T>, p: T -> bool): (r: seq<T>)
    ensures |r| == CountWhere(s, p)
    ensures forall i :: 0 <= i < |r| ==> p(r[i])
  {
    if |s| == 0 then [] else Where(s[..|s| - 1], p) + (if p(s[|s| - 1]) then [s[|s| - 1]] else [])
  }

  /** `Average()` of a non-empty list, 0 for an empty one (the guard the
      report code writes around every division). */
  function Ratio(total: real, count: int): (r: real)
    ensures count > 0 ==> r * (count as real) == total
    ensures count <= 0 ==> r == 0.0
  {
    if count > 0 then total / (count as real) else 0.0
  }

  lemma {:induction false} SumRealAppend<T>(a: seq<T>, b: seq<T>, f: T -> real)
    ensures SumReal(a + b, f) == SumReal(a, f) + SumReal(b, f)
    decreases |b|
  {
    if |b| == 0 {
      assert a + b == a;
    } else {
      assert (a + b)[..|a + b| - 1] == a + b[..|b| - 1];
      SumRealAppend(a, b[..|b| - 1], f);
    }
  }

  lemma {:induction false} SumIntAppend<T>(a: seq<T>, b: seq<T>, f: T -> int)
    ensures SumInt(a + b, f) == SumInt(a, f) + SumInt(b, f)
    decreases |b|
  {
    if |b| == 0 {
      assert a + b == a;
    } else {
      assert (a + b)[..|a + b| - 1] == a + b[..|b| - 1];
      SumIntAppend(a, b[..|b| - 1], f);
    }
  }

  lemma {:induction false} CountWhereAppend<T>(a: seq<T>, b: seq<T>, p: T -> bool)
    ensures CountWhere(a + b, p) == CountWhere(a, p) + CountWhere(b, p)
    decreases |b|
  {
    if |b| == 0 {
      assert a + b == a;
    } else {
      assert (a + b)[..|a + b| - 1] == a + b[..|b| - 1];
      CountWhereAppend(a, b[..|b| - 1], p);
    }
  }

  /** An element is kept exactly when it occurs in `s` and satisfies `p`. */
  lemma {:induction false} WhereMembers<T>(s: seq<T>, p: T -> bool, x: T)
    ensures x in Where(s, p) <==> x in s && p(x)
    decreases |s|
  {
    if |s| > 0 {
      WhereMembers(s[..|s| - 1], p, x);
      assert s == s[..|s| - 1] + [s[|s| - 1]];
    }
  }

  lemma {:induction false} WhereAppend<T>(a: seq<T>, b: seq<T>, p: T -> bool)
    ensures Where(a + b, p) == Where(a, p) + Where(b, p)
    decreases |b|
  {
    if |b| == 0 {
      assert a + b == a;
    } else {
      assert (a + b)[..|a + b| - 1] == a + b[..|b| - 1];
      WhereAppend(a, b[..|b| - 1], p);
    }
  }

  /** Summing `f` over the elements is the same as summing it over the
      positions: the bridge between a `seq(...)` of per-row values and a sum
      over the rows' source elements. */
  lemma {:induction false} SumRealMap<T, U>(s: seq<T>, rows: seq<U>, f: T -> real, g: U -> real)
    requires |rows| == |s|
    requires forall i :: 0 <= i < |s| ==> g(rows[i]) == f(s[i])
    ensures SumReal(rows, g) == SumReal(s, f)
    decreases |s|
  {
    if |s| > 0 {
      SumRealMap(s[..|s| - 1], rows[..|rows| - 1], f, g);
    }
  }

  lemma {:induction false} CountWhereMap<T, U>(s: seq<T>, rows: seq<U>, p: T -> bool, q: U -> bool)
    requires |rows| == |s|
    requires forall i :: 0 <= i < |s| ==> q(rows[i]) == p(s[i])
    ensures CountWhere(rows, q) == CountWhere(s, p)
    decreases |s|
  {
    if |s| > 0 {
      CountWhereMap(s[..|s| - 1], rows[..|rows| - 1], p, q);
    }
  }
}
