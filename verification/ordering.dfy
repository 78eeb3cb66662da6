/** LINQ `OrderByDescending(key)`: a stable sort on an integer key, highest
    key first, elements with equal keys kept in their original order. */
module Ordering {

  predicate SortedDesc<T>(s: seq<T>, key: T -> int) {
    forall i, j :: 0 <= i < j < |s| ==> key(s[i]) >= key(s[j])
  }

  /** The elements whose key is `k`, in order. Stability says the sort does not
      reorder these. */
  function WithKey<T>(s: seq<T>, key: T -> int, k: int): seq<T> {
    if |s| == 0 then []
    else WithKey(s[..|s| - 1], key, k) + (if key(s[|s| - 1]) == k then [s[|s| - 1]] else [])
  }

  /** Puts `x` after every element whose key is at least its own. */
  function Insert<T>(t: seq<T>, x: T, key: T -> int): seq<T> {
    if |t| == 0 then [x]
    else if key(x) > key(t[0]) then [x] + t
    else [t[0]] + Insert(t[1..], x, key)
  }

  lemma {:induction false} InsertSorted<T>(t: seq<T>, x: T, key: T -> int)
    requires SortedDesc(t, key)
    ensures |Insert(t, x, key)| == |t| + 1
    ensures SortedDesc(Insert(t, x, key), key)
    ensures multiset(Insert(t, x, key)) == multiset(t) + multiset{x}
    ensures Insert(t, x, key)[0] == x || (|t| > 0 && Insert(t, x, key)[0] == t[0])
    decreases |t|
  {
    if |t| > 0 {
      if key(x) > key(t[0]) {
        SortedCons(x, t, key);
      } else {
        var rest := Insert(t[1..], x, key);
        InsertSorted(t[1..], x, key);
        assert t == [t[0]] + t[1..];
        assert multiset([t[0]] + rest) == multiset{t[0]} + multiset(rest);
        SortedCons(t[0], rest, key);
      }
    }
  }

  lemma SortedCons<T>(h: T, r: seq<T>, key: T -> int)
    requires SortedDesc(r, key)
    requires |r| > 0 ==> key(h) >= key(r[0])
    ensures SortedDesc([h] + r, key)
  {
    var s := [h] + r;
    forall i, j | 0 <= i < j < |s|
      ensures key(s[i]) >= key(s[j])
    {
      if i == 0 && j > 1 {
        assert key(r[0]) >= key(r[j - 1]);
      }
    }
  }

  /** Insertion sort, highest key first. */
  function SortDesc<T>(s: seq<T>, key: T -> int): (r: seq<T>)
    ensures |r| == |s|
    ensures SortedDesc(r, key)
    ensures multiset(r) == multiset(s)
  {
    if |s| == 0 then []
    else
      var sorted := SortDesc(s[..|s| - 1], key);
      InsertSorted(sorted, s[|s| - 1], key);
      assert s == s[..|s| - 1] + [s[|s| - 1]];
      Insert(sorted, s[|s| - 1], key)
  }

  lemma {:induction false} WithKeyAppend<T>(a: seq<T>, b: seq<T>, key: T -> int, k: int)
    ensures WithKey(a + b, key, k) == WithKey(a, key, k) + WithKey(b, key, k)
    decreases |b|
  {
    if |b| == 0 {
      assert a + b == a;
    } else {
      assert (a + b)[..|a + b| - 1] == a + b[..|b| - 1];
      WithKeyAppend(a, b[..|b| - 1], key, k);
    }
  }

  /** In a list sorted descending whose head key is below `k`, nothing has key `k`. */
  lemma {:induction false} WithKeyBelow<T>(t: seq<T>, key: T -> int, k: int)
    requires SortedDesc(t, key)
    requires |t| > 0 && key(t[0]) < k
    ensures WithKey(t, key, k) == []
    decreases |t|
  {
    if |t| > 1 {
      WithKeyBelow(t[..|t| - 1], key, k);
    }
  }

  lemma {:induction false} InsertWithKey<T>(t: seq<T>, x: T, key: T -> int, k: int)
    requires SortedDesc(t, key)
    ensures WithKey(Insert(t, x, key), key, k) == WithKey(t, key, k) + WithKey([x], key, k)
    decreases |t|
  {
    if |t| == 0 {
      assert Insert(t, x, key) == [x];
      assert t + [x] == [x];
      WithKeyAppend(t, [x], key, k);
    } else if key(x) > key(t[0]) {
      InsertAtFront(t, x, key, k);
    } else {
      InsertWithKey(t[1..], x, key, k);
      InsertBehindHead(t, x, key, k);
    }
  }

  lemma InsertAtFront<T>(t: seq<T>, x: T, key: T -> int, k: int)
    requires SortedDesc(t, key)
    requires |t| > 0 && key(x) > key(t[0])
    ensures WithKey(Insert(t, x, key), key, k) == WithKey(t, key, k) + WithKey([x], key, k)
  {
    assert Insert(t, x, key) == [x] + t;
    WithKeyAppend([x], t, key, k);
    if key(x) == k {
      WithKeyBelow(t, key, k);
    } else {
      assert WithKey([x], key, k) == WithKey([], key, k);
    }
  }

  lemma InsertBehindHead<T>(t: seq<T>, x: T, key: T -> int, k: int)
    requires |t| > 0 && key(x) <= key(t[0])
    requires WithKey(Insert(t[1..], x, key), key, k) == WithKey(t[1..], key, k) + WithKey([x], key, k)
    ensures WithKey(Insert(t, x, key), key, k) == WithKey(t, key, k) + WithKey([x], key, k)
  {
    var head, tail := [t[0]], t[1..];
    assert t == head + tail;
    WithKeyAppend(head, Insert(tail, x, key), key, k);
    WithKeyAppend(head, tail, key, k);
  }

  /** Stability: for every key, the elements carrying it appear in the sorted
      list in exactly the order they had in the input. */
  lemma {:induction false} SortDescStable<T>(s: seq<T>, key: T -> int, k: int)
    ensures WithKey(SortDesc(s, key), key, k) == WithKey(s, key, k)
    decreases |s|
  {
    if |s| > 0 {
      var init := s[..|s| - 1];
      SortDescStable(init, key, k);
      InsertWithKey(SortDesc(init, key), s[|s| - 1], key, k);
      assert s == init + [s[|s| - 1]];
      WithKeyAppend(init, [s[|s| - 1]], key, k);
    }
  }

  /** A list already in order is left as it is. */
  lemma {:induction false} SortDescOfSorted<T>(s: seq<T>, key: T -> int)
    requires SortedDesc(s, key)
    ensures SortDesc(s, key) == s
    decreases |s|
  {
    if |s| > 0 {
      var init, last := s[..|s| - 1], s[|s| - 1];
      assert s == init + [last];
      SortDescOfSorted(init, key);
      InsertAtEnd(init, last, key);
    }
  }

  lemma {:induction false} InsertAtEnd<T>(t: seq<T>, x: T, key: T -> int)
    requires forall i :: 0 <= i < |t| ==> key(t[i]) >= key(x)
    ensures Insert(t, x, key) == t + [x]
    decreases |t|
  {
    if |t| > 0 {
      InsertAtEnd(t[1..], x, key);
      assert t == [t[0]] + t[1..];
    }
  }
}
