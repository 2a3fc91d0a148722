/** `list.sort(key=..., reverse=True)` and the running total: a stable sort into
    non-increasing key order, and the sum of the keys. */
module Sorting {

  /** Non-increasing by key. */
  predicate Descending<T>(key: T -> real, s: seq<T>) {
    forall i, j :: 0 <= i < j < |s| ==> key(s[i]) >= key(s[j])
  }

  /** The elements of `s` whose key is `k`, in their order in `s`. */
  function WithKey<T>(key: T -> real, s: seq<T>, k: real): seq<T> {
    if |s| == 0 then []
    else (if key(s[0]) == k then [s[0]] else []) + WithKey(key, s[1..], k)
  }

  /** `a` orders every group of equal keys exactly as `b` does: what a stable
      sort promises about its output `a` and its input `b`. */
  ghost predicate SameTies<T>(key: T -> real, a: seq<T>, b: seq<T>) {
    forall k :: WithKey(key, a, k) == WithKey(key, b, k)
  }

  lemma {:induction false} WithKeyEmpty<T>(key: T -> real, s: seq<T>, k: real)
    ensures WithKey(key, s, k) == [] <==> forall i :: 0 <= i < |s| ==> key(s[i]) != k
  {
    if |s| > 0 {
      WithKeyEmpty(key, s[1..], k);
      assert forall i :: 1 <= i < |s| ==> s[i] == s[1..][i - 1];
    }
  }

  /** A non-increasing sequence stays so when an element no smaller than its
      first one is put in front. */
  lemma DescendingCons<T>(key: T -> real, h: T, s: seq<T>)
    requires Descending(key, s)
    requires |s| > 0 ==> key(s[0]) <= key(h)
    ensures Descending(key, [h] + s)
  {
    assert forall j :: 0 < j <= |s| ==> ([h] + s)[j] == s[j - 1];
  }

  /** Puts `x` after the elements with a larger key and before the rest. */
  function Insert<T>(key: T -> real, x: T, t: seq<T>): (r: seq<T>)
    requires Descending(key, t)
    ensures Descending(key, r)
    ensures multiset(r) == multiset(t) + multiset{x}
    ensures |r| == |t| + 1 && (r[0] == x || (|t| > 0 && r[0] == t[0]))
  {
    if |t| == 0 || key(t[0]) <= key(x) then
      DescendingCons(key, x, t);
      [x] + t
    else
      assert t == [t[0]] + t[1..];
      var rest := Insert(key, x, t[1..]);
      DescendingCons(key, t[0], rest);
      [t[0]] + rest
  }

  /** The stable sort into non-increasing key order. */
  function SortDescending<T>(key: T -> real, s: seq<T>): (r: seq<T>)
    ensures Descending(key, r)
    ensures multiset(r) == multiset(s)
  {
    if |s| == 0 then []
    else
      assert s == [s[0]] + s[1..];
      Insert(key, s[0], SortDescending(key, s[1..]))
  }

  /** The group of key `k` of `[h] + s`: `h` if it has key `k`, then the group in `s`. */
  lemma WithKeyCons<T>(key: T -> real, h: T, s: seq<T>, k: real)
    ensures WithKey(key, [h] + s, k) == (if key(h) == k then [h] else []) + WithKey(key, s, k)
  {
    assert ([h] + s)[1..] == s;
  }

  /** Two prefixes of which one is empty can be swapped. */
  lemma SwapEmptyPrefix<T>(p: seq<T>, q: seq<T>, r: seq<T>)
    requires p == [] || q == []
    ensures p + (q + r) == q + (p + r)
  {
    if p == [] {
      assert p + (q + r) == q + r;
    } else {
      assert q + (p + r) == p + r;
    }
  }

  /** `x` joins its group of equal keys in front; no other group changes. */
  lemma {:induction false} InsertTies<T>(key: T -> real, x: T, t: seq<T>, k: real)
    requires Descending(key, t)
    ensures WithKey(key, Insert(key, x, t), k)
         == (if key(x) == k then [x] else []) + WithKey(key, t, k)
  {
    if |t| == 0 || key(t[0]) <= key(x) {
      WithKeyCons(key, x, t, k);
    } else {
      var px := if key(x) == k then [x] else [];
      var p0 := if key(t[0]) == k then [t[0]] else [];
      var tail := WithKey(key, t[1..], k);
      WithKeyCons(key, t[0], Insert(key, x, t[1..]), k);
      InsertTies(key, x, t[1..], k);
      assert WithKey(key, t, k) == p0 + tail;
      // `x` and `t[0]` have different keys, so at most one of them is kept
      SwapEmptyPrefix(p0, px, tail);
    }
  }

  /** Sorting keeps equal keys in their original order. */
  lemma {:induction false} SortDescendingIsStable<T>(key: T -> real, s: seq<T>)
    ensures SameTies(key, SortDescending(key, s), s)
  {
    if |s| > 0 {
      SortDescendingIsStable(key, s[1..]);
      forall k
        ensures WithKey(key, SortDescending(key, s), k) == WithKey(key, s, k)
      {
        InsertTies(key, s[0], SortDescending(key, s[1..]), k);
      }
    }
  }

  /** Equal first elements and equal groups leave equal groups in the tails. */
  lemma TailTies<T>(key: T -> real, a: seq<T>, b: seq<T>)
    requires |a| > 0 && |b| > 0 && a[0] == b[0]
    requires SameTies(key, a, b)
    ensures SameTies(key, a[1..], b[1..])
  {
    forall k
      ensures WithKey(key, a[1..], k) == WithKey(key, b[1..], k)
    {
      var p := if key(a[0]) == k then [a[0]] else [];
      assert WithKey(key, a, k) == p + WithKey(key, a[1..], k);
      assert WithKey(key, b, k) == p + WithKey(key, b[1..], k);
      assert (p + WithKey(key, a[1..], k))[|p|..] == WithKey(key, a[1..], k);
    }
  }

  /** Two non-increasing sequences with the same groups start with the same element. */
  lemma HeadsAgree<T>(key: T -> real, a: seq<T>, b: seq<T>)
    requires Descending(key, a) && Descending(key, b)
    requires SameTies(key, a, b)
    requires |a| > 0 && |b| > 0
    ensures a[0] == b[0]
  {
    var m := key(a[0]);
    var n := key(b[0]);
    WithKeyEmpty(key, a, n);
    WithKeyEmpty(key, b, m);
    assert WithKey(key, a, n) == WithKey(key, b, n);
    assert WithKey(key, a, m) == WithKey(key, b, m);
    assert n <= m && m <= n;
    assert WithKey(key, a, m)[0] == a[0];
    assert WithKey(key, b, m)[0] == b[0];
  }

  /** Two non-increasing sequences that order every group of equal keys alike
      are equal. */
  lemma {:induction false} DescendingTiesDetermine<T>(key: T -> real, a: seq<T>, b: seq<T>)
    requires Descending(key, a) && Descending(key, b)
    requires SameTies(key, a, b)
    ensures a == b
  {
    if |a| == 0 || |b| == 0 {
      if |a| > 0 {
        WithKeyEmpty(key, a, key(a[0]));
        WithKeyEmpty(key, b, key(a[0]));
        assert false;
      }
      if |b| > 0 {
        WithKeyEmpty(key, a, key(b[0]));
        WithKeyEmpty(key, b, key(b[0]));
        assert false;
      }
    } else {
      HeadsAgree(key, a, b);
      TailTies(key, a, b);
      DescendingTiesDetermine(key, a[1..], b[1..]);
      assert a == [a[0]] + a[1..] && b == [b[0]] + b[1..];
    }
  }

  /** Any stable sort into non-increasing key order gives what `SortDescending`
      gives, so the insertion sort stands for whichever stable algorithm is used. */
  lemma StableSortIsUnique<T>(key: T -> real, s: seq<T>, a: seq<T>)
    requires Descending(key, a) && SameTies(key, a, s)
    ensures a == SortDescending(key, s)
  {
    SortDescendingIsStable(key, s);
    DescendingTiesDetermine(key, a, SortDescending(key, s));
  }

  /** The sum of the keys, added front to back. */
  function SumOf<T>(key: T -> real, s: seq<T>): real {
    if |s| == 0 then 0.0 else key(s[0]) + SumOf(key, s[1..])
  }

  lemma {:induction false} SumOfInsert<T>(key: T -> real, x: T, t: seq<T>)
    requires Descending(key, t)
    ensures SumOf(key, Insert(key, x, t)) == key(x) + SumOf(key, t)
  {
    if |t| == 0 || key(t[0]) <= key(x) {
      assert ([x] + t)[1..] == t;
    } else {
      var rest := Insert(key, x, t[1..]);
      assert ([t[0]] + rest)[1..] == rest;
      SumOfInsert(key, x, t[1..]);
    }
  }

  /** Sorting does not change the total. */
  lemma {:induction false} SumOfSorted<T>(key: T -> real, s: seq<T>)
    ensures SumOf(key, SortDescending(key, s)) == SumOf(key, s)
  {
    if |s| > 0 {
      SumOfSorted(key, s[1..]);
      SumOfInsert(key, s[0], SortDescending(key, s[1..]));
    }
  }
}
