/**
 * The stable sort behind `Array.prototype.sort` with a numeric comparator.
 *
 * `SortedByKey` is insertion sort from the back: it is the pure counterpart of
 * the in-place `SortInPlace` and, being stable, the unique result of any
 * stable sort under the same comparator. Keys are `Ext` values ordered by
 * `ExtReal.Less`, the order a comparator `(a, b) => key(a) - key(b)` induces.
 */
module StableSort {
  import opened ExtReal

  /** Place `x` after every element of `s` whose key is not above its own. */
  function Insert<T>(s: seq<T>, x: T, key: T -> Ext): (r: seq<T>)
    ensures |r| == |s| + 1
    decreases |s|
  {
    if |s| == 0 || !Less(key(x), key(s[|s| - 1])) then s + [x]
    else Insert(s[..|s| - 1], x, key) + [s[|s| - 1]]
  }

  lemma {:induction false} InsertPermutes<T>(s: seq<T>, x: T, key: T -> Ext)
    ensures multiset(Insert(s, x, key)) == multiset(s) + multiset{x}
    decreases |s|
  {
    if |s| > 0 && Less(key(x), key(s[|s| - 1])) {
      var s', last := s[..|s| - 1], s[|s| - 1];
      InsertPermutes(s', x, key);
      assert s == s' + [last];
    }
  }

  /** Stable ascending sort of `s` by `key`. */
  function SortedByKey<T>(s: seq<T>, key: T -> Ext): (r: seq<T>)
    ensures |r| == |s|
  {
    if |s| == 0 then []
    else Insert(SortedByKey(s[..|s| - 1], key), s[|s| - 1], key)
  }

  /** The sort is a permutation of its input. */
  lemma {:induction false} SortedByKeyPermutes<T>(s: seq<T>, key: T -> Ext)
    ensures multiset(SortedByKey(s, key)) == multiset(s)
  {
    if |s| > 0 {
      var s', x := s[..|s| - 1], s[|s| - 1];
      SortedByKeyPermutes(s', key);
      InsertPermutes(SortedByKey(s', key), x, key);
      assert s == s' + [x];
    }
  }

  /** Ascending by key: no later element has a strictly smaller key. */
  ghost predicate SortedBy<T>(s: seq<T>, key: T -> Ext)
  {
    forall i, j :: 0 <= i < j < |s| ==> Le(key(s[i]), key(s[j]))
  }

  /** Every element of the sorted sequence stands at some position of the input. */
  lemma {:induction false} SortedFromInput<T>(s: seq<T>, key: T -> Ext, x: T)
    requires x in SortedByKey(s, key)
    ensures exists k :: 0 <= k < |s| && s[k] == x
  {
    SortedByKeyPermutes(s, key);
    assert x in multiset(s);
  }

  /** Keeping a prefix keeps a prefix of each key class. */
  lemma {:induction false} WithKeyPrefix<T>(s: seq<T>, key: T -> Ext, k: Ext, n: nat)
    requires n <= |s|
    ensures WithKey(s[..n], key, k) <= WithKey(s, key, k)
    decreases |s|
  {
    if n < |s| {
      var init := s[..|s| - 1];
      assert s[..n] == init[..n];
      WithKeyPrefix(init, key, k, n);
    } else {
      assert s[..n] == s;
    }
  }

  /** The head of a sorted sequence has a key no greater than any element's. */
  lemma {:induction false} HeadIsLeast<T>(s: seq<T>, key: T -> Ext)
    requires |s| > 0 && SortedBy(s, key)
    ensures forall x :: x in s ==> Le(key(s[0]), key(x))
  {
    forall x | x in s ensures Le(key(s[0]), key(x)) {
      var i :| 0 <= i < |s| && s[i] == x;
      if i == 0 {
        LeTotalPreorder(key(x), key(x), key(x));
      }
    }
  }

  /** The elements of `s` whose key is `k`, in their order in `s`. */
  function WithKey<T>(s: seq<T>, key: T -> Ext, k: Ext): (r: seq<T>)
    ensures |r| <= |s|
  {
    if |s| == 0 then []
    else WithKey(s[..|s| - 1], key, k) + (if key(s[|s| - 1]) == k then [s[|s| - 1]] else [])
  }

  lemma {:induction false} WithKeyAppend<T>(a: seq<T>, b: seq<T>, key: T -> Ext, k: Ext)
    ensures WithKey(a + b, key, k) == WithKey(a, key, k) + WithKey(b, key, k)
    decreases |b|
  {
    if |b| > 0 {
      var n := |b|;
      assert (a + b)[..|a + b| - 1] == a + b[..n - 1];
      WithKeyAppend(a, b[..n - 1], key, k);
    } else {
      assert a + b == a;
    }
  }

  lemma {:induction false} InsertSorted<T>(s: seq<T>, x: T, key: T -> Ext)
    requires SortedBy(s, key)
    ensures SortedBy(Insert(s, x, key), key)
    decreases |s|
  {
    var r := Insert(s, x, key);
    if |s| == 0 || !Less(key(x), key(s[|s| - 1])) {
      forall i, j | 0 <= i < j < |r|
        ensures Le(key(r[i]), key(r[j]))
      {
        if j == |s| {
          LeTotalPreorder(key(r[i]), key(s[|s| - 1]), key(x));
        }
      }
    } else {
      var s', last := s[..|s| - 1], s[|s| - 1];
      InsertSorted(s', x, key);
      var r' := Insert(s', x, key);
      InsertPermutes(s', x, key);
      assert r == r' + [last];
      forall i, j | 0 <= i < j < |r|
        ensures Le(key(r[i]), key(r[j]))
      {
        if j == |r| - 1 {
          var y := r'[i];
          assert y in multiset(s') + multiset{x} by {
            assert y in multiset(r');
          }
          if y == x {
            LeTotalPreorder(key(x), key(last), key(last));
          } else {
            assert y in s';
            var m :| 0 <= m < |s'| && s'[m] == y;
            assert s[m] == y;
          }
        }
      }
    }
  }

  /** The sort orders its result ascending by key. */
  lemma {:induction false} SortedByKeyIsSorted<T>(s: seq<T>, key: T -> Ext)
    ensures SortedBy(SortedByKey(s, key), key)
  {
    if |s| > 0 {
      SortedByKeyIsSorted(s[..|s| - 1], key);
      InsertSorted(SortedByKey(s[..|s| - 1], key), s[|s| - 1], key);
    }
  }

  /** `WithKey` of a sequence extended by one element. */
  lemma {:induction false} WithKeySnoc<T>(s: seq<T>, y: T, key: T -> Ext, k: Ext)
    ensures WithKey(s + [y], key, k) == WithKey(s, key, k) + (if key(y) == k then [y] else [])
  {
    assert (s + [y])[..|s|] == s;
  }

  lemma {:induction false} InsertWithKey<T>(s: seq<T>, x: T, key: T -> Ext, k: Ext)
    ensures WithKey(Insert(s, x, key), key, k)
         == WithKey(s, key, k) + (if key(x) == k then [x] else [])
    decreases |s|
  {
    if |s| == 0 || !Less(key(x), key(s[|s| - 1])) {
      WithKeySnoc(s, x, key, k);
    } else {
      var s', last := s[..|s| - 1], s[|s| - 1];
      InsertWithKey(s', x, key, k);
      WithKeySnoc(Insert(s', x, key), last, key, k);
      assert key(x) != key(last) by {
        LeTotalPreorder(key(x), key(last), key(last));
      }
    }
  }

  /**
   * Stability: for every key value, the elements carrying it appear in the
   * sorted result in the same order as in the input.
   */
  lemma {:induction false} SortedByKeyIsStable<T>(s: seq<T>, key: T -> Ext, k: Ext)
    ensures WithKey(SortedByKey(s, key), key, k) == WithKey(s, key, k)
  {
    if |s| > 0 {
      var s', x := s[..|s| - 1], s[|s| - 1];
      SortedByKeyIsStable(s', key, k);
      InsertWithKey(SortedByKey(s', key), x, key, k);
    }
  }

  /** The first element of `WithKey(s, key, k)` is the first element of `s` with key `k`. */
  lemma {:induction false} WithKeyHead<T>(s: seq<T>, key: T -> Ext, k: Ext, m: nat)
    requires m < |s| && key(s[m]) == k
    requires forall j :: 0 <= j < m ==> key(s[j]) != k
    ensures |WithKey(s, key, k)| > 0 && WithKey(s, key, k)[0] == s[m]
  {
    assert s == [s[0]] + s[1..];
    WithKeyAppend([s[0]], s[1..], key, k);
    assert [s[0]][..0] == [];
    if m > 0 {
      WithKeyHead(s[1..], key, k, m - 1);
    }
  }

  /** A sequence with no element of key `k` has no `WithKey` entries for it. */
  lemma {:induction false} WithKeyNone<T>(s: seq<T>, key: T -> Ext, k: Ext)
    requires forall j :: 0 <= j < |s| ==> key(s[j]) != k
    ensures WithKey(s, key, k) == []
  {
    if |s| > 0 {
      WithKeyNone(s[..|s| - 1], key, k);
    }
  }

  /**
   * The head of the sorted sequence is the earliest element of the input
   * whose key is minimal: every element has a key not below it, and every
   * earlier element has a strictly larger key (ties keep input order).
   */
  lemma {:induction false} HeadIsFirstMinimal<T>(s: seq<T>, key: T -> Ext) returns (m: nat)
    requires |s| > 0
    ensures m < |s| && SortedByKey(s, key)[0] == s[m]
    ensures forall j :: 0 <= j < |s| ==> Le(key(s[m]), key(s[j]))
    ensures forall j :: 0 <= j < m ==> Less(key(s[m]), key(s[j]))
  {
    var r := SortedByKey(s, key);
    SortedByKeyIsSorted(s, key);
    var k := key(r[0]);
    SortedByKeyPermutes(s, key);
    SortedByKeyIsStable(s, key, k);
    assert forall j :: 0 <= j < |s| ==> Le(k, key(s[j])) by {
      forall j | 0 <= j < |s| ensures Le(k, key(s[j])) {
        assert s[j] in multiset(r);
        var i :| 0 <= i < |r| && r[i] == s[j];
        if i > 0 {
          assert Le(key(r[0]), key(r[i]));
        } else {
          LeTotalPreorder(k, k, k);
        }
      }
    }
    WithKeyHead(r, key, k, 0);
    // The first index of `s` carrying key `k`.
    m := 0;
    while key(s[m]) != k
      invariant m < |s|
      invariant forall j :: 0 <= j < m ==> key(s[j]) != k
      decreases |s| - m
    {
      if m + 1 == |s| {
        WithKeyNone(s, key, k);
        assert false;
      }
      m := m + 1;
    }
    WithKeyHead(s, key, k, m);
    forall j | 0 <= j < m ensures Less(k, key(s[j])) {
      LeTotalPreorder(k, key(s[j]), key(s[j]));
      LeTotalPreorder(key(s[j]), k, k);
    }
  }

  /** Inserting past an element with a strictly larger key moves that element right. */
  lemma {:induction false} InsertPast<T>(p: seq<T>, x: T, key: T -> Ext, j: nat)
    requires 0 < j <= |p| && Less(key(x), key(p[j - 1]))
    ensures Insert(p[..j], x, key) + p[j..] == Insert(p[..j - 1], x, key) + p[j - 1..]
  {
    assert p[..j][..j - 1] == p[..j - 1];
    assert p[j - 1..] == [p[j - 1]] + p[j..];
  }

  /** Insertion stops in front of an element whose key is not above `x`'s. */
  lemma {:induction false} InsertStop<T>(p: seq<T>, x: T, key: T -> Ext, j: nat)
    requires j <= |p| && (j == 0 || !Less(key(x), key(p[j - 1])))
    ensures Insert(p[..j], x, key) == p[..j] + [x]
  {
  }

  /**
   * One pass of insertion sort: shifts `a[i]` left past the elements of
   * `a[..i]` with a strictly larger key.
   */
  method InsertInPlace<T>(a: array<T>, i: nat, key: T -> Ext)
    requires i < a.Length
    modifies a
    ensures a[..i + 1] == Insert(old(a[..i]), old(a[i]), key)
    ensures a[i + 1..] == old(a[i + 1..])
  {
    var x := a[i];
    ghost var p := a[..i];
    var j := i;
    assert p[..i] == p && p[i..] == [];
    while j > 0 && Less(key(x), key(a[j - 1]))
      invariant 0 <= j <= i
      invariant forall k :: 0 <= k < j ==> a[k] == p[k]
      invariant forall k :: j < k <= i ==> a[k] == p[k - 1]
      invariant forall k :: i < k < a.Length ==> a[k] == old(a[k])
      invariant Insert(p, x, key) == Insert(p[..j], x, key) + p[j..]
    {
      InsertPast(p, x, key, j);
      a[j] := a[j - 1];
      j := j - 1;
    }
    InsertStop(p, x, key, j);
    a[j] := x;
    assert a[..i + 1] == p[..j] + [x] + p[j..];
  }

  /**
   * In-place stable insertion sort: the array ends up holding
   * `SortedByKey` of its old contents.
   */
  method SortInPlace<T>(a: array<T>, key: T -> Ext)
    modifies a
    ensures a[..] == SortedByKey(old(a[..]), key)
  {
    ghost var input := a[..];
    var i := 0;
    while i < a.Length
      invariant 0 <= i <= a.Length
      invariant a[..i] == SortedByKey(input[..i], key)
      invariant a[i..] == input[i..]
    {
      InsertInPlace(a, i, key);
      assert input[..i + 1][..i] == input[..i];
      i := i + 1;
    }
    assert input[..a.Length] == input;
    assert a[..a.Length] == a[..];
  }
}
