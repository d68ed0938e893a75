/** Python's `list.sort(key=k, reverse=True)` and `sorted(xs, key=k, reverse=True)`:
    a stable sort into non-increasing key order. Python keeps the original order of
    elements with equal keys even when `reverse=True`, so the result is fixed by two
    facts proved below: it is non-increasing, and for every key value the elements
    carrying that key appear in their original order. */
module StableSort {
  import PySeq

  /** Keys never increase from left to right. */
  ghost predicate SortedDesc<T>(s: seq<T>, key: T -> real)
  {
    forall i, j :: 0 <= i < j < |s| ==> key(s[i]) >= key(s[j])
  }

  /** The elements of `s` whose key is `k`, in their order in `s`. */
  function WithKey<T>(s: seq<T>, key: T -> real, k: real): (r: seq<T>)
    ensures |r| <= |s|
    ensures forall i :: 0 <= i < |r| ==> key(r[i]) == k
  {
    if s == [] then []
    else (if key(s[0]) == k then [s[0]] else []) + WithKey(s[1..], key, k)
  }

  /** Puts `x` after every element whose key is at least `key(x)`. */
  function Insert<T>(s: seq<T>, x: T, key: T -> real): (r: seq<T>)
    ensures |r| == |s| + 1
  {
    if s == [] then [x]
    else if key(s[0]) >= key(x) then [s[0]] + Insert(s[1..], x, key)
    else [x] + s
  }

  /** A stable sort by non-increasing key: each element, taken in input order, is
      inserted after the ones already placed with a key at least as large. */
  function SortDesc<T>(s: seq<T>, key: T -> real): (r: seq<T>)
    ensures |r| == |s|
    ensures multiset(r) == multiset(s)
  {
    if s == [] then []
    else
      InsertPermutation(SortDesc(s[..|s| - 1], key), s[|s| - 1], key);
      assert s == s[..|s| - 1] + [s[|s| - 1]];
      Insert(SortDesc(s[..|s| - 1], key), s[|s| - 1], key)
  }

  lemma {:induction false} WithKeyConcat<T>(a: seq<T>, b: seq<T>, key: T -> real, k: real)
    ensures WithKey(a + b, key, k) == WithKey(a, key, k) + WithKey(b, key, k)
  {
    if a != [] {
      assert (a + b)[1..] == a[1..] + b;
      WithKeyConcat(a[1..], b, key, k);
    } else {
      assert a + b == b;
    }
  }

  lemma {:induction false} WithKeyNone<T>(s: seq<T>, key: T -> real, k: real)
    requires forall i :: 0 <= i < |s| ==> key(s[i]) < k
    ensures WithKey(s, key, k) == []
  {
    if s != [] {
      WithKeyNone(s[1..], key, k);
    }
  }

  lemma {:induction false} InsertPermutation<T>(s: seq<T>, x: T, key: T -> real)
    ensures multiset(Insert(s, x, key)) == multiset(s) + multiset{x}
  {
    if s != [] && key(s[0]) >= key(x) {
      InsertPermutation(s[1..], x, key);
      Cons(s);
    }
  }

  lemma SortedTail<T>(s: seq<T>, key: T -> real)
    requires s != [] && SortedDesc(s, key)
    ensures SortedDesc(s[1..], key)
  {
    forall i, j | 0 <= i < j < |s| - 1 ensures key(s[1..][i]) >= key(s[1..][j]) {
      assert s[1..][i] == s[i + 1] && s[1..][j] == s[j + 1];
    }
  }

  /** Prepending an element whose key bounds every other key keeps the order. */
  lemma SortedCons<T>(y: T, t: seq<T>, key: T -> real)
    requires SortedDesc(t, key)
    requires forall m :: 0 <= m < |t| ==> key(y) >= key(t[m])
    ensures SortedDesc([y] + t, key)
  {
    forall i, j | 0 <= i < j < |t| + 1 ensures key(([y] + t)[i]) >= key(([y] + t)[j]) {
      if i > 0 {
        assert ([y] + t)[i] == t[i - 1];
      }
      assert ([y] + t)[j] == t[j - 1];
    }
  }

  lemma {:induction false} InsertSorted<T>(s: seq<T>, x: T, key: T -> real)
    requires SortedDesc(s, key)
    ensures SortedDesc(Insert(s, x, key), key)
  {
    if s == [] {
      assert Insert(s, x, key) == [x];
    } else if key(s[0]) >= key(x) {
      var t := Insert(s[1..], x, key);
      SortedTail(s, key);
      InsertSorted(s[1..], x, key);
      InsertPermutation(s[1..], x, key);
      forall m | 0 <= m < |t| ensures key(s[0]) >= key(t[m]) {
        assert t[m] in multiset(t);
        if t[m] != x {
          assert t[m] in multiset(s[1..]);
          var n :| 0 <= n < |s[1..]| && s[1..][n] == t[m];
          assert s[n + 1] == t[m];
        }
      }
      SortedCons(s[0], t, key);
    } else {
      SortedCons(x, s, key);
    }
  }

  lemma {:induction false} InsertWithKey<T>(s: seq<T>, x: T, key: T -> real, k: real)
    requires SortedDesc(s, key)
    ensures WithKey(Insert(s, x, key), key, k)
            == WithKey(s, key, k) + (if key(x) == k then [x] else [])
  {
    var tail := if key(x) == k then [x] else [];
    if s == [] {
      assert Insert(s, x, key) == [x];
      assert WithKey([x], key, k) == tail + WithKey([x][1..], key, k);
    } else if key(s[0]) >= key(x) {
      SortedTail(s, key);
      InsertWithKey(s[1..], x, key, k);
      InsertWithKeyBehind(s, x, key, k);
    } else {
      assert ([x] + s)[0] == x && ([x] + s)[1..] == s;
      assert WithKey([x] + s, key, k) == tail + WithKey(s, key, k);
      if key(x) == k {
        forall i | 0 <= i < |s| ensures key(s[i]) < k {
          assert i == 0 || key(s[0]) >= key(s[i]);
        }
        WithKeyNone(s, key, k);
      }
    }
  }

  /** When `x` goes behind the head, the head's contribution stays in front. */
  lemma InsertWithKeyBehind<T>(s: seq<T>, x: T, key: T -> real, k: real)
    requires s != [] && key(s[0]) >= key(x)
    requires WithKey(Insert(s[1..], x, key), key, k) == WithKey(s[1..], key, k) + (if key(x) == k then [x] else [])
    ensures WithKey(Insert(s, x, key), key, k) == WithKey(s, key, k) + (if key(x) == k then [x] else [])
  {
    var t := Insert(s[1..], x, key);
    var h := if key(s[0]) == k then [s[0]] else [];
    var tail := if key(x) == k then [x] else [];
    assert ([s[0]] + t)[0] == s[0] && ([s[0]] + t)[1..] == t;
    assert WithKey([s[0]] + t, key, k) == h + WithKey(t, key, k);
    assert WithKey(s, key, k) == h + WithKey(s[1..], key, k);
    PySeq.Associate(h, WithKey(s[1..], key, k), tail);
  }

  /** A non-empty sequence is its head followed by its tail. */
  lemma Cons<T>(s: seq<T>)
    requires s != []
    ensures s == [s[0]] + s[1..]
  {
  }

  /** A non-empty sequence is its front followed by its last element. */
  lemma Snoc<T>(s: seq<T>)
    requires s != []
    ensures s == s[..|s| - 1] + [s[|s| - 1]]
  {
  }

  /** The sorted sequence is a permutation of the input in non-increasing key order. */
  lemma {:induction false} SortDescSortedPermutation<T>(s: seq<T>, key: T -> real)
    ensures SortedDesc(SortDesc(s, key), key)
    ensures multiset(SortDesc(s, key)) == multiset(s)
  {
    if s != [] {
      var init, last := s[..|s| - 1], s[|s| - 1];
      SortDescSortedPermutation(init, key);
      InsertSorted(SortDesc(init, key), last, key);
      InsertPermutation(SortDesc(init, key), last, key);
      Snoc(s);
    }
  }

  /** Stability: elements with equal keys keep their relative input order. */
  lemma {:induction false} SortDescStable<T>(s: seq<T>, key: T -> real, k: real)
    ensures WithKey(SortDesc(s, key), key, k) == WithKey(s, key, k)
  {
    if s != [] {
      var init, last := s[..|s| - 1], s[|s| - 1];
      SortDescStable(init, key, k);
      SortDescSortedPermutation(init, key);
      InsertWithKey(SortDesc(init, key), last, key, k);
      Snoc(s);
      assert [last][0] == last && [last][1..] == [];
      WithKeyConcat(init, [last], key, k);
    }
  }

  /** An element is in the sorted sequence exactly when it is in the input. */
  lemma SortDescMembers<T>(s: seq<T>, key: T -> real, x: T)
    ensures x in SortDesc(s, key) <==> x in s
  {
    SortDescSortedPermutation(s, key);
    assert x in SortDesc(s, key) <==> x in multiset(SortDesc(s, key));
    assert x in s <==> x in multiset(s);
  }

  /** Truncating the sorted sequence keeps the best: an element left out scores no
      higher than any element kept. */
  lemma PrefixIsTop<T>(s: seq<T>, key: T -> real, n: nat, x: T)
    requires x in s && x !in SortDesc(s, key)[..PySeq.Min(n, |s|)]
    ensures forall i :: 0 <= i < PySeq.Min(n, |s|) ==> key(SortDesc(s, key)[i]) >= key(x)
  {
    var sorted := SortDesc(s, key);
    SortDescSortedPermutation(s, key);
    SortDescMembers(s, key, x);
    var j :| 0 <= j < |sorted| && sorted[j] == x;
  }
}
