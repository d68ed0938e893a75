/** Python's list slicing and `reversed`, with the index arithmetic written out. */
module PySeq {

  /** How Python normalises one bound of `s[i:j]` for a list of length `n`:
      a negative bound counts from the end, and the result is clamped to `0..n`. */
  function ClampIndex(i: int, n: nat): (k: nat)
    ensures k <= n
    ensures 0 <= i <= n ==> k == i
    ensures i < 0 && 0 <= n + i ==> k == n + i
    ensures n + i < 0 ==> k == 0
    ensures n < i ==> k == n
  {
    if i < 0 then (if i + n < 0 then 0 else i + n)
    else if i > n then n
    else i
  }

  /** `s[i:j]` */
  function Slice<T>(s: seq<T>, i: int, j: int): seq<T>
  {
    var a := ClampIndex(i, |s|);
    var b := ClampIndex(j, |s|);
    if a < b then s[a..b] else []
  }

  /** Bounds already inside the list are used as they are. */
  lemma SliceWithin<T>(s: seq<T>, i: nat, j: nat)
    requires i <= j <= |s|
    ensures Slice(s, i, j) == s[i..j]
  {
  }

  /** `s[:n]`, the truncation used for "at most n results". */
  function Take<T>(s: seq<T>, n: int): (r: seq<T>)
    ensures 0 <= n ==> |r| == if n <= |s| then n else |s|
    ensures n < 0 ==> |r| == if |s| + n < 0 then 0 else |s| + n
    ensures forall k :: 0 <= k < |r| ==> r[k] == s[k]
  {
    Slice(s, 0, n)
  }

  /** `list(reversed(s))`, and `s.reverse()` applied to a fresh copy. */
  function Reverse<T>(s: seq<T>): (r: seq<T>)
    ensures |r| == |s|
    ensures forall k :: 0 <= k < |s| ==> r[k] == s[|s| - 1 - k]
  {
    seq(|s|, k requires 0 <= k < |s| => s[|s| - 1 - k])
  }

  /** Reversing a window of `s`: the `i`-th element counts back from the window's
      end, and is the element of the reversed whole at the same distance from
      the window's end. */
  lemma ReverseWindow<T>(s: seq<T>, a: nat, b: nat)
    requires a <= b <= |s|
    ensures |Reverse(s[a..b])| == b - a
    ensures forall i :: 0 <= i < b - a ==> Reverse(s[a..b])[i] == s[b - 1 - i] == Reverse(s)[|s| - b + i]
  {
    forall i | 0 <= i < b - a ensures Reverse(s[a..b])[i] == s[b - 1 - i] == Reverse(s)[|s| - b + i] {
      var w := s[a..b];
      assert Reverse(w)[i] == w[|w| - 1 - i] == s[b - 1 - i];
      var k := |s| - b + i;
      assert Reverse(s)[k] == s[|s| - 1 - k] == s[b - 1 - i];
    }
  }

  /** One position of a reversed window, seen from the window and from the whole. */
  lemma ReverseWindowAt<T>(s: seq<T>, a: nat, b: nat, i: nat)
    requires a <= b <= |s| && i < b - a
    ensures Reverse(s[a..b])[i] == s[b - 1 - i]
    ensures Reverse(s)[|s| - b + i] == s[b - 1 - i]
  {
    var w := s[a..b];
    assert Reverse(w)[i] == w[|w| - 1 - i] == s[b - 1 - i];
    var k := |s| - b + i;
    assert Reverse(s)[k] == s[|s| - 1 - k] == s[b - 1 - i];
  }

  /** Regrouping a concatenation of four pieces. */
  lemma Regroup<T>(a: seq<T>, b: seq<T>, c: seq<T>, d: seq<T>)
    ensures a + (b + c + d) == (a + b + c) + d
  {
  }

  /** One more element taken from the front. */
  lemma TakeNext<T>(s: seq<T>, i: nat)
    requires i < |s|
    ensures s[..i + 1] == s[..i] + [s[i]]
  {
  }

  /** Taking everything. */
  lemma TakeAll<T>(s: seq<T>)
    ensures s[..|s|] == s
  {
  }

  /** Nothing in front. */
  lemma EmptyFront<T>(s: seq<T>)
    ensures [] + s == s
  {
  }

  /** Dropping nothing. */
  lemma DropNone<T>(s: seq<T>)
    ensures s[0..] == s
  {
  }

  /** Dropping everything. */
  lemma DropAll<T>(s: seq<T>)
    ensures s[|s|..] == []
  {
  }

  /** Two appends in a row append both. */
  lemma SnocSnoc<T>(s: seq<T>, a: T, b: T)
    ensures s + [a] + [b] == s + [a, b]
  {
  }

  /** Nothing behind. */
  lemma EmptyBack<T>(s: seq<T>)
    ensures s + [] == s
  {
  }

  /** Appending one item after a concatenation. */
  lemma AppendBehind<T>(a: seq<T>, b: seq<T>, x: T)
    ensures a + b + [x] == a + (b + [x])
  {
  }

  /** Concatenation regroups. */
  lemma Associate<T>(a: seq<T>, b: seq<T>, c: seq<T>)
    ensures a + (b + c) == a + b + c
  {
  }

  function Min(a: int, b: int): int
  {
    if a <= b then a else b
  }

  function Max(a: int, b: int): int
  {
    if a >= b then a else b
  }
}
