/** The few Python string operations the servers rely on: `sep.join`, `s.split(sep)`,
    `s.strip()` used as a blank test, the substring test `a in b`, and `str(n)`
    for a natural number. */
module PyText {

  /** `sep.join(parts)` */
  function Join(sep: string, parts: seq<string>): string
    decreases |parts|
  {
    if |parts| == 0 then ""
    else if |parts| == 1 then parts[0]
    else parts[0] + sep + Join(sep, parts[1..])
  }

  /** Adding a piece at the end of a join adds the separator and the piece. */
  lemma {:induction false} JoinSnoc(sep: string, parts: seq<string>, x: string)
    ensures Join(sep, parts + [x]) == if parts == [] then x else Join(sep, parts) + sep + x
  {
    if |parts| == 1 {
      assert parts + [x] == [parts[0], x];
    } else if |parts| > 1 {
      assert (parts + [x])[1..] == parts[1..] + [x];
      JoinSnoc(sep, parts[1..], x);
    }
  }

  /** `s.split(sep)` for a one-character separator: the maximal runs between
      separators, so `""` splits into `[""]` and `"a/"` into `["a", ""]`. */
  function Split(s: string, sep: char): (parts: seq<string>)
    ensures |parts| >= 1
  {
    if s == [] then [""]
    else
      var rest := Split(s[1..], sep);
      if s[0] == sep then [""] + rest
      else [[s[0]] + rest[0]] + rest[1..]
  }

  /** No piece of a split holds the separator. */
  lemma {:induction false} SplitPiecesFree(s: string, sep: char)
    ensures forall i :: 0 <= i < |Split(s, sep)| ==> sep !in Split(s, sep)[i]
  {
    if s != [] {
      var rest := Split(s[1..], sep);
      SplitPiecesFree(s[1..], sep);
      if s[0] != sep {
        var parts := Split(s, sep);
        forall i | 0 <= i < |parts| ensures sep !in parts[i] {
          if i == 0 {
            assert parts[0] == [s[0]] + rest[0];
          } else {
            assert parts[i] == rest[i];
          }
        }
      }
    }
  }

  /** Joining the pieces of a split gives back the string. */
  lemma {:induction false} JoinSplit(s: string, sep: char)
    ensures Join([sep], Split(s, sep)) == s
  {
    if s != [] {
      var rest := Split(s[1..], sep);
      JoinSplit(s[1..], sep);
      if s[0] == sep {
        assert Split(s, sep) == [""] + rest;
        assert ([""] + rest)[1..] == rest;
      } else {
        var parts := [[s[0]] + rest[0]] + rest[1..];
        assert Split(s, sep) == parts;
        if |rest| == 1 {
          assert Join([sep], parts) == [s[0]] + rest[0];
        } else {
          assert parts[1..] == rest[1..];
          assert Join([sep], rest) == rest[0] + [sep] + Join([sep], rest[1..]);
        }
      }
    }
  }

  /** Splitting a separator-free prefix glues it onto the first piece. */
  lemma {:induction false} SplitFreePrefix(p: string, t: string, sep: char)
    requires sep !in p
    ensures Split(p + t, sep) == [p + Split(t, sep)[0]] + Split(t, sep)[1..]
  {
    if p != [] {
      assert (p + t)[1..] == p[1..] + t;
      assert p[0] in p;
      SplitFreePrefix(p[1..], t, sep);
      var s := Split(t, sep);
      var r := Split(p[1..] + t, sep);
      assert r[0] == p[1..] + s[0] && r[1..] == s[1..];
      assert Split(p + t, sep) == [[p[0]] + r[0]] + r[1..];
      assert [p[0]] + (p[1..] + s[0]) == p + s[0];
    } else {
      assert p + t == t;
      assert p + Split(t, sep)[0] == Split(t, sep)[0];
      assert Split(t, sep) == [Split(t, sep)[0]] + Split(t, sep)[1..];
    }
  }

  /** Splitting a join of separator-free pieces gives back the pieces. */
  lemma {:induction false} SplitJoin(parts: seq<string>, sep: char)
    requires |parts| >= 1
    requires forall i :: 0 <= i < |parts| ==> sep !in parts[i]
    ensures Split(Join([sep], parts), sep) == parts
  {
    if |parts| == 1 {
      SplitFreePrefix(parts[0], "", sep);
      assert parts[0] + "" == parts[0];
    } else {
      var rest := Join([sep], parts[1..]);
      SplitJoin(parts[1..], sep);
      assert Join([sep], parts) == parts[0] + ([sep] + rest);
      SplitFreePrefix(parts[0], [sep] + rest, sep);
      assert ([sep] + rest)[1..] == rest;
      assert Split([sep] + rest, sep) == [""] + parts[1..];
      assert parts[0] + "" == parts[0];
      assert parts == [parts[0]] + parts[1..];
    }
  }

  /** A string without the separator splits into itself alone, and only such a string does. */
  lemma SplitSingle(s: string, sep: char)
    ensures sep !in s <==> Split(s, sep) == [s]
  {
    if sep !in s {
      assert Join([sep], [s]) == s;
      SplitJoin([s], sep);
    } else {
      SplitPiecesFree(s, sep);
      assert sep !in Split(s, sep)[0];
    }
  }

  /** The characters whose removal `str.strip()` performs (Python's `str.isspace`). */
  predicate IsSpace(c: char)
  {
    c == ' ' || ('\t' <= c <= '\r') || ('\U{1C}' <= c <= '\U{1F}')
    || c == '\U{85}' || c == '\U{A0}' || c == '\U{1680}'
    || ('\U{2000}' <= c <= '\U{200A}') || c == '\U{2028}' || c == '\U{2029}'
    || c == '\U{202F}' || c == '\U{205F}' || c == '\U{3000}'
  }

  /** `not s.strip()`: nothing is left once leading and trailing whitespace is removed. */
  predicate IsBlank(s: string)
  {
    forall i :: 0 <= i < |s| ==> IsSpace(s[i])
  }

  predicate IsPrefix(p: string, s: string)
  {
    |p| <= |s| && s[..|p|] == p
  }

  /** `needle in hay` for strings. */
  predicate Contains(needle: string, hay: string)
    decreases |hay|
  {
    IsPrefix(needle, hay) || (|hay| > 0 && Contains(needle, hay[1..]))
  }

  /** `needle` occurs in `hay` starting at position `i`. */
  predicate OccursAt(needle: string, hay: string, i: int)
  {
    0 <= i <= |hay| - |needle| && hay[i..i + |needle|] == needle
  }

  /** `needle in hay` holds exactly when the needle occurs at some position. */
  lemma {:induction false} ContainsAt(needle: string, hay: string)
    ensures Contains(needle, hay) <==> exists i :: OccursAt(needle, hay, i)
  {
    if IsPrefix(needle, hay) {
      assert OccursAt(needle, hay, 0);
    } else if |hay| > 0 {
      ContainsAt(needle, hay[1..]);
      if Contains(needle, hay[1..]) {
        var i :| OccursAt(needle, hay[1..], i);
        assert hay[1..][i..i + |needle|] == hay[i + 1..i + 1 + |needle|];
        assert OccursAt(needle, hay, i + 1);
      }
      if exists i :: OccursAt(needle, hay, i) {
        var i :| OccursAt(needle, hay, i);
        assert i != 0;
        assert hay[1..][i - 1..i - 1 + |needle|] == hay[i..i + |needle|];
        assert OccursAt(needle, hay[1..], i - 1);
      }
    }
  }

  /** An occurrence in the left part is an occurrence in the whole. */
  lemma OccursLeft(needle: string, a: string, b: string, i: int)
    requires OccursAt(needle, a, i)
    ensures OccursAt(needle, a + b, i)
  {
    assert (a + b)[i..i + |needle|] == a[i..i + |needle|];
  }

  /** An occurrence in the right part is an occurrence in the whole, shifted by the left part. */
  lemma OccursRight(needle: string, a: string, b: string, i: int)
    requires OccursAt(needle, b, i)
    ensures OccursAt(needle, a + b, |a| + i)
  {
    assert (a + b)[|a| + i..|a| + i + |needle|] == b[i..i + |needle|];
  }

  /** Every piece of a join occurs in it. */
  lemma {:induction false} JoinHoldsPart(sep: string, parts: seq<string>, k: nat)
    requires k < |parts|
    ensures exists i :: OccursAt(parts[k], Join(sep, parts), i)
    decreases |parts|
  {
    if |parts| == 1 {
      assert OccursAt(parts[0], Join(sep, parts), 0);
    } else if k == 0 {
      assert OccursAt(parts[0], parts[0], 0);
      OccursLeft(parts[0], parts[0], sep + Join(sep, parts[1..]), 0);
      assert parts[0] + (sep + Join(sep, parts[1..])) == Join(sep, parts);
    } else {
      JoinHoldsPart(sep, parts[1..], k - 1);
      var i :| OccursAt(parts[k], Join(sep, parts[1..]), i);
      OccursRight(parts[k], parts[0] + sep, Join(sep, parts[1..]), i);
      assert (parts[0] + sep) + Join(sep, parts[1..]) == Join(sep, parts);
    }
  }

  function DigitChar(d: nat): char
    requires d < 10
  {
    "0123456789"[d]
  }

  /** `str(n)` for a natural number: its decimal digits, most significant first. */
  function NatToString(n: nat): (r: string)
    ensures |r| >= 1
    ensures forall i :: 0 <= i < |r| ==> '0' <= r[i] <= '9'
  {
    if n < 10 then [DigitChar(n)] else NatToString(n / 10) + [DigitChar(n % 10)]
  }
}
