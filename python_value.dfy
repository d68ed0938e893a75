/**
 * The JSON/YAML values the dialectic tools read (test files, tool inputs, sampling responses),
 * with the parts of Python's data model the core relies on: `dict.get`, truthiness, what a
 * `for` loop iterates, and `==`.  Dicts are association lists in insertion order with string
 * keys; floats are not modelled.
 */
module PyValue {
  import opened Wrappers

  datatype Value =
    | NoneV
    | BoolV(b: bool)
    | IntV(i: int)
    | StrV(s: string)
    | ListV(items: seq<Value>)
    | DictV(entries: seq<Entry>)

  datatype Entry = Entry(key: string, value: Value)

  /** The keys of a dict, in insertion order. */
  function Keys(d: seq<Entry>): (ks: seq<string>)
    ensures |ks| == |d|
    ensures forall i :: 0 <= i < |d| ==> ks[i] == d[i].key
  {
    if d == [] then [] else [d[0].key] + Keys(d[1..])
  }

  /** `d.get(key)`: the value of the first entry with that key, `None` when there is none. */
  function Get(d: seq<Entry>, key: string): (r: Option<Value>)
    ensures r.Some? <==> key in Keys(d)
    ensures r.Some? ==> exists i :: 0 <= i < |d| && d[i] == Entry(key, r.value) && forall j :: 0 <= j < i ==> d[j].key != key
  {
    if d == [] then None
    else if d[0].key == key then Some(d[0].value)
    else Get(d[1..], key)
  }

  /** `d.get(key, default)` */
  function GetOr(d: seq<Entry>, key: string, default: Value): Value
  {
    Get(d, key).GetOr(default)
  }

  /** Python truthiness: `None`, `False`, `0` and empty strings, lists and dicts are false. */
  predicate Truthy(v: Value)
    ensures !Truthy(v) <==> v in {NoneV, BoolV(false), IntV(0), StrV(""), ListV([]), DictV([])}
  {
    match v
    case NoneV => false
    case BoolV(b) => b
    case IntV(i) => i != 0
    case StrV(s) => s != ""
    case ListV(items) => items != []
    case DictV(entries) => entries != []
  }

  /** The one-character strings of `s`, which is what `for c in s` visits. */
  function Chars(s: string): (r: seq<Value>)
    ensures |r| == |s|
    ensures forall i :: 0 <= i < |s| ==> r[i] == StrV([s[i]])
  {
    if s == [] then [] else [StrV([s[0]])] + Chars(s[1..])
  }

  /** The key strings of a dict, which is what `for k in d` visits. */
  function KeyValues(d: seq<Entry>): (r: seq<Value>)
    ensures |r| == |d|
    ensures forall i :: 0 <= i < |d| ==> r[i] == StrV(d[i].key)
  {
    if d == [] then [] else [StrV(d[0].key)] + KeyValues(d[1..])
  }

  /** What `for x in v` visits; `None` when `v` is not iterable (the loop raises `TypeError`). */
  function Iter(v: Value): (r: Option<seq<Value>>)
    ensures r.None? <==> v.NoneV? || v.BoolV? || v.IntV?
    ensures v.ListV? ==> r == Some(v.items)
    ensures v.StrV? ==> r.Some? && |r.value| == |v.s| && forall i :: 0 <= i < |v.s| ==> r.value[i] == StrV([v.s[i]])
    ensures v.DictV? ==> r.Some? && |r.value| == |v.entries| && forall i :: 0 <= i < |v.entries| ==> r.value[i] == StrV(v.entries[i].key)
  {
    match v
    case ListV(items) => Some(items)
    case DictV(entries) => Some(KeyValues(entries))
    case StrV(s) => Some(Chars(s))
    case _ => None
  }

  /** The string items of a sequence; `None` once one is not a string (`item.lower()` raises). */
  function Strings(vs: seq<Value>): (r: Option<seq<string>>)
    ensures r.Some? <==> forall i :: 0 <= i < |vs| ==> vs[i].StrV?
    ensures r.Some? ==> |r.value| == |vs| && forall i :: 0 <= i < |vs| ==> vs[i] == StrV(r.value[i])
  {
    if vs == [] then Some([])
    else if !vs[0].StrV? then None
    else match Strings(vs[1..])
      case None => None
      case Some(rest) => Some([vs[0].s] + rest)
  }

  /** The strings a loop over `v` visits when each visited item is used as a string. */
  function StringsIn(v: Value): (r: Option<seq<string>>)
    ensures v.NoneV? || v.BoolV? || v.IntV? ==> r.None?
    ensures v.StrV? || v.DictV? ==> r.Some?
    ensures v.ListV? ==> (r.Some? <==> forall i :: 0 <= i < |v.items| ==> v.items[i].StrV?)
    ensures v.ListV? && r.Some? ==> |r.value| == |v.items| && forall i :: 0 <= i < |v.items| ==> v.items[i] == StrV(r.value[i])
  {
    match Iter(v)
    case None => None
    case Some(vs) => Strings(vs)
  }

  /** `True == 1` and `False == 0` in Python. */
  function Numeric(v: Value): int
    requires v.BoolV? || v.IntV?
  {
    if v.BoolV? then (if v.b then 1 else 0) else v.i
  }

  /** Python's `a == b`: numbers by value (booleans included), strings by content, lists item by
   *  item, dicts as key-to-value maps regardless of insertion order. */
  predicate PyEq(a: Value, b: Value)
    ensures PyEq(a, b) ==> (a.NoneV? <==> b.NoneV?) && (a.StrV? <==> b.StrV?) && (a.ListV? <==> b.ListV?) && (a.DictV? <==> b.DictV?)
    ensures (a.BoolV? || a.IntV?) && (b.BoolV? || b.IntV?) ==> (PyEq(a, b) <==> Numeric(a) == Numeric(b))
    decreases a
  {
    match a
    case NoneV => b.NoneV?
    case BoolV(_) => (b.BoolV? || b.IntV?) && Numeric(a) == Numeric(b)
    case IntV(_) => (b.BoolV? || b.IntV?) && Numeric(a) == Numeric(b)
    case StrV(s) => b == StrV(s)
    case ListV(xs) =>
      b.ListV? && |xs| == |b.items| &&
      forall i :: 0 <= i < |xs| ==> PyEq(xs[i], b.items[i])
    case DictV(xs) =>
      b.DictV? &&
      (forall i :: 0 <= i < |xs| ==>
         Get(b.entries, xs[i].key).Some? && PyEq(xs[i].value, Get(b.entries, xs[i].key).value)) &&
      (forall j :: 0 <= j < |b.entries| ==> b.entries[j].key in Keys(xs))
  }

  /** Keys are distinct at every level, as in every dict Python builds. */
  predicate WellFormed(v: Value)
    decreases v
  {
    match v
    case ListV(xs) => forall i :: 0 <= i < |xs| ==> WellFormed(xs[i])
    case DictV(xs) =>
      (forall i, j :: 0 <= i < j < |xs| ==> xs[i].key != xs[j].key) &&
      (forall i :: 0 <= i < |xs| ==> WellFormed(xs[i].value))
    case _ => true
  }

  /** With distinct keys, `get` finds each entry's own value. */
  lemma {:induction false} GetDistinct(d: seq<Entry>, i: nat)
    requires i < |d|
    requires forall a, b :: 0 <= a < b < |d| ==> d[a].key != d[b].key
    ensures Get(d, d[i].key) == Some(d[i].value)
  {
    if i > 0 {
      GetDistinct(d[1..], i - 1);
    }
  }

  /** Every value Python builds is equal to itself. */
  lemma {:induction false} PyEqReflexive(v: Value)
    requires WellFormed(v)
    ensures PyEq(v, v)
    decreases v
  {
    match v
    case ListV(xs) =>
      forall i | 0 <= i < |xs| ensures PyEq(xs[i], xs[i]) {
        PyEqReflexive(xs[i]);
      }
    case DictV(xs) =>
      forall i | 0 <= i < |xs|
        ensures Get(xs, xs[i].key).Some? && PyEq(xs[i].value, Get(xs, xs[i].key).value)
      {
        GetDistinct(xs, i);
        PyEqReflexive(xs[i].value);
      }
    case _ =>
  }
}
