/** The section tree as an owned value: dictionary access on one level (`Lookup`,
    `Put`), path lookup (`Find`, what `get_section` walks), path creation
    (`Materialise`, what `create_section` builds) and the in-place append that
    `journal_write` performs through the section it got back (`AppendAt`). */
module JournalTree {
  import opened Wrappers
  import opened JournalTypes
  import PyText

  /** `list(d.keys())` */
  function Names(d: seq<Named>): (r: seq<string>)
    ensures |r| == |d|
    ensures forall i :: 0 <= i < |d| ==> r[i] == d[i].name
  {
    if d == [] then [] else [d[0].name] + Names(d[1..])
  }

  /** `d.get(name)` */
  function Lookup(d: seq<Named>, name: string): (r: Option<Section>)
    ensures r.Some? <==> name in Names(d)
    ensures r.Some? ==> Named(name, r.value) in d
  {
    if d == [] then None
    else if d[0].name == name then Some(d[0].section)
    else Lookup(d[1..], name)
  }

  /** `d[name] = s`: an existing key keeps its place, a new key goes at the end. */
  function Put(d: seq<Named>, name: string, s: Section): (r: seq<Named>)
    ensures Names(r) == if name in Names(d) then Names(d) else Names(d) + [name]
    ensures forall x :: x in r ==> x in d || x == Named(name, s)
  {
    if d == [] then [Named(name, s)]
    else if d[0].name == name then [Named(name, s)] + d[1..]
    else [d[0]] + Put(d[1..], name, s)
  }

  /** After `d[name] = s`, the key `name` maps to `s` and every other key is unchanged. */
  lemma {:induction false} LookupPut(d: seq<Named>, name: string, s: Section, other: string)
    ensures Lookup(Put(d, name, s), other) == if other == name then Some(s) else Lookup(d, other)
  {
    if d != [] && d[0].name != name {
      LookupPut(d[1..], name, s, other);
      assert ([d[0]] + Put(d[1..], name, s))[1..] == Put(d[1..], name, s);
    }
  }

  /** Storing the value a key already has changes nothing. */
  lemma {:induction false} PutSame(d: seq<Named>, name: string)
    requires Lookup(d, name).Some?
    ensures Put(d, name, Lookup(d, name).value) == d
  {
    assert d == [d[0]] + d[1..];
    if d[0].name != name {
      assert Lookup(d[1..], name) == Lookup(d, name);
      PutSame(d[1..], name);
    }
  }

  /** A second store to the same key overwrites the first. */
  lemma {:induction false} PutPut(d: seq<Named>, name: string, a: Section, b: Section)
    ensures Put(Put(d, name, a), name, b) == Put(d, name, b)
  {
    if d != [] && d[0].name != name {
      PutPut(d[1..], name, a, b);
      assert ([d[0]] + Put(d[1..], name, a))[1..] == Put(d[1..], name, a);
    } else if d != [] {
      assert ([Named(name, a)] + d[1..])[1..] == d[1..];
    }
  }

  /** Looking up a path after storing `n` under `x`. */
  lemma FindPut(d: seq<Named>, x: string, n: Section, q: seq<string>)
    requires q != []
    ensures Find(Put(d, x, n), q)
            == if q[0] != x then Find(d, q) else if |q| == 1 then Some(n) else Find(n.subsections, q[1..])
  {
    LookupPut(d, x, n, q[0]);
  }

  /** `get_section`: walk the segments from the root mapping through successive
      `subsections` mappings; `None` as soon as one segment is missing. */
  function Find(d: seq<Named>, parts: seq<string>): (r: Option<Section>)
    ensures r.Some? ==> parts != [] && Lookup(d, parts[0]).Some?
    ensures |parts| == 1 ==> r == Lookup(d, parts[0])
    decreases |parts|
  {
    if parts == [] then None
    else match Lookup(d, parts[0])
      case None => None
      case Some(s) => if |parts| == 1 then Some(s) else Find(s.subsections, parts[1..])
  }

  /** One more segment looks up one more level. */
  lemma {:induction false} FindSnoc(d: seq<Named>, parts: seq<string>, x: string)
    requires parts != []
    ensures Find(d, parts + [x]) == match Find(d, parts)
                                    case None => None
                                    case Some(s) => Lookup(s.subsections, x)
  {
    assert (parts + [x])[0] == parts[0];
    if |parts| == 1 {
      assert (parts + [x])[1..] == [x];
    } else {
      assert (parts + [x])[1..] == parts[1..] + [x];
      match Lookup(d, parts[0])
      case None =>
      case Some(s) => FindSnoc(s.subsections, parts[1..], x);
    }
  }

  /** A missing segment anywhere on the way makes the whole path missing. */
  lemma {:induction false} FindMissingPrefix(d: seq<Named>, parts: seq<string>, k: nat)
    requires 1 <= k <= |parts|
    requires Find(d, parts[..k]) == None
    ensures Find(d, parts) == None
  {
    assert parts[..k][0] == parts[0];
    if k > 1 {
      match Lookup(d, parts[0])
      case None =>
      case Some(s) =>
        assert parts[..k][1..] == parts[1..][..k - 1];
        FindMissingPrefix(s.subsections, parts[1..], k - 1);
    }
  }

  /** `create_section`, as intended: walk the segments, creating each missing one
      with an empty overview and no entries and with the path of the segments so
      far joined by `/`; existing sections are kept as they are. `done` holds the
      segments above `d`. */
  function Materialise(d: seq<Named>, done: seq<string>, rest: seq<string>): (r: seq<Named>)
    ensures rest != [] ==> Lookup(r, rest[0]).Some?
    ensures Names(d) <= Names(r) && |Names(r)| <= |Names(d)| + 1
    decreases |rest|
  {
    if rest == [] then d
    else
      var node := Child(d, rest[0], done);
      Put(d, rest[0], node.(subsections := Materialise(node.subsections, done + [rest[0]], rest[1..])))
  }

  /** The section `create_section` moves to for segment `name` below `done`:
      the existing one, or a fresh one it is about to store. */
  function Child(d: seq<Named>, name: string, done: seq<string>): Section
  {
    match Lookup(d, name)
    case Some(s) => s
    case None => NewSection(PyText.Join("/", done + [name]))
  }

  /** Moving the head of `rest` onto the end of `done` keeps the concatenation. */
  lemma ShiftHead<T>(done: seq<T>, rest: seq<T>)
    requires rest != []
    ensures done + [rest[0]] + rest[1..] == done + rest
  {
    assert rest == [rest[0]] + rest[1..];
  }

  /** The first `k` segments start with the first segment and continue with the
      first `k - 1` of the rest. */
  lemma TakeTail<T>(parts: seq<T>, k: nat)
    requires 1 <= k <= |parts|
    ensures parts[..k][0] == parts[0] && parts[..k][1..] == parts[1..][..k - 1]
  {
  }

  /** Two non-empty sequences with the same head: one is a prefix of the other
      exactly when their tails are. */
  lemma PrefixCons<T>(a: seq<T>, b: seq<T>)
    requires a != [] && b != [] && a[0] == b[0]
    ensures a <= b <==> a[1..] <= b[1..]
  {
    assert a == [a[0]] + a[1..];
    assert b == [b[0]] + b[1..];
  }

  /** What one step of `create_section`'s loop does: below the section at `at`
      (or at the root when `at` is empty), add `name` if it is missing. */
  function InsertAt(d: seq<Named>, at: seq<string>, name: string, path: string): seq<Named>
    decreases |at|
  {
    if at == [] then
      (if Lookup(d, name).None? then Put(d, name, NewSection(path)) else d)
    else match Lookup(d, at[0])
      case None => d
      case Some(n) => Put(d, at[0], n.(subsections := InsertAt(n.subsections, at[1..], name, path)))
  }

  /** Materialising one more segment is one more loop step. */
  lemma {:induction false} MaterialiseSnoc(d: seq<Named>, done: seq<string>, rest: seq<string>, x: string)
    ensures Materialise(d, done, rest + [x])
            == InsertAt(Materialise(d, done, rest), rest, x, PyText.Join("/", done + rest + [x]))
    decreases |rest|
  {
    if rest == [] {
      assert rest + [x] == [x];
      assert done + rest + [x] == done + [x];
      if Lookup(d, x).Some? {
        var s := Lookup(d, x).value;
        assert s.(subsections := s.subsections) == s;
        PutSame(d, x);
      }
    } else {
      var r := rest[0];
      assert (rest + [x])[0] == r;
      assert (rest + [x])[1..] == rest[1..] + [x];
      var node := Child(d, r, done);
      var path := PyText.Join("/", done + rest + [x]);
      ShiftHead(done, rest);
      MaterialiseSnoc(node.subsections, done + [r], rest[1..], x);
      var inner := Materialise(node.subsections, done + [r], rest[1..]);
      var grown := node.(subsections := InsertAt(inner, rest[1..], x, path));
      assert Materialise(d, done, rest + [x]) == Put(d, r, grown);
      LookupPut(d, r, node.(subsections := inner), r);
      assert InsertAt(Materialise(d, done, rest), rest, x, path)
             == Put(Put(d, r, node.(subsections := inner)), r, grown);
      PutPut(d, r, node.(subsections := inner), grown);
    }
  }

  /** A missing target is created with an empty overview, no entries, no
      subsections and the joined segments as its path. */
  lemma {:induction false} MaterialiseCreated(d: seq<Named>, done: seq<string>, rest: seq<string>)
    requires rest != [] && Find(d, rest).None?
    ensures Find(Materialise(d, done, rest), rest) == Some(NewSection(PyText.Join("/", done + rest)))
    decreases |rest|
  {
    var x := rest[0];
    var node := Child(d, x, done);
    MaterialiseStep(d, done, rest, rest);
    if |rest| == 1 {
      assert rest == [x];
      assert Lookup(d, x).None?;
    } else {
      ChildFind(d, x, done, rest);
      MaterialiseCreated(node.subsections, done + [x], rest[1..]);
      ShiftHead(done, rest);
    }
  }

  /** Same path, overview and entries: the fields creation never touches. */
  predicate SameRecord(a: Section, b: Section)
  {
    a.path == b.path && a.overview == b.overview && a.entries == b.entries
  }

  /** An ancestor at `q` as creation finds it: the existing section, or else the new
      one with the joined prefix as its path. */
  function Ancestor(d: seq<Named>, done: seq<string>, q: seq<string>): Section
  {
    match Find(d, q)
    case Some(s) => s
    case None => NewSection(PyText.Join("/", done + q))
  }

  /** One level down the path, the ancestor is the same. */
  lemma AncestorShift(d: seq<Named>, x: string, done: seq<string>, q: seq<string>)
    requires |q| > 1 && q[0] == x
    ensures Ancestor(Child(d, x, done).subsections, done + [x], q[1..]) == Ancestor(d, done, q)
  {
    ChildFind(d, x, done, q);
    ShiftHead(done, q);
  }

  /** Every ancestor on the path exists afterwards: an existing one keeps its path,
      overview and entries; a missing one is created with the joined prefix as its
      path, an empty overview and no entries. */
  lemma {:induction false} MaterialiseAncestor(d: seq<Named>, done: seq<string>, rest: seq<string>, q: seq<string>)
    requires q != [] && q <= rest
    ensures Find(Materialise(d, done, rest), q).Some?
    ensures SameRecord(Find(Materialise(d, done, rest), q).value, Ancestor(d, done, q))
    decreases |rest|
  {
    var x := rest[0];
    var node := Child(d, x, done);
    MaterialiseStep(d, done, rest, q);
    if |q| == 1 {
      assert q == [x];
    } else {
      PrefixCons(q, rest);
      MaterialiseAncestor(node.subsections, done + [x], rest[1..], q[1..]);
      AncestorShift(d, x, done, q);
    }
  }

  /** A path through the first created segment resolves in the subtree `Materialise`
      stores under that segment. */
  lemma MaterialiseStep(d: seq<Named>, done: seq<string>, rest: seq<string>, q: seq<string>)
    requires rest != [] && q != [] && q[0] == rest[0]
    ensures Find(Materialise(d, done, rest), q)
            == var node := Child(d, rest[0], done);
               var stored := node.(subsections := Materialise(node.subsections, done + [rest[0]], rest[1..]));
               if |q| == 1 then Some(stored) else Find(stored.subsections, q[1..])
  {
    var node := Child(d, rest[0], done);
    FindPut(d, rest[0], node.(subsections := Materialise(node.subsections, done + [rest[0]], rest[1..])), q);
  }

  /** Below its first segment, a path resolves inside the child `Materialise`
      descends into. */
  lemma ChildFind(d: seq<Named>, x: string, done: seq<string>, q: seq<string>)
    requires |q| > 1 && q[0] == x
    ensures Find(d, q) == Find(Child(d, x, done).subsections, q[1..])
  {
  }

  /** Creation touches nothing off the path: every path that is not a prefix of the
      created one resolves exactly as before (to the same whole subtree). */
  lemma {:induction false} MaterialiseElsewhere(d: seq<Named>, done: seq<string>, rest: seq<string>, q: seq<string>)
    requires q != [] && !(q <= rest)
    ensures Find(Materialise(d, done, rest), q) == Find(d, q)
    decreases |rest|
  {
    if rest != [] {
      var x := rest[0];
      var node := Child(d, x, done);
      var inner := Materialise(node.subsections, done + [x], rest[1..]);
      LookupPut(d, x, node.(subsections := inner), q[0]);
      if q[0] == x {
        PrefixCons(q, rest);
        assert |q| > 1;
        MaterialiseElsewhere(node.subsections, done + [x], rest[1..], q[1..]);
      }
    }
  }

  /** When the whole path is already there, creation changes nothing. */
  lemma {:induction false} MaterialiseExisting(d: seq<Named>, done: seq<string>, rest: seq<string>)
    requires Find(d, rest).Some?
    ensures Materialise(d, done, rest) == d
    decreases |rest|
  {
    var x := rest[0];
    var s := Lookup(d, x).value;
    if |rest| == 1 {
      assert s.(subsections := s.subsections) == s;
    } else {
      MaterialiseExisting(s.subsections, done + [x], rest[1..]);
      assert s.(subsections := s.subsections) == s;
    }
    PutSame(d, x);
  }

  /** After creation the target resolves: to the section that was already there,
      or to a new one. */
  lemma MaterialiseTarget(d: seq<Named>, done: seq<string>, rest: seq<string>)
    requires rest != []
    ensures Find(d, rest).Some? ==> Find(Materialise(d, done, rest), rest) == Find(d, rest)
    ensures Find(d, rest).None? ==> Find(Materialise(d, done, rest), rest)
                                    == Some(NewSection(PyText.Join("/", done + rest)))
  {
    if Find(d, rest).Some? {
      MaterialiseExisting(d, done, rest);
    } else {
      MaterialiseCreated(d, done, rest);
    }
  }

  /** Creating a path twice is the same as creating it once. */
  lemma MaterialiseIdempotent(d: seq<Named>, done: seq<string>, rest: seq<string>)
    requires rest != []
    ensures Materialise(Materialise(d, done, rest), done, rest) == Materialise(d, done, rest)
  {
    MaterialiseTarget(d, done, rest);
    MaterialiseExisting(Materialise(d, done, rest), done, rest);
  }

  /** The root keys after creation: the old ones in their order, with the first
      segment appended only if it was missing. */
  lemma MaterialiseRootNames(d: seq<Named>, done: seq<string>, rest: seq<string>)
    requires rest != []
    ensures Names(Materialise(d, done, rest))
            == if rest[0] in Names(d) then Names(d) else Names(d) + [rest[0]]
  {
  }

  /** The in-place effect of `journal_write` on the section at `parts`: append the
      entry, then replace the overview if one was supplied. */
  function AppendAt(d: seq<Named>, parts: seq<string>, e: Entry, overview: Option<string>): (r: seq<Named>)
    ensures Names(r) == Names(d)
    decreases |parts|
  {
    if parts == [] then d
    else match Lookup(d, parts[0])
      case None => d
      case Some(s) =>
        if |parts| == 1 then
          Put(d, parts[0], s.(entries := s.entries + [e], overview := overview.GetOr(s.overview)))
        else
          Put(d, parts[0], s.(subsections := AppendAt(s.subsections, parts[1..], e, overview)))
  }

  /** One level of `AppendAt` below the first segment. */
  lemma AppendAtStep(d: seq<Named>, parts: seq<string>, e: Entry, overview: Option<string>)
    requires |parts| > 1 && Lookup(d, parts[0]).Some?
    ensures AppendAt(d, parts, e, overview)
            == Put(d, parts[0], Lookup(d, parts[0]).value.(subsections :=
                 AppendAt(Lookup(d, parts[0]).value.subsections, parts[1..], e, overview)))
  {
  }

  /** The target gains exactly the new entry at the end; its overview is replaced
      only when one is supplied; its path and subsections stay. */
  lemma {:induction false} AppendAtTarget(d: seq<Named>, parts: seq<string>, e: Entry, overview: Option<string>)
    requires Find(d, parts).Some?
    ensures Find(AppendAt(d, parts, e, overview), parts)
            == Some(Find(d, parts).value.(entries := Find(d, parts).value.entries + [e],
                                          overview := overview.GetOr(Find(d, parts).value.overview)))
    decreases |parts|
  {
    var s := Lookup(d, parts[0]).value;
    if |parts| == 1 {
      LookupPut(d, parts[0], s.(entries := s.entries + [e], overview := overview.GetOr(s.overview)), parts[0]);
    } else {
      AppendAtTarget(s.subsections, parts[1..], e, overview);
      LookupPut(d, parts[0], s.(subsections := AppendAt(s.subsections, parts[1..], e, overview)), parts[0]);
    }
  }

  /** Sections off the written path are untouched, whole subtrees included. */
  lemma {:induction false} AppendAtElsewhere(d: seq<Named>, parts: seq<string>, e: Entry, overview: Option<string>, q: seq<string>)
    requires q != [] && !(q <= parts)
    ensures Find(AppendAt(d, parts, e, overview), q) == Find(d, q)
    decreases |parts|
  {
    if parts != [] && Lookup(d, parts[0]).Some? {
      var s := Lookup(d, parts[0]).value;
      var x := parts[0];
      if |parts| == 1 {
        FindPut(d, x, s.(entries := s.entries + [e], overview := overview.GetOr(s.overview)), q);
        if q[0] == x {
          PrefixCons(q, parts);
        }
      } else {
        var inner := AppendAt(s.subsections, parts[1..], e, overview);
        AppendAtStep(d, parts, e, overview);
        FindPut(d, x, s.(subsections := inner), q);
        if q[0] == x {
          PrefixCons(q, parts);
          AppendAtElsewhere(s.subsections, parts[1..], e, overview, q[1..]);
        }
      }
    }
  }

  /** Ancestors of the written section keep their path, overview and entries. */
  lemma {:induction false} AppendAtAncestor(d: seq<Named>, parts: seq<string>, e: Entry, overview: Option<string>, k: nat)
    requires 1 <= k < |parts|
    requires Find(d, parts[..k]).Some?
    ensures Find(AppendAt(d, parts, e, overview), parts[..k]).Some?
    ensures SameRecord(Find(AppendAt(d, parts, e, overview), parts[..k]).value, Find(d, parts[..k]).value)
    decreases |parts|
  {
    var x, p, tail := parts[0], parts[..k], parts[1..];
    TakeTail(parts, k);
    var s := Lookup(d, x).value;
    var inner := AppendAt(s.subsections, tail, e, overview);
    AppendAtStep(d, parts, e, overview);
    FindPut(d, x, s.(subsections := inner), p);
    if k > 1 {
      assert Find(d, p) == Find(s.subsections, tail[..k - 1]);
      AppendAtAncestor(s.subsections, tail, e, overview, k - 1);
    }
  }

  /** Every section's `path` is its position in the tree: the names from the root
      down to it, joined by `/` (what the storage tests expect of created sections,
      and the path search reports for them). `done` holds the names above `d`. */
  ghost predicate PathsAgree(d: seq<Named>, done: seq<string>)
  {
    forall i :: 0 <= i < |d| ==>
      d[i].section.path == PyText.Join("/", done + [d[i].name])
      && PathsAgree(d[i].section.subsections, done + [d[i].name])
  }

  /** The section under a name of a level in agreement has the joined path, and its
      own subtree agrees too. */
  lemma LookupPathsAgree(d: seq<Named>, done: seq<string>, x: string)
    requires PathsAgree(d, done) && Lookup(d, x).Some?
    ensures Lookup(d, x).value.path == PyText.Join("/", done + [x])
    ensures PathsAgree(Lookup(d, x).value.subsections, done + [x])
  {
    var i :| 0 <= i < |d| && d[i] == Named(x, Lookup(d, x).value);
  }

  /** Storing a section whose own subtree agrees keeps the level in agreement. */
  lemma {:induction false} PutPathsAgree(d: seq<Named>, done: seq<string>, name: string, s: Section)
    requires PathsAgree(d, done)
    requires s.path == PyText.Join("/", done + [name]) && PathsAgree(s.subsections, done + [name])
    ensures PathsAgree(Put(d, name, s), done)
  {
    if d != [] && d[0].name != name {
      assert PathsAgree(d[1..], done) by {
        forall i | 0 <= i < |d| - 1
          ensures d[1..][i].section.path == PyText.Join("/", done + [d[1..][i].name])
                  && PathsAgree(d[1..][i].section.subsections, done + [d[1..][i].name])
        {
          assert d[1..][i] == d[i + 1];
        }
      }
      PutPathsAgree(d[1..], done, name, s);
      var r := Put(d, name, s);
      assert r == [d[0]] + Put(d[1..], name, s);
      forall i | 0 <= i < |r|
        ensures r[i].section.path == PyText.Join("/", done + [r[i].name])
                && PathsAgree(r[i].section.subsections, done + [r[i].name])
      {
        if i > 0 {
          assert r[i] == Put(d[1..], name, s)[i - 1];
        }
      }
    } else if d != [] {
      var r := Put(d, name, s);
      forall i | 0 <= i < |r|
        ensures r[i].section.path == PyText.Join("/", done + [r[i].name])
                && PathsAgree(r[i].section.subsections, done + [r[i].name])
      {
        if i > 0 {
          assert r[i] == d[i];
        }
      }
    }
  }

  /** A section found at `parts` below a level in agreement has the joined path,
      and its own subtree agrees too. */
  lemma {:induction false} FindPathsAgree(d: seq<Named>, done: seq<string>, parts: seq<string>)
    requires PathsAgree(d, done) && Find(d, parts).Some?
    ensures Find(d, parts).value.path == PyText.Join("/", done + parts)
    ensures PathsAgree(Find(d, parts).value.subsections, done + parts)
    decreases |parts|
  {
    var x := parts[0];
    LookupPathsAgree(d, done, x);
    if |parts| == 1 {
      assert done + parts == done + [x];
    } else {
      ShiftHead(done, parts);
      FindPathsAgree(Lookup(d, x).value.subsections, done + [x], parts[1..]);
    }
  }

  /** Creating a path keeps every section's path equal to its position. */
  lemma {:induction false} MaterialisePathsAgree(d: seq<Named>, done: seq<string>, rest: seq<string>)
    requires PathsAgree(d, done)
    ensures PathsAgree(Materialise(d, done, rest), done)
    decreases |rest|
  {
    if rest != [] {
      var x := rest[0];
      var node := Child(d, x, done);
      assert node.path == PyText.Join("/", done + [x]) && PathsAgree(node.subsections, done + [x]) by {
        if Lookup(d, x).Some? {
          LookupPathsAgree(d, done, x);
        }
      }
      MaterialisePathsAgree(node.subsections, done + [x], rest[1..]);
      PutPathsAgree(d, done, x, node.(subsections := Materialise(node.subsections, done + [x], rest[1..])));
    }
  }

  /** Appending an entry keeps every section's path equal to its position. */
  lemma {:induction false} AppendAtPathsAgree(d: seq<Named>, done: seq<string>, parts: seq<string>, e: Entry, overview: Option<string>)
    requires PathsAgree(d, done)
    ensures PathsAgree(AppendAt(d, parts, e, overview), done)
    decreases |parts|
  {
    if parts != [] && Lookup(d, parts[0]).Some? {
      var x := parts[0];
      var s := Lookup(d, x).value;
      LookupPathsAgree(d, done, x);
      if |parts| == 1 {
        PutPathsAgree(d, done, x, s.(entries := s.entries + [e], overview := overview.GetOr(s.overview)));
      } else {
        AppendAtPathsAgree(s.subsections, done + [x], parts[1..], e, overview);
        AppendAtStep(d, parts, e, overview);
        PutPathsAgree(d, done, x, s.(subsections := AppendAt(s.subsections, parts[1..], e, overview)));
      }
    }
  }

  /** The path `create_section` stores in each section it creates, as written: the
      running path starts empty, and a segment is glued on with `/` only when the
      running path is non-empty, so leading empty segments are dropped. */
  function PathAsWritten(parts: seq<string>): (r: string)
    ensures r == "" <==> forall i :: 0 <= i < |parts| ==> parts[i] == ""
    decreases |parts|
  {
    if parts == [] then ""
    else
      var before := PathAsWritten(parts[..|parts| - 1]);
      if before != "" then before + "/" + parts[|parts| - 1] else parts[|parts| - 1]
  }

  /** As written, the stored path is the joined path whenever the first segment
      is non-empty. */
  lemma {:induction false} PathAsWrittenAgrees(parts: seq<string>)
    requires parts != [] && parts[0] != ""
    ensures PathAsWritten(parts) == PyText.Join("/", parts)
    decreases |parts|
  {
    if |parts| > 1 {
      var init, last := parts[..|parts| - 1], parts[|parts| - 1];
      assert init[0] == parts[0];
      PathAsWrittenAgrees(init);
      assert PathAsWritten(parts) == PathAsWritten(init) + "/" + last;
      PyText.JoinSnoc("/", init, last);
      assert init + [last] == parts;
    }
  }

  /** As written, a non-empty first segment makes the stored path non-empty. */
  lemma {:induction false} PathAsWrittenNonEmpty(parts: seq<string>)
    requires parts != [] && parts[0] != ""
    ensures PathAsWritten(parts) != ""
    decreases |parts|
  {
    if |parts| > 1 {
      PathAsWrittenNonEmpty(parts[..|parts| - 1]);
    }
  }

  /** ...and it is not when the path starts with `/`: `create_section("/a")`
      stores `"a"` in the section it creates at segments `["", "a"]`, where search
      reports the path `"/a"`. */
  lemma PathAsWrittenLeadingSlash()
    ensures PyText.Split("/a", '/') == ["", "a"]
    ensures PathAsWritten(PyText.Split("/a", '/')) == "a"
    ensures PyText.Join("/", PyText.Split("/a", '/')) == "/a"
  {
    PyText.SplitSingle("a", '/');
    assert "/a"[1..] == "a";
    assert ["", "a"][..1] == [""];
    assert [""][..0] == [];
  }

  /** No name occurs twice. */
  ghost predicate Distinct(names: seq<string>)
  {
    forall i, j :: 0 <= i < j < |names| ==> names[i] != names[j]
  }

  /** A Python dictionary has each key once: at every level of the tree the names
      are distinct. */
  ghost predicate Keyed(d: seq<Named>)
  {
    Distinct(Names(d)) && forall x :: x in d ==> Keyed(x.section.subsections)
  }

  /** Storing into a keyed level keeps it keyed. */
  lemma PutKeyed(d: seq<Named>, name: string, s: Section)
    requires Keyed(d) && Keyed(s.subsections)
    ensures Keyed(Put(d, name, s))
  {
    var r := Put(d, name, s);
    if name !in Names(d) {
      forall i, j | 0 <= i < j < |Names(r)| ensures Names(r)[i] != Names(r)[j] {
        if j == |Names(d)| {
          assert Names(r)[i] == Names(d)[i];
        }
      }
    }
  }

  lemma KeyedTail(d: seq<Named>)
    requires d != [] && Keyed(d)
    ensures Keyed(d[1..])
  {
    assert Names(d[1..]) == Names(d)[1..];
  }

  /** The section found in a keyed level heads a keyed subtree. */
  lemma LookupKeyed(d: seq<Named>, name: string)
    requires Keyed(d) && Lookup(d, name).Some?
    ensures Keyed(Lookup(d, name).value.subsections)
  {
  }

  /** Creating a path keeps every level keyed. */
  lemma {:induction false} MaterialiseKeyed(d: seq<Named>, done: seq<string>, rest: seq<string>)
    requires Keyed(d)
    ensures Keyed(Materialise(d, done, rest))
    decreases |rest|
  {
    if rest != [] {
      var x := rest[0];
      var node := Child(d, x, done);
      if Lookup(d, x).Some? {
        LookupKeyed(d, x);
      }
      MaterialiseKeyed(node.subsections, done + [x], rest[1..]);
      PutKeyed(d, x, node.(subsections := Materialise(node.subsections, done + [x], rest[1..])));
    }
  }

  /** Appending an entry keeps every level keyed. */
  lemma {:induction false} AppendAtKeyed(d: seq<Named>, parts: seq<string>, e: Entry, overview: Option<string>)
    requires Keyed(d)
    ensures Keyed(AppendAt(d, parts, e, overview))
    decreases |parts|
  {
    if parts != [] && Lookup(d, parts[0]).Some? {
      var x := parts[0];
      var s := Lookup(d, x).value;
      LookupKeyed(d, x);
      if |parts| == 1 {
        PutKeyed(d, x, s.(entries := s.entries + [e], overview := overview.GetOr(s.overview)));
      } else {
        AppendAtKeyed(s.subsections, parts[1..], e, overview);
        AppendAtStep(d, parts, e, overview);
        PutKeyed(d, x, s.(subsections := AppendAt(s.subsections, parts[1..], e, overview)));
      }
    }
  }
}
