/** `JournalServer`: the five tool handlers over one `JsonStorage`. The handlers'
    responses are modelled as the structured content their markdown carries
    (which section, which entries under which numbers, which scores); the
    markdown and timestamp formatting is not modelled, except for the lines of
    the table of contents, whose indentation and counts are the point. */
module JournalServer {
  import opened Wrappers
  import opened JournalTypes
  import opened JournalTree
  import opened JournalStorage
  import JournalSearch
  import PyText
  import PySeq

  /** An entry as a response shows it: its number, then its fields. */
  datatype Numbered = Numbered(number: int, entry: Entry)

  /** The "Recent Entries (shown of total)" block of `journal_read`. */
  datatype Recent = Recent(shown: int, total: nat, entries: seq<Numbered>)

  datatype ReadResponse =
    | ReadNotFound(path: string)
    /** The overview is `None` when it is empty ("No overview yet"); the
        subsections are listed by name. */
    | SectionView(path: string, overview: Option<string>, recent: Option<Recent>, subsections: seq<string>)

  /** "Added entry to journal section 'path'", with " and updated overview" when one was given. */
  datatype WriteResponse = Added(path: string, overviewUpdated: bool)

  datatype SearchResponse = NoMatches | Matches(results: seq<SearchResult>)

  datatype TocResponse = TocNotFound(path: string) | TableOfContents(text: string)

  datatype ListResponse =
    | ListNotFound(path: string)
    | NoEntries(path: string)
    | NoMoreEntries
    | Listed(path: string, total: nat, entries: seq<Numbered>)

  /** The entries in the order given, the `i`-th numbered `first - i`. */
  function NumberedFrom(entries: seq<Entry>, first: int): (r: seq<Numbered>)
    ensures |r| == |entries|
    ensures forall i :: 0 <= i < |r| ==> r[i] == Numbered(first - i, entries[i])
  {
    seq(|entries|, i requires 0 <= i < |entries| => Numbered(first - i, entries[i]))
  }

  /** The numbering loop of `journal_read` and `journal_list_entries`. */
  method NumberEntries(entries: seq<Entry>, first: int) returns (r: seq<Numbered>)
    ensures r == NumberedFrom(entries, first)
  {
    r := [];
    for i := 0 to |entries|
      invariant r == NumberedFrom(entries[..i], first)
    {
      r := r + [Numbered(first - i, entries[i])];
    }
    assert entries[..|entries|] == entries;
  }

  // ----- journal_read -----

  /** `section.entries[-max_entries:]`, newest first. */
  function RecentWindow(entries: seq<Entry>, maxEntries: int): (r: seq<Entry>)
    ensures |r| <= |entries|
    ensures forall i :: 0 <= i < |r| ==> r[i] == entries[|entries| - 1 - i]
  {
    PySeq.Reverse(PySeq.Slice(entries, -maxEntries, |entries|))
  }

  /** What `journal_read` shows for the section found at the path, if any. */
  function ReadView(path: string, found: Option<Section>, includeEntries: bool, maxEntries: int): (r: ReadResponse)
    ensures r.ReadNotFound? <==> found.None?
  {
    match found
    case None => ReadNotFound(path)
    case Some(s) =>
      SectionView(
        path,
        if s.overview != "" then Some(s.overview) else None,
        if includeEntries && s.entries != [] then
          Some(Recent(PySeq.Min(|s.entries|, maxEntries), |s.entries|,
                      NumberedFrom(RecentWindow(s.entries, maxEntries), |s.entries|)))
        else None,
        Names(s.subsections))
  }

  /** The entries `journal_read` shows are the newest ones, newest first: all of
      them when `max_entries` is 0 (a Python slice `[-0:]` is the whole list),
      otherwise at most `max_entries` (a negative value drops that many of the
      oldest entries instead). */
  lemma RecentWindowNewestFirst(entries: seq<Entry>, maxEntries: int)
    ensures var k := |RecentWindow(entries, maxEntries)|;
            && k == (if maxEntries == 0 then |entries|
                     else if maxEntries > 0 then PySeq.Min(|entries|, maxEntries)
                     else PySeq.Max(0, |entries| + maxEntries))
            && RecentWindow(entries, maxEntries) == PySeq.Reverse(entries)[..k]
  {
    var n := |entries|;
    var a := PySeq.ClampIndex(-maxEntries, n);
    assert PySeq.Slice(entries, -maxEntries, n) == entries[a..n];
    PySeq.ReverseWindow(entries, a, n);
  }

  /** Every entry `journal_read` shows is numbered with its 1-based position in
      the section, and the numbers count down from the newest. */
  lemma ReadEntriesNumbered(path: string, s: Section, maxEntries: int)
    requires s.entries != []
    ensures var r := ReadView(path, Some(s), true, maxEntries);
            && r.SectionView? && r.recent.Some?
            && r.recent.value.total == |s.entries|
            && forall i :: 0 <= i < |r.recent.value.entries| ==>
                 && r.recent.value.entries[i].number == |s.entries| - i
                 && 1 <= r.recent.value.entries[i].number <= |s.entries|
                 && s.entries[r.recent.value.entries[i].number - 1] == r.recent.value.entries[i].entry
  {
    RecentWindowNewestFirst(s.entries, maxEntries);
  }

  /** `max_entries = 0` announces 0 recent entries but shows every entry. */
  lemma ReadZeroShowsAll(path: string, s: Section)
    requires s.entries != []
    ensures var r := ReadView(path, Some(s), true, 0);
            r.recent.Some? && r.recent.value.shown == 0 && |r.recent.value.entries| == |s.entries|
  {
    RecentWindowNewestFirst(s.entries, 0);
  }

  /** Without `include_entries`, or for a section without entries, no entries are shown. */
  lemma ReadWithoutEntries(path: string, s: Section, includeEntries: bool, maxEntries: int)
    ensures ReadView(path, Some(s), includeEntries, maxEntries).recent.None? <==> !includeEntries || s.entries == []
  {
  }

  // ----- journal_write -----

  /** The tree after `journal_write`: the path is created if it is missing, then
      the entry is appended to the section there and its overview replaced if one
      was supplied. */
  function WriteTree(d: seq<Named>, parts: seq<string>, e: Entry, overview: Option<string>): (r: seq<Named>)
    ensures Names(d) <= Names(r) && |Names(r)| <= |Names(d)| + 1
    ensures parts != [] ==> Lookup(r, parts[0]).Some?
  {
    AppendAt(Materialise(d, [], parts), parts, e, overview)
  }

  /** In a tree whose stored paths agree with positions, a section found from the
      root stores the segments joined by `/`. */
  lemma FoundAtJoinedPath(d: seq<Named>, parts: seq<string>)
    requires Find(d, parts).Some?
    ensures PathsAgree(d, []) ==> Find(d, parts).value.path == PyText.Join("/", parts)
  {
    if PathsAgree(d, []) {
      FindPathsAgree(d, [], parts);
      assert [] + parts == parts;
    }
  }

  /** The section a write lands in, before the write: the existing one, or a new
      one whose path is the segments joined by `/`. */
  function WriteBase(d: seq<Named>, parts: seq<string>): (r: Section)
    ensures Find(d, parts).Some? ==> Find(d, parts) == Some(r)
    ensures Find(d, parts).None? ==> r.overview == "" && r.entries == [] && r.subsections == []
    ensures PathsAgree(d, []) ==> r.path == PyText.Join("/", parts)
  {
    if Find(d, parts).Some? then
      FoundAtJoinedPath(d, parts);
      Find(d, parts).value
    else NewSection(PyText.Join("/", parts))
  }

  /** The written section has exactly one more entry, the new one at the end; its
      overview is the supplied one, or else unchanged; its path and subsections
      are unchanged. */
  lemma WriteTarget(d: seq<Named>, parts: seq<string>, e: Entry, overview: Option<string>)
    requires parts != []
    ensures Find(WriteTree(d, parts, e, overview), parts)
            == Some(WriteBase(d, parts).(entries := WriteBase(d, parts).entries + [e],
                                         overview := overview.GetOr(WriteBase(d, parts).overview)))
  {
    MaterialiseTarget(d, [], parts);
    PySeq.EmptyFront(parts);
    AppendAtTarget(Materialise(d, [], parts), parts, e, overview);
  }

  /** A write changes nothing at any path that is not the written path or one
      of its ancestors. */
  lemma WriteElsewhere(d: seq<Named>, parts: seq<string>, e: Entry, overview: Option<string>, q: seq<string>)
    requires q != [] && !(q <= parts)
    ensures Find(WriteTree(d, parts, e, overview), q) == Find(d, q)
  {
    MaterialiseElsewhere(d, [], parts, q);
    AppendAtElsewhere(Materialise(d, [], parts), parts, e, overview, q);
  }

  /** After a write every ancestor of the path exists: an existing one keeps its
      path, overview and entries; a missing one is new, with the prefix of the
      segments as its path. */
  lemma WriteAncestors(d: seq<Named>, parts: seq<string>, e: Entry, overview: Option<string>, k: nat)
    requires 1 <= k < |parts|
    ensures Find(WriteTree(d, parts, e, overview), parts[..k]).Some?
    ensures SameRecord(Find(WriteTree(d, parts, e, overview), parts[..k]).value,
                       if Find(d, parts[..k]).Some? then Find(d, parts[..k]).value
                       else NewSection(PyText.Join("/", parts[..k])))
  {
    MaterialiseAncestor(d, [], parts, parts[..k]);
    PySeq.EmptyFront(parts[..k]);
    AppendAtAncestor(Materialise(d, [], parts), parts, e, overview, k);
  }

  /** Two writes to the same path leave both entries, in order, and the later overview. */
  lemma WriteTwice(d: seq<Named>, parts: seq<string>, e1: Entry, o1: Option<string>, e2: Entry, o2: Option<string>)
    requires parts != []
    ensures var s := Find(WriteTree(WriteTree(d, parts, e1, o1), parts, e2, o2), parts);
            && s.Some?
            && s.value.entries == WriteBase(d, parts).entries + [e1, e2]
            && s.value.overview == o2.GetOr(o1.GetOr(WriteBase(d, parts).overview))
  {
    var b := WriteBase(d, parts);
    var w1 := WriteTree(d, parts, e1, o1);
    WriteTarget(d, parts, e1, o1);
    assert WriteBase(w1, parts) == b.(entries := b.entries + [e1], overview := o1.GetOr(b.overview));
    WriteTarget(w1, parts, e2, o2);
    PySeq.SnocSnoc(b.entries, e1, e2);
  }

  /** A write keeps every level of the tree keyed by distinct names. */
  lemma WriteKeyed(d: seq<Named>, parts: seq<string>, e: Entry, overview: Option<string>)
    requires Keyed(d)
    ensures Keyed(WriteTree(d, parts, e, overview))
  {
    MaterialiseKeyed(d, [], parts);
    AppendAtKeyed(Materialise(d, [], parts), parts, e, overview);
  }

  /** A write keeps every stored path equal to the segments that lead to it. */
  lemma WritePathsAgree(d: seq<Named>, parts: seq<string>, e: Entry, overview: Option<string>)
    requires PathsAgree(d, [])
    ensures PathsAgree(WriteTree(d, parts, e, overview), [])
  {
    MaterialisePathsAgree(d, [], parts);
    AppendAtPathsAgree(Materialise(d, [], parts), [], parts, e, overview);
  }

  // ----- journal_toc -----

  /** One line of the table of contents. */
  datatype TocLine = TocLine(depth: nat, name: string, entryCount: nat)

  /** Every section below `d` in preorder at its depth, however deep. */
  function Outline(d: seq<Named>, depth: nat): (r: seq<TocLine>)
    ensures |r| >= |d|
    ensures forall i :: 0 <= i < |r| ==> r[i].depth >= depth
    decreases d
  {
    if d == [] then []
    else [TocLine(depth, d[0].name, |d[0].section.entries|)]
         + Outline(d[0].section.subsections, depth + 1)
         + Outline(d[1..], depth)
  }

  /** The lines `_build_toc_tree` emits: none from `max_depth` on; otherwise each
      section's line and, when it has subsections, theirs one level deeper. */
  function TocLines(d: seq<Named>, depth: nat, maxDepth: int): (r: seq<TocLine>)
    ensures forall i :: 0 <= i < |r| ==> depth <= r[i].depth < maxDepth
    ensures depth < maxDepth ==> |r| >= |d|
    decreases d
  {
    if depth >= maxDepth || d == [] then []
    else [TocLine(depth, d[0].name, |d[0].section.entries|)]
         + (if d[0].section.subsections != [] then TocLines(d[0].section.subsections, depth + 1, maxDepth) else [])
         + TocLines(d[1..], depth, maxDepth)
  }

  /** The lines shallower than `maxDepth`, in order. */
  function Shallower(lines: seq<TocLine>, maxDepth: int): (r: seq<TocLine>)
    ensures |r| <= |lines|
    ensures forall l :: l in r <==> l in lines && l.depth < maxDepth
  {
    if lines == [] then []
    else (if lines[0].depth < maxDepth then [lines[0]] else []) + Shallower(lines[1..], maxDepth)
  }

  lemma {:induction false} ShallowerConcat(a: seq<TocLine>, b: seq<TocLine>, maxDepth: int)
    ensures Shallower(a + b, maxDepth) == Shallower(a, maxDepth) + Shallower(b, maxDepth)
  {
    if a == [] {
      assert a + b == b;
    } else {
      assert (a + b)[0] == a[0];
      assert (a + b)[1..] == a[1..] + b;
      ShallowerConcat(a[1..], b, maxDepth);
    }
  }

  /** An outline starting at or below `maxDepth` has no line above it. */
  lemma {:induction false} OutlineTooDeep(d: seq<Named>, depth: nat, maxDepth: int)
    requires depth >= maxDepth
    ensures Shallower(Outline(d, depth), maxDepth) == []
    decreases d
  {
    if d != [] {
      var head := [TocLine(depth, d[0].name, |d[0].section.entries|)];
      OutlineTooDeep(d[0].section.subsections, depth + 1, maxDepth);
      OutlineTooDeep(d[1..], depth, maxDepth);
      ShallowerConcat(head + Outline(d[0].section.subsections, depth + 1), Outline(d[1..], depth), maxDepth);
      ShallowerConcat(head, Outline(d[0].section.subsections, depth + 1), maxDepth);
    }
  }

  /** The table of contents is the preorder outline of the whole tree with every
      line at depth `max_depth` or deeper dropped. */
  lemma {:induction false} TocIsBoundedOutline(d: seq<Named>, depth: nat, maxDepth: int)
    ensures TocLines(d, depth, maxDepth) == Shallower(Outline(d, depth), maxDepth)
    decreases d
  {
    if depth >= maxDepth {
      OutlineTooDeep(d, depth, maxDepth);
    } else if d != [] {
      var head := [TocLine(depth, d[0].name, |d[0].section.entries|)];
      var subs := d[0].section.subsections;
      TocIsBoundedOutline(subs, depth + 1, maxDepth);
      TocIsBoundedOutline(d[1..], depth, maxDepth);
      ShallowerConcat(head + Outline(subs, depth + 1), Outline(d[1..], depth), maxDepth);
      ShallowerConcat(head, Outline(subs, depth + 1), maxDepth);
      assert Shallower(head, maxDepth) == head;
    }
  }

  /** Every line of the table of contents is shallower than `max_depth`. */
  lemma {:induction false} TocDepthBound(d: seq<Named>, depth: nat, maxDepth: int)
    ensures forall i :: 0 <= i < |TocLines(d, depth, maxDepth)| ==>
              depth <= TocLines(d, depth, maxDepth)[i].depth < maxDepth
    decreases d
  {
    if depth < maxDepth && d != [] {
      TocDepthBound(d[0].section.subsections, depth + 1, maxDepth);
      TocDepthBound(d[1..], depth, maxDepth);
    }
  }

  /** `"  " * depth` */
  function Indent(depth: nat): (r: string)
    ensures |r| == 2 * depth && forall i :: 0 <= i < |r| ==> r[i] == ' '
  {
    if depth == 0 then "" else "  " + Indent(depth - 1)
  }

  /** `f"{indent}- **{name}** ({entry_count} entries)\n"` */
  function RenderLine(l: TocLine): (r: string)
    ensures PyText.IsPrefix(Indent(l.depth), r)
    ensures PyText.OccursAt(l.name, r, 2 * l.depth + |"- **"|)
    ensures |" entries)\n"| <= |r| && r[|r| - |" entries)\n"|..] == " entries)\n"
  {
    Indent(l.depth) + "- **" + l.name + "** (" + PyText.NatToString(l.entryCount) + " entries)\n"
  }

  function Render(lines: seq<TocLine>): (r: string)
    ensures r == "" <==> lines == []
  {
    if lines == [] then "" else RenderLine(lines[0]) + Render(lines[1..])
  }

  lemma {:induction false} RenderConcat(a: seq<TocLine>, b: seq<TocLine>)
    ensures Render(a + b) == Render(a) + Render(b)
  {
    if a == [] {
      assert a + b == b;
    } else {
      assert (a + b)[0] == a[0];
      assert (a + b)[1..] == a[1..] + b;
      RenderConcat(a[1..], b);
    }
  }

  /** `_build_toc_tree` */
  method BuildToc(sections: seq<Named>, depth: nat, maxDepth: int) returns (result: string)
    ensures result == Render(TocLines(sections, depth, maxDepth))
    decreases sections
  {
    if depth >= maxDepth {
      return "";
    }
    result := "";
    PySeq.DropNone(sections);
    PySeq.EmptyFront(Render(TocLines(sections, depth, maxDepth)));
    for i := 0 to |sections|
      invariant Render(TocLines(sections, depth, maxDepth)) == result + Render(TocLines(sections[i..], depth, maxDepth))
    {
      var section := sections[i].section;
      var line := RenderLine(TocLine(depth, sections[i].name, |section.entries|));
      var sub := "";
      if section.subsections != [] {
        sub := BuildToc(section.subsections, depth + 1, maxDepth);
      }
      ghost var tail := Render(TocLines(sections[i + 1..], depth, maxDepth));
      TocStep(sections, i, depth, maxDepth);
      assert Render(TocLines(sections[i..], depth, maxDepth)) == line + sub + tail;
      PySeq.Regroup(result, line, sub, tail);
      result := result + line + sub;
    }
    PySeq.DropAll(sections);
    PySeq.EmptyBack(result);
  }

  /** One turn of `_build_toc_tree`'s loop: the section's line, then its subtree,
      then the rest. */
  lemma TocStep(sections: seq<Named>, i: nat, depth: nat, maxDepth: int)
    requires i < |sections| && depth < maxDepth
    ensures var s := sections[i].section;
            Render(TocLines(sections[i..], depth, maxDepth))
            == RenderLine(TocLine(depth, sections[i].name, |s.entries|))
               + (if s.subsections != [] then Render(TocLines(s.subsections, depth + 1, maxDepth)) else "")
               + Render(TocLines(sections[i + 1..], depth, maxDepth))
  {
    var s := sections[i].section;
    var line := [TocLine(depth, sections[i].name, |s.entries|)];
    var below := if s.subsections != [] then TocLines(s.subsections, depth + 1, maxDepth) else [];
    var rest := TocLines(sections[i + 1..], depth, maxDepth);
    assert sections[i..][0] == sections[i] && sections[i..][1..] == sections[i + 1..];
    assert TocLines(sections[i..], depth, maxDepth) == line + below + rest;
    RenderConcat(line + below, rest);
    RenderConcat(line, below);
    assert Render(line) == RenderLine(line[0]) + Render([]);
  }

  const TocHeader: string := "# Journal Table of Contents\n\n"

  /** The sections a table of contents starts from: every root, or the section at
      `path` under its last segment. */
  function TocRoots(j: Journal, rootPath: string): (r: Option<seq<Named>>)
    ensures r.None? <==> rootPath != "" && Find(j.sections, PyText.Split(rootPath, '/')).None?
  {
    if rootPath == "" then Some(j.sections)
    else
      var parts := PyText.Split(rootPath, '/');
      match Find(j.sections, parts)
      case None => None
      case Some(s) => Some([Named(parts[|parts| - 1], s)])
  }

  /** What `journal_toc` answers. */
  function TocView(j: Journal, rootPath: string, maxDepth: int): (r: TocResponse)
    ensures r.TocNotFound? <==> TocRoots(j, rootPath).None?
  {
    match TocRoots(j, rootPath)
    case None => TocNotFound(rootPath)
    case Some(d) => TableOfContents(TocHeader + Render(TocLines(d, 0, maxDepth)))
  }

  /** A found root section is listed alone, under the last segment of its path. */
  lemma TocRootsAt(j: Journal, rootPath: string, s: Section, d: seq<Named>)
    requires rootPath != "" && Find(j.sections, PyText.Split(rootPath, '/')) == Some(s)
    requires var parts := PyText.Split(rootPath, '/'); d == [Named(parts[|parts| - 1], s)]
    ensures TocRoots(j, rootPath) == Some(d)
  {
  }

  /** A rooted table of contents lists the root section under its last segment and
      its entry count, followed by its subsections, when `max_depth` is positive. */
  lemma RootedTocHead(j: Journal, rootPath: string, maxDepth: int)
    requires rootPath != "" && Find(j.sections, PyText.Split(rootPath, '/')).Some? && maxDepth > 0
    ensures var parts := PyText.Split(rootPath, '/');
            var s := Find(j.sections, parts).value;
            TocLines(TocRoots(j, rootPath).value, 0, maxDepth)
            == [TocLine(0, parts[|parts| - 1], |s.entries|)] + (if s.subsections != [] then TocLines(s.subsections, 1, maxDepth) else [])
  {
    var parts := PyText.Split(rootPath, '/');
    var d := [Named(parts[|parts| - 1], Find(j.sections, parts).value)];
    TocRootsAt(j, rootPath, Find(j.sections, parts).value, d);
    PySeq.DropAll(d);
    assert TocLines(d[1..], 0, maxDepth) == [];
  }

  // ----- journal_list_entries -----

  /** What `journal_list_entries` answers for the section found at the path, if any. */
  function ListPage(path: string, found: Option<Section>, limit: int, offset: int): (r: ListResponse)
    ensures r.ListNotFound? <==> found.None?
    ensures r.NoEntries? <==> found.Some? && found.value.entries == []
  {
    match found
    case None => ListNotFound(path)
    case Some(s) =>
      if s.entries == [] then NoEntries(path)
      else
        var total := |s.entries|;
        var start := PySeq.Max(0, total - offset - limit);
        var end := total - offset;
        if start >= end then NoMoreEntries
        else Listed(path, total, NumberedFrom(PySeq.Reverse(PySeq.Slice(s.entries, start, end)), total - offset))
  }

  /** "No more entries" exactly when the limit is not positive or the offset skips
      every entry. */
  lemma ListNoMore(path: string, s: Section, limit: int, offset: int)
    requires s.entries != []
    ensures ListPage(path, Some(s), limit, offset).NoMoreEntries? <==> limit <= 0 || offset >= |s.entries|
  {
  }

  /** For an offset inside the section and a positive limit, the page is the
      newest-first list of entries from position `offset`, at most `limit` of
      them, and each is numbered with its 1-based position in the section. */
  lemma ListPageWindow(path: string, s: Section, limit: int, offset: int)
    requires 0 <= offset < |s.entries| && limit > 0
    ensures var r := ListPage(path, Some(s), limit, offset);
            r.Listed? && r.total == |s.entries| && |r.entries| == PySeq.Min(limit, |s.entries| - offset)
    ensures var r := ListPage(path, Some(s), limit, offset);
            forall i :: 0 <= i < |r.entries| ==> r.entries[i].entry == PySeq.Reverse(s.entries)[offset + i]
    ensures var r := ListPage(path, Some(s), limit, offset);
            forall i :: 0 <= i < |r.entries| ==>
              1 <= r.entries[i].number <= |s.entries| && s.entries[r.entries[i].number - 1] == r.entries[i].entry
  {
    var start := PySeq.Max(0, |s.entries| - offset - limit);
    var end := |s.entries| - offset;
    ListPageListed(path, s, limit, offset, start, end);
    WindowEntries(s.entries, start, end, offset);
    WindowNumbers(s.entries, start, end);
  }

  /** The page for an offset inside the section and a positive limit is the window
      `start..end` newest first, numbered down from `end`. */
  lemma ListPageListed(path: string, s: Section, limit: int, offset: int, start: nat, end: nat)
    requires 0 <= offset < |s.entries| && limit > 0
    requires start == PySeq.Max(0, |s.entries| - offset - limit) && end == |s.entries| - offset
    ensures start < end
    ensures ListPage(path, Some(s), limit, offset)
            == Listed(path, |s.entries|, NumberedFrom(PySeq.Reverse(s.entries[start..end]), end))
  {
    PySeq.SliceWithin(s.entries, start, end);
  }

  /** The window `a..b` newest first holds the reversed list's entries from `skip`,
      the number of entries after the window. */
  lemma WindowEntries(entries: seq<Entry>, a: nat, b: nat, skip: nat)
    requires a <= b <= |entries| && skip == |entries| - b
    ensures var n := NumberedFrom(PySeq.Reverse(entries[a..b]), b);
            forall i :: 0 <= i < |n| ==> n[i].entry == PySeq.Reverse(entries)[skip + i]
  {
    var n := NumberedFrom(PySeq.Reverse(entries[a..b]), b);
    forall i | 0 <= i < |n|
      ensures n[i].entry == PySeq.Reverse(entries)[skip + i]
    {
      PySeq.ReverseWindowAt(entries, a, b, i);
    }
  }

  /** Numbered down from `b`, each entry of the window `a..b` newest first carries
      its 1-based position in the list. */
  lemma WindowNumbers(entries: seq<Entry>, a: nat, b: nat)
    requires a <= b <= |entries|
    ensures var n := NumberedFrom(PySeq.Reverse(entries[a..b]), b);
            forall i :: 0 <= i < |n| ==> 1 <= n[i].number <= |entries| && entries[n[i].number - 1] == n[i].entry
  {
    var n := NumberedFrom(PySeq.Reverse(entries[a..b]), b);
    forall i | 0 <= i < |n|
      ensures 1 <= n[i].number <= |entries| && entries[n[i].number - 1] == n[i].entry
    {
      PySeq.ReverseWindowAt(entries, a, b, i);
    }
  }

  /** Consecutive pages of the same limit follow each other without gap or overlap. */
  lemma ListPagesAdjacent(path: string, s: Section, limit: int, offset: int)
    requires 0 <= offset && offset + limit < |s.entries| && limit > 0
    ensures var first := ListPage(path, Some(s), limit, offset);
            var next := ListPage(path, Some(s), limit, offset + limit);
            && |first.entries| == limit
            && next.entries[0].number == first.entries[limit - 1].number - 1
  {
    ListPageWindow(path, s, limit, offset);
    ListPageWindow(path, s, limit, offset + limit);
  }

  /** A negative offset numbers the newest entry past the end of the section. */
  lemma ListNegativeOffset(path: string, s: Section, limit: int, offset: int)
    requires offset < 0 && limit > 0 && s.entries != []
    ensures var r := ListPage(path, Some(s), limit, offset);
            r.Listed? && (r.entries != [] ==> r.entries[0].number > |s.entries|)
  {
  }

  /** The part of `_handle_list_entries` after the lookup: the window of entries
      ending `offset` entries before the newest, newest first and numbered. */
  method ListSection(path: string, found: Option<Section>, limit: int, offset: int) returns (r: ListResponse)
    ensures r == ListPage(path, found, limit, offset)
  {
    if found.None? {
      return ListNotFound(path);
    }
    var s := found.value;
    if s.entries == [] {
      return NoEntries(path);
    }
    var total := |s.entries|;
    var start := PySeq.Max(0, total - offset - limit);
    var end := total - offset;
    if start >= end {
      return NoMoreEntries;
    }
    var page := PySeq.Reverse(PySeq.Slice(s.entries, start, end));
    var numbered := NumberEntries(page, total - offset);
    r := Listed(path, total, numbered);
  }

  /** The part of `_handle_toc` after the lookup of the root section, if any. */
  method TocFor(j: Journal, rootPath: string, found: Option<Section>, maxDepth: int) returns (r: TocResponse)
    requires rootPath != "" ==> found == Find(j.sections, PyText.Split(rootPath, '/'))
    ensures r == TocView(j, rootPath, maxDepth)
  {
    var sections := j.sections;
    if rootPath != "" {
      if found.None? {
        return TocNotFound(rootPath);
      }
      var parts := PyText.Split(rootPath, '/');
      sections := [Named(parts[|parts| - 1], found.value)];
      TocRootsAt(j, rootPath, found.value, sections);
    }
    var tree := BuildToc(sections, 0, maxDepth);
    r := TableOfContents(TocHeader + tree);
  }

  // ----- the server -----

  class JournalServer {
    const storage: JsonStorage
    const searcher: JournalSearch.Embedder

    constructor (file: Option<Journal>, searcher: JournalSearch.Embedder)
      ensures fresh(storage) && storage.cache == None && storage.file == file
      ensures this.searcher == searcher
    {
      this.searcher := searcher;
      this.storage := new JsonStorage(file);
    }

    /** `_handle_read` */
    method HandleRead(path: string, includeEntries: bool, maxEntries: int) returns (r: ReadResponse)
      modifies storage
      ensures r == ReadView(path, Find(old(storage.Current()).sections, PyText.Split(path, '/')), includeEntries, maxEntries)
      ensures storage.cache == Some(old(storage.Current())) && storage.file == old(storage.file)
    {
      var section := storage.GetSection(path);
      if section.None? {
        return ReadNotFound(path);
      }
      var s := section.value;
      var overview := if s.overview != "" then Some(s.overview) else None;
      var recent: Option<Recent> := None;
      if includeEntries && s.entries != [] {
        var shown := NumberEntries(RecentWindow(s.entries, maxEntries), |s.entries|);
        recent := Some(Recent(PySeq.Min(|s.entries|, maxEntries), |s.entries|, shown));
      }
      r := SectionView(path, overview, recent, Names(s.subsections));
    }

    /** `_handle_write`. The section `get_section` or `create_section` hands back
        is the object inside the cached journal, so appending to it and setting its
        overview updates the cached tree at the path; `load` then returns that same
        journal and `save` writes it. */
    method HandleWrite(path: string, entry: string, workContext: string, overview: Option<string>, now: Instant)
      returns (r: WriteResponse)
      modifies storage
      ensures var j := Journal(WriteTree(old(storage.Current()).sections, PyText.Split(path, '/'),
                                         NewEntry(workContext, entry, now), overview));
              storage.cache == Some(j) && storage.file == Some(j)
      ensures r == Added(path, overview.Some?)
    {
      ghost var d0 := storage.Current().sections;
      var parts := PyText.Split(path, '/');
      var section := storage.GetSection(path);
      if section.None? {
        var created := storage.CreateSection(path);
      } else {
        MaterialiseExisting(d0, [], parts);
      }
      var newEntry := NewEntry(workContext, entry, now);
      storage.cache := Some(Journal(AppendAt(storage.cache.value.sections, parts, newEntry, overview)));
      var journal := storage.Load();
      storage.Save(journal);
      r := Added(path, overview.Some?);
    }

    /** `_handle_search` */
    method HandleSearch(workContext: string, content: string, threshold: real, maxResults: int, now: Instant)
      returns (r: SearchResponse)
      modifies storage
      ensures var results := JournalSearch.SearchResults(
                searcher, JournalSearch.Query(searcher.encode(workContext), searcher.encode(content)),
                now, old(storage.Current()), threshold, maxResults);
              r == if results == [] then NoMatches else Matches(results)
      ensures storage.cache == Some(old(storage.Current())) && storage.file == old(storage.file)
    {
      var journal := storage.Load();
      var results := JournalSearch.Search(searcher, journal, workContext, content, now, threshold, maxResults);
      if results == [] {
        return NoMatches;
      }
      r := Matches(results);
    }

    /** `_handle_toc`; a missing `path` argument is the empty string. */
    method HandleToc(rootPath: string, maxDepth: int) returns (r: TocResponse)
      modifies storage
      ensures r == TocView(old(storage.Current()), rootPath, maxDepth)
      ensures storage.cache == Some(old(storage.Current())) && storage.file == old(storage.file)
    {
      var journal := storage.Load();
      var found: Option<Section> := None;
      if rootPath != "" {
        found := storage.GetSection(rootPath);
      }
      r := TocFor(journal, rootPath, found, maxDepth);
    }

    /** `_handle_list_entries` */
    method HandleListEntries(path: string, limit: int, offset: int) returns (r: ListResponse)
      modifies storage
      ensures r == ListPage(path, Find(old(storage.Current()).sections, PyText.Split(path, '/')), limit, offset)
      ensures storage.cache == Some(old(storage.Current())) && storage.file == old(storage.file)
    {
      var section := storage.GetSection(path);
      r := ListSection(path, section, limit, offset);
    }
  }
}
