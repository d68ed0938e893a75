/** `JsonStorage`: the journal cached in memory, and the data file behind it.
    The file is an abstract optional journal (absent, or the journal last saved);
    JSON encoding, the temporary file and directory creation are not modelled. */
module JournalStorage {
  import opened Wrappers
  import opened JournalTypes
  import opened JournalTree
  import PyText
  import PySeq

  class JsonStorage {
    /** `_journal`: the journal loaded or saved last, if any. */
    var cache: Option<Journal>
    /** The contents of the data file. */
    var file: Option<Journal>

    constructor (file: Option<Journal>)
      ensures this.cache == None && this.file == file
    {
      this.cache := None;
      this.file := file;
    }

    /** The journal `load` returns: the cached one, else the file's, else an empty one. */
    function Current(): Journal
      reads this
    {
      match cache
      case Some(j) => j
      case None => file.GetOr(EmptyJournal())
    }

    /** `load`: from then on the same journal is cached and every load returns it. */
    method Load() returns (j: Journal)
      modifies this
      ensures j == old(Current())
      ensures cache == Some(j) && file == old(file)
      ensures Current() == j
    {
      if cache.Some? {
        return cache.value;
      }
      if file.Some? {
        j := file.value;
      } else {
        j := EmptyJournal();
      }
      cache := Some(j);
    }

    /** `save`: the journal becomes both the cache and the file. */
    method Save(j: Journal)
      modifies this
      ensures cache == Some(j) && file == Some(j)
      ensures Current() == j
    {
      cache := Some(j);
      file := Some(j);
    }

    /** `get_section`: the section at the `/`-separated path, if every segment exists. */
    method GetSection(path: string) returns (r: Option<Section>)
      modifies this
      ensures r == Find(old(Current()).sections, PyText.Split(path, '/'))
      ensures cache == Some(old(Current())) && file == old(file)
    {
      var journal := Load();
      if '/' !in path {
        PyText.SplitSingle(path, '/');
        return Lookup(journal.sections, path);
      }
      r := WalkSections(journal.sections, PyText.Split(path, '/'));
    }

    /** `create_section`, with the stored path of each created section being the
        segments so far joined by `/` (see `JournalTree.PathAsWritten` for the
        running path as the source accumulates it). The journal is saved, and the
        section returned is the one now at the path. */
    method CreateSection(path: string) returns (section: Section)
      modifies this
      ensures var j := Journal(Materialise(old(Current()).sections, [], PyText.Split(path, '/')));
              cache == Some(j) && file == Some(j)
              && Find(j.sections, PyText.Split(path, '/')) == Some(section)
    {
      var journal := Load();
      var d0 := journal.sections;
      var parts := PyText.Split(path, '/');
      var sections;
      if '/' !in path {
        PyText.SplitSingle(path, '/');
        MaterialiseSnoc(d0, [], [], path);
        PySeq.EmptyFront([path]);
        sections := InsertAt(d0, [], path, path);
      } else {
        sections := BuildSections(d0, parts);
      }
      MaterialiseTarget(d0, [], parts);
      section := Find(sections, parts).value;
      Save(Journal(sections));
    }
  }

  /** The walk of `get_section` below the root: one mapping lookup per segment,
      stopping at the first missing one. */
  method WalkSections(d: seq<Named>, parts: seq<string>) returns (r: Option<Section>)
    requires parts != []
    ensures r == Find(d, parts)
  {
    var current := Lookup(d, parts[0]);
    TakeTail(parts, 1);
    var i := 1;
    while i < |parts|
      invariant 1 <= i <= |parts|
      invariant current == Find(d, parts[..i])
    {
      if current.None? {
        FindMissingPrefix(d, parts, i);
        return None;
      }
      FindNext(d, parts, i);
      current := Lookup(current.value.subsections, parts[i]);
      i := i + 1;
    }
    PySeq.TakeAll(parts);
    r := current;
  }

  /** One turn of `get_section`'s loop: one more segment looks up one more level. */
  lemma FindNext(d: seq<Named>, parts: seq<string>, i: nat)
    requires 1 <= i < |parts| && Find(d, parts[..i]).Some?
    ensures Find(d, parts[..i + 1]) == Lookup(Find(d, parts[..i]).value.subsections, parts[i])
  {
    FindSnoc(d, parts[..i], parts[i]);
    PySeq.TakeNext(parts, i);
  }

  /** The loop of `create_section` over the segments, with its running path
      corrected: each missing segment is created below the previous one, and the
      running path is the segments so far joined by `/`. The source glues on a `/`
      only when the running path is non-empty (`if current_path:`), which drops a
      leading empty segment; that as-written path is `JournalTree.PathAsWritten`,
      and it agrees with this one whenever the first segment is non-empty. */
  method BuildSections(d0: seq<Named>, parts: seq<string>) returns (sections: seq<Named>)
    ensures sections == Materialise(d0, [], parts)
  {
    sections := d0;
    var currentPath := "";
    for i := 0 to |parts|
      invariant sections == Materialise(d0, [], parts[..i])
      invariant currentPath == PyText.Join("/", parts[..i])
    {
      var part := parts[i];
      CreateStep(d0, parts, i);
      if i == 0 {
        currentPath := part;
      } else {
        currentPath := currentPath + "/" + part;
      }
      sections := InsertAt(sections, parts[..i], part, currentPath);
    }
    PySeq.TakeAll(parts);
  }

  /** One turn of `create_section`'s loop with the corrected running path: the
      path grows by one segment (a `/` before every segment but the first, where the
      source tests `if current_path:` instead) and one more segment is materialised. */
  lemma CreateStep(d0: seq<Named>, parts: seq<string>, i: nat)
    requires i < |parts|
    ensures PyText.Join("/", parts[..i + 1])
            == if i == 0 then parts[i] else PyText.Join("/", parts[..i]) + "/" + parts[i]
    ensures Materialise(d0, [], parts[..i + 1])
            == InsertAt(Materialise(d0, [], parts[..i]), parts[..i], parts[i], PyText.Join("/", parts[..i + 1]))
  {
    PySeq.TakeNext(parts, i);
    PyText.JoinSnoc("/", parts[..i], parts[i]);
    MaterialiseSnoc(d0, [], parts[..i], parts[i]);
    PySeq.EmptyFront(parts[..i]);
  }

  /** After `create_section(p)` on a journal without `p`, `get_section(p)` finds a
      new section whose path is `p`, with an empty overview, no entries and no
      subsections. */
  lemma CreatedSectionPath(d: seq<Named>, p: string)
    requires Find(d, PyText.Split(p, '/')).None?
    ensures Find(Materialise(d, [], PyText.Split(p, '/')), PyText.Split(p, '/')) == Some(NewSection(p))
  {
    var parts := PyText.Split(p, '/');
    MaterialiseTarget(d, [], parts);
    PyText.JoinSplit(p, '/');
    PySeq.EmptyFront(parts);
  }

  /** An empty journal has no section at any path. */
  lemma EmptyJournalHasNoSection(p: string)
    ensures Find(EmptyJournal().sections, PyText.Split(p, '/')) == None
  {
  }
}
