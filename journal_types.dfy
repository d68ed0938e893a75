/** The journal's data model: entries, recursively nested sections, the journal root
    and the read-only search result. A Python `dict` is an insertion-ordered mapping;
    here it is an association list of `Named` pairs, looked up by first match and
    updated in place or appended at the end (module JournalTree), so that the
    iteration order the search and the table of contents depend on is modelled. */
module JournalTypes {

  /** An instant in UTC, in whole microseconds since the epoch (the resolution of
      Python's `datetime`). */
  type Instant = int

  /** One record; its timestamp is the instant it was created. */
  datatype Entry = Entry(workContext: string, content: string, timestamp: Instant)

  /** A section: its path, its overview (default empty), its entries in append order
      and its subsections by name. */
  datatype Section = Section(path: string, overview: string, entries: seq<Entry>, subsections: seq<Named>)

  /** One key/value pair of a `Dict[str, JournalSection]`. */
  datatype Named = Named(name: string, section: Section)

  /** The root: sections by their first path segment (default empty). */
  datatype Journal = Journal(sections: seq<Named>)

  /** A scored hit: where the entry lives, the entry itself and the four scores. */
  datatype SearchResult = SearchResult(
    sectionPath: string,
    entryIndex: int,
    entry: Entry,
    workContextScore: real,
    contentScore: real,
    combinedScore: real,
    temporalScore: real)

  /** `JournalEntry(work_context=..., content=...)`, stamped with the current instant. */
  function NewEntry(workContext: string, content: string, now: Instant): (e: Entry)
    ensures e.workContext == workContext && e.content == content && e.timestamp == now
  {
    Entry(workContext, content, now)
  }

  /** `JournalSection(path=path)` with every other field at its default. */
  function NewSection(path: string): (s: Section)
    ensures s.path == path && s.overview == "" && s.entries == [] && s.subsections == []
  {
    Section(path, "", [], [])
  }

  /** `Journal()` */
  function EmptyJournal(): (j: Journal)
    ensures j.sections == []
  {
    Journal([])
  }
}
