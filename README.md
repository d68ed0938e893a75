# Journal, memory bank and dialectic — a Dafny model

This project models the core of a repository of Model Context Protocol servers and the prompt-testing
tool beside them, and proves properties of that model.

- **Journal server** (`journal-mcp-server`). The journal is a tree of named sections. Each
  section holds an overview, entries in the order they were written, and subsections. The
  JSON storage keeps a cached copy of the journal file. `create_section` builds the missing
  sections along a `/`-separated path. The search scores every entry against a query
  embedding: the mean of two cosine similarities, weighted by a temporal decay with a floor of
  0.1. It keeps the scores at or above a threshold and returns the best ones, stably sorted.
  The handlers are `journal_read`, `journal_write`, `journal_search`, `journal_toc` and
  `journal_list_entries`.
- **Memory bank** (`memory-bank`). `search_memories` is a keyword search over stemmed words.
  Situation matches count twice. Only positive scores are kept, and at most five results
  come back, stably sorted. The server's read cache drives an optimistic-concurrency rule:
  `write_memory` may update a memory only after this session has read or written it, and it
  refuses the update when the file's content changed in the meantime.
- **Socratic shell** (`socratic-shell`). Its `search_memories` is line for line the same code
  as the memory bank's. One model, `KeywordSearch`, serves both.
- **Dialectic**, in three parts:
  - the test runner loads a YAML test case and validates a model reply against each
    conversation step (phrases required and forbidden, tools expected with parameter rules,
    tools unexpected), then aggregates the steps into one pass/fail verdict;
  - the authorization hook allows or denies a tool call from two tool lists;
  - the sampling helpers build the sampling request, extract the text of a response, estimate
    token counts and read system-reminder files.

Modelling conventions:

- Python dicts are association lists with first-match lookup. Assigning to a key replaces the
  first binding of that key, or appends one when there is none.
- JSON and YAML values are the `PyValue.Value` datatype.
- A Python exception escaping a call is `None`, or an `Err` of a `Result`.
- Outside code is passed in as a value, parameter or function. This covers the embedding
  model (`JournalSearch.Embedder`), the tokenizer and stemmer (`KeywordSearch.TextOracle`),
  `str.lower`, `str(...)`, the model under test (`reply: nat -> Reply`), the filesystem
  (`files: string -> Disk` for the dialectic reminders, `FileState` for the memory bank), the clock and fresh ids.
- Where the source writes a loop, the model has a `method` with a loop, proved equal
  to a specification function over the inputs. The properties are lemmas about that function.
  The journal storage (`JsonStorage`), the journal server, the memory-bank session and the
  dialectic runner are classes whose methods update their fields.

## Model

| member | source | states |
|---|---|---|
| `JournalTypes.NewEntry` | journal-mcp-server/src/journal_server/types.py:8-13 | a new entry carries the given work context and content, stamped with the given instant |
| `JournalTypes.NewSection` | journal-mcp-server/src/journal_server/types.py:16-22 | a new section has its path, an empty overview, no entries and no subsections |
| `JournalTypes.EmptyJournal` | journal-mcp-server/src/journal_server/types.py:25-28 | a new journal has no sections |
| `JournalStorage.JsonStorage.constructor` | journal-mcp-server/src/journal_server/storage.py:13-15 | storage starts with an empty cache, over the given file contents |
| `JournalStorage.JsonStorage.Load` | journal-mcp-server/src/journal_server/storage.py:17-32 | load returns the cached journal if there is one, else the file's journal, else a new empty journal; afterwards that journal is cached and the file is unchanged |
| `JournalStorage.JsonStorage.Save` | journal-mcp-server/src/journal_server/storage.py:34-51 | after saving, both the file and the cache hold exactly the saved journal |
| `JournalStorage.JsonStorage.GetSection` | journal-mcp-server/src/journal_server/storage.py:53-70 | the result is the section reached by walking the `/`-separated path from the root, or none when a segment is missing; the journal is cached and the file is unchanged |
| `JournalStorage.JsonStorage.CreateSection` | journal-mcp-server/src/journal_server/storage.py:72-107 | with the running path corrected as in the storage.py:87-93 finding below: the new journal is the old one with the missing sections along the path built; it is saved, and the returned section is the one now found at that path |
| `JournalStorage.WalkSections` | journal-mcp-server/src/journal_server/storage.py:62-70 | the segment-by-segment walk equals the recursive path lookup `Find` |
| `JournalStorage.FindNext` | journal-mcp-server/src/journal_server/storage.py:65-68 | one walk step looks up the next segment among the current section's subsections |
| `JournalStorage.BuildSections` | journal-mcp-server/src/journal_server/storage.py:83-104 | with the running path corrected as in the storage.py:87-93 finding below: the loop that creates missing sections produces exactly `Materialise` of the path |
| `JournalStorage.CreateStep` | journal-mcp-server/src/journal_server/storage.py:89-104 | one step of the corrected loop (the storage.py:87-93 finding below): the running path gains `/segment`, or becomes the segment on the first step where the source tests `if current_path:`; the tree gains the child at the current position |
| `JournalStorage.CreatedSectionPath` | journal-mcp-server/src/journal_server/storage.py:72-107 | a section created at path `p` is a fresh section whose stored path is `p` itself |
| `JournalStorage.EmptyJournalHasNoSection` | journal-mcp-server/src/journal_server/storage.py:58-59 | no path is found in an empty journal |
| `JournalTree.Names` | journal-mcp-server/src/journal_server/storage.py:59 | the keys of a sections dict, in order |
| `JournalTree.Lookup` | journal-mcp-server/src/journal_server/storage.py:63 | a name is found exactly when it is a key, and the section found is bound to it |
| `JournalTree.Find` | journal-mcp-server/src/journal_server/storage.py:62-70 | a path is found only when it is non-empty and its first segment is a root key; a one-segment path is that root lookup |
| `JournalTree.Put` | journal-mcp-server/src/journal_server/storage.py:98 | assigning a key keeps the key order and appends a new key at the end; no other binding appears |
| `JournalTree.LookupPut` | journal-mcp-server/src/journal_server/storage.py:98 | after assigning a key, it maps to the new section and every other key is unaffected |
| `JournalTree.PutSame` | journal-mcp-server/src/journal_server/storage.py:98 | assigning a key the value it already has changes nothing |
| `JournalTree.PutPut` | journal-mcp-server/src/journal_server/storage.py:98 | assigning a key twice is the same as assigning it the second value |
| `JournalTree.FindPut` | journal-mcp-server/src/journal_server/storage.py:62-70 | how a path lookup sees a root key just assigned |
| `JournalTree.FindSnoc` | journal-mcp-server/src/journal_server/storage.py:65-68 | looking up a longer path is one more subsection lookup below the shorter one |
| `JournalTree.FindMissingPrefix` | journal-mcp-server/src/journal_server/storage.py:66-67 | once a prefix of the path is missing, the whole path is missing |
| `JournalTree.Materialise` | journal-mcp-server/src/journal_server/storage.py:87-104 | building a path binds its first segment at this level, keeps every existing key and adds at most one |
| `JournalTree.MaterialiseSnoc` | journal-mcp-server/src/journal_server/storage.py:89-104 | building a path one segment longer inserts that child below the path built so far |
| `JournalTree.MaterialiseCreated` | journal-mcp-server/src/journal_server/storage.py:97-98 | a missing target is created as a fresh section whose path is the segments joined by `/` |
| `JournalTree.AncestorShift` | journal-mcp-server/src/journal_server/storage.py:101-104 | the ancestor record seen from below a child is the one seen from the root |
| `JournalTree.MaterialiseAncestor` | journal-mcp-server/src/journal_server/storage.py:101-104 | every prefix of the path exists afterwards; an existing one keeps its own fields, a missing one is fresh |
| `JournalTree.MaterialiseStep` | journal-mcp-server/src/journal_server/storage.py:95-104 | building a path rebuilds the first segment's node with its subsections built from the rest |
| `JournalTree.ChildFind` | journal-mcp-server/src/journal_server/storage.py:101-104 | the lookup below a child equals the lookup from the root through that child |
| `JournalTree.MaterialiseElsewhere` | journal-mcp-server/src/journal_server/storage.py:89-104 | sections that are not prefixes of the path are untouched |
| `JournalTree.MaterialiseExisting` | journal-mcp-server/src/journal_server/storage.py:97-104 | building a path that already exists leaves the tree exactly as it was |
| `JournalTree.MaterialiseTarget` | journal-mcp-server/src/journal_server/storage.py:72-107 | the target is the existing section if there was one, else a fresh section |
| `JournalTree.MaterialiseIdempotent` | journal-mcp-server/src/journal_server/storage.py:72-107 | creating the same section twice is the same as creating it once |
| `JournalTree.MaterialiseRootNames` | journal-mcp-server/src/journal_server/storage.py:97-98 | at the root, only the path's first segment can be added, and it goes at the end of the key order |
| `JournalTree.AppendAt` | journal-mcp-server/src/journal_server/server.py:217-223 | a write adds no key and drops none: the root names are unchanged |
| `JournalTree.AppendAtStep` | journal-mcp-server/src/journal_server/server.py:217-223 | appending below a root section rewrites only that root key |
| `JournalTree.AppendAtTarget` | journal-mcp-server/src/journal_server/server.py:219-223 | the target section gains the entry at the end, and gets the new overview when one is given |
| `JournalTree.AppendAtElsewhere` | journal-mcp-server/src/journal_server/server.py:219-226 | the write leaves every section that is not a prefix of the path unchanged |
| `JournalTree.AppendAtAncestor` | journal-mcp-server/src/journal_server/server.py:219-226 | the write keeps the fields of every ancestor of the target |
| `JournalTree.LookupPathsAgree` | journal-mcp-server/src/journal_server/storage.py:97 | in a tree whose stored paths agree with their positions, a child's stored path is its position joined by `/` |
| `JournalTree.PutPathsAgree` | journal-mcp-server/src/journal_server/storage.py:98 | assigning a child whose paths agree with its position keeps the tree's paths in agreement |
| `JournalTree.FindPathsAgree` | journal-mcp-server/src/journal_server/storage.py:62-70 | a section found at path `p` stores `p` as its path |
| `JournalTree.MaterialisePathsAgree` | journal-mcp-server/src/journal_server/storage.py:87-104 | section creation keeps stored paths in agreement with positions |
| `JournalTree.AppendAtPathsAgree` | journal-mcp-server/src/journal_server/server.py:219-226 | a write keeps stored paths in agreement with positions |
| `JournalTree.PathAsWrittenAgrees` | journal-mcp-server/src/journal_server/storage.py:87-93 | the running path as written equals the `/`-join whenever the first segment is non-empty |
| `JournalTree.PathAsWrittenNonEmpty` | journal-mcp-server/src/journal_server/storage.py:87-93 | the running path as written is non-empty whenever the first segment is non-empty |
| `JournalTree.PathAsWrittenLeadingSlash` | journal-mcp-server/src/journal_server/storage.py:87-93 | for `/a`, the running path as written is `a`, while the `/`-join of the segments is `/a` |
| `JournalTree.PutKeyed` | journal-mcp-server/src/journal_server/storage.py:98 | assigning a key keeps every dict in the tree free of duplicate keys |
| `JournalTree.KeyedTail` | journal-mcp-server/src/journal_server/storage.py:59 | dropping the first binding of a duplicate-free dict leaves it duplicate-free |
| `JournalTree.LookupKeyed` | journal-mcp-server/src/journal_server/storage.py:63 | a child found in a duplicate-free tree is itself duplicate-free |
| `JournalTree.MaterialiseKeyed` | journal-mcp-server/src/journal_server/storage.py:72-107 | section creation keeps every dict of the tree free of duplicate keys |
| `JournalTree.AppendAtKeyed` | journal-mcp-server/src/journal_server/server.py:219-226 | a write keeps every dict of the tree free of duplicate keys |
| `JournalTree.PathAsWritten` | journal-mcp-server/src/journal_server/storage.py:87-93 | the running path as written is empty exactly when every segment so far is empty |
| `JournalSearch.Cosine` | journal-mcp-server/src/journal_server/search.py:112-123 | similarity is 0 when either norm is 0, else the dot product over the product of the norms |
| `JournalSearch.TemporalScore` | journal-mcp-server/src/journal_server/search.py:125-135 | the decay of the entry's age in whole days, but never less than 0.1 |
| `JournalSearch.AgeDays` | journal-mcp-server/src/journal_server/search.py:128-132 | `r` is the age in whole days rounded down: `r` days fit in `now - timestamp` microseconds and `r + 1` do not |
| `JournalSearch.ScoreEntry` | journal-mcp-server/src/journal_server/search.py:78-110 | a result carries its section path, index and entry, both similarities and the temporal score; combined = the mean of the two similarities times the temporal score |
| `JournalSearch.EntryScores` | journal-mcp-server/src/journal_server/search.py:62-64 | result `i` scores entry `i` of the section, at index `i` |
| `JournalSearch.AtLeast` | journal-mcp-server/src/journal_server/search.py:67-68 | thresholding never adds results |
| `JournalSearch.EntryCount` | journal-mcp-server/src/journal_server/search.py:39-76 | every root section's entries and the entries of its whole subtree are counted |
| `JournalSearch.AtLeastMembers` | journal-mcp-server/src/journal_server/search.py:67-68 | a result is kept exactly when it was a candidate and its combined score reaches the threshold |
| `JournalSearch.AtLeastConcat` | journal-mcp-server/src/journal_server/search.py:67-68 | thresholding keeps the visiting order: it distributes over concatenation |
| `JournalSearch.AtLeastSnoc` | journal-mcp-server/src/journal_server/search.py:64-68 | one more entry adds itself exactly when it reaches the threshold |
| `JournalSearch.CandidatesConcat` | journal-mcp-server/src/journal_server/search.py:40-43 | the candidates of consecutive root sections come one after another |
| `JournalSearch.CandidatesSnoc` | journal-mcp-server/src/journal_server/search.py:40-43 | visiting one more section appends that section's candidates (its entries, then its subtree's) |
| `JournalSearch.SectionCandidates` | journal-mcp-server/src/journal_server/search.py:50-76 | visiting a section gives one candidate per entry of it and of its subtree, the first ones scoring its own entries in order, under its joined path |
| `JournalSearch.Candidates` | journal-mcp-server/src/journal_server/search.py:39-43 | the walk scores every entry of every section: one candidate per entry in the tree |
| `JournalSearch.VisitStep` | journal-mcp-server/src/journal_server/search.py:71-76 | invariant step of the subsection loop |
| `JournalSearch.SectionDone` | journal-mcp-server/src/journal_server/search.py:62-76 | a section's results are its own entries' hits followed by its subsections' hits |
| `JournalSearch.SearchSection` | journal-mcp-server/src/journal_server/search.py:50-76 | the recursive visit appends exactly the section's hits at or above the threshold, in depth-first order |
| `JournalSearch.Search` | journal-mcp-server/src/journal_server/search.py:22-48 | the search returns the hits of the whole journal, stably sorted by combined score descending and cut to `max_results` |
| `JournalSearch.SortKeyIsCombinedScore` | journal-mcp-server/src/journal_server/search.py:100 | the sort key is the combined score: the mean of the two similarities times the temporal score |
| `JournalSearch.SearchResults` | journal-mcp-server/src/journal_server/search.py:39-48 | there are no more results than entries in the journal, and no more than `max_results` when it is non-negative |
| `JournalSearch.ResultsReachThreshold` | journal-mcp-server/src/journal_server/search.py:67-68 | every result reaches the threshold |
| `JournalSearch.ResultsBounded` | journal-mcp-server/src/journal_server/search.py:39-48 | with a non-negative `max_results` there are at most that many results; none when it is 0 or the journal is empty |
| `JournalSearch.ResultsSortedStable` | journal-mcp-server/src/journal_server/search.py:46-48 | results are in non-increasing score order, ties keep their visiting order, and they are a prefix of the full sorted list |
| `JournalSearch.AtLeastAntitone` | journal-mcp-server/src/journal_server/search.py:67-68 | a higher threshold never keeps more results |
| `JournalSearch.CandidatesLocated` | journal-mcp-server/src/journal_server/search.py:62-76 | every candidate names a real section path and an index whose entry it carries |
| `JournalSearch.CandidatesComplete` | journal-mcp-server/src/journal_server/search.py:39-76 | every entry of every section that a path reaches is scored among the candidates, under that path |
| `JournalSearch.LocatedHere` | journal-mcp-server/src/journal_server/search.py:62-64 | a candidate from a root section's own entries is located at that section |
| `JournalSearch.LocatedBelow` | journal-mcp-server/src/journal_server/search.py:71-76 | a candidate located in a subtree is located in the whole tree |
| `JournalSearch.LocatedLater` | journal-mcp-server/src/journal_server/search.py:40-43 | a candidate located among later root sections is located in the whole tree |
| `JournalSearch.CandidatesInclude` | journal-mcp-server/src/journal_server/search.py:40-43 | any root section's candidates are among the journal's candidates |
| `JournalSearch.HitsComplete` | journal-mcp-server/src/journal_server/search.py:39-46 | every entry anywhere in the journal that reaches the threshold is in the sorted list that the results are cut from |
| `JournalSearch.AgeDaysAntitone` | journal-mcp-server/src/journal_server/search.py:128-132 | an older timestamp is never fewer days old |
| `JournalSearch.TemporalAntitone` | journal-mcp-server/src/journal_server/search.py:131-135 | with a non-increasing decay, an older entry never scores higher in time |
| `JournalServer.NumberedFrom` | journal-mcp-server/src/journal_server/server.py:189-190 | entry `i` of the listing is numbered `first - i` |
| `JournalServer.NumberEntries` | journal-mcp-server/src/journal_server/server.py:326-327 | the numbering loop produces exactly that listing |
| `JournalServer.ReadView` | journal-mcp-server/src/journal_server/server.py:167-200 | a read reports "not found" exactly when the section is missing |
| `JournalServer.RecentWindow` | journal-mcp-server/src/journal_server/server.py:185-189 | the window is no longer than the entries, and item `i` is the entry `i` places from the newest |
| `JournalServer.RecentWindowNewestFirst` | journal-mcp-server/src/journal_server/server.py:185-189 | the entries shown are the newest first, as many as the Python slice `entries[-max_entries:]` gives (all of them for 0) |
| `JournalServer.ReadEntriesNumbered` | journal-mcp-server/src/journal_server/server.py:189-190 | each entry shown carries its 1-based position in the section, counted from the newest, and is the entry stored there |
| `JournalServer.ReadZeroShowsAll` | journal-mcp-server/src/journal_server/server.py:185-188 | `max_entries` 0 shows every entry |
| `JournalServer.ReadWithoutEntries` | journal-mcp-server/src/journal_server/server.py:184 | entries are shown exactly when they were asked for and the section has some |
| `JournalServer.WriteTree` | journal-mcp-server/src/journal_server/server.py:210-227 | a write keeps every root key in order and adds at most one, and binds the path's first segment |
| `JournalServer.WriteBase` | journal-mcp-server/src/journal_server/server.py:210-219 | the write starts from the section found at the path, or else from a fresh section with no overview, entries or subsections; with stored paths in agreement, its path is the segments joined by `/` |
| `JournalServer.WriteTarget` | journal-mcp-server/src/journal_server/server.py:210-223 | a write leaves the target section (created first if missing) with the entry at the end and the new overview if one was given |
| `JournalServer.WriteElsewhere` | journal-mcp-server/src/journal_server/server.py:210-226 | a write changes no section off its path |
| `JournalServer.WriteAncestors` | journal-mcp-server/src/journal_server/server.py:210-226 | after a write every ancestor of the target exists and keeps its old fields, or is fresh |
| `JournalServer.WriteTwice` | journal-mcp-server/src/journal_server/server.py:210-226 | two writes to one path append both entries in order; the later overview wins |
| `JournalServer.WriteKeyed` | journal-mcp-server/src/journal_server/server.py:210-226 | a write keeps every dict free of duplicate keys |
| `JournalServer.WritePathsAgree` | journal-mcp-server/src/journal_server/server.py:210-226 | a write keeps stored paths in agreement with their positions |
| `JournalServer.ShallowerConcat` | journal-mcp-server/src/journal_server/server.py:285-286 | the depth cut distributes over concatenation |
| `JournalServer.TocLines` | journal-mcp-server/src/journal_server/server.py:283-298 | every line lies between the starting depth and the depth limit, and below the limit every section of the level has a line |
| `JournalServer.Shallower` | journal-mcp-server/src/journal_server/server.py:285-286 | the cut keeps exactly the lines shallower than the limit, and no more lines than it was given |
| `JournalServer.Outline` | journal-mcp-server/src/journal_server/server.py:283-298 | the outline has a line for every section of the level and no line shallower than the starting depth |
| `JournalServer.OutlineTooDeep` | journal-mcp-server/src/journal_server/server.py:285-286 | nothing is listed at or below the depth limit |
| `JournalServer.TocIsBoundedOutline` | journal-mcp-server/src/journal_server/server.py:283-298 | the table of contents is the full depth-first outline cut to lines shallower than `max_depth` |
| `JournalServer.TocDepthBound` | journal-mcp-server/src/journal_server/server.py:285-286 | every line lies between the starting depth and the depth limit |
| `JournalServer.Indent` | journal-mcp-server/src/journal_server/server.py:289 | the indent is two spaces per level |
| `JournalServer.RenderLine` | journal-mcp-server/src/journal_server/server.py:295 | a line starts with its indent, has the name right after `- **`, and ends with ` entries)` and a newline |
| `JournalServer.Render` | journal-mcp-server/src/journal_server/server.py:291-296 | the rendered text is empty exactly when there are no lines |
| `JournalServer.RenderConcat` | journal-mcp-server/src/journal_server/server.py:291-296 | rendering distributes over concatenation |
| `JournalServer.BuildToc` | journal-mcp-server/src/journal_server/server.py:283-298 | the recursive builder's text is the rendering of those lines |
| `JournalServer.TocStep` | journal-mcp-server/src/journal_server/server.py:291-296 | one section renders as its own line, then its subtree, then the rest |
| `JournalServer.TocRoots` | journal-mcp-server/src/journal_server/server.py:270-276 | a table of contents is refused exactly when a non-empty root path is not found |
| `JournalServer.TocView` | journal-mcp-server/src/journal_server/server.py:263-281 | "not found" exactly when the root is missing |
| `JournalServer.TocRootsAt` | journal-mcp-server/src/journal_server/server.py:272-274 | a rooted table of contents starts from the single section found, under its last segment |
| `JournalServer.RootedTocHead` | journal-mcp-server/src/journal_server/server.py:274-276 | a rooted table of contents is the root's line, then its subtree at depth 1 |
| `JournalServer.ListPage` | journal-mcp-server/src/journal_server/server.py:300-334 | a listing is "not found" exactly when the section is missing, and "no entries" exactly when it is empty |
| `JournalServer.ListNoMore` | journal-mcp-server/src/journal_server/server.py:314-319 | "no more entries" exactly when the limit is not positive or the offset passes the end |
| `JournalServer.ListPageWindow` | journal-mcp-server/src/journal_server/server.py:314-327 | a page holds `min(limit, total - offset)` entries, newest first from the offset, each numbered by its 1-based position |
| `JournalServer.ListPageListed` | journal-mcp-server/src/journal_server/server.py:314-327 | a page is the reversed slice `[start:end]`, numbered down from `end` |
| `JournalServer.WindowEntries` | journal-mcp-server/src/journal_server/server.py:322-327 | the reversed slice is the newest-first order from the offset |
| `JournalServer.WindowNumbers` | journal-mcp-server/src/journal_server/server.py:326-327 | each listed number is a true 1-based position of that entry |
| `JournalServer.ListPagesAdjacent` | journal-mcp-server/src/journal_server/server.py:314-327 | consecutive pages continue each other: the next page's first number is one below the last number of the previous page |
| `JournalServer.ListNegativeOffset` | journal-mcp-server/src/journal_server/server.py:315-327 | a negative offset yields numbers beyond the entry count |
| `JournalServer.ListSection` | journal-mcp-server/src/journal_server/server.py:310-334 | the listing loop produces exactly that page |
| `JournalServer.TocFor` | journal-mcp-server/src/journal_server/server.py:270-281 | the handler's table of contents is the recursive outline |
| `JournalServer.JournalServer.constructor` | journal-mcp-server/src/journal_server/server.py:18-22 | the server owns fresh storage over the given file, with the given embedder |
| `JournalServer.JournalServer.HandleRead` | journal-mcp-server/src/journal_server/server.py:167-200 | the response is the read view of the section at the path; the journal is cached and the file is unchanged |
| `JournalServer.JournalServer.HandleWrite` | journal-mcp-server/src/journal_server/server.py:202-233 | the saved journal is the old one with the entry written at the path; the response says whether the overview changed |
| `JournalServer.JournalServer.HandleSearch` | journal-mcp-server/src/journal_server/server.py:235-261 | the response holds the search results, or "no matches" when there are none; the file is unchanged |
| `JournalServer.JournalServer.HandleToc` | journal-mcp-server/src/journal_server/server.py:263-281 | the response is the table of contents of the loaded journal |
| `JournalServer.JournalServer.HandleListEntries` | journal-mcp-server/src/journal_server/server.py:300-334 | the response is the page of the section at the path |
| `KeywordSearch.Stems` | memory-bank/src/memory_bank/server.py:244-245 | stem `i` is the stem of word `i` of the lower-cased text |
| `KeywordSearch.SearchText` | memory-bank/src/memory_bank/server.py:236-238 | a non-blank query starts the search text; a blank query without situation gives an empty text; a non-empty situation ends it, joined by spaces after one space |
| `KeywordSearch.Matches` | memory-bank/src/memory_bank/server.py:252 | the match count is at most the number of search stems |
| `KeywordSearch.MatchesConcat` | memory-bank/src/memory_bank/server.py:255 | matches add up over concatenated search stems |
| `KeywordSearch.MatchesExtremes` | memory-bank/src/memory_bank/server.py:252 | no match exactly when no search stem occurs; all match exactly when every stem occurs |
| `KeywordSearch.Score` | memory-bank/src/memory_bank/server.py:249-258 | a score lies between 0 and three times the number of search stems |
| `KeywordSearch.RepeatedStemsCountTwice` | memory-bank/src/memory_bank/server.py:252 | a repeated search stem counts again: repeating the search doubles the matches |
| `KeywordSearch.ScorePositive` | memory-bank/src/memory_bank/server.py:249-261 | a memory scores above 0 exactly when some search stem occurs in its situation or its content |
| `KeywordSearch.Positive` | memory-bank/src/memory_bank/server.py:260-261 | the scored list is no longer than the memories |
| `KeywordSearch.PositiveNext` | memory-bank/src/memory_bank/server.py:248-261 | one more memory is appended exactly when its score is positive |
| `KeywordSearch.PositiveMembers` | memory-bank/src/memory_bank/server.py:260-261 | a scored pair is kept exactly when its memory was searched, its score is the memory's score and it is positive |
| `KeywordSearch.Memories` | memory-bank/src/memory_bank/server.py:265 | the memories of the scored pairs, in order |
| `KeywordSearch.SearchMemories` | socratic-shell/src/socratic_shell/server.py:83-115 | the search loop returns exactly the specified ranking's memories (the memory-bank copy is memory-bank/src/memory_bank/server.py:233-265) |
| `KeywordSearch.Ranking` | memory-bank/src/memory_bank/server.py:236-265 | at most five memories and no more than were searched; a blank search text finds nothing |
| `KeywordSearch.BlankSearchFindsNothing` | memory-bank/src/memory_bank/server.py:236-241 | a blank query without situation finds nothing |
| `KeywordSearch.RankingSound` | memory-bank/src/memory_bank/server.py:258-265 | at most five results, each a searched memory with its own positive score |
| `KeywordSearch.RankingSortedStable` | memory-bank/src/memory_bank/server.py:264-265 | the ranking is in non-increasing score order, a prefix of the stable sort of the positive scores |
| `KeywordSearch.RankingKeepsBest` | memory-bank/src/memory_bank/server.py:264-265 | a positive-scoring memory left out scores no higher than any returned |
| `KeywordSearch.RankingComplete` | memory-bank/src/memory_bank/server.py:260-265 | with at most five positive memories, every one of them is returned |
| `MemoryBank.MemoryStore.constructor` | memory-bank/src/memory_bank/server.py:60-63 | a session starts with an empty read cache, in the given mode |
| `MemoryBank.IsUpdate` | memory-bank/src/memory_bank/server.py:146 | `if memory_id:` is Python truthiness of the id string |
| `MemoryBank.SituationOr` | memory-bank/src/memory_bank/server.py:211 | `situation or fallback`: the fallback when the situation is absent or empty, else the situation; non-empty when either is |
| `MemoryBank.MemoryStore.WriteMemory` | memory-bank/src/memory_bank/server.py:130-230 | the result and the new read cache are those of the write specification |
| `MemoryBank.MemoryStore.ReadIn` | memory-bank/src/memory_bank/server.py:325-343 | the search result is returned and every memory found with an id is cached |
| `MemoryBank.Write` | memory-bank/src/memory_bank/server.py:130-230 | a write succeeds exactly when it creates, or updates a cached memory in simulation or whose file still holds the cached content; success returns the updated or fresh id; only that id's cache entry may change |
| `MemoryBank.CacheFound` | memory-bank/src/memory_bank/server.py:341-343 | reading keeps every cached key; each cached memory is either kept from before or one of those found |
| `MemoryBank.UpdateNeedsRead` | memory-bank/src/memory_bank/server.py:149-150 | updating a memory this session has not read is refused, and the cache is unchanged |
| `MemoryBank.SimulatedUpdate` | memory-bank/src/memory_bank/server.py:152-162 | a simulated update rewrites only the cached copy: the new content, the creation time kept (or set to now), and the new situation or else the old one |
| `MemoryBank.ConcurrentChangeRefused` | memory-bank/src/memory_bank/server.py:176-184 | when the file's content differs from the cached copy, the update is refused with the current content, and the cache takes the file's version |
| `MemoryBank.RetryAfterRefusal` | memory-bank/src/memory_bank/server.py:176-201 | repeating a refused update then succeeds and stores the new content |
| `MemoryBank.UpdateWithoutFile` | memory-bank/src/memory_bank/server.py:164-175 | a missing or unreadable file refuses the update with its own error and leaves the cache unchanged |
| `MemoryBank.CreateCaches` | memory-bank/src/memory_bank/server.py:205-230 | a create returns the fresh id, caches exactly one new memory (content, situation or `[]`, timestamp) and keeps the rest |
| `MemoryBank.WriteThenUpdatable` | memory-bank/src/memory_bank/server.py:200-230 | after any successful write the memory is cached under its id with the written content |
| `MemoryBank.WriteKeepsCacheKeyed` | memory-bank/src/memory_bank/server.py:198-230 | the cache stays keyed by each memory's own id |
| `MemoryBank.CacheFoundHolds` | memory-bank/src/memory_bank/server.py:341-343 | reading caches every found memory with an id, adds exactly those keys and keeps the others |
| `MemoryBank.CacheFoundKeyed` | memory-bank/src/memory_bank/server.py:341-343 | reading keeps the cache keyed by each memory's own id |
| `DialecticRunner.ParseExpectedTools` | dialectic/dialectic.py:83-92 | the parsing loop keeps a string as a tool without rules and a dict as tool and parameters, skipping anything else, in order |
| `DialecticRunner.ToolSpec` | dialectic/dialectic.py:84-92 | a string or a dict gives an expectation, nothing else does; a string is the tool without rules; a dict without `tool` expects tool `None` |
| `DialecticRunner.StepSpec` | dialectic/dialectic.py:79-98 | a step parses exactly when it is a dict with `user` whose `expected_tools` (default `[]`) is iterable; the user message is `user`; the defaults are `{}` and no tools |
| `DialecticRunner.TestCaseSpec` | dialectic/dialectic.py:101-106 | a loaded case takes its name and description from the dict; missing tags are `[]` and a missing conversation is empty |
| `DialecticRunner.LoadTestCase` | dialectic/dialectic.py:72-106 | loading equals the test-case specification, raising on the same inputs |
| `DialecticRunner.LoadKeepsSteps` | dialectic/dialectic.py:76-106 | a load succeeds exactly when every step parses and the name and description are present; then each step is the parse of its item |
| `DialecticRunner.ToolSpecsPointwise` | dialectic/dialectic.py:84-92 | when every item is a string or dict, expectation `i` comes from item `i` |
| `DialecticRunner.ToolSpecsSkip` | dialectic/dialectic.py:84-92 | items that are neither strings nor dicts give no expectations |
| `DialecticRunner.ContainsEvery` | dialectic/dialectic.py:122-127 | the `should_contain` loop's verdict: every phrase occurs case-insensitively |
| `DialecticRunner.Mentions` | dialectic/dialectic.py:123 | a phrase is mentioned exactly when its lower-cased form occurs somewhere in the lower-cased text |
| `DialecticRunner.CheckRule` | dialectic/dialectic.py:115-146 | the rule check equals the specified verdict of one parameter rule |
| `DialecticRunner.RuleHolds` | dialectic/dialectic.py:115-146 | a bare rule is Python equality; a dict rule raises exactly when the value is a string and `should_contain` holds no iterable of strings; a passing dict rule means a string value under `should_contain` and equality under `should_be` |
| `DialecticRunner.Rules` | dialectic/dialectic.py:114-146 | the rules fail only when some rule, applied to its parameter or `None`, fails |
| `DialecticRunner.ParamsValid` | dialectic/dialectic.py:110-114 | falsy rules accept; truthy rules that are not a dict raise; a dict of rules is checked rule by rule |
| `DialecticRunner.ValidateToolParameters` | dialectic/dialectic.py:108-148 | parameter validation equals its specification |
| `DialecticRunner.RulesPointwise` | dialectic/dialectic.py:114-146 | the rules raise exactly when some rule raises, and pass exactly when every rule passes |
| `DialecticRunner.NoRulesAccept` | dialectic/dialectic.py:110-111 | no rules, or an empty rule dict, accepts any parameters |
| `DialecticRunner.StrVs` | dialectic/dialectic.py:123 | phrases as YAML strings, in order |
| `DialecticRunner.StringsOfList` | dialectic/dialectic.py:123 | a YAML list of strings reads back as those strings |
| `DialecticRunner.ShouldContainMeaning` | dialectic/dialectic.py:119-130 | a `should_contain` rule holds exactly when the value is a string mentioning every phrase |
| `DialecticRunner.BothChecksApply` | dialectic/dialectic.py:117-139 | with `should_contain` and `should_be` together, both must hold |
| `DialecticRunner.MissingParameterIsNone` | dialectic/dialectic.py:114-146 | a parameter missing from the call is compared as `None` |
| `DialecticRunner.ExactValueAccepted` | dialectic/dialectic.py:133-146 | a value matches itself, both as `should_be` and as a bare rule |
| `DialecticRunner.ShouldBeMeaning` | dialectic/dialectic.py:133-139 | a lone `should_be` rule holds exactly when the value equals the expected one |
| `DialecticRunner.FirstCall` | dialectic/dialectic.py:212 | a call is found exactly when the tool was called; it is the first call that names that tool |
| `DialecticRunner.SortToolsFail` | dialectic/dialectic.py:206-224 | once sorting raises, later expectations do not matter |
| `DialecticRunner.SortToolsPartition` | dialectic/dialectic.py:206-224 | found, invalid and missing together are exactly the expectations |
| `DialecticRunner.SortToolsVerdicts` | dialectic/dialectic.py:211-224 | each list holds only expectations with its verdict |
| `DialecticRunner.SortToolsComplete` | dialectic/dialectic.py:206-224 | sorting succeeds exactly when every verdict does, and then every expectation is filed under its verdict |
| `DialecticRunner.SortToolsClean` | dialectic/dialectic.py:206-224 | no invalid and no missing tools exactly when every expected tool was found valid |
| `DialecticRunner.FirstCallDecides` | dialectic/dialectic.py:211-218 | only the first call of a tool is validated: a valid later call does not rescue an invalid first one |
| `DialecticRunner.Judge` | dialectic/dialectic.py:206-224 | a tool is found exactly when it was called and either it has no rules or the first call naming it passes them; missing exactly when it was not called; raising or invalid parameters are those of the first call naming the tool |
| `DialecticRunner.SortTools` | dialectic/dialectic.py:206-224 | a successful sort files every expectation exactly once |
| `DialecticRunner.ExpectedNames` | dialectic/dialectic.py:197 | the expected tool names, in order |
| `DialecticRunner.CheckRequired` | dialectic/dialectic.py:180-186 | the found phrases and the missing ones are the required phrases that occur and that do not, in order |
| `DialecticRunner.CheckForbidden` | dialectic/dialectic.py:189-194 | the unexpected phrases are the forbidden phrases that occur, in order |
| `DialecticRunner.CheckExpectedTools` | dialectic/dialectic.py:206-224 | the expected-tools loop equals the specified sort of the expectations |
| `DialecticRunner.CheckUnexpectedTools` | dialectic/dialectic.py:227-230 | the unexpected calls are those whose tool is not expected, in order |
| `DialecticRunner.CheckStep` | dialectic/dialectic.py:171-248 | step validation equals its specification |
| `DialecticRunner.Validation` | dialectic/dialectic.py:171-248 | a validation needs a dict `expected_response`, records the reply's text and its length, and lists as unexpected only calls of the reply to tools not expected |
| `DialecticRunner.StepSuccessMeaning` | dialectic/dialectic.py:233-235 | a step passes exactly when every required phrase occurs, no forbidden one does, every expected tool is found with valid parameters, and every call names an expected tool |
| `DialecticRunner.Validations` | dialectic/dialectic.py:259-265 | one validation per step |
| `DialecticRunner.ValidationsAt` | dialectic/dialectic.py:259-265 | validation `i` checks step `i` against reply `i` |
| `DialecticRunner.CasePassesIffStepsPass` | dialectic/dialectic.py:259-274 | a test case passes exactly when every step validates and passes, and one result is recorded per step |
| `DialecticRunner.TagsPrintable` | dialectic/dialectic.py:255-256 | falsy tags print nothing; a list prints exactly when all its items are strings; truthy booleans and integers make the join raise |
| `DialecticRunner.CaseResults` | dialectic/dialectic.py:255-271 | no more step results than steps, and none when printing the tags raises |
| `DialecticRunner.CaseVerdict` | dialectic/dialectic.py:250-274 | a verdict is reached only with printable tags and one result per step |
| `DialecticRunner.RecordStep` | dialectic/dialectic.py:265-270 | recording one more step keeps "all passed so far" |
| `DialecticRunner.Runner.constructor` | dialectic/dialectic.py:68-70 | a runner starts with no results |
| `DialecticRunner.Runner.RunTestCase` | dialectic/dialectic.py:250-274 | the verdict is the case's specified verdict, and the step results are appended to the runner's results |
| `DialecticAuthorization.HandleCallTool` | dialectic/dialectic-authorization.py:66-107 | a call that is not `authorize` is refused as an unknown tool |
| `DialecticAuthorization.Authorize` | dialectic/dialectic-authorization.py:81-104 | denied as disallowed exactly when the tool is disallowed; denied as unexpected exactly when it is not disallowed, tools are expected and it is not among them; an allowed call keeps its input |
| `DialecticAuthorization.AllowedExactly` | dialectic/dialectic-authorization.py:81-104 | a tool is allowed exactly when it is not disallowed and either no tools are expected or it is expected; an allowed call keeps its input |
| `DialecticAuthorization.DisallowedWins` | dialectic/dialectic-authorization.py:81-87 | a tool both expected and disallowed is denied as disallowed |
| `DialecticAuthorization.DisallowingMoreDeniesMore` | dialectic/dialectic-authorization.py:81-87 | disallowing more tools never allows a denied call |
| `DialecticAuthorization.MissingArgumentsDefault` | dialectic/dialectic-authorization.py:71-76 | missing arguments mean an empty tool name and an empty input |
| `DialecticSampling.BuildMessages` | dialectic/src/dialectic/sampling.py:124-151 | one user text message, preceded by a reminder message exactly when there are reminders |
| `DialecticSampling.ReminderText` | dialectic/src/dialectic/sampling.py:132-137 | the reminder text starts with the opening tag and ends with the closing tag |
| `DialecticSampling.UserText` | dialectic/src/dialectic/sampling.py:142 | the user text is the base context, then `\n\nUser: `, then the scenario, with nothing else |
| `DialecticSampling.ReminderTextHoldsEach` | dialectic/src/dialectic/sampling.py:131-139 | the reminder message holds every reminder after its opening |
| `DialecticSampling.UserTextFrames` | dialectic/src/dialectic/sampling.py:142 | the user text starts with the base context and ends with the scenario |
| `DialecticSampling.BuildParams` | dialectic/src/dialectic/sampling.py:88-96 | the request carries the messages and the token limit, and a system prompt exactly when a non-empty one is given |
| `DialecticSampling.TextPart` | dialectic/src/dialectic/sampling.py:161-162 | a block contributes exactly when it is a dict of type `text`; one without `text` contributes `""` |
| `DialecticSampling.Concat` | dialectic/src/dialectic/sampling.py:163 | `"".join` succeeds exactly when every part is a string; one part joins to itself |
| `DialecticSampling.ConcatAppend` | dialectic/src/dialectic/sampling.py:159-166 | joining text parts distributes over concatenation, raising when either half raises |
| `DialecticSampling.ConcatRaises` | dialectic/src/dialectic/sampling.py:163 | a non-string text part raises |
| `DialecticSampling.ResponseText` | dialectic/src/dialectic/sampling.py:153-168 | list `content` gives the joined text of its text blocks, and only it can raise; string `content` is returned; a dict whose `content` is anything else, and any response without `content`, reads as its `str` |
| `DialecticSampling.ExtractResponseText` | dialectic/src/dialectic/sampling.py:153-168 | the extraction loop equals the specified response text |
| `DialecticSampling.BlocksTextConcat` | dialectic/src/dialectic/sampling.py:159-163 | the text of two block lists is the concatenation of their texts |
| `DialecticSampling.NonTextBlockSkipped` | dialectic/src/dialectic/sampling.py:161 | a block that is not of type text adds nothing, wherever it stands |
| `DialecticSampling.TextBlockContributes` | dialectic/src/dialectic/sampling.py:161-162 | a text block contributes its text, or `""` when it has none |
| `DialecticSampling.NonStringTextRaises` | dialectic/src/dialectic/sampling.py:162-163 | a text block whose text is not a string makes the extraction raise |
| `DialecticSampling.StringContentVerbatim` | dialectic/src/dialectic/sampling.py:164-165 | string content is returned verbatim |
| `DialecticSampling.EstimateTokenCount` | dialectic/src/dialectic/sampling.py:170-172 | the estimate is the length divided by four, rounded down |
| `DialecticSampling.TotalTokens` | dialectic/src/dialectic/sampling.py:51-53 | with no negative count the total is non-negative; with no counts at all it is 0 |
| `DialecticSampling.TotalTokensConcat` | dialectic/src/dialectic/sampling.py:51-53 | token totals add up over concatenation |
| `DialecticSampling.MissingCountAddsNothing` | dialectic/src/dialectic/sampling.py:51-53 | a response without a token count adds nothing to the total |
| `DialecticSampling.TokenCounts` | dialectic/src/dialectic/sampling.py:110 | one count per response |
| `DialecticSampling.TotalTokensEstimate` | dialectic/src/dialectic/sampling.py:51-53 | four times the total is within `4 n` below the total length of `n` responses |
| `DialecticSampling.ReadFileIfExists` | dialectic/src/dialectic/sampling.py:174-183 | an empty or missing path returns nothing; a non-empty path raises "file not found" when there is no file and a read error when the file cannot be read; otherwise it returns the file's text |
| `DialecticSampling.ReadSystemReminders` | dialectic/src/dialectic/sampling.py:185-192 | the reading loop equals the specified reminders |
| `DialecticSampling.Reminders` | dialectic/src/dialectic/sampling.py:185-192 | no more reminders than paths, and none empty |
| `DialecticSampling.ReadingNext` | dialectic/src/dialectic/sampling.py:188-191 | one more path raises, adds its non-empty content, or adds nothing |
| `DialecticSampling.ReadingStops` | dialectic/src/dialectic/sampling.py:188-191 | once a read raises, later paths do not matter |
| `DialecticSampling.RemindersMeaning` | dialectic/src/dialectic/sampling.py:185-192 | reading raises exactly when some path names a missing or unreadable file; otherwise the reminders are the non-empty contents, in path order |
| `DialecticSampling.RemindersFirstError` | dialectic/src/dialectic/sampling.py:185-192 | a failed read reports the error of the first path that is missing or unreadable |
| `DialecticSampling.RemindersAreContents` | dialectic/src/dialectic/sampling.py:190-191 | every reminder is the non-empty content of one of the files |
| `DialecticSampling.RemindersConcat` | dialectic/src/dialectic/sampling.py:188-192 | the reminders of two path lists come one after another |
| `DialecticSampling.Attribute` | dialectic/src/dialectic/sampling.py:32-33 | reading an attribute of a model instance raises `AttributeError` with its name exactly when it is not one of the instance's attributes, and otherwise gives its value |
| `DialecticSampling.PatternTestPathsMissing` | dialectic/src/dialectic/sampling.py:32-33 | on any `PatternTest`, reading `system_prompt_path` or `system_reminders_paths` raises `AttributeError` |
| `DialecticSampling.PatternInputs` | dialectic/src/dialectic/sampling.py:32-33 | with the two paths supplied as inputs, reading succeeds exactly when the prompt read and every reminder read succeed; a failed prompt read is the error reported; on success, the prompt's text and the non-empty reminders in path order |
| `StableSort.SortDescSortedPermutation` | journal-mcp-server/src/journal_server/search.py:46 | Python's `sort(key=..., reverse=True)` gives a non-increasing permutation of its input |
| `StableSort.SortDesc` | journal-mcp-server/src/journal_server/search.py:46 | the sort keeps the length and is a permutation of its input |
| `StableSort.SortDescStable` | memory-bank/src/memory_bank/server.py:264 | the sort is stable: elements with equal keys keep their input order |
| `StableSort.PrefixIsTop` | memory-bank/src/memory_bank/server.py:265 | an element cut off by truncating the sorted list scores no higher than any kept |
| `PySeq.Take` | journal-mcp-server/src/journal_server/search.py:48 | `s[:n]` keeps the first `n` items (Python semantics for negative `n`) |
| `PyText.JoinSplit` | journal-mcp-server/src/journal_server/storage.py:62 | joining the pieces of `split('/')` with `/` gives back the string |
| `PyValue.Get` | dialectic/dialectic.py:115 | `dict.get` finds a key exactly when it is bound, and returns the value of its first binding |
| `PyValue.Truthy` | dialectic/dialectic.py:111 | the falsy values are exactly `None`, `False`, `0`, `""`, `[]` and `{}` |
| `PyValue.Iter` | dialectic/dialectic.py:84 | `for` over a list yields its items, over a string its characters, over a dict its keys; `None`, booleans and integers raise |
| `PyValue.StringsIn` | dialectic/dialectic.py:122-123 | iterating strings works for a string or a dict; a list gives its strings exactly when every item is a string; `None`, booleans and integers raise |
| `PyValue.PyEq` | dialectic/dialectic.py:135 | equal values have the same kind among `None`, string, list and dict; booleans and integers are equal exactly when their numbers are |
| `Gather.Until` | dialectic/dialectic.py:79-99 | a loop that stops at the first raising item gathers at most one result per item, and one per item when none raises |
| `Gather.UntilPointwise` | dialectic/dialectic.py:79-99 | the loop completes exactly when no item raises, and then result `i` is item `i`'s |
| `Gather.FilterMap` | dialectic/dialectic.py:84-92 | a loop that appends for some items and skips others yields at most one result per item |
| `Gather.FilterMapMembers` | dialectic/dialectic.py:84-92 | a value is gathered exactly when some item yields it |
| `Gather.Keep` | dialectic/dialectic.py:180-194 | filtering yields at most the items, all with the requested outcome of the test |
| `Gather.KeepSplits` | dialectic/dialectic.py:180-186 | the items passing and the items failing the test are, together, exactly the items |

## Left out

- JSON file I/O in `JsonStorage` is not modelled: `json.load`, `json.dump`, the temporary file, `mkdir` and the I/O error paths (storage.py:22-28, 38-51). The file is a field holding an optional journal.
- The embedding model, numpy's dot product and norm, and `math.exp` are parameters of `JournalSearch.Embedder`, because they are floating-point foreign code. The zero-norm guard and the 0.1 floor are modelled.
- `datetime.utcnow()`, `uuid.uuid4()` and `datetime.now()` are parameters, because they are the clock and randomness.
- Markdown and emoji formatting of the responses is not modelled; the responses are structured values. The table-of-contents lines are modelled as text.
- The MCP plumbing (list_tools, call_tool dispatch and the stdio server, journal server.py:24-165) is not modelled, because it is framework code. Each handler is a method.
- Memory-bank filesystem probing (memory-bank server.py:66-127, 164-197, 220-226) is not modelled; its outcome is the `FileState` parameter. File writes are not modelled.
- `load_all_memories` adding the values of the read cache (memory-bank server.py:114) is not modelled. The memories searched are a parameter, so their order is whatever the caller gives.
- `memory['content']` is taken to be present, as that code indexes it directly.
- nltk's tokenizer, the Porter stemmer and `str.lower` are parameters (`KeywordSearch.TextOracle`), because they are library code over Unicode text.
- Logging and printing are not modelled.
- The Claude SDK query in `run_conversation_step` (dialectic.py:152-169) is not modelled; the reply to step `i` is the parameter `reply(i)`.
- `run_test_files`, `main`, the YAML parser and the command line of dialectic.py are not modelled, because they are I/O. `LoadTestCase` takes the parsed value.
- `test_pattern`'s `asyncio.gather`, its timing and `avg_response_time` are not modelled, because they are concurrency and clocks. The temperature is dropped from the modelled sampling parameters.
- `_sample_scenario`'s request to the client is not modelled, because it is the network.
- The Pydantic models are not modelled as classes; they appear as datatypes.
- JournalServer.ListPageWindow: states the 1-based numbering only for `0 <= offset < total`. For negative offsets, `JournalServer.ListNegativeOffset` states what the code does: numbers beyond the entry count.
- Python's `(now - ts).days` rounds toward minus infinity. `AgeDays` uses Dafny's division by a positive divisor, which rounds the same way.
- The search reads the clock once: `now` is one parameter of the whole search, whereas `_calculate_temporal_score` calls `datetime.utcnow()` again for every entry (search.py:127). Entries scored across a day boundary can therefore be one day older in the source than in the model.
- Similarities and scores are exact `real`s. Python's floating-point rounding in `(work_context_score + content_score) / 2 * temporal_score` (search.py:100) is not modelled.
- `PyValue.Value` has no floats, so a YAML `should_be: 1.0` and `1` are not compared. Its numbers are `bool` and `int`, compared the way Python compares them.
- Dict keys in `PyValue.Value` are strings only; YAML mappings with integer or boolean keys are not modelled.

## Findings

| source | as written | input that shows it | evidently intended | confidence | as-written member | corrected member |
|---|---|---|---|---|---|---|
| journal-mcp-server/src/journal_server/storage.py:87-93 | the running path gets a `/` only once it is non-empty, so an empty first segment is lost | `create_section("/a")` stores path `a` in the section at `["", "a"]`, while lookups and search use `/a` | the stored path is the segments joined by `/`, i.e. the path asked for | not executed | `JournalTree.PathAsWrittenLeadingSlash` | `JournalStorage.CreatedSectionPath` |
| dialectic/src/dialectic/sampling.py:32-33 | `test_pattern` reads `pattern_test.system_prompt_path` and `pattern_test.system_reminders_paths`, which the pydantic model `PatternTest` (dialectic/src/dialectic/models.py:11-25) does not declare | any `PatternTest`: its first statement raises `AttributeError`, so no scenario is ever sampled | `PatternTest` carries an optional system-prompt path and a list of reminder paths, and both are read before sampling | not executed | `DialecticSampling.PatternTestPathsMissing` | `DialecticSampling.PatternInputs` |
