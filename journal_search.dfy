/** `JournalSearcher`: a depth-first walk over the journal that scores every entry
    against the two queries, keeps the scores at or above the salience threshold,
    sorts them stably by combined score (highest first) and truncates.

    The sentence-embedding model, numpy's dot product and norm and the exponential
    half-life decay are floating-point or foreign code; they are the fields of an
    `Embedder` and are left uninterpreted. What is modelled is the zero-norm guard,
    the 0.1 floor, the combination of the scores, the traversal order, the filter,
    the sort and the truncation. */
module JournalSearch {
  import opened Wrappers
  import opened JournalTypes
  import opened JournalTree
  import PyText
  import PySeq
  import StableSort

  /** The numeric oracles: `model.encode`, `np.dot`, `np.linalg.norm`, and
      `exp(-days * log 2 / 30)` for a whole number of days. */
  datatype Embedder = Embedder(
    encode: string -> seq<real>,
    dot: (seq<real>, seq<real>) -> real,
    norm: seq<real> -> real,
    decay: int -> real)

  /** The two query embeddings, computed once per search. */
  datatype Query = Query(workContext: seq<real>, content: seq<real>)

  /** `timedelta` keeps microseconds, and a day holds this many. */
  const MicrosecondsPerDay: int := 86_400_000_000
  const TemporalFloor: real := 0.1

  /** `_cosine_similarity` */
  function Cosine(m: Embedder, a: seq<real>, b: seq<real>): (r: real)
    ensures m.norm(a) == 0.0 || m.norm(b) == 0.0 ==> r == 0.0
    ensures m.norm(a) != 0.0 && m.norm(b) != 0.0 ==> r == m.dot(a, b) / (m.norm(a) * m.norm(b))
  {
    if m.norm(a) == 0.0 || m.norm(b) == 0.0 then 0.0 else m.dot(a, b) / (m.norm(a) * m.norm(b))
  }

  /** `(now - timestamp).days`: whole days, rounded down (`timedelta` normalises
      to a non-negative seconds-and-microseconds part, so a future timestamp gives
      a negative day count). */
  function AgeDays(now: Instant, timestamp: Instant): (r: int)
    ensures MicrosecondsPerDay * r <= now - timestamp < MicrosecondsPerDay * (r + 1)
  {
    (now - timestamp) / MicrosecondsPerDay
  }

  /** `_calculate_temporal_score`: the decay, but never below 0.1. */
  function TemporalScore(m: Embedder, now: Instant, timestamp: Instant): (r: real)
    ensures r >= TemporalFloor
    ensures r == TemporalFloor || r == m.decay(AgeDays(now, timestamp))
    ensures m.decay(AgeDays(now, timestamp)) >= TemporalFloor ==> r == m.decay(AgeDays(now, timestamp))
  {
    var decay := m.decay(AgeDays(now, timestamp));
    if TemporalFloor >= decay then TemporalFloor else decay
  }

  /** `_score_entry` */
  function ScoreEntry(m: Embedder, q: Query, now: Instant, sectionPath: string, index: int, e: Entry): (r: SearchResult)
    ensures r.sectionPath == sectionPath && r.entryIndex == index && r.entry == e
    ensures r.workContextScore == Cosine(m, q.workContext, m.encode(e.workContext))
    ensures r.contentScore == Cosine(m, q.content, m.encode(e.content))
    ensures r.temporalScore == TemporalScore(m, now, e.timestamp) && r.temporalScore >= TemporalFloor
    ensures r.combinedScore == (r.workContextScore + r.contentScore) / 2.0 * r.temporalScore
  {
    var wc := Cosine(m, q.workContext, m.encode(e.workContext));
    var c := Cosine(m, q.content, m.encode(e.content));
    var t := TemporalScore(m, now, e.timestamp);
    SearchResult(sectionPath, index, e, wc, c, (wc + c) / 2.0 * t, t)
  }

  /** The scores of one section's entries, in index order. */
  function EntryScores(m: Embedder, q: Query, now: Instant, sectionPath: string, entries: seq<Entry>): (r: seq<SearchResult>)
    ensures |r| == |entries|
    ensures forall i :: 0 <= i < |r| ==> r[i] == ScoreEntry(m, q, now, sectionPath, i, entries[i])
  {
    seq(|entries|, i requires 0 <= i < |entries| => ScoreEntry(m, q, now, sectionPath, i, entries[i]))
  }

  /** Every scored entry below the mapping `d`, in the order the search visits
      them: each section in mapping order, its own entries first, then its
      subsections, depth first. `above` holds the segments above `d`, and a
      section's path is its segments joined by `/`. */
  function Candidates(m: Embedder, q: Query, now: Instant, d: seq<Named>, above: seq<string>): (r: seq<SearchResult>)
    ensures |r| == EntryCount(d)
    decreases d
  {
    if d == [] then []
    else
      var parts := above + [d[0].name];
      EntryScores(m, q, now, PyText.Join("/", parts), d[0].section.entries)
      + Candidates(m, q, now, d[0].section.subsections, parts)
      + Candidates(m, q, now, d[1..], above)
  }

  /** How many entries the sections below `d` hold, at every depth. */
  function EntryCount(d: seq<Named>): (r: nat)
    ensures forall i :: 0 <= i < |d| ==> |d[i].section.entries| + EntryCount(d[i].section.subsections) <= r
    decreases d
  {
    if d == [] then 0
    else |d[0].section.entries| + EntryCount(d[0].section.subsections) + EntryCount(d[1..])
  }

  /** What visiting one section contributes. */
  function SectionCandidates(m: Embedder, q: Query, now: Instant, s: Section, parts: seq<string>): (r: seq<SearchResult>)
    ensures |r| == |s.entries| + EntryCount(s.subsections)
    ensures forall i :: 0 <= i < |s.entries| ==> r[i] == ScoreEntry(m, q, now, PyText.Join("/", parts), i, s.entries[i])
  {
    EntryScores(m, q, now, PyText.Join("/", parts), s.entries) + Candidates(m, q, now, s.subsections, parts)
  }

  /** The results whose combined score reaches the threshold, in order. */
  function AtLeast(rs: seq<SearchResult>, threshold: real): (r: seq<SearchResult>)
    ensures |r| <= |rs|
  {
    if rs == [] then []
    else (if rs[0].combinedScore >= threshold then [rs[0]] else []) + AtLeast(rs[1..], threshold)
  }

  /** The hits are exactly the candidates that reach the threshold. */
  lemma {:induction false} AtLeastMembers(rs: seq<SearchResult>, threshold: real, x: SearchResult)
    ensures x in AtLeast(rs, threshold) <==> x in rs && x.combinedScore >= threshold
  {
    if rs != [] {
      AtLeastMembers(rs[1..], threshold, x);
      assert rs == [rs[0]] + rs[1..];
    }
  }

  /** The sort key `lambda r: r.combined_score`. */
  function CombinedScore(r: SearchResult): real
  {
    r.combinedScore
  }

  /** The key the results are sorted by is the mean of the two similarities scaled
      by the temporal score. */
  lemma SortKeyIsCombinedScore(m: Embedder, q: Query, now: Instant, sectionPath: string, index: int, e: Entry)
    ensures var r := ScoreEntry(m, q, now, sectionPath, index, e);
            CombinedScore(r) == (r.workContextScore + r.contentScore) / 2.0 * r.temporalScore
  {
  }

  /** `search`: filter during the walk, sort by combined score descending (stable),
      keep the first `max_results` (a Python slice, so a negative bound drops
      results from the end). */
  function SearchResults(m: Embedder, q: Query, now: Instant, j: Journal, threshold: real, maxResults: int): (r: seq<SearchResult>)
    ensures |r| <= EntryCount(j.sections)
    ensures maxResults >= 0 ==> |r| <= maxResults
  {
    PySeq.Take(StableSort.SortDesc(AtLeast(Candidates(m, q, now, j.sections, []), threshold), CombinedScore), maxResults)
  }

  lemma {:induction false} AtLeastConcat(a: seq<SearchResult>, b: seq<SearchResult>, threshold: real)
    ensures AtLeast(a + b, threshold) == AtLeast(a, threshold) + AtLeast(b, threshold)
  {
    if a == [] {
      assert a + b == b;
    } else {
      var head := if a[0].combinedScore >= threshold then [a[0]] else [];
      assert (a + b)[0] == a[0];
      assert (a + b)[1..] == a[1..] + b;
      AtLeastConcat(a[1..], b, threshold);
      assert AtLeast(a + b, threshold) == head + (AtLeast(a[1..], threshold) + AtLeast(b, threshold));
      assert AtLeast(a, threshold) == head + AtLeast(a[1..], threshold);
    }
  }

  /** Filtering one more element keeps it exactly when it reaches the threshold. */
  lemma AtLeastSnoc(rs: seq<SearchResult>, i: nat, threshold: real)
    requires i < |rs|
    ensures AtLeast(rs[..i + 1], threshold)
            == AtLeast(rs[..i], threshold) + if rs[i].combinedScore >= threshold then [rs[i]] else []
  {
    assert rs[..i + 1] == rs[..i] + [rs[i]];
    AtLeastConcat(rs[..i], [rs[i]], threshold);
    assert [rs[i]][1..] == [];
  }

  /** Visiting a mapping is visiting its first part, then its second. */
  lemma {:induction false} CandidatesConcat(m: Embedder, q: Query, now: Instant, a: seq<Named>, b: seq<Named>, above: seq<string>)
    ensures Candidates(m, q, now, a + b, above) == Candidates(m, q, now, a, above) + Candidates(m, q, now, b, above)
  {
    if a == [] {
      PySeq.EmptyFront(b);
    } else {
      var head := SectionCandidates(m, q, now, a[0].section, above + [a[0].name]);
      assert (a + b)[0] == a[0];
      assert (a + b)[1..] == a[1..] + b;
      assert Candidates(m, q, now, a + b, above) == head + Candidates(m, q, now, a[1..] + b, above);
      CandidatesConcat(m, q, now, a[1..], b, above);
      PySeq.Associate(head, Candidates(m, q, now, a[1..], above), Candidates(m, q, now, b, above));
    }
  }

  /** The prefix of a mapping one element longer adds that element's section. */
  lemma CandidatesSnoc(m: Embedder, q: Query, now: Instant, d: seq<Named>, i: nat, above: seq<string>)
    requires i < |d|
    ensures Candidates(m, q, now, d[..i + 1], above)
            == Candidates(m, q, now, d[..i], above) + SectionCandidates(m, q, now, d[i].section, above + [d[i].name])
  {
    assert d[..i + 1] == d[..i] + [d[i]];
    CandidatesConcat(m, q, now, d[..i], [d[i]], above);
    assert [d[i]][1..] == [];
  }

  /** One turn of a loop over a mapping: appending what the `i`-th section
      contributes extends the hits of the first `i` sections to the first `i + 1`. */
  lemma VisitStep(m: Embedder, q: Query, now: Instant, d: seq<Named>, i: nat, above: seq<string>,
                  threshold: real, own: seq<SearchResult>, prev: seq<SearchResult>, next: seq<SearchResult>)
    requires i < |d|
    requires prev == own + AtLeast(Candidates(m, q, now, d[..i], above), threshold)
    requires next == prev + AtLeast(SectionCandidates(m, q, now, d[i].section, above + [d[i].name]), threshold)
    ensures next == own + AtLeast(Candidates(m, q, now, d[..i + 1], above), threshold)
  {
    CandidatesSnoc(m, q, now, d, i, above);
    AtLeastConcat(Candidates(m, q, now, d[..i], above),
                  SectionCandidates(m, q, now, d[i].section, above + [d[i].name]), threshold);
  }

  /** The two loops of `_search_section` together append the section's hits. */
  lemma SectionDone(m: Embedder, q: Query, now: Instant, s: Section, parts: seq<string>, threshold: real,
                    results: seq<SearchResult>, own: seq<SearchResult>, out: seq<SearchResult>)
    requires own == results + AtLeast(EntryScores(m, q, now, PyText.Join("/", parts), s.entries), threshold)
    requires out == own + AtLeast(Candidates(m, q, now, s.subsections[..|s.subsections|], parts), threshold)
    ensures out == results + AtLeast(SectionCandidates(m, q, now, s, parts), threshold)
  {
    assert s.subsections[..|s.subsections|] == s.subsections;
    AtLeastConcat(EntryScores(m, q, now, PyText.Join("/", parts), s.entries), Candidates(m, q, now, s.subsections, parts), threshold);
  }

  /** `_search_section`: append the entries of `s` that reach the threshold, then
      recurse into each subsection with the path extended by `/` and its name. */
  method SearchSection(m: Embedder, q: Query, now: Instant, s: Section, sectionPath: string,
                       ghost parts: seq<string>, threshold: real, results: seq<SearchResult>)
    returns (out: seq<SearchResult>)
    requires sectionPath == PyText.Join("/", parts) && parts != []
    ensures out == results + AtLeast(SectionCandidates(m, q, now, s, parts), threshold)
    decreases s
  {
    out := results;
    ghost var scored := EntryScores(m, q, now, sectionPath, s.entries);
    for i := 0 to |s.entries|
      invariant out == results + AtLeast(scored[..i], threshold)
    {
      var result := ScoreEntry(m, q, now, sectionPath, i, s.entries[i]);
      AtLeastSnoc(scored, i, threshold);
      if result.combinedScore >= threshold {
        out := out + [result];
      }
    }
    assert scored[..|s.entries|] == scored;
    ghost var own := out;
    for i := 0 to |s.subsections|
      invariant out == own + AtLeast(Candidates(m, q, now, s.subsections[..i], parts), threshold)
    {
      var sub := s.subsections[i];
      PyText.JoinSnoc("/", parts, sub.name);
      ghost var prev := out;
      out := SearchSection(m, q, now, sub.section, sectionPath + "/" + sub.name, parts + [sub.name], threshold, out);
      VisitStep(m, q, now, s.subsections, i, parts, threshold, own, prev, out);
    }
    SectionDone(m, q, now, s, parts, threshold, results, own, out);
  }

  /** `search` */
  method Search(m: Embedder, j: Journal, workContext: string, content: string, now: Instant,
                threshold: real, maxResults: int)
    returns (results: seq<SearchResult>)
    ensures results == SearchResults(m, Query(m.encode(workContext), m.encode(content)), now, j, threshold, maxResults)
  {
    var q := Query(m.encode(workContext), m.encode(content));
    var found: seq<SearchResult> := [];
    for i := 0 to |j.sections|
      invariant found == [] + AtLeast(Candidates(m, q, now, j.sections[..i], []), threshold)
    {
      var root := j.sections[i];
      assert [] + [root.name] == [root.name];
      PyText.JoinSnoc("/", [], root.name);
      ghost var prev := found;
      found := SearchSection(m, q, now, root.section, root.name, [root.name], threshold, found);
      VisitStep(m, q, now, j.sections, i, [], threshold, [], prev, found);
    }
    assert j.sections[..|j.sections|] == j.sections;
    assert found == AtLeast(Candidates(m, q, now, j.sections, []), threshold);
    var sorted := StableSort.SortDesc(found, CombinedScore);
    results := PySeq.Take(sorted, maxResults);
  }

  // ----- properties of the search -----

  /** Every result reaches the salience threshold. */
  lemma ResultsReachThreshold(m: Embedder, q: Query, now: Instant, j: Journal, threshold: real, maxResults: int)
    ensures forall r :: r in SearchResults(m, q, now, j, threshold, maxResults) ==> r.combinedScore >= threshold
  {
    var hits := AtLeast(Candidates(m, q, now, j.sections, []), threshold);
    forall r | r in SearchResults(m, q, now, j, threshold, maxResults) ensures r.combinedScore >= threshold {
      StableSort.SortDescMembers(hits, CombinedScore, r);
      AtLeastMembers(Candidates(m, q, now, j.sections, []), threshold, r);
    }
  }

  /** At most `max_results` results; none when `max_results` is 0 or the journal is empty. */
  lemma ResultsBounded(m: Embedder, q: Query, now: Instant, j: Journal, threshold: real, maxResults: int)
    ensures maxResults >= 0 ==> |SearchResults(m, q, now, j, threshold, maxResults)| <= maxResults
    ensures maxResults == 0 ==> SearchResults(m, q, now, j, threshold, maxResults) == []
    ensures j.sections == [] ==> SearchResults(m, q, now, j, threshold, maxResults) == []
  {
  }

  /** Results come in non-increasing combined score, and results with equal scores
      keep the order of the walk: they are the first results of a stable sort of
      all hits. */
  lemma ResultsSortedStable(m: Embedder, q: Query, now: Instant, j: Journal, threshold: real, maxResults: int)
    ensures StableSort.SortedDesc(SearchResults(m, q, now, j, threshold, maxResults), CombinedScore)
    ensures forall k :: StableSort.WithKey(StableSort.SortDesc(AtLeast(Candidates(m, q, now, j.sections, []), threshold), CombinedScore), CombinedScore, k)
                        == StableSort.WithKey(AtLeast(Candidates(m, q, now, j.sections, []), threshold), CombinedScore, k)
    ensures SearchResults(m, q, now, j, threshold, maxResults)
            <= StableSort.SortDesc(AtLeast(Candidates(m, q, now, j.sections, []), threshold), CombinedScore)
  {
    var hits := AtLeast(Candidates(m, q, now, j.sections, []), threshold);
    var sorted := StableSort.SortDesc(hits, CombinedScore);
    StableSort.SortDescSortedPermutation(hits, CombinedScore);
    forall k ensures StableSort.WithKey(sorted, CombinedScore, k) == StableSort.WithKey(hits, CombinedScore, k) {
      StableSort.SortDescStable(hits, CombinedScore, k);
    }
    var r := SearchResults(m, q, now, j, threshold, maxResults);
    assert r == sorted[..|r|];
  }

  /** Raising the threshold never yields more hits. */
  lemma {:induction false} AtLeastAntitone(rs: seq<SearchResult>, low: real, high: real)
    requires low <= high
    ensures |AtLeast(rs, high)| <= |AtLeast(rs, low)|
  {
    if rs != [] {
      AtLeastAntitone(rs[1..], low, high);
    }
  }

  /** The entry at index `i` of the section at segments `parts` below `d`. */
  predicate LocatedAt(d: seq<Named>, above: seq<string>, r: SearchResult, parts: seq<string>)
  {
    Find(d, parts).Some?
    && r.sectionPath == PyText.Join("/", above + parts)
    && 0 <= r.entryIndex < |Find(d, parts).value.entries|
    && r.entry == Find(d, parts).value.entries[r.entryIndex]
  }

  /** Every candidate is an entry of the journal, reported with the path of its
      section and its position in that section's entry list. */
  lemma {:induction false} CandidatesLocated(m: Embedder, q: Query, now: Instant, d: seq<Named>, above: seq<string>, r: SearchResult)
    requires Keyed(d) && r in Candidates(m, q, now, d, above)
    ensures exists parts :: LocatedAt(d, above, r, parts)
    decreases d
  {
    var x := d[0];
    var parts := above + [x.name];
    var own := EntryScores(m, q, now, PyText.Join("/", parts), x.section.entries);
    var below := Candidates(m, q, now, x.section.subsections, parts);
    if r in own {
      var i :| 0 <= i < |own| && own[i] == r;
      LocatedHere(d, above, r);
    } else if r in below {
      LookupKeyed(d, x.name);
      CandidatesLocated(m, q, now, x.section.subsections, parts, r);
      var sub :| LocatedAt(x.section.subsections, parts, r, sub);
      LocatedBelow(d, above, r, sub);
    } else {
      KeyedTail(d);
      CandidatesLocated(m, q, now, d[1..], above, r);
      var p :| LocatedAt(d[1..], above, r, p);
      LocatedLater(d, above, r, p);
    }
  }

  lemma LocatedHere(d: seq<Named>, above: seq<string>, r: SearchResult)
    requires d != [] && r.sectionPath == PyText.Join("/", above + [d[0].name])
    requires 0 <= r.entryIndex < |d[0].section.entries| && r.entry == d[0].section.entries[r.entryIndex]
    ensures LocatedAt(d, above, r, [d[0].name])
  {
    assert Lookup(d, d[0].name) == Some(d[0].section);
  }

  lemma LocatedBelow(d: seq<Named>, above: seq<string>, r: SearchResult, sub: seq<string>)
    requires d != [] && LocatedAt(d[0].section.subsections, above + [d[0].name], r, sub)
    ensures LocatedAt(d, above, r, [d[0].name] + sub)
  {
    var x := d[0];
    assert Lookup(d, x.name) == Some(x.section);
    assert ([x.name] + sub)[0] == x.name && ([x.name] + sub)[1..] == sub;
    assert above + [x.name] + sub == above + ([x.name] + sub);
  }

  lemma LocatedLater(d: seq<Named>, above: seq<string>, r: SearchResult, p: seq<string>)
    requires d != [] && Keyed(d) && LocatedAt(d[1..], above, r, p)
    ensures LocatedAt(d, above, r, p)
  {
    assert Lookup(d[1..], p[0]).Some?;
    HeadNotLater(d, p[0]);
    assert Find(d, p) == Find(d[1..], p);
  }

  /** In a level whose names are distinct, a name found after the head is not the head's. */
  lemma HeadNotLater(d: seq<Named>, name: string)
    requires d != [] && Distinct(Names(d)) && name in Names(d[1..])
    ensures d[0].name != name
  {
    var j :| 0 <= j < |d| - 1 && Names(d[1..])[j] == name;
    assert Names(d)[j + 1] == name && Names(d)[0] == d[0].name;
  }

  /** Everything the `k`-th section of a mapping contributes is visited. */
  lemma CandidatesInclude(m: Embedder, q: Query, now: Instant, d: seq<Named>, k: nat, above: seq<string>, x: SearchResult)
    requires k < |d| && x in SectionCandidates(m, q, now, d[k].section, above + [d[k].name])
    ensures x in Candidates(m, q, now, d, above)
  {
    assert d == d[..k] + d[k..];
    CandidatesConcat(m, q, now, d[..k], d[k..], above);
    assert d[k..][0] == d[k];
  }

  /** Every entry of every section reachable by a path is scored by the walk, under
      that path and its index in the section. */
  lemma {:induction false} CandidatesComplete(m: Embedder, q: Query, now: Instant, d: seq<Named>, above: seq<string>,
                                               parts: seq<string>, i: int)
    requires Find(d, parts).Some? && 0 <= i < |Find(d, parts).value.entries|
    ensures ScoreEntry(m, q, now, PyText.Join("/", above + parts), i, Find(d, parts).value.entries[i])
            in Candidates(m, q, now, d, above)
    decreases |parts|
  {
    var x := parts[0];
    var s := Lookup(d, x).value;
    var k :| 0 <= k < |d| && d[k] == Named(x, s);
    if |parts| == 1 {
      assert above + parts == above + [x];
      var r := ScoreEntry(m, q, now, PyText.Join("/", above + [x]), i, s.entries[i]);
      assert EntryScores(m, q, now, PyText.Join("/", above + [x]), s.entries)[i] == r;
      CandidatesInclude(m, q, now, d, k, above, r);
    } else {
      ShiftHead(above, parts);
      CandidatesComplete(m, q, now, s.subsections, above + [x], parts[1..], i);
      CandidatesInclude(m, q, now, d, k, above,
        ScoreEntry(m, q, now, PyText.Join("/", above + parts), i, Find(d, parts).value.entries[i]));
    }
  }

  /** Every reachable entry whose combined score reaches the threshold is among
      the ranked hits, of which the results are the first `max_results`. */
  lemma HitsComplete(m: Embedder, q: Query, now: Instant, j: Journal, threshold: real, parts: seq<string>, i: int)
    requires Find(j.sections, parts).Some? && 0 <= i < |Find(j.sections, parts).value.entries|
    requires ScoreEntry(m, q, now, PyText.Join("/", parts), i, Find(j.sections, parts).value.entries[i]).combinedScore >= threshold
    ensures ScoreEntry(m, q, now, PyText.Join("/", parts), i, Find(j.sections, parts).value.entries[i])
            in StableSort.SortDesc(AtLeast(Candidates(m, q, now, j.sections, []), threshold), CombinedScore)
  {
    var r := ScoreEntry(m, q, now, PyText.Join("/", parts), i, Find(j.sections, parts).value.entries[i]);
    assert [] + parts == parts;
    CandidatesComplete(m, q, now, j.sections, [], parts, i);
    AtLeastMembers(Candidates(m, q, now, j.sections, []), threshold, r);
    StableSort.SortDescMembers(AtLeast(Candidates(m, q, now, j.sections, []), threshold), CombinedScore, r);
  }

  /** Whole-day age only grows as a timestamp moves into the past. */
  lemma AgeDaysAntitone(now: Instant, older: Instant, newer: Instant)
    requires older <= newer
    ensures AgeDays(now, older) >= AgeDays(now, newer)
  {
    var a, b := now - newer, now - older;
    var qa, qb := a / MicrosecondsPerDay, b / MicrosecondsPerDay;
    assert a == MicrosecondsPerDay * qa + a % MicrosecondsPerDay;
    assert b == MicrosecondsPerDay * qb + b % MicrosecondsPerDay;
  }

  /** If the decay never increases with age, neither does the temporal score: an
      older entry never scores higher than a newer one. */
  lemma TemporalAntitone(m: Embedder, now: Instant, older: Instant, newer: Instant)
    requires forall a: int, b: int :: a <= b ==> m.decay(a) >= m.decay(b)
    requires older <= newer
    ensures TemporalScore(m, now, older) <= TemporalScore(m, now, newer)
  {
    AgeDaysAntitone(now, older, newer);
  }
}
