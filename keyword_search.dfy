/** `search_memories`, the keyword ranking shared line for line by the memory-bank
    server and the socratic-shell server: the query and the situation phrases are
    stemmed, every memory is scored by how many search stems occur among the stems
    of its situation (counted twice) and of its content, memories scoring nothing
    are dropped, and the five best are returned, ties in input order.

    Lower-casing, nltk's `word_tokenize` and the Porter stemmer are foreign text
    processing; they are the fields of a `TextOracle` and are left uninterpreted. */
module KeywordSearch {
  import opened Wrappers
  import PyText
  import PySeq
  import StableSort

  /** A memory record as its JSON file and the read cache hold it: the `id`, the
      `content`, the `situation` phrases and `created_at` keys, each of the
      optional ones absent or present. */
  datatype Memory = Memory(id: Option<string>, content: string, situation: Option<seq<string>>, createdAt: Option<string>)

  /** `str.lower`, `nltk.word_tokenize` and `PorterStemmer().stem`. */
  datatype TextOracle = TextOracle(lower: string -> string, tokenize: string -> seq<string>, stem: string -> string)

  /** `[stemmer.stem(w) for w in nltk.word_tokenize(text.lower())]` */
  function Stems(o: TextOracle, text: string): (r: seq<string>)
    ensures |r| == |o.tokenize(o.lower(text))|
    ensures forall i :: 0 <= i < |r| ==> r[i] == o.stem(o.tokenize(o.lower(text))[i])
  {
    var words := o.tokenize(o.lower(text));
    seq(|words|, i requires 0 <= i < |words| => o.stem(words[i]))
  }

  /** `sum(1 for stem in stems if stem in other)`: a repeated search stem counts
      each time it occurs. */
  function Matches(stems: seq<string>, other: seq<string>): (r: nat)
    ensures r <= |stems|
  {
    if stems == [] then 0 else (if stems[0] in other then 1 else 0) + Matches(stems[1..], other)
  }

  lemma {:induction false} MatchesConcat(a: seq<string>, b: seq<string>, other: seq<string>)
    ensures Matches(a + b, other) == Matches(a, other) + Matches(b, other)
  {
    if a == [] {
      assert a + b == b;
    } else {
      assert (a + b)[0] == a[0];
      assert (a + b)[1..] == a[1..] + b;
      MatchesConcat(a[1..], b, other);
    }
  }

  /** The count is zero exactly when no search stem occurs in `other`, and is the
      number of search stems exactly when every one does. */
  lemma {:induction false} MatchesExtremes(stems: seq<string>, other: seq<string>)
    ensures Matches(stems, other) == 0 <==> forall i :: 0 <= i < |stems| ==> stems[i] !in other
    ensures Matches(stems, other) == |stems| <==> forall i :: 0 <= i < |stems| ==> stems[i] in other
  {
    if stems != [] {
      MatchesExtremes(stems[1..], other);
      assert forall i :: 1 <= i < |stems| ==> stems[i] == stems[1..][i - 1];
    }
  }

  /** Repeating the search words doubles every count. */
  lemma RepeatedStemsCountTwice(stems: seq<string>, other: seq<string>)
    ensures Matches(stems + stems, other) == 2 * Matches(stems, other)
  {
    MatchesConcat(stems, stems, other);
  }

  /** The text that is tokenised: the query unless it is blank, then a space and
      the situation phrases joined by spaces when there are any. */
  function SearchText(query: string, situation: Option<seq<string>>): (r: string)
    ensures !PyText.IsBlank(query) ==> PyText.IsPrefix(query, r)
    ensures PyText.IsBlank(query) && (situation.None? || situation.value == []) ==> r == ""
    ensures situation.Some? && situation.value != [] ==>
      var tail := " " + PyText.Join(" ", situation.value);
      |tail| <= |r| && r[|r| - |tail|..] == tail
  {
    (if !PyText.IsBlank(query) then query else "")
    + (if situation.Some? && situation.value != [] then " " + PyText.Join(" ", situation.value) else "")
  }

  /** A memory with its score. */
  datatype Scored = Scored(memory: Memory, score: int)

  /** `situation_matches * 2 + content_matches`, the situation being the phrases
      joined by spaces (none when the key is absent). */
  function Score(o: TextOracle, stems: seq<string>, m: Memory): (r: int)
    ensures 0 <= r <= 3 * |stems|
  {
    2 * Matches(stems, Stems(o, PyText.Join(" ", m.situation.GetOr([])))) + Matches(stems, Stems(o, m.content))
  }

  /** A memory scores something exactly when some search stem occurs among the
      stems of its situation or of its content. */
  lemma ScorePositive(o: TextOracle, stems: seq<string>, m: Memory)
    ensures Score(o, stems, m) > 0 <==>
            exists i :: 0 <= i < |stems| && (stems[i] in Stems(o, PyText.Join(" ", m.situation.GetOr([])))
                                             || stems[i] in Stems(o, m.content))
  {
    MatchesExtremes(stems, Stems(o, PyText.Join(" ", m.situation.GetOr([]))));
    MatchesExtremes(stems, Stems(o, m.content));
  }

  /** The memories that score something, with their scores, in input order. */
  function Positive(o: TextOracle, stems: seq<string>, ms: seq<Memory>): (r: seq<Scored>)
    ensures |r| <= |ms|
  {
    if ms == [] then []
    else
      var last := ms[|ms| - 1];
      Positive(o, stems, ms[..|ms| - 1]) + (if Score(o, stems, last) > 0 then [Scored(last, Score(o, stems, last))] else [])
  }

  /** One more memory of the loop of `search_memories`. */
  lemma PositiveNext(o: TextOracle, stems: seq<string>, ms: seq<Memory>, i: nat)
    requires i < |ms|
    ensures Positive(o, stems, ms[..i + 1])
            == Positive(o, stems, ms[..i]) + (if Score(o, stems, ms[i]) > 0 then [Scored(ms[i], Score(o, stems, ms[i]))] else [])
  {
    assert ms[..i + 1][..i] == ms[..i];
  }

  /** The scored list holds exactly the memories that score something. */
  lemma {:induction false} PositiveMembers(o: TextOracle, stems: seq<string>, ms: seq<Memory>, x: Scored)
    ensures x in Positive(o, stems, ms) <==> x.memory in ms && x.score == Score(o, stems, x.memory) && x.score > 0
  {
    if ms != [] {
      var init, last := ms[..|ms| - 1], ms[|ms| - 1];
      PositiveMembers(o, stems, init, x);
      assert ms == init + [last];
    }
  }

  function ScoreKey(x: Scored): real
  {
    x.score as real
  }

  /** How many memories a search returns at most. */
  const MaxMemories: nat := 5

  /** The ranked, truncated scored memories of a search. */
  function Ranking(o: TextOracle, query: string, situation: Option<seq<string>>, ms: seq<Memory>): (r: seq<Scored>)
    ensures |r| <= MaxMemories && |r| <= |ms|
    ensures PyText.IsBlank(SearchText(query, situation)) ==> r == []
  {
    var text := SearchText(query, situation);
    if PyText.IsBlank(text) then []
    else PySeq.Take(StableSort.SortDesc(Positive(o, Stems(o, text), ms), ScoreKey), MaxMemories)
  }

  function Memories(rs: seq<Scored>): (r: seq<Memory>)
    ensures |r| == |rs|
    ensures forall i :: 0 <= i < |rs| ==> r[i] == rs[i].memory
  {
    seq(|rs|, i requires 0 <= i < |rs| => rs[i].memory)
  }

  /** What `search_memories` returns. */
  function SearchResults(o: TextOracle, query: string, situation: Option<seq<string>>, ms: seq<Memory>): seq<Memory>
  {
    Memories(Ranking(o, query, situation, ms))
  }

  /** `search_memories` */
  method SearchMemories(o: TextOracle, query: string, situation: Option<seq<string>>, memories: seq<Memory>)
    returns (found: seq<Memory>)
    ensures found == SearchResults(o, query, situation, memories)
  {
    var searchText := if !PyText.IsBlank(query) then query else "";
    if situation.Some? && situation.value != [] {
      searchText := searchText + " " + PyText.Join(" ", situation.value);
    }
    assert searchText == SearchText(query, situation);
    if PyText.IsBlank(searchText) {
      return [];
    }
    var searchStems := Stems(o, searchText);
    var results: seq<Scored> := [];
    for i := 0 to |memories|
      invariant results == Positive(o, searchStems, memories[..i])
    {
      var memory := memories[i];
      var situationStems := Stems(o, PyText.Join(" ", memory.situation.GetOr([])));
      var situationMatches := Matches(searchStems, situationStems);
      var contentStems := Stems(o, memory.content);
      var contentMatches := Matches(searchStems, contentStems);
      var totalScore := situationMatches * 2 + contentMatches;
      assert totalScore == Score(o, searchStems, memory);
      PositiveNext(o, searchStems, memories, i);
      if totalScore > 0 {
        results := results + [Scored(memory, totalScore)];
      } else {
        PySeq.EmptyBack(results);
      }
    }
    PySeq.TakeAll(memories);
    var sorted := StableSort.SortDesc(results, ScoreKey);
    found := Memories(PySeq.Take(sorted, MaxMemories));
  }

  // ----- properties of the search -----

  /** A blank query without situation phrases finds nothing. */
  lemma BlankSearchFindsNothing(o: TextOracle, query: string, situation: Option<seq<string>>, ms: seq<Memory>)
    requires PyText.IsBlank(query) && (situation.None? || situation.value == [])
    ensures SearchResults(o, query, situation, ms) == []
  {
    assert SearchText(query, situation) == "";
  }

  /** Every ranked memory is one of the memories searched, carries its own score,
      and that score is positive; at most five are returned. */
  lemma RankingSound(o: TextOracle, query: string, situation: Option<seq<string>>, ms: seq<Memory>)
    ensures |Ranking(o, query, situation, ms)| <= MaxMemories
    ensures forall x :: x in Ranking(o, query, situation, ms) ==>
              x.memory in ms && x.score > 0 && x.score == Score(o, Stems(o, SearchText(query, situation)), x.memory)
  {
    var text := SearchText(query, situation);
    if !PyText.IsBlank(text) {
      var stems := Stems(o, text);
      var pos := Positive(o, stems, ms);
      var sorted := StableSort.SortDesc(pos, ScoreKey);
      forall x | x in Ranking(o, query, situation, ms)
        ensures x.memory in ms && x.score > 0 && x.score == Score(o, stems, x.memory)
      {
        StableSort.SortDescMembers(pos, ScoreKey, x);
        PositiveMembers(o, stems, ms, x);
      }
    }
  }

  /** Scores never increase along the ranking, and memories with equal scores
      keep their input order: the ranking is a prefix of a stable sort of the
      scored memories. */
  lemma RankingSortedStable(o: TextOracle, query: string, situation: Option<seq<string>>, ms: seq<Memory>)
    requires !PyText.IsBlank(SearchText(query, situation))
    ensures var pos := Positive(o, Stems(o, SearchText(query, situation)), ms);
            && StableSort.SortedDesc(Ranking(o, query, situation, ms), ScoreKey)
            && Ranking(o, query, situation, ms) <= StableSort.SortDesc(pos, ScoreKey)
            && forall k :: StableSort.WithKey(StableSort.SortDesc(pos, ScoreKey), ScoreKey, k)
                           == StableSort.WithKey(pos, ScoreKey, k)
  {
    var pos := Positive(o, Stems(o, SearchText(query, situation)), ms);
    var sorted := StableSort.SortDesc(pos, ScoreKey);
    StableSort.SortDescSortedPermutation(pos, ScoreKey);
    forall k ensures StableSort.WithKey(sorted, ScoreKey, k) == StableSort.WithKey(pos, ScoreKey, k) {
      StableSort.SortDescStable(pos, ScoreKey, k);
    }
    var r := Ranking(o, query, situation, ms);
    assert r == sorted[..|r|];
  }

  /** The ranking keeps the best: a memory that scores something but is not
      ranked scores no more than any ranked memory. */
  lemma RankingKeepsBest(o: TextOracle, query: string, situation: Option<seq<string>>, ms: seq<Memory>, m: Memory)
    requires !PyText.IsBlank(SearchText(query, situation))
    requires m in ms && Score(o, Stems(o, SearchText(query, situation)), m) > 0
    requires m !in SearchResults(o, query, situation, ms)
    ensures forall i :: 0 <= i < |Ranking(o, query, situation, ms)| ==>
              Ranking(o, query, situation, ms)[i].score >= Score(o, Stems(o, SearchText(query, situation)), m)
  {
    var stems := Stems(o, SearchText(query, situation));
    var pos := Positive(o, stems, ms);
    var x := Scored(m, Score(o, stems, m));
    PositiveMembers(o, stems, ms, x);
    var r := Ranking(o, query, situation, ms);
    assert r == StableSort.SortDesc(pos, ScoreKey)[..PySeq.Min(MaxMemories, |pos|)];
    StableSort.PrefixIsTop(pos, ScoreKey, MaxMemories, x);
  }

  /** When at most five memories score something, every one of them is returned. */
  lemma RankingComplete(o: TextOracle, query: string, situation: Option<seq<string>>, ms: seq<Memory>, m: Memory)
    requires !PyText.IsBlank(SearchText(query, situation))
    requires |Positive(o, Stems(o, SearchText(query, situation)), ms)| <= MaxMemories
    requires m in ms && Score(o, Stems(o, SearchText(query, situation)), m) > 0
    ensures m in SearchResults(o, query, situation, ms)
  {
    var stems := Stems(o, SearchText(query, situation));
    var pos := Positive(o, stems, ms);
    var x := Scored(m, Score(o, stems, m));
    PositiveMembers(o, stems, ms, x);
    StableSort.SortDescMembers(pos, ScoreKey, x);
    var r := Ranking(o, query, situation, ms);
    assert r == StableSort.SortDesc(pos, ScoreKey);
    var i :| 0 <= i < |r| && r[i] == x;
    assert SearchResults(o, query, situation, ms)[i] == m;
  }
}
