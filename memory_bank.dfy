/** The memory-bank server's session state: the read cache behind its optimistic
    concurrency rule. A memory may be updated only after this session has read or
    written it; an update compares the memory's file with the cached copy and
    refuses when someone else changed the content meanwhile. In simulated mode the
    cache itself is the store.

    Finding the memory's file among the `.memories` directories and reading it is
    filesystem probing; its outcome is the `FileState` parameter. File writes,
    `uuid.uuid4()` and `datetime.now()` are outside the model: the new id and the
    current instant's ISO text are parameters. */
module MemoryBank {
  import opened Wrappers
  import opened KeywordSearch
  import PyText
  import PyValue

  /** What looking for `<id>.json` and loading it gives. */
  datatype FileState =
    | NoFile
    /** The file exists but cannot be read or is not valid JSON. */
    | Unreadable
    | File(record: Memory)

  /** The `ValueError`s of `write_memory`. */
  datatype WriteError =
    | NotRead(id: string)
    | DoesNotExist(id: string)
    | ReadFailed(id: string)
    /** Carries the content found in the file. */
    | Modified(id: string, current: string)

  /** `situation or fallback`: the given phrases unless absent or empty. */
  function SituationOr(situation: Option<seq<string>>, fallback: seq<string>): (r: seq<string>)
    ensures r == fallback <== situation.None? || situation.value == []
    ensures r != [] <== (situation.Some? && situation.value != []) || fallback != []
    ensures r == fallback || (situation.Some? && r == situation.value)
  {
    if situation.Some? && situation.value != [] then situation.value else fallback
  }

  /** `if memory_id:`: an id is given and is not the empty string. */
  predicate IsUpdate(memoryId: Option<string>)
    ensures IsUpdate(memoryId) <==> memoryId.Some? && PyValue.Truthy(PyValue.StrV(memoryId.value))
  {
    memoryId.Some? && memoryId.value != ""
  }

  /** The outcome of `write_memory` and the read cache after it. */
  datatype Outcome = Outcome(result: Result<string, WriteError>, cache: map<string, Memory>)

  /** `write_memory` on a cache, as a function of the mode, the arguments, the
      memory's file, the fresh id and the current instant. */
  function Write(cache: map<string, Memory>, simulated: bool, content: string, situation: Option<seq<string>>,
                 memoryId: Option<string>, file: FileState, newId: string, now: string): (r: Outcome)
    ensures r.result.Ok? <==>
      !IsUpdate(memoryId) ||
      (memoryId.value in cache && (simulated || (file.File? && file.record.content == cache[memoryId.value].content)))
    ensures r.result.Ok? ==> r.result.value == if IsUpdate(memoryId) then memoryId.value else newId
    ensures var touched := if IsUpdate(memoryId) then memoryId.value else newId;
            && r.cache.Keys <= cache.Keys + {touched}
            && forall k :: k in cache && k != touched ==> k in r.cache && r.cache[k] == cache[k]
  {
    if IsUpdate(memoryId) then
      var id := memoryId.value;
      if id !in cache then Outcome(Err(NotRead(id)), cache)
      else if simulated then
        var cached := cache[id];
        var updated := Memory(Some(id), content, Some(SituationOr(situation, cached.situation.GetOr([]))),
                              Some(cached.createdAt.GetOr(now)));
        Outcome(Ok(id), cache[id := updated])
      else match file
        case NoFile => Outcome(Err(DoesNotExist(id)), cache)
        case Unreadable => Outcome(Err(ReadFailed(id)), cache)
        case File(current) =>
          if current.content != cache[id].content then
            Outcome(Err(Modified(id, current.content)), cache[id := current])
          else
            var updated := Memory(Some(id), content, Some(SituationOr(situation, current.situation.GetOr([]))),
                                  Some(current.createdAt.GetOr(now)));
            Outcome(Ok(id), cache[id := updated])
    else
      Outcome(Ok(newId), cache[newId := Memory(Some(newId), content, Some(SituationOr(situation, [])), Some(now))])
  }

  /** The cache after `read_in` has stored each returned memory that has an id. */
  function CacheFound(cache: map<string, Memory>, found: seq<Memory>): (r: map<string, Memory>)
    ensures cache.Keys <= r.Keys
    ensures forall k :: k in r ==> (k in cache && r[k] == cache[k]) || r[k] in found
    decreases |found|
  {
    if found == [] then cache
    else
      var last := found[|found| - 1];
      var before := CacheFound(cache, found[..|found| - 1]);
      if last.id.Some? then before[last.id.value := last] else before
  }

  class MemoryStore {
    /** `SIMULATED_MODE`, fixed at startup. */
    const simulated: bool
    /** `read_cache`: memory id to the copy last read or written. */
    var readCache: map<string, Memory>

    constructor (simulated: bool)
      ensures this.simulated == simulated && readCache == map[]
    {
      this.simulated := simulated;
      readCache := map[];
    }

    /** `write_memory` */
    method WriteMemory(content: string, situation: Option<seq<string>>, memoryId: Option<string>,
                       file: FileState, newId: string, now: string)
      returns (r: Result<string, WriteError>)
      modifies this
      ensures Outcome(r, readCache) == Write(old(readCache), simulated, content, situation, memoryId, file, newId, now)
    {
      if IsUpdate(memoryId) {
        var id := memoryId.value;
        if id !in readCache {
          return Err(NotRead(id));
        }
        if simulated {
          var cached := readCache[id];
          var memoryData := Memory(Some(id), content, Some(SituationOr(situation, cached.situation.GetOr([]))),
                                   Some(cached.createdAt.GetOr(now)));
          readCache := readCache[id := memoryData];
          return Ok(id);
        }
        if file.NoFile? {
          return Err(DoesNotExist(id));
        }
        if file.Unreadable? {
          return Err(ReadFailed(id));
        }
        var current := file.record;
        if current.content != readCache[id].content {
          readCache := readCache[id := current];
          return Err(Modified(id, current.content));
        }
        var updated := Memory(Some(id), content, Some(SituationOr(situation, current.situation.GetOr([]))),
                              Some(current.createdAt.GetOr(now)));
        readCache := readCache[id := updated];
        return Ok(id);
      }
      var memoryData := Memory(Some(newId), content, Some(SituationOr(situation, [])), Some(now));
      readCache := readCache[newId := memoryData];
      r := Ok(newId);
    }

    /** `read_in`: search all memories and remember the ones returned. */
    method ReadIn(o: TextOracle, query: string, situation: Option<seq<string>>, memories: seq<Memory>)
      returns (found: seq<Memory>)
      modifies this
      ensures found == SearchResults(o, query, situation, memories)
      ensures readCache == CacheFound(old(readCache), found)
    {
      found := SearchMemories(o, query, situation, memories);
      ghost var cache0 := readCache;
      for i := 0 to |found|
        invariant readCache == CacheFound(cache0, found[..i])
      {
        var memory := found[i];
        assert found[..i + 1][..i] == found[..i];
        if memory.id.Some? {
          readCache := readCache[memory.id.value := memory];
        }
      }
      assert found[..|found|] == found;
    }
  }

  // ----- properties of the read cache -----

  /** Updating a memory this session has not read fails and changes nothing. */
  lemma UpdateNeedsRead(cache: map<string, Memory>, simulated: bool, content: string, situation: Option<seq<string>>,
                        id: string, file: FileState, newId: string, now: string)
    requires id != "" && id !in cache
    ensures Write(cache, simulated, content, situation, Some(id), file, newId, now) == Outcome(Err(NotRead(id)), cache)
  {
  }

  /** A simulated update stores the new content under the same id, keeps the
      creation time, keeps the cached situation unless new phrases are given, and
      leaves every other memory alone. */
  lemma SimulatedUpdate(cache: map<string, Memory>, content: string, situation: Option<seq<string>>,
                        id: string, file: FileState, newId: string, now: string)
    requires id != "" && id in cache
    ensures var w := Write(cache, true, content, situation, Some(id), file, newId, now);
            && w.result == Ok(id)
            && w.cache.Keys == cache.Keys
            && w.cache[id].content == content
            && w.cache[id].createdAt == Some(cache[id].createdAt.GetOr(now))
            && (cache[id].createdAt.Some? ==> w.cache[id].createdAt == cache[id].createdAt)
            && w.cache[id].situation == Some(if situation.Some? && situation.value != [] then situation.value
                                             else cache[id].situation.GetOr([]))
            && forall k :: k in cache && k != id ==> w.cache[k] == cache[k]
  {
  }

  /** When the file's content differs from the cached copy, the update is refused,
      reporting the file's content, and the cache is refreshed from the file. */
  lemma ConcurrentChangeRefused(cache: map<string, Memory>, content: string, situation: Option<seq<string>>,
                                id: string, current: Memory, newId: string, now: string)
    requires id != "" && id in cache && current.content != cache[id].content
    ensures Write(cache, false, content, situation, Some(id), File(current), newId, now)
            == Outcome(Err(Modified(id, current.content)), cache[id := current])
  {
  }

  /** After a refused update the cache matches the file, so the same update tried
      again against the unchanged file goes through. */
  lemma RetryAfterRefusal(cache: map<string, Memory>, content: string, situation: Option<seq<string>>,
                          id: string, current: Memory, newId: string, now: string)
    requires id != "" && id in cache && current.content != cache[id].content
    ensures var first := Write(cache, false, content, situation, Some(id), File(current), newId, now);
            var second := Write(first.cache, false, content, situation, Some(id), File(current), newId, now);
            && first.result.Err?
            && second.result == Ok(id)
            && second.cache[id].content == content
  {
    ConcurrentChangeRefused(cache, content, situation, id, current, newId, now);
  }

  /** An update whose file is missing or unreadable fails and changes nothing. */
  lemma UpdateWithoutFile(cache: map<string, Memory>, content: string, situation: Option<seq<string>>,
                          id: string, file: FileState, newId: string, now: string)
    requires id != "" && id in cache && !file.File?
    ensures Write(cache, false, content, situation, Some(id), file, newId, now).cache == cache
    ensures Write(cache, false, content, situation, Some(id), file, newId, now).result
            == if file.NoFile? then Err(DoesNotExist(id)) else Err(ReadFailed(id))
  {
  }

  /** A creation (no id, or an empty one) returns the fresh id and caches a record
      under it with the content, the situation or `[]`, and the current instant. */
  lemma CreateCaches(cache: map<string, Memory>, simulated: bool, content: string, situation: Option<seq<string>>,
                     memoryId: Option<string>, file: FileState, newId: string, now: string)
    requires !IsUpdate(memoryId)
    ensures var w := Write(cache, simulated, content, situation, memoryId, file, newId, now);
            && w.result == Ok(newId)
            && w.cache.Keys == cache.Keys + {newId}
            && w.cache[newId] == Memory(Some(newId), content, Some(SituationOr(situation, [])), Some(now))
            && forall k :: k in cache && k != newId ==> w.cache[k] == cache[k]
  {
  }

  /** A successful write leaves the written memory in the cache under the id it
      returns, with the content written, ready for a later update. */
  lemma WriteThenUpdatable(cache: map<string, Memory>, simulated: bool, content: string, situation: Option<seq<string>>,
                           memoryId: Option<string>, file: FileState, newId: string, now: string)
    ensures var w := Write(cache, simulated, content, situation, memoryId, file, newId, now);
            w.result.Ok? ==> w.result.value in w.cache && w.cache[w.result.value].content == content
                             && w.cache[w.result.value].id == Some(w.result.value)
  {
  }

  /** Every cached memory is filed under its own id. */
  ghost predicate CacheKeyed(cache: map<string, Memory>)
  {
    forall k :: k in cache ==> cache[k].id == Some(k)
  }

  /** Writing keeps the cache keyed by id, provided a memory's file records that
      memory's id. */
  lemma WriteKeepsCacheKeyed(cache: map<string, Memory>, simulated: bool, content: string, situation: Option<seq<string>>,
                             memoryId: Option<string>, file: FileState, newId: string, now: string)
    requires CacheKeyed(cache)
    requires IsUpdate(memoryId) && file.File? ==> file.record.id == memoryId
    ensures CacheKeyed(Write(cache, simulated, content, situation, memoryId, file, newId, now).cache)
  {
  }

  /** After `read_in`, every returned memory with an id can be updated, and the
      cache holds the last returned memory with that id; other ids are untouched. */
  lemma {:induction false} CacheFoundHolds(cache: map<string, Memory>, found: seq<Memory>)
    ensures forall i :: 0 <= i < |found| && found[i].id.Some? ==> found[i].id.value in CacheFound(cache, found)
    ensures CacheFound(cache, found).Keys == cache.Keys + set i | 0 <= i < |found| && found[i].id.Some? :: found[i].id.value
    ensures forall k :: k in cache && (forall i :: 0 <= i < |found| ==> found[i].id != Some(k))
                        ==> CacheFound(cache, found)[k] == cache[k]
    decreases |found|
  {
    if found != [] {
      var init := found[..|found| - 1];
      CacheFoundHolds(cache, init);
      assert forall i :: 0 <= i < |init| ==> init[i] == found[i];
    }
  }

  /** `read_in` keeps the cache keyed by id. */
  lemma {:induction false} CacheFoundKeyed(cache: map<string, Memory>, found: seq<Memory>)
    requires CacheKeyed(cache)
    ensures CacheKeyed(CacheFound(cache, found))
    decreases |found|
  {
    if found != [] {
      CacheFoundKeyed(cache, found[..|found| - 1]);
    }
  }
}
