/**
 * The deterministic parts of the dialectic sampling engine: the messages sent for one scenario,
 * the sampling parameters, the text taken out of a sampling response, the token estimate, the
 * reading of system-prompt and reminder files, and the token total of a test run.  The sampling
 * client itself, timing and the float averages are outside the model.
 */
module DialecticSampling {
  import opened Wrappers
  import opened PyValue
  import opened Gather
  import PyText

  /** `{"type": "text", "text": ...}` */
  datatype Content = Content(kind: string, text: string)

  /** `{"role": ..., "content": {...}}` */
  datatype Message = Message(role: string, content: Content)

  /** The sampling request's parameters; the float temperature is left out. */
  datatype SamplingParams = SamplingParams(messages: seq<Message>, maxTokens: int, systemPrompt: Option<string>)

  /** What the file system holds at a path: nothing, a file that `read_text` cannot
   *  read as UTF-8 text (no permission, a directory, bad bytes), or a text file. */
  datatype Disk = Absent | Unreadable | Readable(text: string)

  /** The exceptions `_read_file_if_exists` lets out: its own `FileNotFoundError`, and
   *  whatever `read_text` raises for an existing path it cannot read. */
  datatype FileError = FileNotFound(path: string) | ReadFailed(path: string)

  const ReminderOpen: string := "<system-reminder>\n"
  const ReminderClose: string := "\n</system-reminder>"

  /** The text of the message carrying the system reminders. */
  function ReminderText(reminders: seq<string>): (r: string)
    ensures PyText.IsPrefix(ReminderOpen, r)
    ensures |ReminderOpen| + |ReminderClose| <= |r| && r[|r| - |ReminderClose|..] == ReminderClose
  {
    ReminderOpen + PyText.Join("\n\n", reminders) + ReminderClose
  }

  /** The text of the message carrying the base context and the scenario. */
  function UserText(baseContext: string, scenario: string): (r: string)
    ensures |r| == |baseContext| + |"\n\nUser: "| + |scenario|
    ensures PyText.OccursAt("\n\nUser: ", r, |baseContext|)
  {
    baseContext + "\n\nUser: " + scenario
  }

  function UserMessage(text: string): Message
  {
    Message("user", Content("text", text))
  }

  /** `_build_messages`: a reminder message when there are reminders, then the user message. */
  function BuildMessages(baseContext: string, scenario: string, reminders: seq<string>): (ms: seq<Message>)
    ensures |ms| == if reminders == [] then 1 else 2
    ensures forall i :: 0 <= i < |ms| ==> ms[i].role == "user" && ms[i].content.kind == "text"
    ensures ms[|ms| - 1].content.text == UserText(baseContext, scenario)
    ensures reminders != [] ==> ms[0].content.text == ReminderText(reminders)
  {
    (if reminders == [] then [] else [UserMessage(ReminderText(reminders))]) +
    [UserMessage(UserText(baseContext, scenario))]
  }

  /** Every reminder reaches the model: it occurs inside the reminder message, between the tags. */
  lemma ReminderTextHoldsEach(reminders: seq<string>, k: nat)
    requires k < |reminders|
    ensures exists i :: |ReminderOpen| <= i && PyText.OccursAt(reminders[k], ReminderText(reminders), i)
    ensures PyText.IsPrefix(ReminderOpen, ReminderText(reminders))
  {
    var joined := PyText.Join("\n\n", reminders);
    PyText.JoinHoldsPart("\n\n", reminders, k);
    var i :| PyText.OccursAt(reminders[k], joined, i);
    PyText.OccursLeft(reminders[k], joined, ReminderClose, i);
    PyText.OccursRight(reminders[k], ReminderOpen, joined + ReminderClose, i);
    assert ReminderOpen + (joined + ReminderClose) == ReminderText(reminders);
  }

  /** The user message starts with the base context and ends with the scenario. */
  lemma UserTextFrames(baseContext: string, scenario: string)
    ensures PyText.IsPrefix(baseContext, UserText(baseContext, scenario))
    ensures |scenario| <= |UserText(baseContext, scenario)|
    ensures UserText(baseContext, scenario)[|UserText(baseContext, scenario)| - |scenario|..] == scenario
  {
  }

  /** The parameters of one sampling request: `systemPrompt` is set only for a non-empty prompt. */
  function BuildParams(messages: seq<Message>, maxTokens: int, systemPrompt: Option<string>): (p: SamplingParams)
    ensures p.messages == messages && p.maxTokens == maxTokens
    ensures p.systemPrompt.Some? <==> systemPrompt.Some? && systemPrompt.value != ""
    ensures p.systemPrompt.Some? ==> p.systemPrompt == systemPrompt
  {
    SamplingParams(messages, maxTokens, if systemPrompt.Some? && systemPrompt.value != "" then systemPrompt else None)
  }

  /** The part a content block contributes: the `text` (default `""`) of a dict whose `type` is
   *  `"text"`; nothing for any other block. */
  function TextPart(block: Value): (r: Option<Value>)
    ensures r.Some? <==> block.DictV? && Get(block.entries, "type") == Some(StrV("text"))
    ensures r.Some? && "text" !in Keys(block.entries) ==> r.value == StrV("")
  {
    if block.DictV? && Get(block.entries, "type") == Some(StrV("text")) then
      Some(GetOr(block.entries, "text", StrV("")))
    else None
  }

  /** `"".join(parts)`; `None` when a part is not a string (`join` raises `TypeError`). */
  function Concat(parts: seq<Value>): (r: Option<string>)
    ensures r.Some? <==> forall i :: 0 <= i < |parts| ==> parts[i].StrV?
    ensures r.Some? && |parts| == 1 ==> r.value == parts[0].s
  {
    if parts == [] then Some("")
    else if !parts[0].StrV? then None
    else match Concat(parts[1..])
      case None => None
      case Some(rest) => Some(parts[0].s + rest)
  }

  /** Joining two lists joins each and concatenates the results; it raises iff either raises. */
  lemma {:induction false} ConcatAppend(a: seq<Value>, b: seq<Value>)
    ensures Concat(a + b) ==
      if Concat(a).Some? && Concat(b).Some? then Some(Concat(a).value + Concat(b).value) else None
  {
    if a == [] {
      assert a + b == b;
      if Concat(b).Some? {
        assert "" + Concat(b).value == Concat(b).value;
      }
    } else {
      assert (a + b)[0] == a[0] && (a + b)[1..] == a[1..] + b;
      ConcatAppend(a[1..], b);
      if Concat(a).Some? && Concat(b).Some? {
        assert a[0].s + (Concat(a[1..]).value + Concat(b).value) == (a[0].s + Concat(a[1..]).value) + Concat(b).value;
      }
    }
  }

  /** One part that is not a string makes the join raise. */
  lemma {:induction false} ConcatRaises(parts: seq<Value>, k: nat)
    requires k < |parts| && !parts[k].StrV?
    ensures Concat(parts).None?
  {
    if k > 0 {
      ConcatRaises(parts[1..], k - 1);
    }
  }

  /** The text of a list of content blocks. */
  function BlocksText(blocks: seq<Value>): Option<string>
  {
    Concat(FilterMap(TextPart, blocks))
  }

  /** `_extract_response_text`: list content gives its text blocks joined, string content itself,
   *  and any other response its `str` form (`show`); `None` when joining raises. */
  function ResponseText(response: Value, show: Value -> string): (r: Option<string>)
    ensures r.None? ==>
      response.DictV? && "content" in Keys(response.entries) && Get(response.entries, "content").value.ListV?
    ensures !(response.DictV? && "content" in Keys(response.entries)) ==> r == Some(show(response))
    ensures response.DictV? && "content" in Keys(response.entries) ==>
      var content := Get(response.entries, "content").value;
      && (content.ListV? ==> r == BlocksText(content.items))
      && (content.StrV? ==> r == Some(content.s))
      && (!content.ListV? && !content.StrV? ==> r == Some(show(response)))
  {
    if response.DictV? && "content" in Keys(response.entries) then
      match Get(response.entries, "content").value
      case ListV(blocks) => BlocksText(blocks)
      case StrV(s) => Some(s)
      case _ => Some(show(response))
    else Some(show(response))
  }

  method ExtractResponseText(response: Value, show: Value -> string) returns (r: Option<string>)
    ensures r == ResponseText(response, show)
  {
    if response.DictV? && "content" in Keys(response.entries) {
      var content := Get(response.entries, "content").value;
      if content.ListV? {
        var blocks := content.items;
        var textParts: seq<Value> := [];
        var i := 0;
        while i < |blocks|
          invariant 0 <= i <= |blocks|
          invariant textParts == FilterMap(TextPart, blocks[..i])
        {
          var block := blocks[i];
          if block.DictV? && Get(block.entries, "type") == Some(StrV("text")) {
            textParts := textParts + [GetOr(block.entries, "text", StrV(""))];
          }
          assert blocks[..i + 1][..i] == blocks[..i];
          i := i + 1;
        }
        assert blocks[..i] == blocks;
        r := Concat(textParts);
      } else if content.StrV? {
        r := Some(content.s);
      } else {
        r := Some(show(response));
      }
    } else {
      r := Some(show(response));
    }
  }

  /** Text blocks are concatenated in order: the text of two runs of blocks is the text of the
   *  first followed by the text of the second, and it raises iff either run raises. */
  lemma BlocksTextConcat(xs: seq<Value>, ys: seq<Value>)
    ensures BlocksText(xs + ys) ==
      if BlocksText(xs).Some? && BlocksText(ys).Some? then Some(BlocksText(xs).value + BlocksText(ys).value) else None
  {
    FilterMapConcat(TextPart, xs, ys);
    ConcatAppend(FilterMap(TextPart, xs), FilterMap(TextPart, ys));
  }

  /** A block that is not a text block changes nothing, wherever it stands. */
  lemma NonTextBlockSkipped(xs: seq<Value>, block: Value, ys: seq<Value>)
    requires TextPart(block).None?
    ensures BlocksText(xs + [block] + ys) == BlocksText(xs + ys)
  {
    FilterMapSkip(TextPart, xs, block, ys);
  }

  /** A text block contributes its `text`, and `""` when it has none. */
  lemma TextBlockContributes(entries: seq<Entry>, text: string)
    requires Get(entries, "type") == Some(StrV("text"))
    requires Get(entries, "text") == Some(StrV(text)) || "text" !in Keys(entries)
    ensures BlocksText([DictV(entries)]) == Some(if "text" in Keys(entries) then text else "")
  {
    assert [DictV(entries)][..0] == [];
    var part := GetOr(entries, "text", StrV(""));
    assert FilterMap(TextPart, [DictV(entries)]) == [part];
    assert part == StrV(if "text" in Keys(entries) then text else "");
    assert [part][0] == part && [part][1..] == [];
    assert Concat([part]) == Some(part.s + "");
    assert part.s + "" == part.s;
  }

  /** A text block whose `text` is not a string makes the whole extraction raise. */
  lemma NonStringTextRaises(xs: seq<Value>, entries: seq<Entry>, ys: seq<Value>)
    requires Get(entries, "type") == Some(StrV("text"))
    requires Get(entries, "text").Some? && !Get(entries, "text").value.StrV?
    ensures BlocksText(xs + [DictV(entries)] + ys).None?
  {
    var parts := FilterMap(TextPart, xs + [DictV(entries)] + ys);
    FilterMapMembers(TextPart, xs + [DictV(entries)] + ys, Get(entries, "text").value);
    assert (xs + [DictV(entries)] + ys)[|xs|] == DictV(entries);
    var k :| 0 <= k < |parts| && parts[k] == Get(entries, "text").value;
    ConcatRaises(parts, k);
  }

  /** String content comes back verbatim. */
  lemma StringContentVerbatim(response: Value, show: Value -> string, s: string)
    requires response.DictV? && Get(response.entries, "content") == Some(StrV(s))
    ensures ResponseText(response, show) == Some(s)
  {
  }

  /** `_estimate_token_count`: a quarter of the length, rounded down. */
  function EstimateTokenCount(text: string): (r: nat)
    ensures 4 * r <= |text| < 4 * r + 4
  {
    |text| / 4
  }

  /** The total of `token_count or 0` over a run's results. */
  function TotalTokens(counts: seq<Option<int>>): (r: int)
    ensures (forall i :: 0 <= i < |counts| && counts[i].Some? ==> counts[i].value >= 0) ==> r >= 0
    ensures (forall i :: 0 <= i < |counts| ==> counts[i].None?) ==> r == 0
  {
    if counts == [] then 0 else TotalTokens(counts[..|counts| - 1]) + counts[|counts| - 1].GetOr(0)
  }

  /** Totals add up over concatenation. */
  lemma {:induction false} TotalTokensConcat(xs: seq<Option<int>>, ys: seq<Option<int>>)
    ensures TotalTokens(xs + ys) == TotalTokens(xs) + TotalTokens(ys)
    decreases |ys|
  {
    if ys != [] {
      assert (xs + ys)[..|xs + ys| - 1] == xs + ys[..|ys| - 1];
      TotalTokensConcat(xs, ys[..|ys| - 1]);
    } else {
      assert xs + ys == xs;
    }
  }

  /** A result without a token count adds nothing to the total. */
  lemma MissingCountAddsNothing(xs: seq<Option<int>>, ys: seq<Option<int>>)
    ensures TotalTokens(xs + [None] + ys) == TotalTokens(xs + ys)
  {
    var none: seq<Option<int>> := [None];
    TotalTokensConcat(xs + none, ys);
    TotalTokensConcat(xs, none);
    TotalTokensConcat(xs, ys);
    assert none[..0] == [];
  }

  /** The token counts the engine records for its responses. */
  function TokenCounts(texts: seq<string>): (r: seq<Option<int>>)
    ensures |r| == |texts|
  {
    if texts == [] then [] else TokenCounts(texts[..|texts| - 1]) + [Some(EstimateTokenCount(texts[|texts| - 1]))]
  }

  function TotalLength(texts: seq<string>): nat
  {
    if texts == [] then 0 else TotalLength(texts[..|texts| - 1]) + |texts[|texts| - 1]|
  }

  /** The run's token total is a quarter of its total response length, short by less than one
   *  token per response. */
  lemma {:induction false} TotalTokensEstimate(texts: seq<string>)
    ensures 4 * TotalTokens(TokenCounts(texts)) <= TotalLength(texts) < 4 * TotalTokens(TokenCounts(texts)) + 4 * |texts| || texts == []
    ensures texts == [] ==> TotalTokens(TokenCounts(texts)) == 0
  {
    if texts != [] {
      var init := texts[..|texts| - 1];
      TotalTokensEstimate(init);
      var counts := TokenCounts(texts);
      assert counts[..|counts| - 1] == TokenCounts(init);
    }
  }

  /** `_read_file_if_exists`: no path gives `None`, a missing file raises, an existing file
   *  that cannot be read raises too; `files` says what is at each path. */
  function ReadFileIfExists(path: Option<string>, files: string -> Disk): (r: Result<Option<string>, FileError>)
    ensures r.Err? <==> path.Some? && path.value != "" && !files(path.value).Readable?
    ensures r.Err? ==> r.error == if files(path.value).Absent? then FileNotFound(path.value) else ReadFailed(path.value)
    ensures r.Ok? && r.value.None? <==> path.None? || path.value == ""
    ensures r.Ok? && r.value.Some? ==> path.Some? && files(path.value) == Readable(r.value.value)
  {
    if path.None? || path.value == "" then Ok(None)
    else match files(path.value)
      case Absent => Err(FileNotFound(path.value))
      case Unreadable => Err(ReadFailed(path.value))
      case Readable(text) => Ok(Some(text))
  }

  /** The reminder a path contributes, when it contributes one. */
  function Reminder(files: string -> Disk): string -> Option<string>
  {
    (path: string) =>
      match ReadFileIfExists(Some(path), files)
      case Ok(Some(text)) => if text != "" then Some(text) else None
      case _ => None
  }

  /** A path whose reading raises: no file there, or one that cannot be read. */
  predicate Raises(files: string -> Disk, path: string)
  {
    ReadFileIfExists(Some(path), files).Err?
  }

  /** `_read_system_reminders`: the non-empty contents in path order, or the error of the first
   *  path whose reading raises. */
  function Reminders(paths: seq<string>, files: string -> Disk): (r: Result<seq<string>, FileError>)
    ensures r.Ok? ==> |r.value| <= |paths| && forall i :: 0 <= i < |r.value| ==> r.value[i] != ""
  {
    if paths == [] then Ok([])
    else match Reminders(paths[..|paths| - 1], files)
      case Err(e) => Err(e)
      case Ok(rs) =>
        match ReadFileIfExists(Some(paths[|paths| - 1]), files)
        case Err(e) => Err(e)
        case Ok(content) => Ok(rs + if content.Some? && content.value != "" then [content.value] else [])
  }

  method ReadSystemReminders(paths: seq<string>, files: string -> Disk) returns (r: Result<seq<string>, FileError>)
    ensures r == Reminders(paths, files)
  {
    var reminders: seq<string> := [];
    var i := 0;
    while i < |paths|
      invariant 0 <= i <= |paths|
      invariant Reminders(paths[..i], files) == Ok(reminders)
    {
      ReadingNext(paths, files, i);
      var content := ReadFileIfExists(Some(paths[i]), files);
      if content.Err? {
        ReadingStops(paths, files, i + 1);
        assert paths[..|paths|] == paths;
        return Err(content.error);
      }
      if content.value.Some? && content.value.value != "" {
        reminders := reminders + [content.value.value];
      } else {
        assert reminders == reminders + [];
      }
      i := i + 1;
    }
    assert paths[..i] == paths;
    r := Ok(reminders);
  }

  /** One more path read after reading the earlier ones succeeded. */
  lemma ReadingNext(paths: seq<string>, files: string -> Disk, k: nat)
    requires k < |paths|
    requires Reminders(paths[..k], files).Ok?
    ensures Reminders(paths[..k + 1], files) ==
      match ReadFileIfExists(Some(paths[k]), files)
      case Err(e) => Err(e)
      case Ok(content) =>
        Ok(Reminders(paths[..k], files).value + if content.Some? && content.value != "" then [content.value] else [])
  {
    assert paths[..k + 1][..k] == paths[..k];
    assert paths[..k + 1][k] == paths[k];
  }

  /** After the first path whose reading raises the later paths are not read. */
  lemma {:induction false} ReadingStops(paths: seq<string>, files: string -> Disk, k: nat)
    requires k <= |paths|
    requires Reminders(paths[..k], files).Err?
    ensures Reminders(paths, files) == Reminders(paths[..k], files)
    decreases |paths| - k
  {
    if k < |paths| {
      assert paths[..k + 1][..k] == paths[..k];
      ReadingStops(paths, files, k + 1);
    } else {
      assert paths[..k] == paths;
    }
  }

  /** Reading fails exactly when some path names a missing or unreadable file; otherwise the
   *  reminders are the non-empty contents, in path order. */
  lemma {:induction false} RemindersMeaning(paths: seq<string>, files: string -> Disk)
    ensures Reminders(paths, files).Err? <==> exists i :: 0 <= i < |paths| && Raises(files, paths[i])
    ensures Reminders(paths, files).Ok? ==> Reminders(paths, files).value == FilterMap(Reminder(files), paths)
  {
    if paths != [] {
      var init := paths[..|paths| - 1];
      RemindersMeaning(init, files);
      assert forall i :: 0 <= i < |init| ==> init[i] == paths[i];
      if Raises(files, paths[|paths| - 1]) {
        assert Reminders(paths, files).Err?;
      }
    }
  }

  /** A failed reading reports the error of the first path whose reading raises: file not
   *  found for a missing file, a read failure for an unreadable one. */
  lemma {:induction false} RemindersFirstError(paths: seq<string>, files: string -> Disk)
    requires Reminders(paths, files).Err?
    ensures exists i :: 0 <= i < |paths| && Raises(files, paths[i])
                     && (forall j :: 0 <= j < i ==> !Raises(files, paths[j]))
                     && Reminders(paths, files).error == ReadFileIfExists(Some(paths[i]), files).error
  {
    var init := paths[..|paths| - 1];
    if Reminders(init, files).Err? {
      RemindersFirstError(init, files);
      var i :| 0 <= i < |init| && Raises(files, init[i]) && (forall j :: 0 <= j < i ==> !Raises(files, init[j]))
               && Reminders(init, files).error == ReadFileIfExists(Some(init[i]), files).error;
      assert paths[i] == init[i];
      assert forall j :: 0 <= j < i ==> paths[j] == init[j];
    } else {
      RemindersMeaning(init, files);
      var i := |paths| - 1;
      assert forall j :: 0 <= j < i ==> paths[j] == init[j];
    }
  }

  /** Every reminder read is non-empty and is the content of one of the paths. */
  lemma RemindersAreContents(paths: seq<string>, files: string -> Disk, text: string)
    requires Reminders(paths, files).Ok?
    requires text in Reminders(paths, files).value
    ensures text != ""
    ensures exists i :: 0 <= i < |paths| && files(paths[i]) == Readable(text)
  {
    RemindersMeaning(paths, files);
    FilterMapMembers(Reminder(files), paths, text);
    var i :| 0 <= i < |paths| && Reminder(files)(paths[i]) == Some(text);
  }

  /** Reading two lists of paths reads the first list's reminders, then the second's. */
  lemma RemindersConcat(xs: seq<string>, ys: seq<string>, files: string -> Disk)
    requires Reminders(xs, files).Ok? && Reminders(ys, files).Ok?
    ensures Reminders(xs + ys, files) == Ok(Reminders(xs, files).value + Reminders(ys, files).value)
  {
    RemindersMeaning(xs, files);
    RemindersMeaning(ys, files);
    RemindersMeaning(xs + ys, files);
    forall i | 0 <= i < |xs + ys| ensures !Raises(files, (xs + ys)[i]) {
      if i < |xs| {
        assert (xs + ys)[i] == xs[i];
      } else {
        assert (xs + ys)[i] == ys[i - |xs|];
      }
    }
    FilterMapConcat(Reminder(files), xs, ys);
  }

  // ----- the files `test_pattern` reads first -----

  /** The attributes the pydantic model `PatternTest` declares
   *  (dialectic/src/dialectic/models.py:11-25). Reading any other attribute of an
   *  instance raises `AttributeError`. */
  const PatternTestFields: seq<string> := ["base_context", "pattern_instruction", "test_scenarios", "sampling_config"]

  /** `instance.name` on an instance given by its attributes and their values:
   *  the value, or `AttributeError` carrying the name. */
  function Attribute(instance: seq<Entry>, name: string): (r: Result<Value, string>)
    ensures r.Err? <==> name !in Keys(instance)
    ensures r.Err? ==> r.error == name
    ensures r.Ok? ==> Get(instance, name) == Some(r.value)
  {
    match Get(instance, name)
    case Some(v) => Ok(v)
    case None => Err(name)
  }

  /** As written, `test_pattern` raises on its first statement for every input. It
   *  reads `pattern_test.system_prompt_path`, and then `system_reminders_paths`
   *  (sampling.py:32-33), but `PatternTest` declares neither. */
  lemma PatternTestPathsMissing(instance: seq<Entry>)
    requires Keys(instance) == PatternTestFields
    ensures Attribute(instance, "system_prompt_path") == Err("system_prompt_path")
    ensures Attribute(instance, "system_reminders_paths") == Err("system_reminders_paths")
  {
  }

  /** What `test_pattern` evidently means to read before sampling, with the two
   *  paths as fields of its input: the system prompt, then the reminders. The
   *  first read that raises is reported. On success, the result is the prompt's
   *  text (or nothing) and the non-empty reminder contents, in path order. */
  function PatternInputs(systemPromptPath: Option<string>, remindersPaths: seq<string>, files: string -> Disk)
    : (r: Result<(Option<string>, seq<string>), FileError>)
    ensures r.Ok? <==>
      ReadFileIfExists(systemPromptPath, files).Ok?
      && forall i :: 0 <= i < |remindersPaths| ==> !Raises(files, remindersPaths[i])
    ensures ReadFileIfExists(systemPromptPath, files).Err? ==> r == Err(ReadFileIfExists(systemPromptPath, files).error)
    ensures r.Ok? ==>
      r.value.0 == ReadFileIfExists(systemPromptPath, files).value
      && r.value.1 == FilterMap(Reminder(files), remindersPaths)
  {
    match ReadFileIfExists(systemPromptPath, files)
    case Err(e) => Err(e)
    case Ok(prompt) =>
      RemindersMeaning(remindersPaths, files);
      match Reminders(remindersPaths, files)
      case Err(e) => Err(e)
      case Ok(rs) => Ok((prompt, rs))
  }
}
