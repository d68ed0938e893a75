/**
 * The dialectic test runner: a test case loaded from its parsed YAML, one model reply checked
 * against the expectations of a conversation step, and the steps of a test case aggregated into
 * a pass/fail verdict.  Throughout, `None` stands for a Python exception escaping the call.
 */
module DialecticRunner {
  import opened Wrappers
  import opened PyValue
  import opened Gather
  import PyText
  import PySeq

  /** An entry of `expected_tools`: the tool's name and its parameter rules (`NoneV` when absent). */
  datatype ToolExpectation = ToolExpectation(tool: Value, parameters: Value)

  datatype ConversationStep = ConversationStep(
    userMessage: Value,
    expectedResponse: Value,
    expectedTools: seq<ToolExpectation>)

  datatype TestCase = TestCase(
    name: Value,
    description: Value,
    tags: Value,
    conversation: seq<ConversationStep>)

  /** A tool call of the reply: the block's name and its input dict. */
  datatype ToolCall = ToolCall(tool: string, parameters: seq<Entry>)

  /** What the model answered to one step: its text blocks joined, and its tool calls in order. */
  datatype Reply = Reply(responseText: string, toolsUsed: seq<ToolCall>)

  datatype StepResult = StepResult(
    success: bool,
    foundPhrases: seq<string>,
    missingPhrases: seq<string>,
    unexpectedPhrases: seq<string>,
    foundTools: seq<ToolExpectation>,
    invalidTools: seq<ToolExpectation>,
    missingTools: seq<ToolExpectation>,
    unexpectedTools: seq<ToolCall>,
    responseText: string,
    responseLength: nat)

  // ---------------------------------------------------------------- load_test_case

  /** One `expected_tools` item: a string names a tool without rules, a dict gives `tool` and
   *  `parameters`, and any other item is skipped. */
  function ToolSpec(v: Value): (r: Option<ToolExpectation>)
    ensures r.Some? <==> v.StrV? || v.DictV?
    ensures v.StrV? ==> r.value.tool == v && !Truthy(r.value.parameters)
    ensures v.DictV? && "tool" !in Keys(v.entries) ==> r.value.tool == NoneV
  {
    match v
    case StrV(_) => Some(ToolExpectation(v, NoneV))
    case DictV(es) => Some(ToolExpectation(GetOr(es, "tool", NoneV), GetOr(es, "parameters", NoneV)))
    case _ => None
  }

  /** One conversation step; it raises unless the item is a dict with a `user` key whose
   *  `expected_tools` (default `[]`) can be iterated. */
  function StepSpec(v: Value): (r: Option<ConversationStep>)
    ensures r.Some? <==> v.DictV? && "user" in Keys(v.entries)
                         && Iter(GetOr(v.entries, "expected_tools", ListV([]))).Some?
    ensures r.Some? ==> Get(v.entries, "user") == Some(r.value.userMessage)
    ensures r.Some? && "expected_response" !in Keys(v.entries) ==> r.value.expectedResponse == DictV([])
    ensures r.Some? && "expected_tools" !in Keys(v.entries) ==> r.value.expectedTools == []
  {
    if !v.DictV? then None
    else
      var tools := Iter(GetOr(v.entries, "expected_tools", ListV([])));
      var user := Get(v.entries, "user");
      if tools.None? || user.None? then None
      else Some(ConversationStep(
        user.value, GetOr(v.entries, "expected_response", DictV([])), FilterMap(ToolSpec, tools.value)))
  }

  /** The test case a parsed YAML document describes; `name` and `description` are required and
   *  `tags` defaults to `[]`. */
  function TestCaseSpec(data: Value): (r: Option<TestCase>)
    ensures r.Some? ==> data.DictV? && Get(data.entries, "name") == Some(r.value.name)
                        && Get(data.entries, "description") == Some(r.value.description)
    ensures r.Some? && "tags" !in Keys(data.entries) ==> r.value.tags == ListV([])
    ensures r.Some? && "conversation" !in Keys(data.entries) ==> r.value.conversation == []
  {
    if !data.DictV? then None
    else
      var items := Iter(GetOr(data.entries, "conversation", ListV([])));
      if items.None? then None
      else
        var steps := Until(MapAll(StepSpec, items.value));
        var name := Get(data.entries, "name");
        var description := Get(data.entries, "description");
        if !steps.complete || name.None? || description.None? then None
        else Some(TestCase(name.value, description.value, GetOr(data.entries, "tags", ListV([])), steps.done))
  }

  /** The inner loop of `load_test_case`, over a step's `expected_tools`. */
  method ParseExpectedTools(toolItems: seq<Value>) returns (expectedTools: seq<ToolExpectation>)
    ensures expectedTools == FilterMap(ToolSpec, toolItems)
  {
    expectedTools := [];
    for j := 0 to |toolItems|
      invariant expectedTools == FilterMap(ToolSpec, toolItems[..j])
    {
      assert toolItems[..j + 1][..j] == toolItems[..j];
      var toolData := toolItems[j];
      match toolData
      case StrV(_) =>
        expectedTools := expectedTools + [ToolExpectation(toolData, NoneV)];
      case DictV(es) =>
        expectedTools := expectedTools + [ToolExpectation(GetOr(es, "tool", NoneV), GetOr(es, "parameters", NoneV))];
      case _ =>
    }
    assert toolItems[..|toolItems|] == toolItems;
  }

  /** `load_test_case` on an already parsed document. */
  method LoadTestCase(data: Value) returns (r: Option<TestCase>)
    ensures r == TestCaseSpec(data)
  {
    if !data.DictV? {
      return None;
    }
    var source := Iter(GetOr(data.entries, "conversation", ListV([])));
    if source.None? {
      return None;
    }
    var items := source.value;
    ghost var parsed := MapAll(StepSpec, items);
    var conversation: seq<ConversationStep> := [];
    for i := 0 to |items|
      invariant Until(parsed[..i]) == Run(conversation, true)
    {
      MapAllAt(StepSpec, items, i);
      UntilNext(parsed, i);
      var stepData := items[i];
      if !stepData.DictV? {
        UntilStop(parsed, i + 1);
        return None;
      }
      var expectedResponse := GetOr(stepData.entries, "expected_response", DictV([]));
      var toolSource := Iter(GetOr(stepData.entries, "expected_tools", ListV([])));
      if toolSource.None? {
        UntilStop(parsed, i + 1);
        return None;
      }
      var expectedTools := ParseExpectedTools(toolSource.value);
      var user := Get(stepData.entries, "user");
      if user.None? {
        UntilStop(parsed, i + 1);
        return None;
      }
      conversation := conversation + [ConversationStep(user.value, expectedResponse, expectedTools)];
    }
    assert parsed[..|items|] == parsed;
    var name := Get(data.entries, "name");
    var description := Get(data.entries, "description");
    if name.None? || description.None? {
      return None;
    }
    return Some(TestCase(name.value, description.value, GetOr(data.entries, "tags", ListV([])), conversation));
  }

  /** `load_test_case` succeeds iff every step parses and `name` and `description` are present;
   *  it keeps the steps in document order and defaults `tags` to `[]`. */
  lemma LoadKeepsSteps(data: Value, items: seq<Value>)
    requires data.DictV?
    requires Iter(GetOr(data.entries, "conversation", ListV([]))) == Some(items)
    ensures TestCaseSpec(data).Some? <==>
      (forall i :: 0 <= i < |items| ==> StepSpec(items[i]).Some?) &&
      "name" in Keys(data.entries) && "description" in Keys(data.entries)
    ensures TestCaseSpec(data).Some? ==>
      var tc := TestCaseSpec(data).value;
      |tc.conversation| == |items| &&
      (forall i :: 0 <= i < |items| ==> StepSpec(items[i]) == Some(tc.conversation[i])) &&
      tc.tags == (if "tags" in Keys(data.entries) then Get(data.entries, "tags").value else ListV([]))
  {
    UntilPointwise(MapAll(StepSpec, items));
    forall i | 0 <= i < |items| ensures MapAll(StepSpec, items)[i] == StepSpec(items[i]) {
      MapAllAt(StepSpec, items, i);
    }
  }

  /** When every `expected_tools` item is a string or a dict, expectation `i` comes from item `i`:
   *  a string is a tool without rules, a dict gives its `tool` and `parameters` (`None` when
   *  missing). */
  lemma ToolSpecsPointwise(vs: seq<Value>)
    requires forall i :: 0 <= i < |vs| ==> vs[i].StrV? || vs[i].DictV?
    ensures |FilterMap(ToolSpec, vs)| == |vs|
    ensures forall i :: 0 <= i < |vs| && vs[i].StrV? ==> FilterMap(ToolSpec, vs)[i] == ToolExpectation(vs[i], NoneV)
    ensures forall i :: 0 <= i < |vs| && vs[i].DictV? ==>
      FilterMap(ToolSpec, vs)[i] ==
        ToolExpectation(GetOr(vs[i].entries, "tool", NoneV), GetOr(vs[i].entries, "parameters", NoneV))
  {
    FilterMapPointwise(ToolSpec, vs);
  }

  /** Items that are neither strings nor dicts are skipped. */
  lemma ToolSpecsSkip(vs: seq<Value>)
    requires forall i :: 0 <= i < |vs| ==> !(vs[i].StrV? || vs[i].DictV?)
    ensures FilterMap(ToolSpec, vs) == []
  {
    FilterMapNone(ToolSpec, vs);
  }

  // ---------------------------------------------------------------- phrases

  /** `phrase.lower() in text.lower()` */
  predicate Mentions(lower: string -> string, text: string, phrase: string)
    ensures Mentions(lower, text, phrase) <==> exists i :: PyText.OccursAt(lower(phrase), lower(text), i)
  {
    PyText.ContainsAt(lower(phrase), lower(text));
    PyText.Contains(lower(phrase), lower(text))
  }

  function Mentioned(lower: string -> string, text: string): string -> bool
  {
    (p: string) => Mentions(lower, text, p)
  }

  // ---------------------------------------------------------------- _validate_tool_parameters

  predicate AllMentioned(lower: string -> string, text: string, ps: seq<string>)
  {
    forall i :: 0 <= i < |ps| ==> Mentions(lower, text, ps[i])
  }

  /** One rule applied to the actual value.  A dict rule may combine `should_contain` (a string
   *  value containing every phrase) and `should_be` (equality); any other rule is the expected
   *  value itself. */
  function RuleHolds(lower: string -> string, rule: Value, actual: Value): (r: Option<bool>)
    ensures !rule.DictV? ==> r == Some(PyEq(actual, rule))
    ensures r.None? <==> rule.DictV? && actual.StrV?
                         && Get(rule.entries, "should_contain").Some?
                         && StringsIn(Get(rule.entries, "should_contain").value).None?
    ensures rule.DictV? && r == Some(true) ==>
      ("should_contain" in Keys(rule.entries) ==> actual.StrV?) &&
      ("should_be" in Keys(rule.entries) ==> PyEq(actual, Get(rule.entries, "should_be").value))
  {
    if !rule.DictV? then Some(PyEq(actual, rule))
    else
      var contains: Option<bool> :=
        (match Get(rule.entries, "should_contain")
         case None => Some(true)
         case Some(required) =>
           if !actual.StrV? then Some(false)
           else (match StringsIn(required)
                 case None => None
                 case Some(ps) => Some(AllMentioned(lower, actual.s, ps))));
      var equal :=
        (match Get(rule.entries, "should_be")
         case None => true
         case Some(expected) => PyEq(actual, expected));
      match contains
      case None => None
      case Some(c) => Some(c && equal)
  }

  /** All rules, in order, each applied to the parameter of its name (`None` when missing). */
  function Rules(lower: string -> string, rules: seq<Entry>, actual: seq<Entry>): (r: Option<bool>)
    ensures r == Some(false) ==>
      exists i :: 0 <= i < |rules| && RuleHolds(lower, rules[i].value, GetOr(actual, rules[i].key, NoneV)) == Some(false)
  {
    if rules == [] then Some(true)
    else match RuleHolds(lower, rules[0].value, GetOr(actual, rules[0].key, NoneV))
      case None => None
      case Some(c) =>
        match Rules(lower, rules[1..], actual)
        case None => None
        case Some(b) => Some(c && b)
  }

  /** `expectation.parameters or {}` must be a dict of rules. */
  function ParamsValid(lower: string -> string, expected: Value, actual: seq<Entry>): (r: Option<bool>)
    ensures !Truthy(expected) ==> r == Some(true)
    ensures Truthy(expected) && !expected.DictV? ==> r.None?
    ensures expected.DictV? ==> r == Rules(lower, expected.entries, actual)
  {
    var rules := if Truthy(expected) then expected else DictV([]);
    if rules.DictV? then Rules(lower, rules.entries, actual) else None
  }

  function Then(v: bool, r: Option<bool>): Option<bool>
  {
    match r
    case None => None
    case Some(b) => Some(v && b)
  }

  /** The inner loop over `should_contain`'s phrases. */
  method ContainsEvery(lower: string -> string, value: string, ps: seq<string>) returns (valid: bool)
    ensures valid == AllMentioned(lower, value, ps)
  {
    valid := true;
    for k := 0 to |ps|
      invariant valid == AllMentioned(lower, value, ps[..k])
    {
      assert ps[..k + 1] == ps[..k] + [ps[k]];
      if !Mentions(lower, value, ps[k]) {
        valid := false;
      }
    }
    assert ps[..|ps|] == ps;
  }

  /** The body of the loop over the rules, for one rule and the actual value. */
  method CheckRule(lower: string -> string, validationRules: Value, actualValue: Value) returns (r: Option<bool>)
    ensures r == RuleHolds(lower, validationRules, actualValue)
  {
    if !validationRules.DictV? {
      return Some(PyEq(actualValue, validationRules));
    }
    var valid := true;
    var required := Get(validationRules.entries, "should_contain");
    if required.Some? {
      if actualValue.StrV? {
        var phrases := StringsIn(required.value);
        if phrases.None? {
          return None;
        }
        valid := ContainsEvery(lower, actualValue.s, phrases.value);
      } else {
        valid := false;
      }
    }
    var expectedValue := Get(validationRules.entries, "should_be");
    if expectedValue.Some? && !PyEq(actualValue, expectedValue.value) {
      valid := false;
    }
    return Some(valid);
  }

  method ValidateToolParameters(lower: string -> string, expectation: ToolExpectation, actualTool: ToolCall)
    returns (r: Option<bool>)
    ensures r == ParamsValid(lower, expectation.parameters, actualTool.parameters)
  {
    var actualParams := actualTool.parameters;
    var expected := if Truthy(expectation.parameters) then expectation.parameters else DictV([]);
    if !expected.DictV? {
      return None;
    }
    var rules := expected.entries;
    var allValid := true;
    for i := 0 to |rules|
      invariant Rules(lower, rules, actualParams) == Then(allValid, Rules(lower, rules[i..], actualParams))
    {
      assert rules[i..][1..] == rules[i + 1..];
      var ruleValid := CheckRule(lower, rules[i].value, GetOr(actualParams, rules[i].key, NoneV));
      if ruleValid.None? {
        return None;
      }
      if !ruleValid.value {
        allValid := false;
      }
    }
    return Some(allValid);
  }

  /** The rules succeed together iff each one does, and raise iff one of them raises. */
  lemma {:induction false} RulesPointwise(lower: string -> string, rules: seq<Entry>, actual: seq<Entry>)
    ensures Rules(lower, rules, actual).Some? <==>
      forall i :: 0 <= i < |rules| ==> RuleHolds(lower, rules[i].value, GetOr(actual, rules[i].key, NoneV)).Some?
    ensures Rules(lower, rules, actual) == Some(true) <==>
      forall i :: 0 <= i < |rules| ==> RuleHolds(lower, rules[i].value, GetOr(actual, rules[i].key, NoneV)) == Some(true)
  {
    if rules != [] {
      var tail := rules[1..];
      RulesPointwise(lower, tail, actual);
      assert forall i :: 1 <= i < |rules| ==> rules[i] == tail[i - 1];
      var first := RuleHolds(lower, rules[0].value, GetOr(actual, rules[0].key, NoneV));
      assert Rules(lower, rules, actual) == if first.None? then None else Then(first.value, Rules(lower, tail, actual));
    }
  }

  /** An expectation without rules (`None`, `{}` or any false value) accepts every call. */
  lemma NoRulesAccept(lower: string -> string, expected: Value, actual: seq<Entry>)
    requires !Truthy(expected) || expected == DictV([])
    ensures ParamsValid(lower, expected, actual) == Some(true)
  {
  }

  function StrVs(ps: seq<string>): (vs: seq<Value>)
    ensures |vs| == |ps|
    ensures forall i :: 0 <= i < |ps| ==> vs[i] == StrV(ps[i])
  {
    if ps == [] then [] else [StrV(ps[0])] + StrVs(ps[1..])
  }

  /** A YAML list of strings is read back as those strings. */
  lemma StringsOfList(ps: seq<string>)
    ensures StringsIn(ListV(StrVs(ps))) == Some(ps)
  {
    var r := Strings(StrVs(ps));
    assert r.Some?;
    assert r.value == ps;
  }

  /** `should_contain`: the rule holds iff the value is a string containing every phrase,
   *  ignoring case; a value that is not a string fails. */
  lemma ShouldContainMeaning(lower: string -> string, phrases: seq<string>, actual: Value)
    ensures RuleHolds(lower, DictV([Entry("should_contain", ListV(StrVs(phrases)))]), actual) ==
      Some(actual.StrV? && forall p :: p in phrases ==> Mentions(lower, actual.s, p))
  {
    var required := ListV(StrVs(phrases));
    assert Get([Entry("should_contain", required)], "should_contain") == Some(required);
    assert Get([Entry("should_contain", required)], "should_be") == None;
    StringsOfList(phrases);
  }

  /** A rule dict may apply both checks: it holds iff both do. */
  lemma BothChecksApply(lower: string -> string, phrases: seq<string>, expected: Value, actual: Value)
    ensures RuleHolds(lower, DictV([Entry("should_contain", ListV(StrVs(phrases))), Entry("should_be", expected)]), actual) ==
      Some(actual.StrV? && (forall p :: p in phrases ==> Mentions(lower, actual.s, p)) && PyEq(actual, expected))
  {
    var required := ListV(StrVs(phrases));
    var rule := [Entry("should_contain", required), Entry("should_be", expected)];
    assert Get(rule, "should_contain") == Some(required);
    assert Get(rule, "should_be") == Some(expected);
    StringsOfList(phrases);
  }

  /** A parameter the call does not pass is compared as `None`: a plain rule then holds iff it
   *  is `None` itself. */
  lemma MissingParameterIsNone(lower: string -> string, name: string, rule: Value, actual: seq<Entry>)
    requires !rule.DictV?
    requires name !in Keys(actual)
    ensures Rules(lower, [Entry(name, rule)], actual) == Some(rule.NoneV?)
  {
    assert GetOr(actual, name, NoneV) == NoneV;
    assert [Entry(name, rule)][1..] == [];
  }

  /** A call passing exactly the value a plain or `should_be` rule names satisfies it. */
  lemma ExactValueAccepted(lower: string -> string, value: Value, useShouldBe: bool)
    requires WellFormed(value)
    requires useShouldBe || !value.DictV?
    ensures RuleHolds(lower, if useShouldBe then DictV([Entry("should_be", value)]) else value, value) == Some(true)
  {
    PyEqReflexive(value);
    if useShouldBe {
      assert Get([Entry("should_be", value)], "should_contain") == None;
      assert Get([Entry("should_be", value)], "should_be") == Some(value);
    }
  }

  /** A `should_be` rule holds exactly when the actual value equals the expected one,
   *  whatever the actual value is. */
  lemma ShouldBeMeaning(lower: string -> string, expected: Value, actual: Value)
    ensures RuleHolds(lower, DictV([Entry("should_be", expected)]), actual) == Some(PyEq(actual, expected))
  {
  }

  // ---------------------------------------------------------------- expected tools

  /** `t['tool'] == expectation.tool`: a string equals only the same string. */
  predicate Names(tool: Value, call: ToolCall)
  {
    tool == StrV(call.tool)
  }

  /** `expectation.tool in actual_tool_names` */
  predicate Called(calls: seq<ToolCall>, tool: Value)
  {
    exists i :: 0 <= i < |calls| && Names(tool, calls[i])
  }

  /** `next(t for t in tools_used if t['tool'] == expectation.tool)`: the first
   *  call that names the tool, if any. */
  function FirstCall(calls: seq<ToolCall>, tool: Value): (r: Option<ToolCall>)
    ensures r.Some? <==> Called(calls, tool)
    ensures r.Some? ==> Names(tool, r.value)
    ensures r.Some? ==> exists k :: 0 <= k < |calls| && r.value == calls[k] && forall j :: 0 <= j < k ==> !Names(tool, calls[j])
  {
    if calls == [] then None
    else if Names(tool, calls[0]) then Some(calls[0])
    else
      assert forall i :: 1 <= i < |calls| ==> calls[i] == calls[1..][i - 1];
      FirstCall(calls[1..], tool)
  }

  datatype Verdict = Found | Invalid | Missing

  /** Where an expectation lands: missing when no call names it, found when it has no rules,
   *  and otherwise found or invalid as the first call with that name passes its rules. */
  function Judge(lower: string -> string, calls: seq<ToolCall>, e: ToolExpectation): (r: Option<Verdict>)
    ensures r == Some(Missing) <==> !Called(calls, e.tool)
    ensures r == Some(Found) <==>
      Called(calls, e.tool)
      && (!Truthy(e.parameters) || ParamsValid(lower, e.parameters, FirstCall(calls, e.tool).value.parameters) == Some(true))
    ensures r.None? || r == Some(Invalid) ==>
      exists k :: 0 <= k < |calls| && Names(e.tool, calls[k]) && (forall j :: 0 <= j < k ==> !Names(e.tool, calls[j]))
                  && ParamsValid(lower, e.parameters, calls[k].parameters) == if r.None? then None else Some(false)
  {
    if !Called(calls, e.tool) then Some(Missing)
    else if !Truthy(e.parameters) then Some(Found)
    else match ParamsValid(lower, e.parameters, FirstCall(calls, e.tool).value.parameters)
      case None => None
      case Some(ok) => Some(if ok then Found else Invalid)
  }

  function Judging(lower: string -> string, calls: seq<ToolCall>): ToolExpectation -> Option<Verdict>
  {
    (e: ToolExpectation) => Judge(lower, calls, e)
  }

  datatype ToolSort = ToolSort(found: seq<ToolExpectation>, invalid: seq<ToolExpectation>, missing: seq<ToolExpectation>)

  function File(t: ToolSort, e: ToolExpectation, v: Verdict): ToolSort
  {
    match v
    case Found => t.(found := t.found + [e])
    case Invalid => t.(invalid := t.invalid + [e])
    case Missing => t.(missing := t.missing + [e])
  }

  /** The expectations filed by verdict, in order; `None` once judging one raises. */
  function SortTools(judge: ToolExpectation -> Option<Verdict>, es: seq<ToolExpectation>): (r: Option<ToolSort>)
    ensures r.Some? ==> |r.value.found| + |r.value.invalid| + |r.value.missing| == |es|
  {
    if es == [] then Some(ToolSort([], [], []))
    else match SortTools(judge, es[..|es| - 1])
      case None => None
      case Some(t) =>
        match judge(es[|es| - 1])
        case None => None
        case Some(v) => Some(File(t, es[|es| - 1], v))
  }

  /** One more expectation judged after the earlier ones were filed. */
  lemma SortToolsNext(judge: ToolExpectation -> Option<Verdict>, es: seq<ToolExpectation>, i: nat)
    requires i < |es| && SortTools(judge, es[..i]).Some?
    ensures SortTools(judge, es[..i + 1]) ==
      match judge(es[i])
      case None => None
      case Some(v) => Some(File(SortTools(judge, es[..i]).value, es[i], v))
  {
    assert es[..i + 1][..i] == es[..i];
  }

  lemma {:induction false} SortToolsFail(judge: ToolExpectation -> Option<Verdict>, es: seq<ToolExpectation>, k: nat)
    requires k <= |es|
    requires SortTools(judge, es[..k]) == None
    ensures SortTools(judge, es) == None
    decreases |es| - k
  {
    if k < |es| {
      assert es[..k + 1][..k] == es[..k];
      SortToolsFail(judge, es, k + 1);
    } else {
      assert es[..k] == es;
    }
  }

  /** Each expected tool lands in exactly one of found, invalid and missing: together the three
   *  lists are the expectations. */
  lemma {:induction false} SortToolsPartition(judge: ToolExpectation -> Option<Verdict>, es: seq<ToolExpectation>)
    requires SortTools(judge, es).Some?
    ensures var t := SortTools(judge, es).value;
      multiset(t.found) + multiset(t.invalid) + multiset(t.missing) == multiset(es)
  {
    if es != [] {
      var init, e := es[..|es| - 1], es[|es| - 1];
      SortToolsPartition(judge, init);
      MultisetSnoc(es);
      var t0 := SortTools(judge, init).value;
      var t := SortTools(judge, es).value;
      assert t == File(t0, e, judge(e).value);
      var (f0, i0, m0) := (multiset(t0.found), multiset(t0.invalid), multiset(t0.missing));
      match judge(e).value
      case Found =>
        assert multiset(t.found) == f0 + multiset{e} && multiset(t.invalid) == i0 && multiset(t.missing) == m0;
      case Invalid =>
        assert multiset(t.found) == f0 && multiset(t.invalid) == i0 + multiset{e} && multiset(t.missing) == m0;
      case Missing =>
        assert multiset(t.found) == f0 && multiset(t.invalid) == i0 && multiset(t.missing) == m0 + multiset{e};
    }
  }

  /** Each of found, invalid and missing holds only expectations of its own verdict. */
  lemma {:induction false} SortToolsVerdicts(judge: ToolExpectation -> Option<Verdict>, es: seq<ToolExpectation>)
    requires SortTools(judge, es).Some?
    ensures var t := SortTools(judge, es).value;
      (forall e :: e in t.found ==> judge(e) == Some(Found)) &&
      (forall e :: e in t.invalid ==> judge(e) == Some(Invalid)) &&
      (forall e :: e in t.missing ==> judge(e) == Some(Missing))
  {
    if es != [] {
      var init, e := es[..|es| - 1], es[|es| - 1];
      SortToolsVerdicts(judge, init);
      var t0 := SortTools(judge, init).value;
      assert SortTools(judge, es).value == File(t0, e, judge(e).value);
    }
  }

  /** Sorting raises iff judging some expectation raises; otherwise every expectation is in the
   *  list of its verdict. */
  lemma {:induction false} SortToolsComplete(judge: ToolExpectation -> Option<Verdict>, es: seq<ToolExpectation>)
    ensures SortTools(judge, es).Some? <==> forall i :: 0 <= i < |es| ==> judge(es[i]).Some?
    ensures SortTools(judge, es).Some? ==>
      var t := SortTools(judge, es).value;
      forall i :: 0 <= i < |es| ==>
        (judge(es[i]) == Some(Found) ==> es[i] in t.found) &&
        (judge(es[i]) == Some(Invalid) ==> es[i] in t.invalid) &&
        (judge(es[i]) == Some(Missing) ==> es[i] in t.missing)
  {
    if es != [] {
      var init := es[..|es| - 1];
      SortToolsComplete(judge, init);
      assert forall i :: 0 <= i < |init| ==> init[i] == es[i];
    }
  }

  /** No expectation is invalid or missing iff every one is found. */
  lemma {:induction false} SortToolsClean(judge: ToolExpectation -> Option<Verdict>, es: seq<ToolExpectation>)
    requires SortTools(judge, es).Some?
    ensures var t := SortTools(judge, es).value;
      t.invalid == [] && t.missing == [] <==> forall i :: 0 <= i < |es| ==> judge(es[i]) == Some(Found)
  {
    if es != [] {
      var init := es[..|es| - 1];
      SortToolsClean(judge, init);
      assert forall i :: 0 <= i < |init| ==> init[i] == es[i];
    }
  }

  /** Parameters are checked against the first call with the tool's name: a later call that
   *  would pass does not rescue a first call that fails. */
  lemma FirstCallDecides(lower: string -> string, e: ToolExpectation, bad: ToolCall, good: ToolCall, rest: seq<ToolCall>)
    requires Truthy(e.parameters) && Names(e.tool, bad) && Names(e.tool, good)
    requires ParamsValid(lower, e.parameters, bad.parameters) == Some(false)
    requires ParamsValid(lower, e.parameters, good.parameters) == Some(true)
    ensures Judge(lower, [bad, good] + rest, e) == Some(Invalid)
  {
    var calls := [bad, good] + rest;
    assert Names(e.tool, calls[0]);
    assert FirstCall(calls, e.tool) == Some(bad);
  }

  // ---------------------------------------------------------------- unexpected tools

  function ExpectedNames(es: seq<ToolExpectation>): (names: seq<Value>)
    ensures |names| == |es|
    ensures forall i :: 0 <= i < |es| ==> names[i] == es[i].tool
  {
    if es == [] then [] else [es[0].tool] + ExpectedNames(es[1..])
  }

  /** `actual_tool['tool'] in expected_tool_names` */
  function Expected(names: seq<Value>): ToolCall -> bool
  {
    (c: ToolCall) => StrV(c.tool) in names
  }

  // ---------------------------------------------------------------- run_conversation_step

  /** The validation half of `run_conversation_step`: `expected_response` must be a dict whose
   *  `should_contain` and `should_not_contain` (default `[]`) hold strings. */
  function Validation(lower: string -> string, step: ConversationStep, reply: Reply): (r: Option<StepResult>)
    ensures r.Some? ==> step.expectedResponse.DictV?
    ensures r.Some? ==> r.value.responseText == reply.responseText && r.value.responseLength == |reply.responseText|
    ensures r.Some? ==> forall c :: c in r.value.unexpectedTools ==>
                          c in reply.toolsUsed && StrV(c.tool) !in ExpectedNames(step.expectedTools)
  {
    if !step.expectedResponse.DictV? then None
    else
      var er := step.expectedResponse.entries;
      var text := reply.responseText;
      var required := StringsIn(GetOr(er, "should_contain", ListV([])));
      var forbidden := StringsIn(GetOr(er, "should_not_contain", ListV([])));
      var tools := SortTools(Judging(lower, reply.toolsUsed), step.expectedTools);
      if required.None? || forbidden.None? || tools.None? then None
      else
        var missing := Keep(Mentioned(lower, text), required.value, false);
        var unexpected := Keep(Mentioned(lower, text), forbidden.value, true);
        var t := tools.value;
        var unexpectedTools := Keep(Expected(ExpectedNames(step.expectedTools)), reply.toolsUsed, false);
        KeepMembers(Expected(ExpectedNames(step.expectedTools)), reply.toolsUsed, false);
        Some(StepResult(
          missing == [] && unexpected == [] && t.missing == [] && t.invalid == [] && unexpectedTools == [],
          Keep(Mentioned(lower, text), required.value, true), missing, unexpected,
          t.found, t.invalid, t.missing, unexpectedTools,
          text, |text|))
  }

  /** The loop over `should_contain`. */
  method CheckRequired(lower: string -> string, text: string, shouldContain: seq<string>)
    returns (foundPhrases: seq<string>, missingPhrases: seq<string>)
    ensures foundPhrases == Keep(Mentioned(lower, text), shouldContain, true)
    ensures missingPhrases == Keep(Mentioned(lower, text), shouldContain, false)
  {
    ghost var mentioned := Mentioned(lower, text);
    foundPhrases, missingPhrases := [], [];
    for i := 0 to |shouldContain|
      invariant foundPhrases == Keep(mentioned, shouldContain[..i], true)
      invariant missingPhrases == Keep(mentioned, shouldContain[..i], false)
    {
      assert shouldContain[..i + 1][..i] == shouldContain[..i];
      if Mentions(lower, text, shouldContain[i]) {
        foundPhrases := foundPhrases + [shouldContain[i]];
      } else {
        missingPhrases := missingPhrases + [shouldContain[i]];
      }
    }
    assert shouldContain[..|shouldContain|] == shouldContain;
  }

  /** The loop over `should_not_contain`. */
  method CheckForbidden(lower: string -> string, text: string, shouldNotContain: seq<string>)
    returns (unexpectedPhrases: seq<string>)
    ensures unexpectedPhrases == Keep(Mentioned(lower, text), shouldNotContain, true)
  {
    ghost var mentioned := Mentioned(lower, text);
    unexpectedPhrases := [];
    for i := 0 to |shouldNotContain|
      invariant unexpectedPhrases == Keep(mentioned, shouldNotContain[..i], true)
    {
      assert shouldNotContain[..i + 1][..i] == shouldNotContain[..i];
      if Mentions(lower, text, shouldNotContain[i]) {
        unexpectedPhrases := unexpectedPhrases + [shouldNotContain[i]];
      }
    }
    assert shouldNotContain[..|shouldNotContain|] == shouldNotContain;
  }

  /** The loop over the step's expected tools. */
  method CheckExpectedTools(lower: string -> string, expected: seq<ToolExpectation>, calls: seq<ToolCall>)
    returns (r: Option<ToolSort>)
    ensures r == SortTools(Judging(lower, calls), expected)
  {
    ghost var judge := Judging(lower, calls);
    var sorted := ToolSort([], [], []);
    for i := 0 to |expected|
      invariant SortTools(judge, expected[..i]) == Some(sorted)
    {
      SortToolsNext(judge, expected, i);
      var expectation := expected[i];
      assert judge(expectation) == Judge(lower, calls, expectation);
      if Called(calls, expectation.tool) {
        if Truthy(expectation.parameters) {
          var actualTool := FirstCall(calls, expectation.tool).value;
          var paramsValid := ValidateToolParameters(lower, expectation, actualTool);
          if paramsValid.None? {
            SortToolsFail(judge, expected, i + 1);
            return None;
          }
          if paramsValid.value {
            sorted := sorted.(found := sorted.found + [expectation]);
          } else {
            sorted := sorted.(invalid := sorted.invalid + [expectation]);
          }
        } else {
          sorted := sorted.(found := sorted.found + [expectation]);
        }
      } else {
        sorted := sorted.(missing := sorted.missing + [expectation]);
      }
    }
    assert expected[..|expected|] == expected;
    return Some(sorted);
  }

  /** The loop over the calls made. */
  method CheckUnexpectedTools(calls: seq<ToolCall>, expectedToolNames: seq<Value>) returns (unexpectedTools: seq<ToolCall>)
    ensures unexpectedTools == Keep(Expected(expectedToolNames), calls, false)
  {
    ghost var isExpected := Expected(expectedToolNames);
    unexpectedTools := [];
    for i := 0 to |calls|
      invariant unexpectedTools == Keep(isExpected, calls[..i], false)
    {
      assert calls[..i + 1][..i] == calls[..i];
      if StrV(calls[i].tool) !in expectedToolNames {
        unexpectedTools := unexpectedTools + [calls[i]];
      }
    }
    assert calls[..|calls|] == calls;
  }

  method CheckStep(lower: string -> string, step: ConversationStep, reply: Reply) returns (r: Option<StepResult>)
    ensures r == Validation(lower, step, reply)
  {
    if !step.expectedResponse.DictV? {
      return None;
    }
    var er := step.expectedResponse.entries;
    var text := reply.responseText;
    var required := StringsIn(GetOr(er, "should_contain", ListV([])));
    var forbidden := StringsIn(GetOr(er, "should_not_contain", ListV([])));
    if required.None? || forbidden.None? {
      return None;
    }
    var foundPhrases, missingPhrases := CheckRequired(lower, text, required.value);
    var unexpectedPhrases := CheckForbidden(lower, text, forbidden.value);
    var sorted := CheckExpectedTools(lower, step.expectedTools, reply.toolsUsed);
    if sorted.None? {
      return None;
    }
    var unexpectedTools := CheckUnexpectedTools(reply.toolsUsed, ExpectedNames(step.expectedTools));
    var contentSuccess := |missingPhrases| == 0 && |unexpectedPhrases| == 0;
    var t := sorted.value;
    var toolsSuccess := |t.missing| == 0 && |t.invalid| == 0 && |unexpectedTools| == 0;
    return Some(StepResult(
      contentSuccess && toolsSuccess,
      foundPhrases, missingPhrases, unexpectedPhrases,
      t.found, t.invalid, t.missing, unexpectedTools,
      text, |text|));
  }

  /** What a passing step means: every required phrase occurs, no forbidden phrase occurs, every
   *  expected tool was called (and its first call passed its rules), and every call was of an
   *  expected tool. */
  lemma StepSuccessMeaning(lower: string -> string, step: ConversationStep, reply: Reply)
    requires Validation(lower, step, reply).Some?
    ensures var er := step.expectedResponse.entries;
      var required := StringsIn(GetOr(er, "should_contain", ListV([]))).value;
      var forbidden := StringsIn(GetOr(er, "should_not_contain", ListV([]))).value;
      Validation(lower, step, reply).value.success <==>
        (forall p :: p in required ==> Mentions(lower, reply.responseText, p)) &&
        (forall p :: p in forbidden ==> !Mentions(lower, reply.responseText, p)) &&
        (forall i :: 0 <= i < |step.expectedTools| ==> Judge(lower, reply.toolsUsed, step.expectedTools[i]) == Some(Found)) &&
        (forall c :: c in reply.toolsUsed ==> StrV(c.tool) in ExpectedNames(step.expectedTools))
  {
    var er := step.expectedResponse.entries;
    var required := StringsIn(GetOr(er, "should_contain", ListV([]))).value;
    var forbidden := StringsIn(GetOr(er, "should_not_contain", ListV([]))).value;
    KeepEmpty(Mentioned(lower, reply.responseText), required, false);
    KeepEmpty(Mentioned(lower, reply.responseText), forbidden, true);
    SortToolsClean(Judging(lower, reply.toolsUsed), step.expectedTools);
    KeepEmpty(Expected(ExpectedNames(step.expectedTools)), reply.toolsUsed, false);
  }

  // ---------------------------------------------------------------- run_test_case

  /** The validation of a step against a reply, as a value. */
  function Checker(lower: string -> string): (ConversationStep, Reply) -> Option<StepResult>
  {
    (s: ConversationStep, r: Reply) => Validation(lower, s, r)
  }

  /** The check of each step against the reply to it. */
  function Validations(check: (ConversationStep, Reply) -> Option<StepResult>, steps: seq<ConversationStep>, reply: nat -> Reply): (vs: seq<Option<StepResult>>)
    ensures |vs| == |steps|
  {
    if steps == [] then []
    else Validations(check, steps[..|steps| - 1], reply) + [check(steps[|steps| - 1], reply(|steps| - 1))]
  }

  lemma {:induction false} ValidationsAt(check: (ConversationStep, Reply) -> Option<StepResult>, steps: seq<ConversationStep>, reply: nat -> Reply, i: nat)
    requires i < |steps|
    ensures Validations(check, steps, reply)[i] == check(steps[i], reply(i))
  {
    if i < |steps| - 1 {
      ValidationsAt(check, steps[..|steps| - 1], reply, i);
    }
  }

  /** Printing the header joins the tags when there are any, which raises unless each is a string. */
  predicate TagsPrintable(tags: Value)
    ensures !Truthy(tags) ==> TagsPrintable(tags)
    ensures tags.ListV? ==> (TagsPrintable(tags) <==> forall i :: 0 <= i < |tags.items| ==> tags.items[i].StrV?)
    ensures Truthy(tags) && (tags.BoolV? || tags.IntV?) ==> !TagsPrintable(tags)
  {
    !Truthy(tags) || StringsIn(tags).Some?
  }

  /** The results `run_test_case` records: those of the steps up to the first that raises. */
  function CaseResults(lower: string -> string, tc: TestCase, reply: nat -> Reply): (r: seq<StepResult>)
    ensures |r| <= |tc.conversation|
    ensures !TagsPrintable(tc.tags) ==> r == []
  {
    if !TagsPrintable(tc.tags) then [] else Until(Validations(Checker(lower), tc.conversation, reply)).done
  }

  predicate AllPassed(rs: seq<StepResult>)
  {
    forall i :: 0 <= i < |rs| ==> rs[i].success
  }

  /** What `run_test_case` returns. */
  function CaseVerdict(lower: string -> string, tc: TestCase, reply: nat -> Reply): (r: Option<bool>)
    ensures r.Some? ==> TagsPrintable(tc.tags) && |CaseResults(lower, tc, reply)| == |tc.conversation|
  {
    if !TagsPrintable(tc.tags) then None
    else
      var run := Until(Validations(Checker(lower), tc.conversation, reply));
      if run.complete then Some(AllPassed(run.done)) else None
  }

  /** A test case passes iff every one of its steps passes; it records one result per step. */
  lemma CasePassesIffStepsPass(lower: string -> string, tc: TestCase, reply: nat -> Reply)
    requires CaseVerdict(lower, tc, reply).Some?
    ensures CaseVerdict(lower, tc, reply).value <==>
      forall i :: 0 <= i < |tc.conversation| ==>
        Validation(lower, tc.conversation[i], reply(i)).Some? &&
        Validation(lower, tc.conversation[i], reply(i)).value.success
    ensures |CaseResults(lower, tc, reply)| == |tc.conversation|
  {
    var vs := Validations(Checker(lower), tc.conversation, reply);
    var run := Until(vs);
    UntilPointwise(vs);
    assert run.complete && CaseVerdict(lower, tc, reply).value == AllPassed(run.done);
    forall i | 0 <= i < |tc.conversation|
      ensures Validation(lower, tc.conversation[i], reply(i)) == Some(run.done[i])
    {
      ValidationsAt(Checker(lower), tc.conversation, reply, i);
    }
  }

  /** One more step recorded by `run_test_case`. */
  lemma RecordStep(xs: seq<Option<StepResult>>, i: nat, passed: bool)
    requires i < |xs| && xs[i].Some?
    requires Until(xs[..i]).complete && |Until(xs[..i]).done| == i
    requires passed == AllPassed(Until(xs[..i]).done)
    ensures Until(xs[..i + 1]) == Run(Until(xs[..i]).done + [xs[i].value], true)
    ensures passed && xs[i].value.success <==> AllPassed(Until(xs[..i + 1]).done)
  {
    UntilNext(xs, i);
    var done := Until(xs[..i]).done;
    assert (done + [xs[i].value])[i] == xs[i].value;
    assert forall k :: 0 <= k < i ==> (done + [xs[i].value])[k] == done[k];
  }

  class Runner {
    var results: seq<StepResult>

    constructor()
      ensures results == []
    {
      results := [];
    }

    /** `run_test_case`, with the model's reply to step `i` given by `reply(i)`. */
    method RunTestCase(lower: string -> string, testCase: TestCase, reply: nat -> Reply) returns (r: Option<bool>)
      modifies this
      ensures r == CaseVerdict(lower, testCase, reply)
      ensures results == old(results) + CaseResults(lower, testCase, reply)
    {
      if Truthy(testCase.tags) && StringsIn(testCase.tags).None? {
        return None;
      }
      var steps := testCase.conversation;
      ghost var validations := Validations(Checker(lower), steps, reply);
      var allStepsPassed := true;
      for i := 0 to |steps|
        invariant Until(validations[..i]).complete && |Until(validations[..i]).done| == i
        invariant results == old(results) + Until(validations[..i]).done
        invariant allStepsPassed == AllPassed(Until(validations[..i]).done)
      {
        var result := CheckStep(lower, steps[i], reply(i));
        ValidationsAt(Checker(lower), steps, reply, i);
        assert result == validations[i];
        if result.None? {
          UntilNext(validations, i);
          UntilStop(validations, i + 1);
          return None;
        }
        RecordStep(validations, i, allStepsPassed);
        PySeq.AppendBehind(old(results), Until(validations[..i]).done, result.value);
        results := results + [result.value];
        allStepsPassed := allStepsPassed && result.value.success;
      }
      PySeq.TakeAll(validations);
      return Some(allStepsPassed);
    }
  }
}
