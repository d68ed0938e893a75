/**
 * The dialectic authorization server's decision: a permission request for a tool is allowed or
 * denied from the expected and disallowed tool lists the server was started with.
 */
module DialecticAuthorization {
  import opened Wrappers
  import opened PyValue

  datatype DenyReason = ExplicitlyDisallowed | NotExpected

  /** The JSON object the `authorize` tool answers with. */
  datatype Decision = Deny(reason: DenyReason) | Allow(updatedInput: Value)

  datatype CallError = UnknownTool(name: string)

  /** `tool_name in TOOLS`: only a string can equal one of the command-line names. */
  predicate Listed(toolName: Value, tools: seq<string>)
  {
    toolName.StrV? && toolName.s in tools
  }

  /** The decision for one request: a disallowed tool is denied first; with a non-empty expected
   *  list a tool outside it is denied; anything else is allowed with its input passed through. */
  function Authorize(expectedTools: seq<string>, disallowedTools: seq<string>, toolName: Value, toolInput: Value): (r: Decision)
    ensures r == Deny(ExplicitlyDisallowed) <==> Listed(toolName, disallowedTools)
    ensures r == Deny(NotExpected) <==>
      !Listed(toolName, disallowedTools) && expectedTools != [] && !Listed(toolName, expectedTools)
    ensures r.Allow? ==> r.updatedInput == toolInput
  {
    if Listed(toolName, disallowedTools) then Deny(ExplicitlyDisallowed)
    else if expectedTools != [] && !Listed(toolName, expectedTools) then Deny(NotExpected)
    else Allow(toolInput)
  }

  /** `handle_call_tool`: only the `authorize` tool exists; missing arguments default to `{}`, a
   *  missing `tool_name` to `""` and a missing `tool_input` to `{}`. */
  function HandleCallTool(expectedTools: seq<string>, disallowedTools: seq<string>, name: string, arguments: Option<seq<Entry>>)
    : (r: Result<Decision, CallError>)
    ensures r.Err? <==> name != "authorize"
    ensures r.Err? ==> r.error == UnknownTool(name)
  {
    if name != "authorize" then Err(UnknownTool(name))
    else
      var args := arguments.GetOr([]);
      Ok(Authorize(expectedTools, disallowedTools, GetOr(args, "tool_name", StrV("")), GetOr(args, "tool_input", DictV([]))))
  }

  /** A request is allowed iff its tool is not disallowed and the expected list is empty or
   *  names it; an allowed request gets its own input back unchanged. */
  lemma AllowedExactly(expectedTools: seq<string>, disallowedTools: seq<string>, toolName: Value, toolInput: Value)
    ensures Authorize(expectedTools, disallowedTools, toolName, toolInput).Allow? <==>
      !Listed(toolName, disallowedTools) && (expectedTools == [] || Listed(toolName, expectedTools))
    ensures Authorize(expectedTools, disallowedTools, toolName, toolInput).Allow? ==>
      Authorize(expectedTools, disallowedTools, toolName, toolInput).updatedInput == toolInput
  {
  }

  /** Disallowing wins over expecting. */
  lemma DisallowedWins(expectedTools: seq<string>, disallowedTools: seq<string>, tool: string, toolInput: Value)
    requires tool in disallowedTools && tool in expectedTools
    ensures Authorize(expectedTools, disallowedTools, StrV(tool), toolInput) == Deny(ExplicitlyDisallowed)
  {
  }

  /** Widening the disallowed list never turns a denial into an allow. */
  lemma DisallowingMoreDeniesMore(expectedTools: seq<string>, disallowedTools: seq<string>, more: seq<string>, toolName: Value, toolInput: Value)
    requires Authorize(expectedTools, disallowedTools, toolName, toolInput).Deny?
    ensures Authorize(expectedTools, disallowedTools + more, toolName, toolInput).Deny?
  {
    if Listed(toolName, disallowedTools) {
      assert toolName.s in disallowedTools + more;
    }
  }

  /** A request without arguments asks for the tool named `""` with input `{}`. */
  lemma MissingArgumentsDefault(expectedTools: seq<string>, disallowedTools: seq<string>)
    ensures HandleCallTool(expectedTools, disallowedTools, "authorize", None) ==
      Ok(Authorize(expectedTools, disallowedTools, StrV(""), DictV([])))
    ensures HandleCallTool(expectedTools, disallowedTools, "authorize", Some([])) ==
      Ok(Authorize(expectedTools, disallowedTools, StrV(""), DictV([])))
  {
  }
}
