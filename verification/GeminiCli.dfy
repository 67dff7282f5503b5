/** Gemini CLI's log events mapped to spans, with what is remembered of each session (src/gemini_cli.rs). */
module GeminiCli {
  import opened Wrappers
  import opened Numerals
  import opened Otlp
  import opened SessionMemory
  import C = Codex

  const SERVICE := "gemini-cli"
  const LLM_SPAN := "gemini_cli.llm_request"
  const TOOL_SPAN := "gemini_cli.tool"
  const PROMPT_SPAN := "gemini_cli.user_prompt"

  /** What is remembered about one session between records: its turn, and the context of the request last sent. */
  datatype Session = Session(turn: Option<C.Place>, request: Option<C.Place>)

  const NEW_SESSION := Session(None, None)

  /** The id hash, of a given length. */
  type Derive = (nat, seq<string>) -> Bytes

  predicate IsMine(ctx: Context) {
    ctx.serviceName == Some(SERVICE) || ctx.scopeName == Some(SERVICE)
  }

  /** The event, when the record is Gemini CLI's. */
  function EventOf(e: Entry): Option<string> {
    if IsMine(e.ctx) then EventName(e.rec) else None
  }

  function SessionId(e: Entry): string {
    AttrStr(e.rec.attributes, "session.id").UnwrapOr("")
  }

  function SessionOf(e: Entry): Option<string> {
    if EventOf(e).Some? then Some(SessionId(e)) else None
  }

  function PromptId(a: Attributes): string { AttrStr(a, "prompt_id").UnwrapOr("") }

  /** The remembered turn, else a trace of the session and prompt id, without a parent. */
  function PlacementIn(derive: Derive, rec: LogRecord, session: string, s: Session): C.Place {
    s.turn.UnwrapOr(C.Place(derive(16, ["gemini_cli.turn", session, PromptId(rec.attributes)]), []))
  }

  function TurnOf(derive: Derive, rec: LogRecord, session: string): C.Place {
    var time := Decimal(RecordTime(rec));
    C.Place(derive(16, ["gemini_cli.turn", session, PromptId(rec.attributes), time]),
            derive(8, ["gemini_cli.prompt", session, time]))
  }

  function PromptSpan(rec: LogRecord, session: string, turn: C.Place): SpanDraft {
    var time := RecordTime(rec);
    SpanDraft(turn.traceId, turn.parent, [], PROMPT_SPAN, time, time, None, C.Common(rec.attributes, session, None))
  }

  /** Tool-use prompt tokens are input. */
  function InputTokens(a: Attributes): Option<nat> {
    match AttrU64(a, "input_token_count")
    case None => None
    case Some(n) => Some((n + AttrU64(a, "tool_token_count").UnwrapOr(0)) % (U64_MAX + 1))
  }

  function LlmAttributes(a: Attributes, session: string, own: Option<C.Place>): Attributes {
    var provider := if AttrStr(a, "auth_type") == Some("vertex-ai") then "gcp.vertex_ai" else "gcp.gemini";
    var b := Add(Add(C.Common(a, session, own), "gen_ai.operation.name", Str("chat")), "gen_ai.provider.name", Str(provider));
    var model := AttrStr(a, "model");
    var c := AddIf(AddIf(b, "gen_ai.request.model", model), "gen_ai.response.model", model);
    var d := C.AddCount(c, "gen_ai.usage.input_tokens", InputTokens(a));
    var e := C.AddCount(d, "gen_ai.usage.output_tokens", AttrU64(a, "output_token_count"));
    var f := C.AddCount(e, "gen_ai.usage.cache_read.input_tokens", AttrU64(a, "cached_content_token_count"));
    var g := C.AddCount(f, "gen_ai.usage.reasoning.output_tokens", AttrU64(a, "thoughts_token_count"));
    C.AddCount(g, "gen_ai.usage.total_tokens", AttrU64(a, "total_token_count"))
  }

  /** The response carries no context; the request it ends does. */
  function LlmSpan(derive: Derive, rec: LogRecord, session: string, error: Option<string>, s: Session): SpanDraft {
    var a, time, place := rec.attributes, RecordTime(rec), PlacementIn(derive, rec, session, s);
    var own := if C.OwnContext(rec).Some? then C.OwnContext(rec) else s.request;
    SpanDraft(place.traceId, derive(8, ["gemini_cli.llm", session, Decimal(time), AttrStr(a, "model").UnwrapOr("")]),
              place.parent, LLM_SPAN, C.StartOf(time, a), time, error, LlmAttributes(a, session, own))
  }

  /** An MCP tool is named as the other dialects name theirs. */
  function ToolName(a: Attributes): Option<string> {
    match AttrStr(a, "function_name")
    case None => None
    case Some(name) =>
      match NonEmpty(AttrStr(a, "mcp_server_name"))
      case None => Some(name)
      case Some(server) =>
        var prefix := "mcp_" + server + "_";
        Some(if prefix <= name then "mcp__" + server + "__" + name[|prefix|..] else name)
  }

  function ToolAttributes(rec: LogRecord, session: string): Attributes {
    var a := rec.attributes;
    var b := Add(C.Common(a, session, C.OwnContext(rec)), "gen_ai.operation.name", Str("execute_tool"));
    AddIf(AddIf(AddIf(b, "gen_ai.tool.name", ToolName(a)),
                "gen_ai.tool.call.arguments", NonEmpty(AttrStr(a, "function_args"))),
          "mcp.server.name", NonEmpty(AttrStr(a, "mcp_server_name")))
  }

  function ToolStatus(a: Attributes): Option<string> {
    if AttrStr(a, "decision") == Some("reject") then Some("rejected")
    else if AttrStr(a, "success") == Some("false") then Some(AttrStr(a, "error_type").UnwrapOr("tool failed"))
    else None
  }

  function ToolSpan(derive: Derive, rec: LogRecord, session: string, s: Session): SpanDraft {
    var a, time, place := rec.attributes, RecordTime(rec), PlacementIn(derive, rec, session, s);
    SpanDraft(place.traceId, derive(8, ["gemini_cli.tool", session, Decimal(time), ToolName(a).UnwrapOr("")]), place.parent,
              TOOL_SPAN, C.StartOf(time, a), time, ToolStatus(a), ToolAttributes(rec, session))
  }

  function ApiError(a: Attributes): string {
    var error, message := AttrStr(a, "error"), AttrStr(a, "error.message");
    if error.Some? then error.value
    else if message.Some? then message.value
    else AttrStr(a, "error_type").UnwrapOr("API request failed")
  }

  /** What one record becomes, and what its session remembers of it. */
  function React(derive: Derive, e: Entry, s: Session): Reaction<Session, Mapping> {
    var rec, a, session := e.rec, e.rec.attributes, SessionId(e);
    match EventOf(e)
    case None => Reaction(NotMine, None)
    case Some(event) =>
      if event == "gemini_cli.user_prompt" then
        var turn := TurnOf(derive, rec, session);
        Reaction(Made(PromptSpan(rec, session, turn)), Some(s.(turn := Some(turn))))
      else if event == "gemini_cli.api_response" then Reaction(Made(LlmSpan(derive, rec, session, None, s)), None)
      else if event == "gemini_cli.api_error" then Reaction(Made(LlmSpan(derive, rec, session, Some(ApiError(a)), s)), None)
      else if event == "gemini_cli.tool_call" then Reaction(Made(ToolSpan(derive, rec, session, s)), None)
      else if event == "gemini_cli.api_request" then
        Reaction(Folded, if C.OwnContext(rec).Some? then Some(s.(request := C.OwnContext(rec))) else None)
      else if event == "gen_ai.client.inference.operation.details" then Reaction(Folded, None)
      else Reaction(NotMine, None)
  }

  /** Gemini CLI as a dialect over sessions. */
  function Dialogue(derive: Derive): Dialect<Entry, Session, Mapping> {
    Dialect(SessionOf, NEW_SESSION, (e: Entry, s: Session) => React(derive, e, s))
  }

  /** One record, against the request's layer and the node's, branch by branch. */
  method MapLog(derive: Derive, memory: Recall<Session>, local: map<string, Session>, e: Entry)
    returns (m: Mapping, local': map<string, Session>)
    requires memory.Valid() && memory.initial == NEW_SESSION
    modifies memory
    ensures memory.Valid()
    ensures (memory.State(), local', m) == Handle(Dialogue(derive), old(memory.State()), local, e, memory.capacity)
  {
    hide EventName, IsMine, LlmSpan, ToolSpan, PromptSpan, TurnOf, AttrStr, SessionId, ApiError, C.OwnContext, IsMemory, Store;
    var found := EventOf(e);
    if found.None? {
      return NotMine, local;
    }
    local' := local;
    var event, rec, session := found.value, e.rec, SessionId(e);
    var recalled := memory.Get(local, session);
    var s := recalled.UnwrapOr(NEW_SESSION);
    if event == "gemini_cli.user_prompt" {
      var turn := TurnOf(derive, rec, session);
      m := Made(PromptSpan(rec, session, turn));
      local' := memory.Update(local, session, (s: Session) => s.(turn := Some(turn)));
    } else if event == "gemini_cli.api_response" {
      m := Made(LlmSpan(derive, rec, session, None, s));
    } else if event == "gemini_cli.api_error" {
      m := Made(LlmSpan(derive, rec, session, Some(ApiError(rec.attributes)), s));
    } else if event == "gemini_cli.tool_call" {
      m := Made(ToolSpan(derive, rec, session, s));
    } else if event == "gemini_cli.api_request" {
      var context := C.OwnContext(rec);
      if context.Some? {
        local' := memory.Update(local, session, (s: Session) => s.(request := context));
      }
      m := Folded;
    } else if event == "gen_ai.client.inference.operation.details" {
      m := Folded;
    } else {
      m := NotMine;
    }
  }

  // ----- Where spans sit -----

  predicate IsPrompt(e: Entry, session: string) {
    SessionOf(e) == Some(session) && EventOf(e) == Some("gemini_cli.user_prompt")
  }

  lemma OnlyPromptsChangeTurn(derive: Derive, e: Entry, s: Session)
    requires EventOf(e) != Some("gemini_cli.user_prompt")
    ensures React(derive, e, s).remembers.UnwrapOr(s).turn == s.turn
  {
    hide LlmSpan, ToolSpan, EventOf, AttrStr, ApiError, C.OwnContext;
  }

  lemma {:induction false} TurnHolds(derive: Derive, records: seq<Entry>, i: nat, j: nat, session: string)
    requires i < j <= |records| && IsPrompt(records[i], session)
    requires forall k :: i < k < j ==> !IsPrompt(records[k], session)
    ensures After(Dialogue(derive), records[..j], session).turn == Some(TurnOf(derive, records[i].rec, session))
    decreases j
  {
    hide React, TurnOf, EventOf, SessionId;
    var more := records[..j];
    assert more[..|more| - 1] == records[..j - 1] && more[|more| - 1] == records[j - 1];
    if i < j - 1 {
      TurnHolds(derive, records, i, j - 1, session);
      if SessionOf(records[j - 1]) == Some(session) {
        OnlyPromptsChangeTurn(derive, records[j - 1], After(Dialogue(derive), records[..j - 1], session));
      }
    } else {
      PromptReacts(derive, records[i], After(Dialogue(derive), records[..i], session), session);
    }
  }

  lemma PromptReacts(derive: Derive, e: Entry, s: Session, session: string)
    requires IsPrompt(e, session)
    ensures React(derive, e, s).remembers == Some(s.(turn := Some(TurnOf(derive, e.rec, session))))
    ensures React(derive, e, s).out == Made(PromptSpan(e.rec, session, TurnOf(derive, e.rec, session)))
  {
    hide TurnOf, PromptSpan, AttrStr, EventName;
  }

  lemma SpanPlacement(derive: Derive, e: Entry, s: Session, session: string)
    requires SessionOf(e) == Some(session) && EventOf(e) != Some("gemini_cli.user_prompt")
    ensures React(derive, e, s).out.Made? ==>
              var span, place := React(derive, e, s).out.span, PlacementIn(derive, e.rec, session, s);
              span.traceId == place.traceId && span.parent == place.parent && span.start <= span.end
  {
    hide LlmAttributes, ToolAttributes, PlacementIn, AttrStr, EventName, ApiError, C.OwnContext, C.SaturatingMul, AttrU64, ToolName, ToolStatus;
  }

  lemma {:induction false} OutputAt(derive: Derive, records: seq<Entry>, j: nat)
    requires j < |records|
    ensures |Outputs(Dialogue(derive), records)| == |records|
    ensures Outputs(Dialogue(derive), records)[j] ==
            React(derive, records[j], Known(Dialogue(derive), records[..j], records[j])).out
    decreases |records|
  {
    hide React, After;
    var front := records[..|records| - 1];
    if j < |records| - 1 {
      OutputAt(derive, front, j);
      assert front[..j] == records[..j];
    } else if front != [] {
      OutputAt(derive, front, 0);
    }
  }

  /**
   * However a stream is cut into export requests, from a prompt to the session's next every other span of
   * the session sits in the prompt's trace, directly under its marker, and none ends before it starts.
   */
  lemma TurnIsOneTrace(derive: Derive, requests: seq<seq<Entry>>, sessions: set<string>, capacity: nat,
                       i: nat, j: nat, session: string)
    requires Within(Dialogue(derive), Concat(requests), sessions) && "" !in sessions && |sessions| <= capacity
    requires var records := Concat(requests);
             && i < j < |records| && IsPrompt(records[i], session) && SessionOf(records[j]) == Some(session)
             && forall k :: i < k <= j ==> !IsPrompt(records[k], session)
    ensures var outs := HandleAll(Dialogue(derive), Memory(map[], []), requests, capacity).1;
            && |outs| == |Concat(requests)|
            && outs[i].Made? && outs[i].span.name == PROMPT_SPAN && outs[i].span.parent == []
            && (outs[j].Made? ==> outs[j].span.traceId == outs[i].span.traceId && outs[j].span.parent == outs[i].span.spanId
                                  && outs[j].span.start <= outs[j].span.end)
  {
    hide React, After, EventOf, SessionId, HandleAll, Outputs;
    var records := Concat(requests);
    SplittingChangesNothing(Dialogue(derive), requests, sessions, capacity);
    OutputAt(derive, records, i);
    OutputAt(derive, records, j);
    PromptReacts(derive, records[i], After(Dialogue(derive), records[..i], session), session);
    TurnHolds(derive, records, i, j, session);
    assert !IsPrompt(records[j], session);
    SpanPlacement(derive, records[j], After(Dialogue(derive), records[..j], session), session);
  }
}
