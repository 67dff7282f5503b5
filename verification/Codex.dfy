/** Codex CLI's log events mapped to spans, with what is remembered of each conversation (src/codex.rs). */
module Codex {
  import opened Wrappers
  import opened Numerals
  import opened Otlp
  import opened SessionMemory

  const LLM_SPAN := "codex.llm_request"
  const TOOL_SPAN := "codex.tool"
  const PROMPT_SPAN := "codex.user_prompt"
  const REFUSED_KEPT: nat := 16

  /** Where a turn's spans sit: its trace, and the prompt marker they hang under. */
  datatype Place = Place(traceId: Bytes, parent: Bytes)

  datatype Request = Request(traceId: Bytes, spanId: Bytes, start: nat)

  datatype Refusal = Refusal(call: string, why: string)

  /** What is remembered about one conversation between records. */
  datatype Conversation = Conversation(
    turn: Option<Place>,
    request: Option<Request>,
    provider: Option<string>,
    refused: seq<Refusal>)

  const NEW_CONVERSATION := Conversation(None, None, None, [])

  /** What is not modelled further: the id hash (of a given length), and the exit code read from a tool's output. */
  datatype Env = Env(derive: (nat, seq<string>) -> Bytes, exitCode: Attributes -> Option<int>)

  predicate IsMine(ctx: Context) {
    (ctx.scopeName.Some? && "codex_otel" <= ctx.scopeName.value) ||
    (ctx.serviceName.Some? && "codex" <= ctx.serviceName.value)
  }

  /** The event, when the record is Codex's. */
  function EventOf(e: Entry): Option<string> {
    match EventName(e.rec)
    case Some(name) => if IsMine(e.ctx) && "codex." <= name then Some(name[6..]) else None
    case None => None
  }

  function ConversationId(e: Entry): string {
    AttrStr(e.rec.attributes, "conversation.id").UnwrapOr("")
  }

  function Session(e: Entry): Option<string> {
    if EventOf(e).Some? then Some(ConversationId(e)) else None
  }

  predicate Contains(s: string, part: string) {
    exists i :: 0 <= i <= |s| && part <= s[i..]
  }

  function Lower(s: string): string {
    seq(|s|, i requires 0 <= i < |s| => if 'A' <= s[i] <= 'Z' then (s[i] as int + 32) as char else s[i])
  }

  function SaturatingMul(a: nat, b: nat): nat {
    if a * b > U64_MAX then U64_MAX else a * b
  }

  /** An event is logged when its operation ends. */
  function StartOf(time: nat, a: Attributes): nat {
    var took := SaturatingMul(AttrU64(a, "duration_ms").UnwrapOr(0), 1_000_000);
    if took > time then 0 else time - took
  }

  function RequestError(event: string, a: Attributes): Option<string> {
    var message := NonEmpty(AttrStr(a, "error.message"));
    if message.Some? then message
    else if event == "websocket_request" then
      if AttrStr(a, "success") == Some("false") then Some("websocket request failed") else None
    else match AttrU64(a, "http.response.status_code")
      case Some(code) => if 200 <= code < 300 then None else Some("HTTP " + Decimal(code))
      case None => Some("no response")
  }

  function OwnContext(rec: LogRecord): Option<Place> {
    match (TraceOf(rec), SpanOf(rec))
    case (Some(t), Some(s)) => Some(Place(t, s))
    case _ => None
  }

  function PlacementIn(env: Env, c: Conversation, conv: string): Place {
    c.turn.UnwrapOr(Place(env.derive(16, ["codex.trace", conv]), []))
  }

  function Common(a: Attributes, conv: string, own: Option<Place>): Attributes {
    var placed := match own
      case None => a
      case Some(p) =>
        Add(Add(a, "evald.otel.trace_id", Str(EncodeHex(p.traceId))), "evald.otel.span_id", Str(EncodeHex(p.parent)));
    Add(AddIf(placed, "gen_ai.conversation.id", NonEmpty(Some(conv))), "evald.source", Str("log"))
  }

  function AddCount(attrs: Attributes, key: string, count: Option<nat>): Attributes {
    match count
    case None => attrs
    case Some(n) => Add(attrs, key, Int(AsI64(n)))
  }

  function LlmAttributes(a: Attributes, conv: string, own: Option<Place>, provider: Option<string>): Attributes {
    var b := AddIf(Add(Common(a, conv, own), "gen_ai.operation.name", Str("chat")), "gen_ai.provider.name", provider);
    var model := AttrStr(a, "model");
    var c := AddIf(AddIf(b, "gen_ai.request.model", model), "gen_ai.response.model", model);
    var d := AddCount(c, "gen_ai.usage.input_tokens", AttrU64(a, "input_token_count"));
    var e := AddCount(d, "gen_ai.usage.output_tokens", AttrU64(a, "output_token_count"));
    var f := AddCount(e, "gen_ai.usage.cache_read.input_tokens", AttrU64(a, "cached_token_count"));
    var g := AddCount(f, "gen_ai.usage.cache_creation.input_tokens", AttrU64(a, "cache_write_token_count"));
    var h := AddCount(g, "gen_ai.usage.reasoning.output_tokens", AttrU64(a, "reasoning_token_count"));
    AddCount(h, "gen_ai.usage.total_tokens", AttrU64(a, "tool_token_count"))
  }

  function LlmSpan(env: Env, rec: LogRecord, conv: string, error: Option<string>, c: Conversation): SpanDraft {
    var a, time, place := rec.attributes, RecordTime(rec), PlacementIn(env, c, conv);
    var (start, own) := match (OwnContext(rec), c.request)
      case (Some(own), _) => (StartOf(time, a), Some(own))
      case (None, Some(r)) =>
        (if r.start < time then r.start else time, if r.traceId != [] then Some(Place(r.traceId, r.spanId)) else None)
      case (None, None) => (time, None);
    SpanDraft(place.traceId,
              env.derive(8, ["codex.llm", conv, Decimal(time), AttrStr(a, "attempt").UnwrapOr("")]),
              place.parent, LLM_SPAN, start, time, error, LlmAttributes(a, conv, own, c.provider))
  }

  function ToolName(a: Attributes): Option<string> {
    match (AttrStr(a, "tool_name"), AttrStr(a, "tool_namespace"))
    case (Some(name), Some(ns)) => Some(if "mcp__" <= ns then ns + "__" + name else name)
    case (name, _) => name
  }

  function ToolAttributes(rec: LogRecord, conv: string): Attributes {
    var a := rec.attributes;
    var b := Add(Common(a, conv, OwnContext(rec)), "gen_ai.operation.name", Str("execute_tool"));
    var c := AddIf(AddIf(b, "gen_ai.tool.name", ToolName(a)), "gen_ai.tool.call.id", AttrStr(a, "call_id"));
    AddIf(AddIf(c, "gen_ai.tool.call.arguments", NonEmpty(AttrStr(a, "arguments"))),
          "mcp.server.name", NonEmpty(AttrStr(a, "mcp_server")))
  }

  /** The position of the oldest refusal of `call`. */
  function FirstRefusal(refused: seq<Refusal>, call: string): Option<nat> {
    if refused == [] then None
    else if refused[0].call == call then Some(0)
    else match FirstRefusal(refused[1..], call)
      case None => None
      case Some(i) => Some(i + 1)
  }

  lemma {:induction false} FirstRefusalFinds(refused: seq<Refusal>, call: string)
    ensures match FirstRefusal(refused, call)
            case None => forall i :: 0 <= i < |refused| ==> refused[i].call != call
            case Some(i) => i < |refused| && refused[i].call == call && forall j :: 0 <= j < i ==> refused[j].call != call
  {
    if refused != [] && refused[0].call != call {
      FirstRefusalFinds(refused[1..], call);
      assert forall j :: 1 <= j < |refused| ==> refused[j] == refused[1..][j - 1];
    }
  }

  function WithoutAt(refused: seq<Refusal>, i: nat): seq<Refusal>
    requires i < |refused|
  {
    refused[..i] + refused[i + 1..]
  }

  /** Why the call was refused, when that is remembered. */
  function RefusalOf(c: Conversation, call: Option<string>): Option<string> {
    match call
    case None => None
    case Some(id) =>
      FirstRefusalFinds(c.refused, id);
      match FirstRefusal(c.refused, id)
      case None => None
      case Some(i) => Some(c.refused[i].why)
  }

  /** A refusal is forgotten once its call's result has come. */
  function Settle(c: Conversation, id: string): Conversation {
    FirstRefusalFinds(c.refused, id);
    match FirstRefusal(c.refused, id)
    case None => c
    case Some(i) => c.(refused := WithoutAt(c.refused, i))
  }

  /** A refusal is remembered; past sixteen the oldest is forgotten. */
  function Refuse(c: Conversation, r: Refusal): Conversation {
    var all := c.refused + [r];
    c.(refused := if |all| > REFUSED_KEPT then all[1..] else all)
  }

  /** What the tool's own record says of how it went. */
  function OwnStatus(env: Env, a: Attributes): Option<string> {
    if AttrStr(a, "success") == Some("false") then Some("tool failed")
    else match env.exitCode(a)
      case None => None
      case Some(code) => Some("exit code " + Printed(code))
  }

  function ToolSpan(env: Env, rec: LogRecord, conv: string, c: Conversation): SpanDraft {
    var a, time, place := rec.attributes, RecordTime(rec), PlacementIn(env, c, conv);
    var call := AttrStr(a, "call_id");
    var refusal := RefusalOf(c, call);
    SpanDraft(place.traceId, env.derive(8, ["codex.tool", call.UnwrapOr(conv + "|" + Decimal(time))]), place.parent,
              TOOL_SPAN, StartOf(time, a), time, if refusal.Some? then refusal else OwnStatus(env, a),
              ToolAttributes(rec, conv))
  }

  /** The turn a prompt starts. */
  function TurnOf(env: Env, rec: LogRecord, conv: string): Place {
    var time := Decimal(RecordTime(rec));
    Place(env.derive(16, ["codex.turn", conv, time]), env.derive(8, ["codex.prompt", conv, time]))
  }

  function PromptSpan(rec: LogRecord, conv: string, turn: Place): SpanDraft {
    var time := RecordTime(rec);
    SpanDraft(turn.traceId, turn.parent, [], PROMPT_SPAN, time, time, None,
              Common(rec.attributes, conv, OwnContext(rec)))
  }

  function NewRequest(rec: LogRecord): Request {
    Request(TraceOf(rec).UnwrapOr([]), SpanOf(rec).UnwrapOr([]), StartOf(RecordTime(rec), rec.attributes))
  }

  /** The refusal a `tool_decision` records, when it refuses a call. */
  function RefusalIn(a: Attributes): Option<Refusal> {
    var decision := AttrStr(a, "decision").UnwrapOr("");
    match AttrStr(a, "call_id")
    case Some(call) =>
      if "approved" <= decision then None
      else Some(Refusal(call, decision + " (" + AttrStr(a, "source").UnwrapOr("unknown") + ")"))
    case None => None
  }

  predicate EndsCall(a: Attributes) {
    AttrStr(a, "event.kind") in {None, Some("response.completed"), Some("response.failed")}
  }

  /** What one record becomes, and what its conversation remembers of it. */
  function React(env: Env, e: Entry, c: Conversation): Reaction<Conversation, Mapping> {
    var rec, a, conv := e.rec, e.rec.attributes, ConversationId(e);
    match EventOf(e)
    case None => Reaction(NotMine, None)
    case Some(event) =>
      if event == "conversation_starts" then
        var provider := NonEmpty(AttrStr(a, "provider_name"));
        Reaction(Folded, if provider.Some? then Some(c.(provider := Some(Lower(provider.value)))) else None)
      else if event == "user_prompt" then
        var turn := TurnOf(env, rec, conv);
        Reaction(Made(PromptSpan(rec, conv, turn)), Some(c.(turn := Some(turn))))
      else if event == "api_request" && AttrStr(a, "endpoint").Some? && !Contains(AttrStr(a, "endpoint").value, "responses") then
        Reaction(Folded, None)
      else if event == "api_request" || event == "websocket_request" then
        match RequestError(event, a)
        case Some(message) => Reaction(Made(LlmSpan(env, rec, conv, Some(message), c)), None)
        case None => Reaction(Folded, Some(c.(request := Some(NewRequest(rec)))))
      else if event == "sse_event" then
        var error := AttrStr(a, "error.message");
        if error.Some? && EndsCall(a) then
          Reaction(Made(LlmSpan(env, rec, conv, error, c)), None)
        else if AttrStr(a, "event.kind") == Some("response.completed") && AttrU64(a, "input_token_count").Some? then
          Reaction(Made(LlmSpan(env, rec, conv, None, c)), None)
        else Reaction(Folded, None)
      else if event == "tool_decision" then
        match RefusalIn(a)
        case Some(r) => Reaction(Folded, Some(Refuse(c, r)))
        case None => Reaction(Folded, None)
      else if event == "tool_result" then
        var call := AttrStr(a, "call_id");
        Reaction(Made(ToolSpan(env, rec, conv, c)),
                 if RefusalOf(c, call).Some? then Some(Settle(c, call.value)) else None)
      else Reaction(NotMine, None)
  }

  /** Codex as a dialect over conversations. */
  function Dialogue(env: Env): Dialect<Entry, Conversation, Mapping> {
    Dialect(Session, NEW_CONVERSATION, (e: Entry, c: Conversation) => React(env, e, c))
  }

  /**
   * One record, against the request's layer and the node's. Every branch of the event is here;
   * what it makes and what it remembers is what [React] says of the conversation recalled.
   */
  method MapLog(env: Env, memory: Recall<Conversation>, local: map<string, Conversation>, e: Entry)
    returns (m: Mapping, local': map<string, Conversation>)
    requires memory.Valid() && memory.initial == NEW_CONVERSATION
    modifies memory
    ensures memory.Valid()
    ensures (memory.State(), local', m) == Handle(Dialogue(env), old(memory.State()), local, e, memory.capacity)
  {
    hide EventName, IsMine, StartOf, RequestError, LlmSpan, ToolSpan, PromptSpan, NewRequest, TurnOf, RefusalIn,
         Refuse, Settle, EndsCall, Contains, AttrStr, AttrU64, NonEmpty, Lower, ConversationId, IsMemory, Store;
    var found := EventOf(e);
    if found.None? {
      return NotMine, local;
    }
    local' := local;
    var event, rec, a, conv := found.value, e.rec, e.rec.attributes, ConversationId(e);
    var recalled := memory.Get(local, conv);
    var c := recalled.UnwrapOr(NEW_CONVERSATION);
    if event == "conversation_starts" {
      var provider := NonEmpty(AttrStr(a, "provider_name"));
      if provider.Some? {
        local' := memory.Update(local, conv, (c: Conversation) => c.(provider := Some(Lower(provider.value))));
      }
      m := Folded;
    } else if event == "user_prompt" {
      var turn := TurnOf(env, rec, conv);
      m := Made(PromptSpan(rec, conv, turn));
      local' := memory.Update(local, conv, (c: Conversation) => c.(turn := Some(turn)));
    } else if event == "api_request" && AttrStr(a, "endpoint").Some? && !Contains(AttrStr(a, "endpoint").value, "responses") {
      m := Folded;
    } else if event == "api_request" || event == "websocket_request" {
      var error := RequestError(event, a);
      if error.Some? {
        m := Made(LlmSpan(env, rec, conv, error, c));
      } else {
        var request := NewRequest(rec);
        local' := memory.Update(local, conv, (c: Conversation) => c.(request := Some(request)));
        m := Folded;
      }
    } else if event == "sse_event" {
      var error := AttrStr(a, "error.message");
      if error.Some? && EndsCall(a) {
        m := Made(LlmSpan(env, rec, conv, error, c));
      } else if AttrStr(a, "event.kind") == Some("response.completed") && AttrU64(a, "input_token_count").Some? {
        m := Made(LlmSpan(env, rec, conv, None, c));
      } else {
        m := Folded;
      }
    } else if event == "tool_decision" {
      var refusal := RefusalIn(a);
      if refusal.Some? {
        local' := memory.Update(local, conv, (c: Conversation) => Refuse(c, refusal.value));
      }
      m := Folded;
    } else if event == "tool_result" {
      m := Made(ToolSpan(env, rec, conv, c));
      var call := AttrStr(a, "call_id");
      if call.Some? && RefusalOf(c, call).Some? {
        local' := memory.Update(local, conv, (c: Conversation) => Settle(c, call.value));
      }
    } else {
      m := NotMine;
    }
  }
}
