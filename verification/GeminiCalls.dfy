/** What the records of Gemini CLI's model and tool calls become (src/gemini_cli.rs), in every stream and however it is exported. */
module GeminiCalls {
  import opened Wrappers
  import opened Numerals
  import opened Otlp
  import opened SessionMemory
  import opened GeminiCli
  import C = Codex
  import K = CodexCalls

  /** Gemini CLI's records come from its service or under its scope. */
  lemma EventIs(e: Entry, event: string)
    ensures EventOf(e) == Some(event) <==>
              && EventName(e.rec) == Some(event)
              && (e.ctx.serviceName == Some("gemini-cli") || e.ctx.scopeName == Some("gemini-cli"))
  {
    hide EventName;
  }

  // ----- Attributes that are added -----

  /** What went in: the prompt, and what tools put to it. */
  function UsedTokens(a: Attributes): Option<Value> {
    var n := AttrU64(a, "input_token_count");
    if n.None? then None else Some(Int(AsI64(n.value + AttrU64(a, "tool_token_count").UnwrapOr(0))))
  }

  /** What a span of a model call adds to its record's attributes and to what every span carries. */
  function CallAdds(a: Attributes): seq<K.Added> {
    [ K.Added("gen_ai.operation.name", Some(Str("chat"))),
      K.Added("gen_ai.provider.name",
              Some(Str(if AttrStr(a, "auth_type") == Some("vertex-ai") then "gcp.vertex_ai" else "gcp.gemini"))),
      K.Added("gen_ai.request.model", K.StrOf(AttrStr(a, "model"))),
      K.Added("gen_ai.response.model", K.StrOf(AttrStr(a, "model"))),
      K.Added("gen_ai.usage.input_tokens", UsedTokens(a)),
      K.Added("gen_ai.usage.output_tokens", K.CountOf(a, "output_token_count")),
      K.Added("gen_ai.usage.cache_read.input_tokens", K.CountOf(a, "cached_content_token_count")),
      K.Added("gen_ai.usage.reasoning.output_tokens", K.CountOf(a, "thoughts_token_count")),
      K.Added("gen_ai.usage.total_tokens", K.CountOf(a, "total_token_count")) ]
  }

  lemma OwnKeysDiffer(a: Attributes)
    ensures K.DifferentKeys(CallAdds(a))
    ensures forall i :: 0 <= i < |CallAdds(a)| ==> !K.IsSpanKeyLength(|CallAdds(a)[i].key|)
  {
    hide K.CountOf, K.StrOf, UsedTokens, AttrStr;
    K.KeyLengths();
    K.LongKeysDiffer();
  }

  lemma CallKeysDiffer(a: Attributes, session: string, own: Option<C.Place>)
    ensures K.DifferentKeys(K.SpanAdds(session, own) + CallAdds(a))
  {
    hide *;
    K.SpanKeysDiffer(session, own);
    OwnKeysDiffer(a);
    K.JoinDiffers(K.SpanAdds(session, own), CallAdds(a));
  }

  lemma NineMore(a: Attributes, more: seq<K.Added>)
    requires |more| == 9
    ensures var b := K.OneAdded(K.OneAdded(K.OneAdded(K.OneAdded(a, more[0]), more[1]), more[2]), more[3]);
            var c := K.OneAdded(K.OneAdded(K.OneAdded(b, more[4]), more[5]), more[6]);
            K.Extended(a, more) == K.OneAdded(K.OneAdded(c, more[7]), more[8])
  {
    hide K.OneAdded, K.Extended;
    K.FourMore(a, more);
    assert more[..9] == more;
    K.ExtendedStep(a, more, 4);
    K.ExtendedStep(a, more, 5);
    K.ExtendedStep(a, more, 6);
    K.ExtendedStep(a, more, 7);
    K.ExtendedStep(a, more, 8);
  }

  lemma TokensAdd(attrs: Attributes, a: Attributes)
    ensures C.AddCount(attrs, "gen_ai.usage.input_tokens", InputTokens(a))
         == K.OneAdded(attrs, K.Added("gen_ai.usage.input_tokens", UsedTokens(a)))
  {
    hide Add, AttrU64;
  }

  lemma ProviderAdds(attrs: Attributes, provider: string)
    ensures Add(attrs, "gen_ai.provider.name", Str(provider))
         == K.OneAdded(attrs, K.Added("gen_ai.provider.name", Some(Str(provider))))
  {
  }

  lemma ModelAdds(a: Attributes, common: Attributes)
    ensures var provider := if AttrStr(a, "auth_type") == Some("vertex-ai") then "gcp.vertex_ai" else "gcp.gemini";
            var b := Add(Add(common, "gen_ai.operation.name", Str("chat")), "gen_ai.provider.name", Str(provider));
            var more := CallAdds(a);
            AddIf(AddIf(b, "gen_ai.request.model", AttrStr(a, "model")), "gen_ai.response.model", AttrStr(a, "model"))
            == K.OneAdded(K.OneAdded(K.OneAdded(K.OneAdded(common, more[0]), more[1]), more[2]), more[3])
  {
    hide K.CountOf, UsedTokens, AttrStr, Add, AddIf, K.OneAdded;
    var provider := if AttrStr(a, "auth_type") == Some("vertex-ai") then "gcp.vertex_ai" else "gcp.gemini";
    K.OperationAdds(common, "chat");
    var b := Add(common, "gen_ai.operation.name", Str("chat"));
    ProviderAdds(b, provider);
    var c := Add(b, "gen_ai.provider.name", Str(provider));
    K.StringsAdd(c, "gen_ai.request.model", AttrStr(a, "model"));
    K.StringsAdd(AddIf(c, "gen_ai.request.model", AttrStr(a, "model")), "gen_ai.response.model", AttrStr(a, "model"));
  }

  lemma UsageAdds(a: Attributes, c: Attributes)
    ensures var more := CallAdds(a);
            && |more| == 9
            && C.AddCount(c, "gen_ai.usage.input_tokens", InputTokens(a)) == K.OneAdded(c, more[4])
            && C.AddCount(c, "gen_ai.usage.output_tokens", AttrU64(a, "output_token_count")) == K.OneAdded(c, more[5])
            && C.AddCount(c, "gen_ai.usage.cache_read.input_tokens", AttrU64(a, "cached_content_token_count")) == K.OneAdded(c, more[6])
            && C.AddCount(c, "gen_ai.usage.reasoning.output_tokens", AttrU64(a, "thoughts_token_count")) == K.OneAdded(c, more[7])
            && C.AddCount(c, "gen_ai.usage.total_tokens", AttrU64(a, "total_token_count")) == K.OneAdded(c, more[8])
  {
    hide K.CountOf, K.StrOf, UsedTokens, InputTokens, AttrStr, AttrU64, Add, AddIf, C.AddCount, K.OneAdded;
    TokensAdd(c, a);
    K.CountsAdd(c, "gen_ai.usage.output_tokens", a, "output_token_count");
    K.CountsAdd(c, "gen_ai.usage.cache_read.input_tokens", a, "cached_content_token_count");
    K.CountsAdd(c, "gen_ai.usage.reasoning.output_tokens", a, "thoughts_token_count");
    K.CountsAdd(c, "gen_ai.usage.total_tokens", a, "total_token_count");
  }

  lemma CallAddsMore(a: Attributes, session: string, own: Option<C.Place>)
    ensures LlmAttributes(a, session, own) == K.Extended(C.Common(a, session, own), CallAdds(a))
  {
    hide AttrStr, AttrU64, InputTokens, Add, AddIf, C.AddCount, C.Common, K.Extended, K.OneAdded, CallAdds;
    var common, more := C.Common(a, session, own), CallAdds(a);
    UsageAdds(a, common);
    NineMore(common, more);
    ModelAdds(a, common);
    var c := K.OneAdded(K.OneAdded(K.OneAdded(K.OneAdded(common, more[0]), more[1]), more[2]), more[3]);
    var d := K.OneAdded(c, more[4]);
    var e := K.OneAdded(d, more[5]);
    var f := K.OneAdded(e, more[6]);
    UsageAdds(a, c);
    UsageAdds(a, d);
    UsageAdds(a, e);
    UsageAdds(a, f);
    UsageAdds(a, K.OneAdded(f, more[7]));
  }

  lemma CallCarries(span: SpanDraft, rec: LogRecord, session: string, own: Option<C.Place>)
    requires span.attributes == LlmAttributes(rec.attributes, session, own)
    ensures K.CarriesAll(span, rec, K.SpanAdds(session, own) + CallAdds(rec.attributes))
  {
    hide *;
    var a, first, more := rec.attributes, K.SpanAdds(session, own), CallAdds(rec.attributes);
    K.CommonExtends(a, session, own);
    CallAddsMore(a, session, own);
    K.ExtendedAgain(a, first, more);
    CallKeysDiffer(a, session, own);
    K.ExtendedCarries(span, rec, first + more);
  }

  // ----- Tool calls -----

  /** A server's tool is called `mcp__<server>__<tool>`, from what it is called here. */
  function CalledName(a: Attributes): Option<Value> {
    var name, server := AttrStr(a, "function_name"), AttrStr(a, "mcp_server_name");
    if name.None? then None
    else if server.None? || server.value == "" || !("mcp_" + server.value + "_" <= name.value) then Some(Str(name.value))
    else Some(Str("mcp__" + server.value + "__" + name.value[5 + |server.value|..]))
  }

  function ToolAdds(a: Attributes): seq<K.Added> {
    [ K.Added("gen_ai.operation.name", Some(Str("execute_tool"))),
      K.Added("gen_ai.tool.name", CalledName(a)),
      K.Added("gen_ai.tool.call.arguments", K.FilledStr(a, "function_args")),
      K.Added("mcp.server.name", K.FilledStr(a, "mcp_server_name")) ]
  }

  lemma NameIs(a: Attributes)
    ensures K.StrOf(ToolName(a)) == CalledName(a)
  {
    hide AttrStr;
  }

  lemma ToolKeysDiffer(a: Attributes, session: string, own: Option<C.Place>)
    ensures K.DifferentKeys(K.SpanAdds(session, own) + ToolAdds(a))
  {
    hide CalledName, K.FilledStr, K.SpanAdds, K.DifferentKeys;
    K.SpanKeysDiffer(session, own);
    OwnToolKeysDiffer(a);
    K.JoinDiffers(K.SpanAdds(session, own), ToolAdds(a));
  }

  lemma OwnToolKeysDiffer(a: Attributes)
    ensures K.DifferentKeys(ToolAdds(a))
    ensures forall i :: 0 <= i < |ToolAdds(a)| ==> !K.IsSpanKeyLength(|ToolAdds(a)[i].key|)
  {
    hide CalledName, K.FilledStr;
    K.ToolKeyLengths();
  }

  lemma ToolAddsMore(a: Attributes, common: Attributes)
    ensures AddIf(AddIf(AddIf(Add(common, "gen_ai.operation.name", Str("execute_tool")), "gen_ai.tool.name", ToolName(a)),
                        "gen_ai.tool.call.arguments", NonEmpty(AttrStr(a, "function_args"))),
                  "mcp.server.name", NonEmpty(AttrStr(a, "mcp_server_name")))
         == K.Extended(common, ToolAdds(a))
  {
    hide K.Extended, Add, AddIf, K.OneAdded, AttrStr, ToolName, CalledName;
    var more := ToolAdds(a);
    K.FourMore(common, more);
    assert more[..4] == more;
    K.OperationAdds(common, "execute_tool");
    NameIs(a);
    K.FilledIs(a, "function_args");
    K.FilledIs(a, "mcp_server_name");
    var b := Add(common, "gen_ai.operation.name", Str("execute_tool"));
    K.StringsAdd(b, "gen_ai.tool.name", ToolName(a));
    var c := AddIf(b, "gen_ai.tool.name", ToolName(a));
    K.StringsAdd(c, "gen_ai.tool.call.arguments", NonEmpty(AttrStr(a, "function_args")));
    K.StringsAdd(AddIf(c, "gen_ai.tool.call.arguments", NonEmpty(AttrStr(a, "function_args"))), "mcp.server.name",
                 NonEmpty(AttrStr(a, "mcp_server_name")));
  }

  lemma OwnContextIs(rec: LogRecord)
    ensures C.OwnContext(rec) == K.OwnPlace(rec)
  {
  }

  lemma ToolCarries(span: SpanDraft, rec: LogRecord, session: string)
    requires span.attributes == ToolAttributes(rec, session)
    ensures K.CarriesAll(span, rec, K.SpanAdds(session, K.OwnPlace(rec)) + ToolAdds(rec.attributes))
  {
    hide K.Extended, Add, AddIf, AttrStr, C.Common, K.SpanAdds, ToolAdds, C.OwnContext, K.OwnPlace, K.CarriesAll, K.DifferentKeys, ToolName;
    var a, own := rec.attributes, K.OwnPlace(rec);
    OwnContextIs(rec);
    K.CommonExtends(a, session, own);
    ToolAddsMore(a, C.Common(a, session, own));
    K.ExtendedAgain(a, K.SpanAdds(session, own), ToolAdds(a));
    ToolKeysDiffer(a, session, own);
    K.ExtendedCarries(span, rec, K.SpanAdds(session, own) + ToolAdds(a));
  }

  // ----- What is known when a record comes -----

  /** A request to the model, with the context it was made in. */
  predicate Sends(e: Entry, session: string) {
    SessionOf(e) == Some(session) && EventOf(e) == Some("gemini_cli.api_request") && K.HasContext(e.rec)
  }

  ghost predicate LastSent(records: seq<Entry>, i: nat, j: nat, session: string)
    requires j <= |records|
  {
    i < j && Sends(records[i], session) && NoneSent(records, i + 1, j, session)
  }

  ghost predicate NoneSent(records: seq<Entry>, i: nat, j: nat, session: string)
    requires j <= |records|
  {
    forall k :: i <= k < j ==> !Sends(records[k], session)
  }

  /** The context of the session's last request is the one remembered. */
  ghost predicate RequestIs(records: seq<Entry>, j: nat, session: string, request: Option<C.Place>)
    requires j <= |records|
  {
    && (forall i: nat :: LastSent(records, i, j, session) ==> request == K.OwnPlace(records[i].rec))
    && (NoneSent(records, 0, j, session) ==> request == None)
  }

  lemma RequestAfterOne(derive: Derive, e: Entry, s: Session, session: string)
    requires SessionOf(e) == Some(session)
    ensures React(derive, e, s).remembers.UnwrapOr(s).request == if Sends(e, session) then K.OwnPlace(e.rec) else s.request
  {
    hide LlmSpan, ToolSpan, PromptSpan, TurnOf, EventOf, AttrStr, ApiError, TraceOf, SpanOf;
  }

  lemma LastSentMore(records: seq<Entry>, i: nat, j: nat, session: string)
    requires j < |records|
    ensures LastSent(records, i, j + 1, session) ==>
              i <= j && if i == j then Sends(records[j], session) else LastSent(records, i, j, session) && !Sends(records[j], session)
    ensures NoneSent(records, i, j + 1, session) && i <= j ==> NoneSent(records, i, j, session) && !Sends(records[j], session)
  {
    hide Sends;
  }

  lemma RequestIsMore(records: seq<Entry>, j: nat, session: string, request: Option<C.Place>)
    requires j < |records| && RequestIs(records, j, session, request)
    ensures RequestIs(records, j + 1, session, if Sends(records[j], session) then K.OwnPlace(records[j].rec) else request)
  {
    hide Sends, K.OwnPlace, LastSent, NoneSent;
    var m := j + 1;
    forall i: nat | LastSent(records, i, m, session)
      ensures i <= j && (if Sends(records[j], session) then K.OwnPlace(records[j].rec) else request) == K.OwnPlace(records[i].rec)
    {
      LastSentMore(records, i, j, session);
    }
    LastSentMore(records, 0, j, session);
  }

  lemma AfterOne(derive: Derive, records: seq<Entry>, j: nat, session: string)
    requires j < |records|
    ensures var s := After(Dialogue(derive), records[..j], session);
            After(Dialogue(derive), records[..j + 1], session) ==
            if SessionOf(records[j]) == Some(session) then React(derive, records[j], s).remembers.UnwrapOr(s) else s
  {
    hide React, SessionOf;
    var more := records[..j + 1];
    assert more[..|more| - 1] == records[..j];
  }

  lemma {:induction false} RequestHolds(derive: Derive, records: seq<Entry>, j: nat, session: string)
    requires j <= |records|
    ensures RequestIs(records, j, session, After(Dialogue(derive), records[..j], session).request)
    decreases j
  {
    hide React, Sends, After, SessionOf, RequestIs;
    if j == 0 {
      NothingIsRemembered(derive, records, session);
    } else {
      var before := After(Dialogue(derive), records[..j - 1], session);
      RequestHolds(derive, records, j - 1, session);
      AfterOne(derive, records, j - 1, session);
      RequestIsMore(records, j - 1, session, before.request);
      if SessionOf(records[j - 1]) == Some(session) {
        RequestAfterOne(derive, records[j - 1], before, session);
      } else {
        NotItsOwn(records[j - 1], session);
      }
    }
  }

  lemma NothingIsRemembered(derive: Derive, records: seq<Entry>, session: string)
    ensures RequestIs(records, 0, session, None) && After(Dialogue(derive), records[..0], session) == NEW_SESSION
  {
  }

  lemma NotItsOwn(e: Entry, session: string)
    requires SessionOf(e) != Some(session)
    ensures !Sends(e, session)
  {
  }

  // ----- Model calls -----

  /** The context a call is kept with: its record's own, else that of the session's last request with one. */
  ghost predicate KeptContext(records: seq<Entry>, j: nat, session: string, own: Option<C.Place>)
    requires j < |records|
  {
    if K.HasContext(records[j].rec) then own == K.OwnPlace(records[j].rec) else RequestIs(records, j, session, own)
  }

  /** The span of the model call that the record at `j` ends. */
  ghost predicate IsCall(derive: Derive, records: seq<Entry>, j: nat, session: string, error: Option<string>, span: SpanDraft)
    requires j < |records|
  {
    var rec := records[j].rec;
    && span.name == "gemini_cli.llm_request" && span.start == K.Began(rec) && span.end == RecordTime(rec) && span.error == error
    && span.spanId == derive(8, ["gemini_cli.llm", session, Decimal(RecordTime(rec)), AttrStr(rec.attributes, "model").UnwrapOr("")])
    && exists own :: KeptContext(records, j, session, own)
                     && K.CarriesAll(span, rec, K.SpanAdds(session, own) + CallAdds(rec.attributes))
  }

  function ContextFor(rec: LogRecord, request: Option<C.Place>): Option<C.Place> {
    if K.HasContext(rec) then K.OwnPlace(rec) else request
  }

  lemma CallSpanIs(derive: Derive, rec: LogRecord, session: string, error: Option<string>, s: Session)
    requires RecordTime(rec) <= U64_MAX
    ensures var span := LlmSpan(derive, rec, session, error, s);
            && span.name == "gemini_cli.llm_request" && span.start == K.Began(rec) && span.end == RecordTime(rec) && span.error == error
            && span.spanId == derive(8, ["gemini_cli.llm", session, Decimal(RecordTime(rec)), AttrStr(rec.attributes, "model").UnwrapOr("")])
            && span.attributes == LlmAttributes(rec.attributes, session, ContextFor(rec, s.request))
  {
    hide LlmAttributes, TraceOf, SpanOf, C.StartOf, PlacementIn, AttrStr, K.Began, RecordTime;
    K.StartIsBegan(rec);
  }

  lemma CallSpanIsCall(derive: Derive, records: seq<Entry>, j: nat, session: string, error: Option<string>, s: Session)
    requires j < |records| && K.TimesFit(records) && RequestIs(records, j, session, s.request)
    ensures IsCall(derive, records, j, session, error, LlmSpan(derive, records[j].rec, session, error, s))
  {
    hide LlmSpan, RequestIs, K.CarriesAll, K.SpanAdds, CallAdds, LlmAttributes, K.OwnPlace, RecordTime, K.Began, AttrStr;
    var rec := records[j].rec;
    CallSpanIs(derive, rec, session, error, s);
    CallCarries(LlmSpan(derive, rec, session, error, s), rec, session, ContextFor(rec, s.request));
  }

  // ----- In every stream -----

  function Exported(derive: Derive, requests: seq<seq<Entry>>, capacity: nat): seq<Mapping> {
    HandleAll(Dialogue(derive), Memory(map[], []), requests, capacity).1
  }

  /** Every Gemini CLI record of the stream belongs to one of at most `capacity` named sessions. */
  predicate Fits(requests: seq<seq<Entry>>, sessions: set<string>, capacity: nat) {
    && "" !in sessions && |sessions| <= capacity
    && forall i :: 0 <= i < |Concat(requests)| && SessionOf(Concat(requests)[i]).Some? ==> SessionOf(Concat(requests)[i]).value in sessions
  }

  lemma MadeOf(derive: Derive, requests: seq<seq<Entry>>, sessions: set<string>, capacity: nat, j: nat, session: string)
    requires Fits(requests, sessions, capacity) && j < |Concat(requests)| && SessionOf(Concat(requests)[j]) == Some(session)
    ensures |Exported(derive, requests, capacity)| == |Concat(requests)|
    ensures SessionId(Concat(requests)[j]) == session
    ensures Exported(derive, requests, capacity)[j]
         == React(derive, Concat(requests)[j], After(Dialogue(derive), Concat(requests)[..j], session)).out
  {
    hide React, After, EventOf, Outputs, HandleAll, SessionId;
    SplittingChangesNothing(Dialogue(derive), requests, sessions, capacity);
    OutputAt(derive, Concat(requests), j);
  }

  lemma SpanOfCall(derive: Derive, records: seq<Entry>, j: nat, session: string, error: Option<string>)
    requires j < |records| && K.TimesFit(records)
    ensures var s := After(Dialogue(derive), records[..j], session);
            IsCall(derive, records, j, session, error, LlmSpan(derive, records[j].rec, session, error, s))
  {
    hide *;
    RequestHolds(derive, records, j, session);
    CallSpanIsCall(derive, records, j, session, error, After(Dialogue(derive), records[..j], session));
  }

  /** Why a request failed: the first of these that the record has. */
  predicate IsReason(a: Attributes, why: string) {
    if AttrStr(a, "error").Some? then why == AttrStr(a, "error").value
    else if AttrStr(a, "error.message").Some? then why == AttrStr(a, "error.message").value
    else if AttrStr(a, "error_type").Some? then why == AttrStr(a, "error_type").value
    else why == "API request failed"
  }

  lemma CallReacts(derive: Derive, e: Entry, s: Session)
    ensures EventOf(e) == Some("gemini_cli.api_response") ==>
              React(derive, e, s).out == Made(LlmSpan(derive, e.rec, SessionId(e), None, s))
    ensures EventOf(e) == Some("gemini_cli.api_error") ==>
              React(derive, e, s).out == Made(LlmSpan(derive, e.rec, SessionId(e), Some(ApiError(e.rec.attributes)), s))
  {
    hide EventOf, LlmSpan, ToolSpan, PromptSpan, TurnOf, ApiError, SessionId, C.OwnContext;
  }

  lemma ErrorIsReason(a: Attributes)
    ensures IsReason(a, ApiError(a))
  {
    hide AttrStr;
  }

  /** A response is one span of a model call, with its tokens and without an error. */
  lemma ResponseIsASpan(derive: Derive, requests: seq<seq<Entry>>, sessions: set<string>, capacity: nat, j: nat, session: string)
    requires Fits(requests, sessions, capacity) && K.TimesFit(Concat(requests))
    requires j < |Concat(requests)| && SessionOf(Concat(requests)[j]) == Some(session)
    requires EventOf(Concat(requests)[j]) == Some("gemini_cli.api_response")
    ensures var outs := Exported(derive, requests, capacity);
            |outs| == |Concat(requests)| && outs[j].Made? && IsCall(derive, Concat(requests), j, session, None, outs[j].span)
  {
    hide React, Exported, After, EventOf, LlmSpan, IsCall, Fits, K.TimesFit, SessionOf;
    MadeOf(derive, requests, sessions, capacity, j, session);
    CallReacts(derive, Concat(requests)[j], After(Dialogue(derive), Concat(requests)[..j], session));
    SpanOfCall(derive, Concat(requests), j, session, None);
  }

  /** An API error is one span of a model call, with the reason as its error. */
  lemma ErrorIsASpan(derive: Derive, requests: seq<seq<Entry>>, sessions: set<string>, capacity: nat, j: nat, session: string)
    requires Fits(requests, sessions, capacity) && K.TimesFit(Concat(requests))
    requires j < |Concat(requests)| && SessionOf(Concat(requests)[j]) == Some(session)
    requires EventOf(Concat(requests)[j]) == Some("gemini_cli.api_error")
    ensures var outs := Exported(derive, requests, capacity);
            && |outs| == |Concat(requests)| && outs[j].Made? && outs[j].span.error.Some?
            && IsReason(Concat(requests)[j].rec.attributes, outs[j].span.error.value)
            && IsCall(derive, Concat(requests), j, session, outs[j].span.error, outs[j].span)
  {
    hide React, Exported, After, EventOf, LlmSpan, IsCall, Fits, K.TimesFit, SessionOf, IsReason, ApiError;
    var a := Concat(requests)[j].rec.attributes;
    MadeOf(derive, requests, sessions, capacity, j, session);
    CallReacts(derive, Concat(requests)[j], After(Dialogue(derive), Concat(requests)[..j], session));
    SpanOfCall(derive, Concat(requests), j, session, Some(ApiError(a)));
    CallError(derive, Concat(requests), j, session, Some(ApiError(a)), Exported(derive, requests, capacity)[j].span);
    ErrorIsReason(a);
  }

  lemma CallError(derive: Derive, records: seq<Entry>, j: nat, session: string, error: Option<string>, span: SpanDraft)
    requires j < |records| && IsCall(derive, records, j, session, error, span)
    ensures span.error == error
  {
    hide KeptContext, K.CarriesAll, K.SpanAdds, CallAdds;
  }

  /** How a tool call went: rejected, failed for a reason or without one, or well. */
  predicate IsToolStatus(a: Attributes, error: Option<string>) {
    if AttrStr(a, "decision") == Some("reject") then error == Some("rejected")
    else if AttrStr(a, "success") == Some("false") then
      error == if AttrStr(a, "error_type").Some? then AttrStr(a, "error_type") else Some("tool failed")
    else error == None
  }

  lemma ToolReacts(derive: Derive, e: Entry, s: Session)
    requires EventOf(e) == Some("gemini_cli.tool_call") && RecordTime(e.rec) <= U64_MAX
    ensures React(derive, e, s).out.Made?
    ensures var span := React(derive, e, s).out.span;
            && span.name == "gemini_cli.tool" && span.start == K.Began(e.rec) && span.end == RecordTime(e.rec)
            && span.spanId == derive(8, ["gemini_cli.tool", SessionId(e), Decimal(RecordTime(e.rec)), ToolName(e.rec.attributes).UnwrapOr("")])
            && IsToolStatus(e.rec.attributes, span.error) && span.attributes == ToolAttributes(e.rec, SessionId(e))
  {
    hide EventOf, AttrStr, ToolAttributes, C.StartOf, K.Began, RecordTime, SessionId, PlacementIn, ToolName;
    K.StartIsBegan(e.rec);
  }

  /** A tool call is one span, which took as long as the record says, under the name the other dialects would give it. */
  lemma ToolCallIsASpan(derive: Derive, requests: seq<seq<Entry>>, sessions: set<string>, capacity: nat, j: nat, session: string)
    requires Fits(requests, sessions, capacity) && K.TimesFit(Concat(requests))
    requires j < |Concat(requests)| && SessionOf(Concat(requests)[j]) == Some(session)
    requires EventOf(Concat(requests)[j]) == Some("gemini_cli.tool_call")
    ensures var rec, outs := Concat(requests)[j].rec, Exported(derive, requests, capacity);
            && |outs| == |Concat(requests)| && outs[j].Made? && outs[j].span.name == "gemini_cli.tool"
            && outs[j].span.start == K.Began(rec) && outs[j].span.end == RecordTime(rec)
            && IsToolStatus(rec.attributes, outs[j].span.error)
            && K.CarriesAll(outs[j].span, rec, K.SpanAdds(session, K.OwnPlace(rec)) + ToolAdds(rec.attributes))
  {
    hide React, Exported, After, EventOf, Fits, SessionOf, K.SpanAdds, ToolAdds, ToolAttributes, K.OwnPlace, K.CarriesAll, RecordTime,
         K.Began, IsToolStatus;
    var e := Concat(requests)[j];
    MadeOf(derive, requests, sessions, capacity, j, session);
    ToolReacts(derive, e, After(Dialogue(derive), Concat(requests)[..j], session));
    ToolCarries(Exported(derive, requests, capacity)[j].span, e.rec, session);
  }

  lemma PromptSays(derive: Derive, e: Entry, s: Session, session: string)
    requires IsPrompt(e, session)
    ensures React(derive, e, s).out.Made?
    ensures var span, time := React(derive, e, s).out.span, Decimal(RecordTime(e.rec));
            && span.name == "gemini_cli.user_prompt" && span.start == span.end == RecordTime(e.rec) && span.error == None
            && span.traceId == derive(16, ["gemini_cli.turn", session, AttrStr(e.rec.attributes, "prompt_id").UnwrapOr(""), time])
            && span.spanId == derive(8, ["gemini_cli.prompt", session, time])
            && span.attributes == C.Common(e.rec.attributes, session, None)
  {
    hide React, AttrStr, EventOf, C.Common, SessionOf, RecordTime;
    PromptReacts(derive, e, s, session);
  }

  /** A prompt is one span without a duration, and begins a trace that is named by it. */
  lemma PromptIsAMarker(derive: Derive, requests: seq<seq<Entry>>, sessions: set<string>, capacity: nat, j: nat, session: string)
    requires Fits(requests, sessions, capacity)
    requires j < |Concat(requests)| && IsPrompt(Concat(requests)[j], session)
    ensures var rec, outs := Concat(requests)[j].rec, Exported(derive, requests, capacity);
            && |outs| == |Concat(requests)| && outs[j].Made? && outs[j].span.name == "gemini_cli.user_prompt"
            && outs[j].span.start == outs[j].span.end == RecordTime(rec) && outs[j].span.error == None
            && outs[j].span.traceId
               == derive(16, ["gemini_cli.turn", session, AttrStr(rec.attributes, "prompt_id").UnwrapOr(""), Decimal(RecordTime(rec))])
            && outs[j].span.spanId == derive(8, ["gemini_cli.prompt", session, Decimal(RecordTime(rec))])
            && K.CarriesAll(outs[j].span, rec, K.SpanAdds(session, None))
  {
    hide React, Exported, After, EventOf, Fits, SessionOf, K.SpanAdds, C.Common, K.CarriesAll, K.DifferentKeys, RecordTime, AttrStr,
         K.IsSpanKeyLength, K.Extended;
    var e := Concat(requests)[j];
    MadeOf(derive, requests, sessions, capacity, j, session);
    PromptSays(derive, e, After(Dialogue(derive), Concat(requests)[..j], session), session);
    K.CommonExtends(e.rec.attributes, session, None);
    K.SpanKeysDiffer(session, None);
    K.ExtendedCarries(Exported(derive, requests, capacity)[j].span, e.rec, K.SpanAdds(session, None));
  }

  /** The events that are a span each, and those that are covered by them. */
  predicate IsASpan(event: string) {
    || event == "gemini_cli.user_prompt" || event == "gemini_cli.api_response" || event == "gemini_cli.api_error"
    || event == "gemini_cli.tool_call"
  }

  predicate IsCovered(event: string) {
    event == "gemini_cli.api_request" || event == "gen_ai.client.inference.operation.details"
  }

  lemma ReactsIf(derive: Derive, e: Entry, s: Session)
    requires EventOf(e).Some?
    ensures React(derive, e, s).out.Made? <==> IsASpan(EventOf(e).value)
    ensures React(derive, e, s).out.Folded? <==> IsCovered(EventOf(e).value)
  {
    hide EventOf, LlmSpan, ToolSpan, PromptSpan, TurnOf, ApiError, SessionId, C.OwnContext;
  }

  /** Which records are a span, which are covered by another and which are left to the logs policy. */
  lemma SpansAreTheseRecords(derive: Derive, requests: seq<seq<Entry>>, sessions: set<string>, capacity: nat, j: nat, session: string)
    requires Fits(requests, sessions, capacity)
    requires j < |Concat(requests)| && SessionOf(Concat(requests)[j]) == Some(session)
    ensures var e, outs := Concat(requests)[j], Exported(derive, requests, capacity);
            && |outs| == |Concat(requests)| && EventOf(e).Some?
            && (outs[j].Made? <==> IsASpan(EventOf(e).value)) && (outs[j].Folded? <==> IsCovered(EventOf(e).value))
  {
    hide React, Exported, After, EventOf, Fits, IsASpan, IsCovered, SessionId;
    MadeOf(derive, requests, sessions, capacity, j, session);
    ReactsIf(derive, Concat(requests)[j], After(Dialogue(derive), Concat(requests)[..j], session));
  }
}
