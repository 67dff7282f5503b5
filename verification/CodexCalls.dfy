/** What the records of Codex's model and tool calls become (src/codex.rs), in every stream and however it is exported. */
module CodexCalls {
  import opened Wrappers
  import opened Numerals
  import opened Otlp
  import opened SessionMemory
  import opened Codex
  import opened CodexRuns

  // ----- Attributes that are added -----

  datatype Added = Added(key: string, value: Option<Value>)

  /** The attributes, and those to add that they do not have. */
  function Extended(a: Attributes, more: seq<Added>): Attributes {
    if more == [] then a
    else
      var before, last := Extended(a, more[..|more| - 1]), more[|more| - 1];
      if last.value.None? then before else Add(before, last.key, last.value.value)
  }

  predicate DifferentKeys(more: seq<Added>) {
    forall i, j :: 0 <= i < j < |more| ==> more[i].key != more[j].key
  }

  lemma {:induction false} LookupJoin(a: Attributes, b: Attributes, key: string)
    ensures HasKey(a + b, key) <==> HasKey(a, key) || HasKey(b, key)
    ensures Lookup(a + b, key) == if HasKey(a, key) then Lookup(a, key) else Lookup(b, key)
  {
    if a == [] {
      assert a + b == b;
    } else {
      assert (a + b)[1..] == a[1..] + b;
      LookupJoin(a[1..], b, key);
      FirstHasKey(a, key);
      FirstHasKey(a + b, key);
    }
  }

  lemma FirstHasKey(a: Attributes, key: string)
    requires a != []
    ensures HasKey(a, key) <==> a[0].key == key || HasKey(a[1..], key)
  {
    if HasKey(a, key) {
      var i :| 0 <= i < |a| && a[i].key == key;
      assert i > 0 ==> a[1..][i - 1].key == key;
    }
    if HasKey(a[1..], key) {
      var i :| 0 <= i < |a[1..]| && a[1..][i].key == key;
      assert a[i + 1].key == key;
    }
  }

  lemma AddLooksUp(a: Attributes, key: string, value: Value, k: string)
    ensures HasKey(Add(a, key, value), k) <==> HasKey(a, k) || k == key
    ensures Lookup(Add(a, key, value), k) == if k == key && !HasKey(a, k) then Some(value) else Lookup(a, k)
  {
    var one := [KeyValue(key, Some(value))];
    LookupJoin(a, one, k);
    OneKey(key, value, k);
    NoKeyNoValue(a, k);
  }

  lemma OneKey(key: string, value: Value, k: string)
    ensures HasKey([KeyValue(key, Some(value))], k) <==> k == key
    ensures Lookup([KeyValue(key, Some(value))], k) == if k == key then Some(value) else None
  {
    assert [KeyValue(key, Some(value))][0].key == key;
  }

  lemma {:induction false} NoKeyNoValue(a: Attributes, k: string)
    ensures !HasKey(a, k) ==> Lookup(a, k) == None
  {
    if a != [] {
      FirstHasKey(a, k);
      NoKeyNoValue(a[1..], k);
    }
  }

  /** What is looked up in the extended attributes: the record's own value, else what was to add. */
  lemma {:induction false} ExtendedLooksUp(a: Attributes, more: seq<Added>, k: string)
    requires DifferentKeys(more)
    ensures forall i :: 0 <= i < |more| && more[i].key == k ==>
              Lookup(Extended(a, more), k) == if HasKey(a, k) then Lookup(a, k) else more[i].value
    ensures (forall i :: 0 <= i < |more| ==> more[i].key != k) ==>
              Lookup(Extended(a, more), k) == Lookup(a, k) && (HasKey(Extended(a, more), k) <==> HasKey(a, k))
  {
    hide Add, HasKey, Lookup;
    if more != [] {
      var front, last := more[..|more| - 1], more[|more| - 1];
      ExtendedLooksUp(a, front, k);
      NoKeyNoValue(a, k);
      if last.value.Some? {
        AddLooksUp(Extended(a, front), last.key, last.value.value, k);
      }
      forall i | 0 <= i < |front|
        ensures front[i].key != last.key
      {
      }
    }
  }

  lemma ExtendedMore(a: Attributes, more: seq<Added>, last: Added)
    ensures Extended(a, more + [last])
         == if last.value.None? then Extended(a, more) else Add(Extended(a, more), last.key, last.value.value)
  {
    assert (more + [last])[..|more|] == more;
  }

  function StrOf(s: Option<string>): Option<Value> {
    if s.None? then None else Some(Str(s.value))
  }

  function CountOf(a: Attributes, key: string): Option<Value> {
    var n := AttrU64(a, key);
    if n.None? then None else Some(Int(AsI64(n.value)))
  }

  /** The trace context and the conversation, which every span carries. */
  function SpanAdds(conv: string, own: Option<Place>): seq<Added> {
    [ Added("evald.otel.trace_id", if own.None? then None else Some(Str(EncodeHex(own.value.traceId)))),
      Added("evald.otel.span_id", if own.None? then None else Some(Str(EncodeHex(own.value.parent)))),
      Added("gen_ai.conversation.id", if conv == "" then None else Some(Str(conv))),
      Added("evald.source", Some(Str("log"))) ]
  }

  /** What a span of a model call adds to that. */
  function CallAdds(a: Attributes, provider: Option<string>): seq<Added> {
    [ Added("gen_ai.operation.name", Some(Str("chat"))),
      Added("gen_ai.provider.name", StrOf(provider)),
      Added("gen_ai.request.model", StrOf(AttrStr(a, "model"))),
      Added("gen_ai.response.model", StrOf(AttrStr(a, "model"))),
      Added("gen_ai.usage.input_tokens", CountOf(a, "input_token_count")),
      Added("gen_ai.usage.output_tokens", CountOf(a, "output_token_count")),
      Added("gen_ai.usage.cache_read.input_tokens", CountOf(a, "cached_token_count")),
      Added("gen_ai.usage.cache_creation.input_tokens", CountOf(a, "cache_write_token_count")),
      Added("gen_ai.usage.reasoning.output_tokens", CountOf(a, "reasoning_token_count")),
      Added("gen_ai.usage.total_tokens", CountOf(a, "tool_token_count")) ]
  }

  lemma KeyLengths()
    ensures |"gen_ai.operation.name"| == 21 && |"gen_ai.provider.name"| == 20 && |"gen_ai.request.model"| == 20
    ensures |"gen_ai.response.model"| == 21 && |"gen_ai.usage.input_tokens"| == 25 && |"gen_ai.usage.output_tokens"| == 26
    ensures |"gen_ai.usage.cache_read.input_tokens"| == 36 && |"gen_ai.usage.cache_creation.input_tokens"| == 40
    ensures |"gen_ai.usage.reasoning.output_tokens"| == 36 && |"gen_ai.usage.total_tokens"| == 25
  {
  }

  lemma LongKeysDiffer()
    ensures "gen_ai.provider.name" != "gen_ai.request.model" && "gen_ai.operation.name" != "gen_ai.response.model"
    ensures "gen_ai.usage.input_tokens" != "gen_ai.usage.total_tokens"
    ensures "gen_ai.usage.cache_read.input_tokens" != "gen_ai.usage.reasoning.output_tokens"
  {
    assert "gen_ai.provider.name"[19] != "gen_ai.request.model"[19];
    assert "gen_ai.operation.name"[20] != "gen_ai.response.model"[20];
    assert "gen_ai.usage.input_tokens"[16] != "gen_ai.usage.total_tokens"[16];
    assert "gen_ai.usage.cache_read.input_tokens"[25] != "gen_ai.usage.reasoning.output_tokens"[25];
  }

  predicate IsSpanKeyLength(n: nat) { n == 12 || n == 18 || n == 19 || n == 22 }

  lemma SpanKeysDiffer(conv: string, own: Option<Place>)
    ensures DifferentKeys(SpanAdds(conv, own))
    ensures forall i :: 0 <= i < |SpanAdds(conv, own)| ==> IsSpanKeyLength(|SpanAdds(conv, own)[i].key|)
  {
    hide EncodeHex;
    assert |"evald.otel.trace_id"| == 19 && |"evald.otel.span_id"| == 18 && |"gen_ai.conversation.id"| == 22 && |"evald.source"| == 12;
  }

  lemma OwnKeysDiffer(a: Attributes, provider: Option<string>)
    ensures DifferentKeys(CallAdds(a, provider))
    ensures forall i :: 0 <= i < |CallAdds(a, provider)| ==> !IsSpanKeyLength(|CallAdds(a, provider)[i].key|)
  {
    hide CountOf, StrOf, AttrStr;
    KeyLengths();
    LongKeysDiffer();
  }

  lemma JoinDiffers(first: seq<Added>, more: seq<Added>)
    requires DifferentKeys(first) && (forall i :: 0 <= i < |first| ==> IsSpanKeyLength(|first[i].key|))
    requires DifferentKeys(more) && (forall i :: 0 <= i < |more| ==> !IsSpanKeyLength(|more[i].key|))
    ensures DifferentKeys(first + more)
  {
  }

  lemma CallKeysDiffer(a: Attributes, conv: string, own: Option<Place>, provider: Option<string>)
    ensures DifferentKeys(SpanAdds(conv, own) + CallAdds(a, provider))
  {
    hide *;
    SpanKeysDiffer(conv, own);
    OwnKeysDiffer(a, provider);
    JoinDiffers(SpanAdds(conv, own), CallAdds(a, provider));
  }

  /** One more attribute of the list. */
  function OneAdded(a: Attributes, x: Added): Attributes {
    if x.value.None? then a else Add(a, x.key, x.value.value)
  }

  lemma ExtendedStep(a: Attributes, more: seq<Added>, k: nat)
    requires k < |more|
    ensures Extended(a, more[..k + 1]) == OneAdded(Extended(a, more[..k]), more[k])
  {
    hide Add;
    assert more[..k + 1] == more[..k] + [more[k]];
    ExtendedMore(a, more[..k], more[k]);
  }

  lemma ExtendedNone(a: Attributes)
    ensures Extended(a, []) == a
  {
  }

  lemma FourMore(a: Attributes, more: seq<Added>)
    requires |more| >= 4
    ensures Extended(a, more[..4]) == OneAdded(OneAdded(OneAdded(OneAdded(a, more[0]), more[1]), more[2]), more[3])
  {
    hide OneAdded, Extended;
    assert more[..0] == [];
    ExtendedNone(a);
    ExtendedStep(a, more, 0);
    ExtendedStep(a, more, 1);
    ExtendedStep(a, more, 2);
    ExtendedStep(a, more, 3);
  }

  lemma TenMore(a: Attributes, more: seq<Added>)
    requires |more| == 10
    ensures var b := OneAdded(OneAdded(OneAdded(OneAdded(a, more[0]), more[1]), more[2]), more[3]);
            var c := OneAdded(OneAdded(OneAdded(b, more[4]), more[5]), more[6]);
            Extended(a, more) == OneAdded(OneAdded(OneAdded(c, more[7]), more[8]), more[9])
  {
    hide OneAdded, Extended;
    FourMore(a, more);
    assert more[..10] == more;
    ExtendedStep(a, more, 4);
    ExtendedStep(a, more, 5);
    ExtendedStep(a, more, 6);
    ExtendedStep(a, more, 7);
    ExtendedStep(a, more, 8);
    ExtendedStep(a, more, 9);
  }

  lemma {:induction false} ExtendedAgain(a: Attributes, first: seq<Added>, more: seq<Added>)
    ensures Extended(a, first + more) == Extended(Extended(a, first), more)
  {
    if more == [] {
      assert first + more == first;
    } else {
      var front, last := more[..|more| - 1], more[|more| - 1];
      assert (first + more)[..|first + more| - 1] == first + front && (first + more)[|first + more| - 1] == last;
      ExtendedAgain(a, first, front);
    }
  }

  lemma StringsAdd(a: Attributes, key: string, s: Option<string>)
    ensures AddIf(a, key, s) == OneAdded(a, Added(key, StrOf(s)))
  {
  }

  lemma CountsAdd(attrs: Attributes, key: string, a: Attributes, from: string)
    ensures AddCount(attrs, key, AttrU64(a, from)) == OneAdded(attrs, Added(key, CountOf(a, from)))
  {
  }

  lemma CommonExtends(a: Attributes, conv: string, own: Option<Place>)
    ensures Common(a, conv, own) == Extended(a, SpanAdds(conv, own))
  {
    hide Extended, Add, EncodeHex;
    var more := SpanAdds(conv, own);
    assert more[..4] == more;
    FourMore(a, more);
  }

  lemma OperationAdds(a: Attributes, operation: string)
    ensures Add(a, "gen_ai.operation.name", Str(operation)) == OneAdded(a, Added("gen_ai.operation.name", Some(Str(operation))))
  {
  }

  lemma ModelAdds(a: Attributes, common: Attributes, provider: Option<string>)
    ensures var more := CallAdds(a, provider);
            var b := AddIf(Add(common, "gen_ai.operation.name", Str("chat")), "gen_ai.provider.name", provider);
            AddIf(AddIf(b, "gen_ai.request.model", AttrStr(a, "model")), "gen_ai.response.model", AttrStr(a, "model"))
            == OneAdded(OneAdded(OneAdded(OneAdded(common, more[0]), more[1]), more[2]), more[3])
  {
    hide CountOf, StrOf, AttrStr, AttrU64, Add, AddIf, AddCount, OneAdded;
    var model := AttrStr(a, "model");
    OperationAdds(common, "chat");
    var b := Add(common, "gen_ai.operation.name", Str("chat"));
    StringsAdd(b, "gen_ai.provider.name", provider);
    var c := AddIf(b, "gen_ai.provider.name", provider);
    StringsAdd(c, "gen_ai.request.model", model);
    StringsAdd(AddIf(c, "gen_ai.request.model", model), "gen_ai.response.model", model);
  }

  lemma UsageAdds(a: Attributes, provider: Option<string>, c: Attributes)
    ensures var more := CallAdds(a, provider);
            && AddCount(c, "gen_ai.usage.input_tokens", AttrU64(a, "input_token_count")) == OneAdded(c, more[4])
            && AddCount(c, "gen_ai.usage.output_tokens", AttrU64(a, "output_token_count")) == OneAdded(c, more[5])
            && AddCount(c, "gen_ai.usage.cache_read.input_tokens", AttrU64(a, "cached_token_count")) == OneAdded(c, more[6])
            && AddCount(c, "gen_ai.usage.cache_creation.input_tokens", AttrU64(a, "cache_write_token_count")) == OneAdded(c, more[7])
            && AddCount(c, "gen_ai.usage.reasoning.output_tokens", AttrU64(a, "reasoning_token_count")) == OneAdded(c, more[8])
            && AddCount(c, "gen_ai.usage.total_tokens", AttrU64(a, "tool_token_count")) == OneAdded(c, more[9])
  {
    hide CountOf, StrOf, AttrStr, AttrU64, Add, AddIf, AddCount, OneAdded;
    CountsAdd(c, "gen_ai.usage.input_tokens", a, "input_token_count");
    CountsAdd(c, "gen_ai.usage.output_tokens", a, "output_token_count");
    CountsAdd(c, "gen_ai.usage.cache_read.input_tokens", a, "cached_token_count");
    CountsAdd(c, "gen_ai.usage.cache_creation.input_tokens", a, "cache_write_token_count");
    CountsAdd(c, "gen_ai.usage.reasoning.output_tokens", a, "reasoning_token_count");
    CountsAdd(c, "gen_ai.usage.total_tokens", a, "tool_token_count");
  }

  lemma CallAddsMore(a: Attributes, conv: string, own: Option<Place>, provider: Option<string>)
    ensures LlmAttributes(a, conv, own, provider) == Extended(Common(a, conv, own), CallAdds(a, provider))
  {
    hide AttrStr, AttrU64, Add, AddIf, AddCount, Common, Extended, OneAdded, CallAdds;
    var common, more := Common(a, conv, own), CallAdds(a, provider);
    CallAddsTen(a, provider);
    TenMore(common, more);
    ModelAdds(a, common, provider);
    var c := OneAdded(OneAdded(OneAdded(OneAdded(common, more[0]), more[1]), more[2]), more[3]);
    var d := OneAdded(c, more[4]);
    var e := OneAdded(d, more[5]);
    var f := OneAdded(e, more[6]);
    var g := OneAdded(f, more[7]);
    UsageAdds(a, provider, c);
    UsageAdds(a, provider, d);
    UsageAdds(a, provider, e);
    UsageAdds(a, provider, f);
    UsageAdds(a, provider, g);
    UsageAdds(a, provider, OneAdded(g, more[8]));
  }

  lemma CallAddsTen(a: Attributes, provider: Option<string>)
    ensures |CallAdds(a, provider)| == 10
  {
    hide CountOf, StrOf, AttrStr;
  }

  lemma CallExtends(a: Attributes, conv: string, own: Option<Place>, provider: Option<string>)
    ensures LlmAttributes(a, conv, own, provider) == Extended(a, SpanAdds(conv, own) + CallAdds(a, provider))
  {
    hide *;
    CommonExtends(a, conv, own);
    CallAddsMore(a, conv, own, provider);
    ExtendedAgain(a, SpanAdds(conv, own), CallAdds(a, provider));
  }

  // ----- What a record says -----

  /** What the span says under the key: as the record does, else this. */
  predicate Carries(span: SpanDraft, rec: LogRecord, key: string, value: Option<Value>) {
    Lookup(span.attributes, key) == if HasKey(rec.attributes, key) then Lookup(rec.attributes, key) else value
  }

  ghost predicate CarriesAll(span: SpanDraft, rec: LogRecord, more: seq<Added>) {
    && (forall i :: 0 <= i < |more| ==> Carries(span, rec, more[i].key, more[i].value))
    && (forall key :: (forall i :: 0 <= i < |more| ==> more[i].key != key) ==> Carries(span, rec, key, None))
  }

  lemma CarriesKey(span: SpanDraft, rec: LogRecord, more: seq<Added>, key: string)
    requires span.attributes == Extended(rec.attributes, more) && DifferentKeys(more)
    ensures forall i :: 0 <= i < |more| && more[i].key == key ==> Carries(span, rec, key, more[i].value)
    ensures (forall i :: 0 <= i < |more| ==> more[i].key != key) ==> Carries(span, rec, key, None)
  {
    hide HasKey, Lookup, Extended;
    ExtendedLooksUp(rec.attributes, more, key);
    NoKeyNoValue(rec.attributes, key);
  }

  lemma CallCarries(span: SpanDraft, rec: LogRecord, conv: string, own: Option<Place>, provider: Option<string>)
    requires span.attributes == LlmAttributes(rec.attributes, conv, own, provider)
    ensures CarriesAll(span, rec, SpanAdds(conv, own) + CallAdds(rec.attributes, provider))
  {
    hide LlmAttributes, CallAdds, CarriesAll, Extended, DifferentKeys;
    CallExtends(rec.attributes, conv, own, provider);
    CallKeysDiffer(rec.attributes, conv, own, provider);
    ExtendedCarries(span, rec, SpanAdds(conv, own) + CallAdds(rec.attributes, provider));
  }

  /** The operation a record reports took `duration_ms` and ended at the record's time. */
  function Began(rec: LogRecord): nat {
    var took := 1_000_000 * AttrU64(rec.attributes, "duration_ms").UnwrapOr(0);
    if took <= RecordTime(rec) then RecordTime(rec) - took else 0
  }

  lemma StartIsBegan(rec: LogRecord)
    requires RecordTime(rec) <= U64_MAX
    ensures StartOf(RecordTime(rec), rec.attributes) == Began(rec)
  {
    hide AttrU64;
  }

  predicate HasContext(rec: LogRecord) { TraceOf(rec).Some? && SpanOf(rec).Some? }

  /** A request to the model. */
  predicate IsRequest(e: Entry) {
    || EventOf(e) == Some("websocket_request")
    || (EventOf(e) == Some("api_request")
        && match AttrStr(e.rec.attributes, "endpoint")
           case None => true
           case Some(endpoint) => Contains(endpoint, "responses"))
  }

  predicate IsSuccess(code: Option<nat>) { code.Some? && 200 <= code.value <= 299 }

  /** A request that failed, and why. */
  predicate RequestFails(e: Entry, why: string) {
    var a := e.rec.attributes;
    && IsRequest(e)
    && if AttrStr(a, "error.message").Some? && AttrStr(a, "error.message").value != "" then why == AttrStr(a, "error.message").value
       else if EventOf(e) == Some("websocket_request") then
         AttrStr(a, "success") == Some("false") && why == "websocket request failed"
       else
         var code := AttrU64(a, "http.response.status_code");
         !IsSuccess(code) && why == if code.None? then "no response" else "HTTP " + Decimal(code.value)
  }

  /** A stream of an answer that broke off, and why. */
  predicate StreamFails(e: Entry, why: string) {
    var a := e.rec.attributes;
    && EventOf(e) == Some("sse_event") && AttrStr(a, "error.message") == Some(why)
    && var kind := AttrStr(a, "event.kind");
       kind == None || kind == Some("response.completed") || kind == Some("response.failed")
  }

  /** The end of an answer, with its usage. */
  predicate Completes(e: Entry) {
    var a := e.rec.attributes;
    && EventOf(e) == Some("sse_event") && AttrStr(a, "event.kind") == Some("response.completed")
    && AttrStr(a, "error.message") == None && AttrU64(a, "input_token_count").Some?
  }

  /** A request of the conversation that came through. */
  ghost predicate Succeeds(e: Entry, conv: string) {
    Session(e) == Some(conv) && IsRequest(e) && forall why :: !RequestFails(e, why)
  }

  /** A session that names its provider. */
  predicate NamesProvider(e: Entry, conv: string, name: string) {
    && Session(e) == Some(conv) && EventOf(e) == Some("conversation_starts")
    && AttrStr(e.rec.attributes, "provider_name") == Some(name) && name != ""
  }

  /** Codex's records come under its scopes or from its services, and are named for it. */
  lemma EventIs(e: Entry, event: string)
    ensures EventOf(e) == Some(event) <==>
              && EventName(e.rec) == Some("codex." + event)
              && ((e.ctx.scopeName.Some? && "codex_otel" <= e.ctx.scopeName.value)
                  || (e.ctx.serviceName.Some? && "codex" <= e.ctx.serviceName.value))
  {
    hide EventName;
    var name := EventName(e.rec);
    if name.Some? && "codex." <= name.value {
      assert name.value == "codex." + name.value[6..];
    }
    assert ("codex." + event)[6..] == event;
  }

  // ----- What one record does -----

  lemma FailingIs(e: Entry, why: string)
    requires IsRequest(e)
    ensures RequestFails(e, why) <==> RequestError(EventOf(e).value, e.rec.attributes) == Some(why)
  {
    hide AttrStr, AttrU64, EventOf, Contains, Decimal;
  }

  lemma SucceedingIs(e: Entry, conv: string)
    ensures Succeeds(e, conv) <==>
              Session(e) == Some(conv) && IsRequest(e) && RequestError(EventOf(e).value, e.rec.attributes) == None
  {
    hide RequestFails, RequestError, EventOf, AttrStr, Contains;
    if IsRequest(e) {
      forall why {
        FailingIs(e, why);
      }
      if RequestError(EventOf(e).value, e.rec.attributes).Some? {
        assert RequestFails(e, RequestError(EventOf(e).value, e.rec.attributes).value);
      }
    }
  }

  lemma RequestReacts(env: Env, e: Entry, c: Conversation)
    requires IsRequest(e)
    ensures React(env, e, c) ==
            match RequestError(EventOf(e).value, e.rec.attributes)
            case Some(why) => Reaction(Made(LlmSpan(env, e.rec, ConversationId(e), Some(why), c)), None)
            case None => Reaction(Folded, Some(c.(request := Some(NewRequest(e.rec)))))
  {
    hide AttrStr, AttrU64, EventOf, Contains, RequestError, LlmSpan, NewRequest, ConversationId, Lower, NonEmpty;
  }

  lemma EndsCallIf(kind: Option<string>, a: Attributes)
    requires AttrStr(a, "event.kind") == kind
    ensures EndsCall(a) <==> kind == None || kind == Some("response.completed") || kind == Some("response.failed")
  {
    hide AttrStr;
  }

  lemma StreamReacts(env: Env, e: Entry, c: Conversation)
    requires EventOf(e) == Some("sse_event")
    ensures React(env, e, c).remembers == None
    ensures Completes(e) ==> React(env, e, c).out == Made(LlmSpan(env, e.rec, ConversationId(e), None, c))
    ensures forall why :: StreamFails(e, why) ==> React(env, e, c).out == Made(LlmSpan(env, e.rec, ConversationId(e), Some(why), c))
    ensures !Completes(e) && (forall why :: !StreamFails(e, why)) ==> React(env, e, c).out == Folded
  {
    hide AttrStr, AttrU64, EventOf, Contains, RequestError, LlmSpan, NewRequest, ConversationId, Lower, NonEmpty, EndsCall;
    var a := e.rec.attributes;
    EndsCallIf(AttrStr(a, "event.kind"), a);
    if AttrStr(a, "error.message").Some? {
      assert StreamFails(e, AttrStr(a, "error.message").value) <==> EndsCall(a);
    }
  }

  lemma OnlyRequestsAreRemembered(env: Env, e: Entry, c: Conversation)
    requires !IsRequest(e)
    ensures React(env, e, c).remembers.UnwrapOr(c).request == c.request
  {
    hide AttrStr, AttrU64, EventOf, Contains, RequestError, LlmSpan, ToolSpan, NewRequest, ConversationId, Lower, NonEmpty, RefusalOf,
         RefusalIn, FirstRefusal, EndsCall, OwnContext, RecordTime, Common;
  }

  lemma OnlyStartsName(env: Env, e: Entry, c: Conversation)
    requires EventOf(e) != Some("conversation_starts")
    ensures React(env, e, c).remembers.UnwrapOr(c).provider == c.provider
  {
    hide AttrStr, AttrU64, EventOf, Contains, RequestError, LlmSpan, ToolSpan, NewRequest, ConversationId, Lower, NonEmpty, RefusalOf,
         RefusalIn, FirstRefusal, EndsCall, OwnContext, RecordTime, Common;
  }

  lemma StartsName(env: Env, e: Entry, c: Conversation)
    requires EventOf(e) == Some("conversation_starts")
    ensures var named := NonEmpty(AttrStr(e.rec.attributes, "provider_name"));
            React(env, e, c).remembers.UnwrapOr(c).provider == if named.Some? then Some(Lower(named.value)) else c.provider
  {
    hide AttrStr, AttrU64, EventOf, Contains, RequestError, LlmSpan, ToolSpan, NewRequest, ConversationId, Lower;
  }

  // ----- What is known when a record comes -----

  /** The conversation's last request that came through before `j` is at `i`. */
  ghost predicate LastSuccess(records: seq<Entry>, i: nat, j: nat, conv: string)
    requires j <= |records|
  {
    i < j && Succeeds(records[i], conv) && NoSuccess(records, i + 1, j, conv)
  }

  ghost predicate NoSuccess(records: seq<Entry>, i: nat, j: nat, conv: string)
    requires j <= |records|
  {
    forall k :: i <= k < j ==> !Succeeds(records[k], conv)
  }

  lemma RequestAfterOne(env: Env, e: Entry, c: Conversation, conv: string)
    requires Session(e) == Some(conv)
    ensures React(env, e, c).remembers.UnwrapOr(c).request == if Succeeds(e, conv) then Some(NewRequest(e.rec)) else c.request
  {
    hide React, Succeeds, RequestError, EventOf, NewRequest, IsRequest, Session;
    SucceedingIs(e, conv);
    if IsRequest(e) {
      RequestReacts(env, e, c);
    } else {
      OnlyRequestsAreRemembered(env, e, c);
    }
  }

  /** Of two moments, one record apart. */
  lemma LastSuccessMore(records: seq<Entry>, i: nat, j: nat, conv: string)
    requires j < |records|
    ensures LastSuccess(records, i, j + 1, conv) <==>
              if i == j then Succeeds(records[j], conv) else LastSuccess(records, i, j, conv) && !Succeeds(records[j], conv)
    ensures NoSuccess(records, i, j + 1, conv) <==> i > j || (NoSuccess(records, i, j, conv) && !Succeeds(records[j], conv))
  {
    hide Succeeds;
  }

  lemma LastSuccessIsBefore(records: seq<Entry>, j: nat, conv: string)
    requires j <= |records|
    ensures forall i: nat :: LastSuccess(records, i, j, conv) ==> i < j
  {
    hide Succeeds;
  }

  /** The conversation's last request is the one remembered. */
  ghost predicate RequestIs(records: seq<Entry>, j: nat, conv: string, request: Option<Request>)
    requires j <= |records|
  {
    && (forall i: nat :: LastSuccess(records, i, j, conv) ==> request == Some(NewRequest(records[i].rec)))
    && (NoSuccess(records, 0, j, conv) ==> request == None)
  }

  lemma RequestIsMore(records: seq<Entry>, j: nat, conv: string, request: Option<Request>)
    requires j < |records| && RequestIs(records, j, conv, request)
    ensures RequestIs(records, j + 1, conv, if Succeeds(records[j], conv) then Some(NewRequest(records[j].rec)) else request)
  {
    hide Succeeds, NewRequest, LastSuccess, NoSuccess;
    var m := j + 1;
    forall i: nat | LastSuccess(records, i, m, conv)
      ensures i <= j && (if Succeeds(records[j], conv) then Some(NewRequest(records[j].rec)) else request) == Some(NewRequest(records[i].rec))
    {
      LastSuccessMore(records, i, j, conv);
      LastSuccessIsBefore(records, m, conv);
    }
    LastSuccessMore(records, 0, j, conv);
  }

  lemma {:induction false} RequestHolds(env: Env, records: seq<Entry>, j: nat, conv: string)
    requires j <= |records|
    ensures RequestIs(records, j, conv, After(Dialogue(env), records[..j], conv).request)
    decreases j
  {
    hide React, Succeeds, NewRequest, After, Session, RequestIs;
    if j == 0 {
      NothingYet(env, records, conv);
      NothingIsRemembered(records, conv);
    } else {
      var before := After(Dialogue(env), records[..j - 1], conv);
      RequestHolds(env, records, j - 1, conv);
      AfterOne(env, records, j - 1, conv);
      RequestIsMore(records, j - 1, conv, before.request);
      if Session(records[j - 1]) == Some(conv) {
        RequestAfterOne(env, records[j - 1], before, conv);
      } else {
        NotItsOwn(records[j - 1], conv);
      }
    }
  }

  lemma NothingIsRemembered(records: seq<Entry>, conv: string)
    ensures RequestIs(records, 0, conv, None)
  {
  }

  lemma NotItsOwn(e: Entry, conv: string)
    requires Session(e) != Some(conv)
    ensures !Succeeds(e, conv) && forall name :: !NamesProvider(e, conv, name)
  {
  }

  ghost predicate LastNaming(records: seq<Entry>, i: nat, j: nat, conv: string, name: string)
    requires j <= |records|
  {
    i < j && NamesProvider(records[i], conv, name) && NoNaming(records, i + 1, j, conv)
  }

  ghost predicate NoNaming(records: seq<Entry>, i: nat, j: nat, conv: string)
    requires j <= |records|
  {
    forall k, name :: i <= k < j ==> !NamesProvider(records[k], conv, name)
  }

  /** The provider last named for the conversation is the one remembered. */
  ghost predicate ProviderIs(records: seq<Entry>, j: nat, conv: string, provider: Option<string>)
    requires j <= |records|
  {
    && (forall i: nat, name :: LastNaming(records, i, j, conv, name) ==> provider == Some(Lower(name)))
    && (NoNaming(records, 0, j, conv) ==> provider == None)
  }

  lemma LastNamingMore(records: seq<Entry>, i: nat, j: nat, conv: string, name: string)
    requires j < |records|
    ensures LastNaming(records, i, j + 1, conv, name) ==>
              if i == j then NamesProvider(records[j], conv, name)
              else LastNaming(records, i, j, conv, name) && forall other :: !NamesProvider(records[j], conv, other)
    ensures NoNaming(records, i, j + 1, conv) ==>
              i > j || (NoNaming(records, i, j, conv) && forall other :: !NamesProvider(records[j], conv, other))
  {
    hide NamesProvider;
  }

  lemma ProviderIsMore(records: seq<Entry>, j: nat, conv: string, before: Option<string>, provider: Option<string>)
    requires j < |records| && ProviderIs(records, j, conv, before)
    requires forall name :: NamesProvider(records[j], conv, name) ==> provider == Some(Lower(name))
    requires (forall name :: !NamesProvider(records[j], conv, name)) ==> provider == before
    ensures ProviderIs(records, j + 1, conv, provider)
  {
    hide NamesProvider, LastNaming, NoNaming, Lower;
    var m := j + 1;
    forall i: nat, name | LastNaming(records, i, m, conv, name)
      ensures provider == Some(Lower(name))
    {
      LastNamingMore(records, i, j, conv, name);
    }
    LastNamingMore(records, 0, j, conv, "");
  }

  lemma ProviderAfterOne(env: Env, e: Entry, c: Conversation, conv: string)
    requires Session(e) == Some(conv)
    ensures var provider := React(env, e, c).remembers.UnwrapOr(c).provider;
            && (forall name :: NamesProvider(e, conv, name) ==> provider == Some(Lower(name)))
            && ((forall name :: !NamesProvider(e, conv, name)) ==> provider == c.provider)
  {
    hide React, EventOf, Lower, AttrStr, Session;
    if EventOf(e) == Some("conversation_starts") {
      StartsName(env, e, c);
      var named := NonEmpty(AttrStr(e.rec.attributes, "provider_name"));
      assert named.Some? ==> NamesProvider(e, conv, named.value);
    } else {
      OnlyStartsName(env, e, c);
    }
  }

  lemma {:induction false} ProviderHolds(env: Env, records: seq<Entry>, j: nat, conv: string)
    requires j <= |records|
    ensures ProviderIs(records, j, conv, After(Dialogue(env), records[..j], conv).provider)
    decreases j
  {
    hide React, NamesProvider, After, Session, ProviderIs;
    if j == 0 {
      NothingYet(env, records, conv);
      NothingIsNamed(records, conv);
    } else {
      var before, after := After(Dialogue(env), records[..j - 1], conv), After(Dialogue(env), records[..j], conv);
      ProviderHolds(env, records, j - 1, conv);
      AfterOne(env, records, j - 1, conv);
      if Session(records[j - 1]) == Some(conv) {
        ProviderAfterOne(env, records[j - 1], before, conv);
      } else {
        NotItsOwn(records[j - 1], conv);
      }
      ProviderIsMore(records, j - 1, conv, before.provider, after.provider);
    }
  }

  lemma NothingIsNamed(records: seq<Entry>, conv: string)
    ensures ProviderIs(records, 0, conv, None)
  {
  }

  // ----- Model calls -----

  /** Times are 64-bit fields of a record. */
  predicate TimesFit(records: seq<Entry>) {
    forall i :: 0 <= i < |records| ==> RecordTime(records[i].rec) <= U64_MAX
  }

  /**
   * When a call began: by its record's own duration, if the record has a context of its own; else when the
   * conversation's last request that came through did, if that was before; else at the record's time.
   */
  ghost predicate StartsWell(records: seq<Entry>, j: nat, conv: string, start: nat)
    requires j < |records|
  {
    var rec := records[j].rec;
    if HasContext(rec) then start == Began(rec)
    else
      && (forall i: nat :: LastSuccess(records, i, j, conv) ==>
            start == if Began(records[i].rec) < RecordTime(rec) then Began(records[i].rec) else RecordTime(rec))
      && (NoSuccess(records, 0, j, conv) ==> start == RecordTime(rec))
  }

  /** The context a call is kept with: its record's own, else that of the request it ends. */
  ghost predicate KeptContext(records: seq<Entry>, j: nat, conv: string, own: Option<Place>)
    requires j < |records|
  {
    var rec := records[j].rec;
    if HasContext(rec) then own == Some(Place(TraceOf(rec).value, SpanOf(rec).value))
    else
      && (forall i: nat :: LastSuccess(records, i, j, conv) ==>
            own == if TraceOf(records[i].rec).None? then None
                   else Some(Place(TraceOf(records[i].rec).value, SpanOf(records[i].rec).UnwrapOr([]))))
      && (NoSuccess(records, 0, j, conv) ==> own == None)
  }

  /** The span of the model call that the record at `j` ends. */
  ghost predicate IsCall(env: Env, records: seq<Entry>, j: nat, conv: string, error: Option<string>, span: SpanDraft)
    requires j < |records|
  {
    var rec := records[j].rec;
    && span.name == "codex.llm_request" && span.end == RecordTime(rec) && span.error == error
    && span.spanId == env.derive(8, ["codex.llm", conv, Decimal(RecordTime(rec)), AttrStr(rec.attributes, "attempt").UnwrapOr("")])
    && StartsWell(records, j, conv, span.start)
    && exists own, provider :: KeptContext(records, j, conv, own) && ProviderIs(records, j, conv, provider)
                               && CarriesAll(span, rec, SpanAdds(conv, own) + CallAdds(rec.attributes, provider))
  }

  function ContextFor(rec: LogRecord, request: Option<Request>): Option<Place> {
    if HasContext(rec) then Some(Place(TraceOf(rec).value, SpanOf(rec).value))
    else if request.Some? && request.value.traceId != [] then Some(Place(request.value.traceId, request.value.spanId))
    else None
  }

  function StartFor(rec: LogRecord, request: Option<Request>): nat {
    if HasContext(rec) then StartOf(RecordTime(rec), rec.attributes)
    else if request.Some? && request.value.start < RecordTime(rec) then request.value.start
    else RecordTime(rec)
  }

  lemma CallSpanIs(env: Env, rec: LogRecord, conv: string, error: Option<string>, c: Conversation)
    ensures var span := LlmSpan(env, rec, conv, error, c);
            && span.name == "codex.llm_request" && span.end == RecordTime(rec) && span.error == error
            && span.spanId == env.derive(8, ["codex.llm", conv, Decimal(RecordTime(rec)), AttrStr(rec.attributes, "attempt").UnwrapOr("")])
            && span.start == StartFor(rec, c.request)
            && span.attributes == LlmAttributes(rec.attributes, conv, ContextFor(rec, c.request), c.provider)
  {
    hide LlmAttributes, TraceOf, SpanOf, StartOf, PlacementIn, AttrStr;
  }

  lemma TraceIsLong(rec: LogRecord)
    ensures TraceOf(rec).Some? ==> TraceOf(rec).value != []
  {
  }

  lemma KeptContextIs(records: seq<Entry>, j: nat, conv: string, request: Option<Request>)
    requires j < |records| && RequestIs(records, j, conv, request)
    ensures KeptContext(records, j, conv, ContextFor(records[j].rec, request))
  {
    hide LastSuccess, NoSuccess, StartOf, TraceOf, SpanOf, RecordTime;
    var rec := records[j].rec;
    LastSuccessIsBefore(records, j, conv);
    if !HasContext(rec) {
      forall i: nat | LastSuccess(records, i, j, conv)
        ensures ContextFor(rec, request) ==
                if TraceOf(records[i].rec).None? then None
                else Some(Place(TraceOf(records[i].rec).value, SpanOf(records[i].rec).UnwrapOr([])))
      {
        TraceIsLong(records[i].rec);
      }
    }
  }

  lemma StartsWellIs(records: seq<Entry>, j: nat, conv: string, request: Option<Request>)
    requires j < |records| && RequestIs(records, j, conv, request) && TimesFit(records)
    ensures StartsWell(records, j, conv, StartFor(records[j].rec, request))
  {
    hide LastSuccess, NoSuccess, StartOf, Began, RecordTime, TraceOf, SpanOf;
    var rec := records[j].rec;
    LastSuccessIsBefore(records, j, conv);
    if HasContext(rec) {
      StartIsBegan(rec);
    } else {
      forall i: nat | LastSuccess(records, i, j, conv)
        ensures StartFor(rec, request) == if Began(records[i].rec) < RecordTime(rec) then Began(records[i].rec) else RecordTime(rec)
      {
        StartIsBegan(records[i].rec);
      }
    }
  }

  lemma CallSpanIsCall(env: Env, records: seq<Entry>, j: nat, conv: string, error: Option<string>, c: Conversation)
    requires j < |records| && TimesFit(records)
    requires RequestIs(records, j, conv, c.request) && ProviderIs(records, j, conv, c.provider)
    ensures IsCall(env, records, j, conv, error, LlmSpan(env, records[j].rec, conv, error, c))
  {
    hide LlmSpan, StartsWell, KeptContext, ProviderIs, CarriesAll, CallAdds, RequestIs, TimesFit, StartFor, ContextFor, LlmAttributes;
    var rec := records[j].rec;
    var span := LlmSpan(env, rec, conv, error, c);
    CallSpanIs(env, rec, conv, error, c);
    StartsWellIs(records, j, conv, c.request);
    KeptContextIs(records, j, conv, c.request);
    CallCarries(span, rec, conv, ContextFor(rec, c.request), c.provider);
  }

  // ----- In every stream -----

  /** What a stream makes of a record is what is made of it, given what is remembered of its conversation. */
  lemma MadeOf(env: Env, requests: seq<seq<Entry>>, sessions: set<string>, capacity: nat, j: nat, conv: string)
    requires Fits(requests, sessions, capacity) && j < |Concat(requests)| && Session(Concat(requests)[j]) == Some(conv)
    ensures |Exported(env, requests, capacity)| == |Concat(requests)|
    ensures ConversationId(Concat(requests)[j]) == conv
    ensures Exported(env, requests, capacity)[j]
         == React(env, Concat(requests)[j], After(Dialogue(env), Concat(requests)[..j], conv)).out
  {
    hide React, Exported, After, EventOf, Outputs;
    ExportedAsOneStream(env, requests, sessions, capacity);
    OutputAt(env, Concat(requests), j);
  }

  lemma SpanOfCall(env: Env, records: seq<Entry>, j: nat, conv: string, error: Option<string>)
    requires j < |records| && TimesFit(records)
    ensures var c := After(Dialogue(env), records[..j], conv);
            IsCall(env, records, j, conv, error, LlmSpan(env, records[j].rec, conv, error, c))
  {
    hide *;
    RequestHolds(env, records, j, conv);
    ProviderHolds(env, records, j, conv);
    CallSpanIsCall(env, records, j, conv, error, After(Dialogue(env), records[..j], conv));
  }

  lemma UsageIsAdded(a: Attributes, conv: string, own: Option<Place>, provider: Option<string>)
    ensures var more := SpanAdds(conv, own) + CallAdds(a, provider);
            && |more| == 14
            && more[8] == Added("gen_ai.usage.input_tokens", CountOf(a, "input_token_count"))
            && more[9] == Added("gen_ai.usage.output_tokens", CountOf(a, "output_token_count"))
  {
    hide CountOf, StrOf, AttrStr, EncodeHex;
  }

  lemma CallHasUsage(env: Env, records: seq<Entry>, j: nat, conv: string, error: Option<string>, span: SpanDraft)
    requires j < |records| && IsCall(env, records, j, conv, error, span)
    ensures var rec := records[j].rec;
            && Carries(span, rec, "gen_ai.usage.input_tokens", CountOf(rec.attributes, "input_token_count"))
            && Carries(span, rec, "gen_ai.usage.output_tokens", CountOf(rec.attributes, "output_token_count"))
  {
    hide StartsWell, KeptContext, ProviderIs, SpanAdds, CallAdds, CountOf, Carries, RecordTime;
    var rec := records[j].rec;
    var own, provider :| KeptContext(records, j, conv, own) && ProviderIs(records, j, conv, provider)
                         && CarriesAll(span, rec, SpanAdds(conv, own) + CallAdds(rec.attributes, provider));
    var more := SpanAdds(conv, own) + CallAdds(rec.attributes, provider);
    UsageIsAdded(rec.attributes, conv, own, provider);
    assert Carries(span, rec, more[8].key, more[8].value) && Carries(span, rec, more[9].key, more[9].value);
  }

  /**
   * The end of an answer with its usage is one span of a model call, without an error, with the tokens the record
   * counts, from when its request began; and so however the stream is cut into requests.
   */
  lemma CompletedCallIsASpan(env: Env, requests: seq<seq<Entry>>, sessions: set<string>, capacity: nat, j: nat, conv: string)
    requires Fits(requests, sessions, capacity) && TimesFit(Concat(requests))
    requires j < |Concat(requests)| && Session(Concat(requests)[j]) == Some(conv) && Completes(Concat(requests)[j])
    ensures var records, outs := Concat(requests), Exported(env, requests, capacity);
            && |outs| == |records| && outs[j].Made? && IsCall(env, records, j, conv, None, outs[j].span)
            && var rec := records[j].rec;
               && Carries(outs[j].span, rec, "gen_ai.usage.input_tokens", CountOf(rec.attributes, "input_token_count"))
               && Carries(outs[j].span, rec, "gen_ai.usage.output_tokens", CountOf(rec.attributes, "output_token_count"))
  {
    hide React, Exported, After, EventOf, LlmSpan, IsCall, Fits, TimesFit, Session, CountOf, Carries;
    var records := Concat(requests);
    MadeOf(env, requests, sessions, capacity, j, conv);
    StreamReacts(env, records[j], After(Dialogue(env), records[..j], conv));
    SpanOfCall(env, records, j, conv, None);
    CallHasUsage(env, records, j, conv, None, Exported(env, requests, capacity)[j].span);
  }

  /** A request that failed, or an answer that broke off, is one span of a model call with the reason as its error. */
  lemma FailedCallIsASpan(env: Env, requests: seq<seq<Entry>>, sessions: set<string>, capacity: nat, j: nat, conv: string, why: string)
    requires Fits(requests, sessions, capacity) && TimesFit(Concat(requests))
    requires j < |Concat(requests)| && Session(Concat(requests)[j]) == Some(conv)
    requires RequestFails(Concat(requests)[j], why) || StreamFails(Concat(requests)[j], why)
    ensures var records, outs := Concat(requests), Exported(env, requests, capacity);
            |outs| == |records| && outs[j].Made? && IsCall(env, records, j, conv, Some(why), outs[j].span)
  {
    hide React, Exported, After, EventOf, LlmSpan, IsCall, Fits, TimesFit, Session, RequestError, IsRequest;
    var records := Concat(requests);
    var e, c := records[j], After(Dialogue(env), records[..j], conv);
    MadeOf(env, requests, sessions, capacity, j, conv);
    if RequestFails(e, why) {
      FailingIs(e, why);
      RequestReacts(env, e, c);
    } else {
      StreamReacts(env, e, c);
    }
    SpanOfCall(env, records, j, conv, Some(why));
  }

  // ----- Tool calls, prompts, and all the rest -----

  /** What a tool is called: with its namespace when it is one of an MCP server's. */
  function CalledName(a: Attributes): Option<Value> {
    var name, namespace := AttrStr(a, "tool_name"), AttrStr(a, "tool_namespace");
    if name.None? then None
    else if namespace.Some? && "mcp__" <= namespace.value then Some(Str(namespace.value + "__" + name.value))
    else Some(Str(name.value))
  }

  function FilledStr(a: Attributes, key: string): Option<Value> {
    if AttrStr(a, key) == Some("") then None else StrOf(AttrStr(a, key))
  }

  function ToolAdds(a: Attributes): seq<Added> {
    [ Added("gen_ai.operation.name", Some(Str("execute_tool"))),
      Added("gen_ai.tool.name", CalledName(a)),
      Added("gen_ai.tool.call.id", StrOf(AttrStr(a, "call_id"))),
      Added("gen_ai.tool.call.arguments", FilledStr(a, "arguments")),
      Added("mcp.server.name", FilledStr(a, "mcp_server")) ]
  }

  function OwnPlace(rec: LogRecord): Option<Place> {
    if HasContext(rec) then Some(Place(TraceOf(rec).value, SpanOf(rec).value)) else None
  }

  lemma ToolKeysDiffer(a: Attributes, conv: string, own: Option<Place>)
    ensures DifferentKeys(SpanAdds(conv, own) + ToolAdds(a)) && DifferentKeys(SpanAdds(conv, own))
  {
    hide CalledName, FilledStr, StrOf, EncodeHex, AttrStr;
    var more := SpanAdds(conv, own) + ToolAdds(a);
    assert |more| == 9;
    ToolKeyLengths();
  }

  lemma ToolKeyLengths()
    ensures |"evald.otel.trace_id"| == 19 && |"evald.otel.span_id"| == 18 && |"gen_ai.conversation.id"| == 22
    ensures |"evald.source"| == 12 && |"gen_ai.operation.name"| == 21 && |"gen_ai.tool.name"| == 16
    ensures |"gen_ai.tool.call.id"| == 19 && |"gen_ai.tool.call.arguments"| == 26 && |"mcp.server.name"| == 15
    ensures "evald.otel.trace_id" != "gen_ai.tool.call.id"
  {
    assert "evald.otel.trace_id"[0] != "gen_ai.tool.call.id"[0];
  }

  lemma FiveMore(a: Attributes, more: seq<Added>)
    requires |more| == 5
    ensures Extended(a, more) == OneAdded(OneAdded(OneAdded(OneAdded(OneAdded(a, more[0]), more[1]), more[2]), more[3]), more[4])
  {
    hide OneAdded, Extended;
    assert more[..5] == more;
    FourMore(a, more);
    ExtendedStep(a, more, 4);
  }

  lemma ToolAddsMore(a: Attributes, common: Attributes)
    ensures var b := AddIf(Add(common, "gen_ai.operation.name", Str("execute_tool")), "gen_ai.tool.name", ToolName(a));
            var c := AddIf(b, "gen_ai.tool.call.id", AttrStr(a, "call_id"));
            AddIf(AddIf(c, "gen_ai.tool.call.arguments", NonEmpty(AttrStr(a, "arguments"))),
                  "mcp.server.name", NonEmpty(AttrStr(a, "mcp_server")))
            == Extended(common, ToolAdds(a))
  {
    hide Extended, Add, AddIf, OneAdded, AttrStr;
    FiveMore(common, ToolAdds(a));
    OperationAdds(common, "execute_tool");
    NameIs(a);
    FilledIs(a, "arguments");
    FilledIs(a, "mcp_server");
    var b := Add(common, "gen_ai.operation.name", Str("execute_tool"));
    StringsAdd(b, "gen_ai.tool.name", ToolName(a));
    var c := AddIf(b, "gen_ai.tool.name", ToolName(a));
    StringsAdd(c, "gen_ai.tool.call.id", AttrStr(a, "call_id"));
    var d := AddIf(c, "gen_ai.tool.call.id", AttrStr(a, "call_id"));
    StringsAdd(d, "gen_ai.tool.call.arguments", NonEmpty(AttrStr(a, "arguments")));
    StringsAdd(AddIf(d, "gen_ai.tool.call.arguments", NonEmpty(AttrStr(a, "arguments"))), "mcp.server.name",
               NonEmpty(AttrStr(a, "mcp_server")));
  }

  lemma NameIs(a: Attributes)
    ensures StrOf(ToolName(a)) == CalledName(a)
  {
    hide AttrStr;
  }

  lemma FilledIs(a: Attributes, key: string)
    ensures StrOf(NonEmpty(AttrStr(a, key))) == FilledStr(a, key)
  {
    hide AttrStr;
  }

  lemma ToolExtends(rec: LogRecord, conv: string)
    ensures ToolAttributes(rec, conv) == Extended(rec.attributes, SpanAdds(conv, OwnPlace(rec)) + ToolAdds(rec.attributes))
  {
    hide Extended, Add, AddIf, AttrStr, Common, SpanAdds, ToolAdds, TraceOf, SpanOf;
    var a, own := rec.attributes, OwnPlace(rec);
    CommonExtends(a, conv, own);
    ToolAddsMore(a, Common(a, conv, own));
    ExtendedAgain(a, SpanAdds(conv, own), ToolAdds(a));
  }

  lemma ExtendedCarries(span: SpanDraft, rec: LogRecord, more: seq<Added>)
    requires span.attributes == Extended(rec.attributes, more) && DifferentKeys(more)
    ensures CarriesAll(span, rec, more)
  {
    hide HasKey, Lookup, Extended, Carries, DifferentKeys;
    forall i | 0 <= i < |more|
      ensures Carries(span, rec, more[i].key, more[i].value)
    {
      CarriesKey(span, rec, more, more[i].key);
    }
    forall key | forall i :: 0 <= i < |more| ==> more[i].key != key
      ensures Carries(span, rec, key, None)
    {
      CarriesKey(span, rec, more, key);
    }
  }

  /** What tells a tool's call apart: its own id, else its conversation and its time. */
  function CallName(rec: LogRecord, conv: string): string {
    if AttrStr(rec.attributes, "call_id").Some? then AttrStr(rec.attributes, "call_id").value
    else conv + "|" + Decimal(RecordTime(rec))
  }

  lemma ToolReacts(env: Env, e: Entry, c: Conversation)
    requires EventOf(e) == Some("tool_result") && RecordTime(e.rec) <= U64_MAX
    ensures React(env, e, c).out.Made?
    ensures var span := React(env, e, c).out.span;
            && span.name == "codex.tool" && span.start == Began(e.rec) && span.end == RecordTime(e.rec)
            && span.spanId == env.derive(8, ["codex.tool", CallName(e.rec, ConversationId(e))])
            && span.attributes == ToolAttributes(e.rec, ConversationId(e))
  {
    hide ToolAttributes, StartOf, Began, AttrStr, AttrU64, EventOf, RefusalOf, Settle, OwnStatus, PlacementIn, ConversationId, RecordTime,
         Contains;
    StartIsBegan(e.rec);
  }

  lemma PromptReacts(env: Env, e: Entry, c: Conversation)
    requires EventOf(e) == Some("user_prompt")
    ensures React(env, e, c).out.Made?
    ensures var span := React(env, e, c).out.span;
            && span.name == "codex.user_prompt" && span.start == span.end == RecordTime(e.rec) && span.error == None
            && span.traceId == env.derive(16, ["codex.turn", ConversationId(e), Decimal(RecordTime(e.rec))])
            && span.spanId == env.derive(8, ["codex.prompt", ConversationId(e), Decimal(RecordTime(e.rec))])
            && span.attributes == Common(e.rec.attributes, ConversationId(e), OwnPlace(e.rec))
  {
    hide Common, AttrStr, AttrU64, EventOf, ConversationId, RecordTime, TraceOf, SpanOf, Contains;
  }

  /** A tool's result is one span of its call, which took as long as the record says, under the name the model calls it by. */
  lemma ToolResultIsASpan(env: Env, requests: seq<seq<Entry>>, sessions: set<string>, capacity: nat, j: nat, conv: string)
    requires Fits(requests, sessions, capacity) && TimesFit(Concat(requests))
    requires j < |Concat(requests)| && Session(Concat(requests)[j]) == Some(conv)
    requires EventOf(Concat(requests)[j]) == Some("tool_result")
    ensures var rec, outs := Concat(requests)[j].rec, Exported(env, requests, capacity);
            && |outs| == |Concat(requests)| && outs[j].Made? && outs[j].span.name == "codex.tool"
            && outs[j].span.start == Began(rec) && outs[j].span.end == RecordTime(rec)
            && outs[j].span.spanId == env.derive(8, ["codex.tool", CallName(rec, conv)])
            && CarriesAll(outs[j].span, rec, SpanAdds(conv, OwnPlace(rec)) + ToolAdds(rec.attributes))
  {
    hide React, Exported, After, EventOf, Fits, Session, SpanAdds, ToolAdds, ToolAttributes, OwnPlace, CarriesAll, Extended, DifferentKeys,
         RecordTime, Began, CallName;
    var e := Concat(requests)[j];
    MadeOf(env, requests, sessions, capacity, j, conv);
    ToolReacts(env, e, After(Dialogue(env), Concat(requests)[..j], conv));
    ToolExtends(e.rec, conv);
    ToolKeysDiffer(e.rec.attributes, conv, OwnPlace(e.rec));
    ExtendedCarries(Exported(env, requests, capacity)[j].span, e.rec, SpanAdds(conv, OwnPlace(e.rec)) + ToolAdds(e.rec.attributes));
  }

  /** A prompt is one span without a duration, and begins a trace that is named by it. */
  lemma PromptIsAMarker(env: Env, requests: seq<seq<Entry>>, sessions: set<string>, capacity: nat, j: nat, conv: string)
    requires Fits(requests, sessions, capacity)
    requires j < |Concat(requests)| && IsPrompt(Concat(requests)[j], conv)
    ensures var rec, outs := Concat(requests)[j].rec, Exported(env, requests, capacity);
            && |outs| == |Concat(requests)| && outs[j].Made? && outs[j].span.name == "codex.user_prompt"
            && outs[j].span.start == outs[j].span.end == RecordTime(rec) && outs[j].span.error == None
            && outs[j].span.traceId == env.derive(16, ["codex.turn", conv, Decimal(RecordTime(rec))])
            && outs[j].span.spanId == env.derive(8, ["codex.prompt", conv, Decimal(RecordTime(rec))])
            && CarriesAll(outs[j].span, rec, SpanAdds(conv, OwnPlace(rec)))
  {
    hide React, Exported, After, EventOf, Fits, Session, SpanAdds, Common, OwnPlace, CarriesAll, Extended, DifferentKeys, RecordTime;
    var e := Concat(requests)[j];
    MadeOf(env, requests, sessions, capacity, j, conv);
    PromptReacts(env, e, After(Dialogue(env), Concat(requests)[..j], conv));
    CommonExtends(e.rec.attributes, conv, OwnPlace(e.rec));
    ToolKeysDiffer(e.rec.attributes, conv, OwnPlace(e.rec));
    ExtendedCarries(Exported(env, requests, capacity)[j].span, e.rec, SpanAdds(conv, OwnPlace(e.rec)));
  }

  /** The records that are a span each: prompts, results of tools, and the ends of model calls, good and bad. */
  ghost predicate IsASpan(e: Entry) {
    || EventOf(e) == Some("user_prompt") || EventOf(e) == Some("tool_result") || Completes(e)
    || exists why :: RequestFails(e, why) || StreamFails(e, why)
  }

  /** The events that are read. */
  predicate IsRead(event: string) {
    || event == "conversation_starts" || event == "user_prompt" || event == "api_request" || event == "websocket_request"
    || event == "sse_event" || event == "tool_decision" || event == "tool_result"
  }

  lemma ReactsIf(env: Env, e: Entry, c: Conversation)
    requires EventOf(e).Some?
    ensures React(env, e, c).out.NotMine? <==> !IsRead(EventOf(e).value)
    ensures !IsRequest(e) && EventOf(e) != Some("sse_event") ==>
              (React(env, e, c).out.Made? <==> EventOf(e) == Some("user_prompt") || EventOf(e) == Some("tool_result"))
  {
    hide AttrStr, AttrU64, EventOf, Contains, RequestError, LlmSpan, ToolSpan, PromptSpan, TurnOf, NewRequest, ConversationId, Lower,
         NonEmpty, RefusalOf, Refuse, Settle, RefusalIn, EndsCall;
  }

  lemma EventsDiffer(e: Entry)
    ensures EventOf(e) == Some("user_prompt") || EventOf(e) == Some("tool_result") ==> !IsRequest(e) && EventOf(e) != Some("sse_event")
    ensures IsRequest(e) ==> EventOf(e) != Some("sse_event")
  {
    hide EventOf, AttrStr, Contains;
    assert |"user_prompt"| == 11 && |"tool_result"| == 11 && |"api_request"| == 11 && |"websocket_request"| == 17 && |"sse_event"| == 9;
    assert "user_prompt"[0] == 'u' && "tool_result"[0] == 't' && "api_request"[0] == 'a';
  }

  lemma ReactsWithASpanIf(env: Env, e: Entry, c: Conversation)
    requires EventOf(e).Some?
    ensures React(env, e, c).out.Made? <==> IsASpan(e)
  {
    hide React, EventOf, RequestFails, StreamFails, Completes, IsRequest, LlmSpan, RequestError;
    EventsDiffer(e);
    ReactsIf(env, e, c);
    NotBoth(e);
    if IsRequest(e) {
      RequestReacts(env, e, c);
      SucceedingIs(e, ConversationId(e));
    } else if EventOf(e) == Some("sse_event") {
      StreamReacts(env, e, c);
    }
  }

  lemma NotBoth(e: Entry)
    ensures forall why :: RequestFails(e, why) ==> IsRequest(e)
    ensures forall why :: StreamFails(e, why) ==> EventOf(e) == Some("sse_event")
    ensures Completes(e) ==> EventOf(e) == Some("sse_event")
  {
    hide EventOf, AttrStr, AttrU64, IsRequest;
  }

  /** Each of those records is one span, whatever was remembered and however the stream is cut, and no other record is one. */
  lemma SpansAreTheseRecords(env: Env, requests: seq<seq<Entry>>, sessions: set<string>, capacity: nat, j: nat, conv: string)
    requires Fits(requests, sessions, capacity)
    requires j < |Concat(requests)| && Session(Concat(requests)[j]) == Some(conv)
    ensures var e, outs := Concat(requests)[j], Exported(env, requests, capacity);
            && |outs| == |Concat(requests)| && EventOf(e).Some?
            && (outs[j].Made? <==> IsASpan(e)) && (outs[j].NotMine? <==> !IsRead(EventOf(e).value))
  {
    hide React, Exported, After, EventOf, Fits, IsASpan, IsRead, ConversationId;
    var e, c := Concat(requests)[j], After(Dialogue(env), Concat(requests)[..j], conv);
    MadeOf(env, requests, sessions, capacity, j, conv);
    ReactsWithASpanIf(env, e, c);
    ReactsIf(env, e, c);
  }

  lemma {:induction false} NoTurnYet(env: Env, records: seq<Entry>, j: nat, conv: string)
    requires j <= |records| && forall k :: 0 <= k < j ==> !IsPrompt(records[k], conv)
    ensures After(Dialogue(env), records[..j], conv).turn == None
    decreases j
  {
    hide React, After, EventOf, ConversationId;
    if j == 0 {
      NothingYet(env, records, conv);
    } else {
      NoTurnYet(env, records, j - 1, conv);
      AfterOne(env, records, j - 1, conv);
      if Session(records[j - 1]) == Some(conv) {
        assert !IsPrompt(records[j - 1], conv);
        OnlyPromptsChangeTurn(env, records[j - 1], After(Dialogue(env), records[..j - 1], conv));
      }
    }
  }

  /** Before the first prompt of a conversation its spans share a trace of the conversation's own, without a parent. */
  lemma BeforeAnyPrompt(env: Env, requests: seq<seq<Entry>>, sessions: set<string>, capacity: nat, j: nat, conv: string)
    requires Fits(requests, sessions, capacity)
    requires j < |Concat(requests)| && Session(Concat(requests)[j]) == Some(conv)
    requires forall k :: 0 <= k <= j ==> !IsPrompt(Concat(requests)[k], conv)
    ensures var outs := Exported(env, requests, capacity);
            && |outs| == |Concat(requests)|
            && (outs[j].Made? ==> outs[j].span.traceId == env.derive(16, ["codex.trace", conv]) && outs[j].span.parent == [])
  {
    hide React, Exported, After, EventOf, Fits, ConversationId;
    MadeOf(env, requests, sessions, capacity, j, conv);
    NoTurnYet(env, Concat(requests), j, conv);
    assert !IsPrompt(Concat(requests)[j], conv);
    SpanPlacement(env, Concat(requests)[j], After(Dialogue(env), Concat(requests)[..j], conv), conv);
  }
}
