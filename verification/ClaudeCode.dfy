/**
 * The call keys Claude Code's two signals are given (src/claude_code.rs): log events mapped to
 * spans, and its own spans made to read like them. Attributes are the string-valued ones.
 */
module ClaudeCode {
  import opened Wrappers
  import CallLedger
  import CallDelivery

  const LLM_SPAN := "claude_code.llm_request"
  const TOOL_SPAN := "claude_code.tool"
  const CALL_KEY := "evald.call_key"
  const CALL_ANCHOR := "evald.call_anchor"
  const LLM_KEYS := "claude_code.llm:"
  const TOOL_KEYS := "claude_code.tool:"

  type Attributes = map<string, string>

  function Lookup(a: Attributes, key: string): Option<string> {
    if key in a then Some(a[key]) else None
  }

  /** A log event, and the time it is read as, in decimal. */
  datatype Record = Record(attributes: Attributes, time: string)

  datatype Span = Span(name: string, id: seq<bv8>, attributes: Attributes)

  /** SHA-256 over the given parts, cut to a span id. */
  type DeriveId = seq<string> -> seq<bv8>

  function RecordKey(r: Record): string {
    Lookup(r.attributes, "session.id").UnwrapOr("") + "|"
    + Lookup(r.attributes, "event.sequence").UnwrapOr("") + "|" + r.time
  }

  /** The identity of the model call an event describes. */
  function LlmIdentity(r: Record): string {
    match Lookup(r.attributes, "request_id")
    case Some(id) => id
    case None =>
      match Lookup(r.attributes, "client_request_id")
      case Some(id) => id
      case None => RecordKey(r)
  }

  function ToolIdentity(r: Record): string {
    match Lookup(r.attributes, "tool_use_id")
    case Some(id) => id
    case None => RecordKey(r)
  }

  /** An attribute is added unless the record already has it. */
  function Add(a: Attributes, key: string, value: string): Attributes {
    if key in a then a else a[key := value]
  }

  function LlmSpanId(derive: DeriveId, identity: string): seq<bv8> {
    derive(["claude_code.llm", identity])
  }

  /** `api_request` and `api_error` events. */
  function LlmEvent(derive: DeriveId, r: Record): Span {
    Span(LLM_SPAN, LlmSpanId(derive, LlmIdentity(r)), Add(r.attributes, CALL_KEY, LLM_KEYS + LlmIdentity(r)))
  }

  /** `tool_result` events and rejected `tool_decision` events. */
  function ToolEvent(derive: DeriveId, r: Record): Span {
    Span(TOOL_SPAN, derive(["claude_code.tool", ToolIdentity(r)]),
         Add(r.attributes, CALL_KEY, TOOL_KEYS + ToolIdentity(r)))
  }

  /** Claude Code's own spans: a model call takes the event's id and key, a tool call anchors its key. */
  function FixTraceSpan(derive: DeriveId, s: Span): Span {
    if s.name == LLM_SPAN then
      match Lookup(s.attributes, "request_id")
      case Some(id) =>
        if id == "" then s
        else Span(s.name, LlmSpanId(derive, id), s.attributes[CALL_KEY := LLM_KEYS + id])
      case None => s
    else if s.name == TOOL_SPAN then
      match Lookup(s.attributes, "tool_use_id")
      case Some(id) => if id == "" then s else s.(attributes := s.attributes[CALL_ANCHOR := TOOL_KEYS + id])
      case None => s
    else s
  }

  /** What the ledger sees of a span. */
  function Seen(s: Span, body: nat): CallLedger.Span {
    CallLedger.Span(s.name, Lookup(s.attributes, CALL_ANCHOR), Lookup(s.attributes, CALL_KEY), body)
  }

  /** Nothing the client sent spells the ledger's own attributes. */
  predicate Unclaimed(a: Attributes) {
    CALL_KEY !in a && CALL_ANCHOR !in a
  }

  /** One of the two descriptions of the model call `request`. */
  ghost predicate DescribesCall(s: CallLedger.Span, request: string, derive: DeriveId) {
    || (exists r: Record, body :: Unclaimed(r.attributes) && Lookup(r.attributes, "request_id") == Some(request) &&
          s == Seen(LlmEvent(derive, r), body))
    || (exists t: Span, body :: Unclaimed(t.attributes) && Lookup(t.attributes, "request_id") == Some(request) &&
          t.name == LLM_SPAN && s == Seen(FixTraceSpan(derive, t), body))
  }

  /** The event and the span of one call are the same droppable copy to the ledger, under the same span id. */
  lemma TwoSignalsOneCall(derive: DeriveId, r: Record, t: Span, request: string, body: nat, body': nat)
    requires request != "" && t.name == LLM_SPAN && Unclaimed(r.attributes) && Unclaimed(t.attributes)
    requires Lookup(r.attributes, "request_id") == Lookup(t.attributes, "request_id") == Some(request)
    ensures LlmEvent(derive, r).id == FixTraceSpan(derive, t).id
    ensures var e, s := Seen(LlmEvent(derive, r), body), Seen(FixTraceSpan(derive, t), body');
            CallDelivery.IsCopy(e) && CallDelivery.IsCopy(s) && e.callKey == s.callKey == Some(LLM_KEYS + request)
  {
  }

  lemma CallIsCopy(s: CallLedger.Span, request: string, derive: DeriveId)
    requires request != "" && DescribesCall(s, request, derive)
    ensures CallDelivery.IsCopy(s) && s.callKey == Some(LLM_KEYS + request)
  {
    assert "claude_code." <= LLM_SPAN;
  }

  /**
   * Served one request after another, two stored descriptions of one model call, whichever
   * signal each came on, are more than `capacity` keys apart.
   */
  lemma CallStoredOnce(derive: DeriveId, request: string, requests: seq<(seq<CallLedger.Span>, bool)>,
                       capacity: nat, i: nat, j: nat)
    requires request != ""
    requires i < j < |CallDelivery.Serve(CallDelivery.IDLE, requests, capacity).stored|
    ensures var stored := CallDelivery.Serve(CallDelivery.IDLE, requests, capacity).stored;
            DescribesCall(stored[i].span, request, derive) && DescribesCall(stored[j].span, request, derive)
            ==> stored[i].taken + capacity < stored[j].taken
  {
    var stored := CallDelivery.Serve(CallDelivery.IDLE, requests, capacity).stored;
    hide CallDelivery.Serve;
    if DescribesCall(stored[i].span, request, derive) && DescribesCall(stored[j].span, request, derive) {
      CallIsCopy(stored[i].span, request, derive);
      CallIsCopy(stored[j].span, request, derive);
      CallDelivery.StoredOncePerWindow(requests, capacity, i, j);
    }
  }

  lemma SamePrefix(prefix: string, a: string, b: string)
    requires prefix + a == prefix + b
    ensures a == b
  {
    assert (prefix + a)[|prefix|..] == a && (prefix + b)[|prefix|..] == b;
  }

  /** An event is known by its request id, else by the client's; else its session, number and time have to do. */
  lemma IdentityIs(derive: DeriveId, r: Record)
    requires Unclaimed(r.attributes)
    ensures var a, key := r.attributes, LlmEvent(derive, r).attributes[CALL_KEY];
            if "request_id" in a then key == "claude_code.llm:" + a["request_id"]
            else if "client_request_id" in a then key == "claude_code.llm:" + a["client_request_id"]
            else key == "claude_code.llm:" + Place(r)
    ensures var a, key := r.attributes, ToolEvent(derive, r).attributes[CALL_KEY];
            key == "claude_code.tool:" + if "tool_use_id" in a then a["tool_use_id"] else Place(r)
  {
  }

  function Place(r: Record): string {
    var part := (key: string) => if key in r.attributes then r.attributes[key] else "";
    part("session.id") + "|" + part("event.sequence") + "|" + r.time
  }

  /** Two events share a key exactly when they give the same identity; a tool never shares a model call's. */
  lemma KeysNameCalls(derive: DeriveId, r: Record, q: Record)
    requires Unclaimed(r.attributes) && Unclaimed(q.attributes)
    ensures LlmEvent(derive, r).attributes[CALL_KEY] == LlmEvent(derive, q).attributes[CALL_KEY]
            <==> LlmIdentity(r) == LlmIdentity(q)
    ensures ToolEvent(derive, r).attributes[CALL_KEY] == ToolEvent(derive, q).attributes[CALL_KEY]
            <==> ToolIdentity(r) == ToolIdentity(q)
    ensures LlmEvent(derive, r).attributes[CALL_KEY] != ToolEvent(derive, q).attributes[CALL_KEY]
  {
    if LLM_KEYS + LlmIdentity(r) == LLM_KEYS + LlmIdentity(q) {
      SamePrefix(LLM_KEYS, LlmIdentity(r), LlmIdentity(q));
    }
    if TOOL_KEYS + ToolIdentity(r) == TOOL_KEYS + ToolIdentity(q) {
      SamePrefix(TOOL_KEYS, ToolIdentity(r), ToolIdentity(q));
    }
    assert (LLM_KEYS + LlmIdentity(r))[12] == 'l' && (TOOL_KEYS + ToolIdentity(q))[12] == 't';
  }

  /** A traced tool span anchors the very key its event carries as a droppable copy. */
  lemma ToolSignalsOfOneCall(derive: DeriveId, t: Span, r: Record, id: string, body: nat, body': nat)
    requires t.name == TOOL_SPAN && id != "" && Unclaimed(r.attributes) && Unclaimed(t.attributes)
    requires Lookup(t.attributes, "tool_use_id") == Lookup(r.attributes, "tool_use_id") == Some(id)
    ensures var anchor, event := Seen(FixTraceSpan(derive, t), body), Seen(ToolEvent(derive, r), body');
            && anchor.IsClaudeCode() && anchor.anchor == Some(TOOL_KEYS + id)
            && CallDelivery.IsCopy(event) && event.callKey == Some(TOOL_KEYS + id)
  {
    assert "claude_code." <= TOOL_SPAN;
  }

  /** Among any spans of any request, the anchor is stored whatever is remembered. */
  lemma AnchorIsStored(derive: DeriveId, t: Span, id: string, body: nat, node: CallDelivery.Node,
                       batch: seq<CallLedger.Span>, capacity: nat)
    requires t.name == TOOL_SPAN && id != "" && Lookup(t.attributes, "tool_use_id") == Some(id)
    requires Seen(FixTraceSpan(derive, t), body) in batch
    ensures var after := CallDelivery.Ingest(node, batch, true, capacity);
            exists i :: |node.stored| <= i < |after.stored| && after.stored[i].span == Seen(FixTraceSpan(derive, t), body)
  {
    CallDelivery.AnchorsAreNeverDropped(node, batch, capacity, Seen(FixTraceSpan(derive, t), body));
  }

  /** A key a stored batch brings for the first time is remembered behind it, when the batch brings no more than fit. */
  lemma NewKeyIsRemembered(node: CallDelivery.Node, batch: seq<CallLedger.Span>, capacity: nat, key: string)
    requires CallLedger.Distinct(node.order) && CallLedger.MayCarryKeys(batch)
    requires CallLedger.CarriedBy(key, batch) && key !in node.order
    requires |CallDelivery.FilterBatch(node.order, batch).keys| <= capacity
    ensures key in CallDelivery.Ingest(node, batch, true, capacity).order
  {
    hide CallLedger.CarriedBy, CallLedger.FilterAll, CallLedger.AddKeys;
    var keys := CallDelivery.FilterBatch(node.order, batch).keys;
    CallLedger.FilterKeys(CallLedger.Elements(node.order), batch);
    NewKeysAreNewest(node.order, keys, capacity, key);
    IngestOrder(node, batch, capacity);
  }

  lemma IngestOrder(node: CallDelivery.Node, batch: seq<CallLedger.Span>, capacity: nat)
    ensures CallDelivery.Ingest(node, batch, true, capacity).order
         == CallLedger.RememberAll(node.order, CallDelivery.FilterBatch(node.order, batch).keys, capacity)
  {
  }

  lemma {:induction false} AddedAtMost(order: seq<string>, keys: seq<string>)
    ensures |CallLedger.AddKeys(order, keys)| <= |order| + |keys|
    decreases |keys|
  {
    if keys != [] {
      AddedAtMost(CallLedger.AddKey(order, keys[0]), keys[1..]);
    }
  }

  lemma NewKeysAreNewest(order: seq<string>, keys: seq<string>, capacity: nat, key: string)
    requires CallLedger.Distinct(order) && key in keys && key !in order && |keys| <= capacity
    ensures key in CallLedger.RememberAll(order, keys, capacity)
  {
    hide CallLedger.Distinct, CallLedger.AddKeys;
    CallLedger.AddKeysAppends(order, keys);
    AddedAtMost(order, keys);
    var all := CallLedger.AddKeys(order, keys);
    var i :| 0 <= i < |all| && all[i] == key;
    assert forall m :: 0 <= m < |order| ==> all[m] == order[m] && order[m] != key;
    if |all| > capacity {
      assert all[|all| - capacity..][i - (|all| - capacity)] == key;
    }
  }

  /** Requests served one after another remember the `capacity` keys taken in last. */
  lemma LastKeysAreRemembered(requests: seq<(seq<CallLedger.Span>, bool)>, capacity: nat, p: nat)
    requires var node := CallDelivery.Serve(CallDelivery.IDLE, requests, capacity);
             p < |node.taken| <= p + capacity
    ensures var node := CallDelivery.Serve(CallDelivery.IDLE, requests, capacity); node.taken[p] in node.order
  {
    CallDelivery.ServeKeepsInv(CallDelivery.IDLE, requests, capacity);
    var node := CallDelivery.Serve(CallDelivery.IDLE, requests, capacity);
    hide CallDelivery.Serve;
    assert node.order == CallLedger.Newest(node.taken, capacity);
    if |node.taken| > capacity {
      assert node.order[p - (|node.taken| - capacity)] == node.taken[p];
    }
  }

  /**
   * As long as the key is remembered, the event of the tool call is not stored, in whatever request it
   * comes and whatever else that brings.
   */
  lemma ToolEventIsDropped(derive: DeriveId, r: Record, id: string, body: nat, node: CallDelivery.Node,
                           batch: seq<CallLedger.Span>, capacity: nat, i: nat)
    requires id != "" && Unclaimed(r.attributes) && Lookup(r.attributes, "tool_use_id") == Some(id)
    requires TOOL_KEYS + id in node.order
    requires |node.stored| <= i < |CallDelivery.Ingest(node, batch, true, capacity).stored|
    ensures CallDelivery.Ingest(node, batch, true, capacity).stored[i].span != Seen(ToolEvent(derive, r), body)
  {
    var event := Seen(ToolEvent(derive, r), body);
    assert "claude_code." <= TOOL_SPAN;
    assert CallDelivery.IsCopy(event) && event.callKey == Some(TOOL_KEYS + id);
    CopyIsDropped(node, batch, capacity, event, i);
  }

  lemma CopyIsDropped(node: CallDelivery.Node, batch: seq<CallLedger.Span>, capacity: nat, s: CallLedger.Span, i: nat)
    requires CallDelivery.IsCopy(s) && s.callKey.value in node.order
    requires |node.stored| <= i < |CallDelivery.Ingest(node, batch, true, capacity).stored|
    ensures CallDelivery.Ingest(node, batch, true, capacity).stored[i].span != s
  {
    hide CallLedger.FilterAll;
    var f := CallDelivery.FilterBatch(node.order, batch);
    assert CallDelivery.Ingest(node, batch, true, capacity).stored[i].span == f.kept[i - |node.stored|];
    if s in f.kept {
      if CallLedger.MayCarryKeys(batch) {
        CallLedger.FilterKeepsExactly(CallLedger.Elements(node.order), batch);
        KeptAreKept(CallLedger.Elements(node.order), batch, |batch|, s);
      } else {
        NoneMayCarry(batch, s);
      }
    }
  }

  lemma NoneMayCarry(batch: seq<CallLedger.Span>, s: CallLedger.Span)
    requires s in batch && s.IsClaudeCode()
    ensures CallLedger.MayCarryKeys(batch)
  {
  }

  lemma {:induction false} KeptAreKept(recent: set<string>, batch: seq<CallLedger.Span>, n: nat, s: CallLedger.Span)
    requires n <= |batch| && s in CallLedger.Kept(recent, batch, n)
    ensures s.Droppable() ==> s.callKey.value !in recent
  {
    if n > 0 && s in CallLedger.Kept(recent, batch, n - 1) {
      KeptAreKept(recent, batch, n - 1, s);
    }
  }

  /** Events whose request id is present but empty all pass for the same call. */
  lemma EmptyRequestIdsCollide(derive: DeriveId, r: Record, q: Record)
    requires Lookup(r.attributes, "request_id") == Lookup(q.attributes, "request_id") == Some("")
    requires Unclaimed(r.attributes) && Unclaimed(q.attributes)
    ensures LlmEvent(derive, r).attributes[CALL_KEY] == LlmEvent(derive, q).attributes[CALL_KEY]
    ensures LlmEvent(derive, r).id == LlmEvent(derive, q).id
  {
    KeysNameCalls(derive, r, q);
  }
}
