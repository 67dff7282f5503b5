/** Whole runs of Codex telemetry (src/codex.rs): what holds of every stream of records, however it is exported. */
module CodexRuns {
  import opened Wrappers
  import opened Otlp
  import opened SessionMemory
  import opened Codex

  /** What a stream of export requests becomes on a node that has seen nothing yet. */
  function Exported(env: Env, requests: seq<seq<Entry>>, capacity: nat): seq<Mapping> {
    HandleAll(Dialogue(env), Memory(map[], []), requests, capacity).1
  }

  /** Every Codex record of the stream belongs to one of at most `capacity` named conversations. */
  predicate Fits(requests: seq<seq<Entry>>, sessions: set<string>, capacity: nat) {
    && "" !in sessions && |sessions| <= capacity
    && (forall i :: 0 <= i < |Concat(requests)| && Session(Concat(requests)[i]).Some?
          ==> Session(Concat(requests)[i]).value in sessions)
  }

  lemma ExportedAsOneStream(env: Env, requests: seq<seq<Entry>>, sessions: set<string>, capacity: nat)
    requires Fits(requests, sessions, capacity)
    ensures Exported(env, requests, capacity) == Outputs(Dialogue(env), Concat(requests))
  {
    SplittingChangesNothing(Dialogue(env), requests, sessions, capacity);
  }

  lemma {:induction false} OutputAt(env: Env, records: seq<Entry>, j: nat)
    requires j < |records|
    ensures |Outputs(Dialogue(env), records)| == |records|
    ensures Outputs(Dialogue(env), records)[j] ==
            React(env, records[j], Known(Dialogue(env), records[..j], records[j])).out
    decreases |records|
  {
    var front := records[..|records| - 1];
    if j < |records| - 1 {
      OutputAt(env, front, j);
      assert front[..j] == records[..j];
    } else if front != [] {
      OutputAt(env, front, 0);
    }
  }

  lemma OutputCount(env: Env, records: seq<Entry>)
    ensures |Outputs(Dialogue(env), records)| == |records|
  {
    if records != [] {
      OutputAt(env, records, 0);
    }
  }

  lemma AfterOne(env: Env, records: seq<Entry>, j: nat, conv: string)
    requires j < |records|
    ensures var c := After(Dialogue(env), records[..j], conv);
            After(Dialogue(env), records[..j + 1], conv) ==
            if Session(records[j]) == Some(conv) then React(env, records[j], c).remembers.UnwrapOr(c) else c
  {
    var more := records[..j + 1];
    assert more[..|more| - 1] == records[..j];
  }

  // ----- Where spans sit -----

  predicate IsPrompt(e: Entry, conv: string) {
    Session(e) == Some(conv) && EventOf(e) == Some("user_prompt")
  }

  predicate NoPromptBetween(records: seq<Entry>, i: nat, j: nat, conv: string)
    requires j <= |records|
  {
    forall k :: i < k < j ==> !IsPrompt(records[k], conv)
  }

  lemma OnlyPromptsChangeTurn(env: Env, e: Entry, c: Conversation)
    requires EventOf(e) != Some("user_prompt")
    ensures React(env, e, c).remembers.UnwrapOr(c).turn == c.turn
  {
    hide LlmAttributes, ToolAttributes, Common, LlmSpan, ToolSpan, StartOf, AttrStr, AttrU64, EventOf, RefusalOf, RefusalIn, NewRequest,
         RequestError, EndsCall, Contains, NonEmpty, Lower, ConversationId, FirstRefusal, OwnContext, RecordTime;
  }

  lemma {:induction false} TurnHolds(env: Env, records: seq<Entry>, i: nat, j: nat, conv: string)
    requires i < j <= |records| && IsPrompt(records[i], conv) && NoPromptBetween(records, i, j, conv)
    ensures After(Dialogue(env), records[..j], conv).turn == Some(TurnOf(env, records[i].rec, conv))
    decreases j
  {
    AfterOne(env, records, j - 1, conv);
    if i < j - 1 {
      TurnHolds(env, records, i, j - 1, conv);
      if Session(records[j - 1]) == Some(conv) {
        OnlyPromptsChangeTurn(env, records[j - 1], After(Dialogue(env), records[..j - 1], conv));
      }
    }
  }

  lemma SpanPlacement(env: Env, e: Entry, c: Conversation, conv: string)
    requires Session(e) == Some(conv)
    ensures React(env, e, c).out.Made? && EventOf(e) != Some("user_prompt") ==>
              var span, place := React(env, e, c).out.span, PlacementIn(env, c, conv);
              span.traceId == place.traceId && span.parent == place.parent && span.name != PROMPT_SPAN
  {
    hide LlmAttributes, ToolAttributes, Common, StartOf, AttrStr, AttrU64, EventOf, RefusalOf, Refuse, Settle, RefusalIn, NewRequest,
         RequestError, EndsCall, Contains, NonEmpty, Lower, ConversationId, FirstRefusal, OwnContext, RecordTime;
  }

  /**
   * A turn is one trace: from a prompt to the conversation's next, every other span of the
   * conversation sits in the prompt's trace, directly under the prompt's marker.
   */
  lemma TurnIsOneTrace(env: Env, requests: seq<seq<Entry>>, sessions: set<string>, capacity: nat, i: nat, j: nat,
                       conv: string)
    requires Fits(requests, sessions, capacity)
    requires var records := Concat(requests);
             && i < j < |records| && IsPrompt(records[i], conv) && NoPromptBetween(records, i, j + 1, conv)
             && Session(records[j]) == Some(conv)
    ensures var outs := Exported(env, requests, capacity);
            && |outs| == |Concat(requests)|
            && outs[i].Made? && outs[i].span.name == PROMPT_SPAN && outs[i].span.parent == []
            && (outs[j].Made? ==> outs[j].span.traceId == outs[i].span.traceId
                                  && outs[j].span.parent == outs[i].span.spanId)
  {
    var records := Concat(requests);
    ExportedAsOneStream(env, requests, sessions, capacity);
    OutputAt(env, records, i);
    OutputAt(env, records, j);
    TurnHolds(env, records, i, j, conv);
    SpanPlacement(env, records[j], After(Dialogue(env), records[..j], conv), conv);
  }

  lemma OwnTimeRunsForward(time: nat, a: Attributes)
    ensures StartOf(time, a) <= time
  {
  }

  lemma LlmRunsForward(env: Env, rec: LogRecord, conv: string, error: Option<string>, c: Conversation)
    ensures LlmSpan(env, rec, conv, error, c).start <= LlmSpan(env, rec, conv, error, c).end
  {
    hide LlmAttributes, StartOf, AttrStr, OwnContext, RecordTime;
    OwnTimeRunsForward(RecordTime(rec), rec.attributes);
  }

  lemma ToolRunsForward(env: Env, rec: LogRecord, conv: string, c: Conversation)
    ensures ToolSpan(env, rec, conv, c).start <= ToolSpan(env, rec, conv, c).end
  {
    hide ToolAttributes, StartOf, AttrStr, RefusalOf, OwnStatus, RecordTime;
    OwnTimeRunsForward(RecordTime(rec), rec.attributes);
  }

  /** Whatever is remembered, no span ends before it starts. */
  lemma SpansRunForward(env: Env, e: Entry, c: Conversation)
    ensures React(env, e, c).out.Made? ==> React(env, e, c).out.span.start <= React(env, e, c).out.span.end
  {
    forall error { LlmRunsForward(env, e.rec, ConversationId(e), error, c); }
    ToolRunsForward(env, e.rec, ConversationId(e), c);
    hide LlmSpan, ToolSpan, AttrStr, AttrU64, EventOf, Common, TurnOf, RefusalOf, Settle, Refuse, RefusalIn, NewRequest,
         RequestError, EndsCall, Contains, NonEmpty, Lower, ConversationId;
  }

  // ----- Refusals -----

  lemma RefusedChanges(env: Env, e: Entry, c: Conversation)
    ensures var a, c' := e.rec.attributes, React(env, e, c).remembers.UnwrapOr(c);
            c'.refused ==
            if EventOf(e) == Some("tool_decision") && RefusalIn(a).Some? then Refuse(c, RefusalIn(a).value).refused
            else if EventOf(e) == Some("tool_result") && RefusalOf(c, AttrStr(a, "call_id")).Some?
            then Settle(c, AttrStr(a, "call_id").value).refused
            else c.refused
  {
    hide LlmSpan, ToolSpan, Common, StartOf, AttrStr, AttrU64, EventOf, RefusalIn, NewRequest, RequestError, EndsCall,
         Contains, NonEmpty, Lower, ConversationId, FirstRefusal, Refuse, Settle;
  }

  /** Settling a call only takes a refusal away. */
  lemma SettleOnlyRemoves(c: Conversation, id: string)
    ensures |Settle(c, id).refused| <= |c.refused|
    ensures forall r :: r in Settle(c, id).refused ==> r in c.refused
  {
    FirstRefusalFinds(c.refused, id);
  }

  lemma AtMostSixteenRefusals(env: Env, e: Entry, c: Conversation)
    requires |c.refused| <= REFUSED_KEPT
    ensures |React(env, e, c).remembers.UnwrapOr(c).refused| <= REFUSED_KEPT
  {
    RefusedChanges(env, e, c);
    hide React, RefusalIn, EventOf, AttrStr, Settle;
    forall id { SettleOnlyRemoves(c, id); }
  }

  /** In every run, evictions included: at most sixteen refusals are held, and no span ends before it starts. */
  lemma EveryRun(env: Env, requests: seq<seq<Entry>>, capacity: nat)
    ensures var (m, outs) := HandleAll(Dialogue(env), Memory(map[], []), requests, capacity);
            && (forall s :: s in m.recent ==> |m.recent[s].refused| <= REFUSED_KEPT)
            && (forall i :: 0 <= i < |outs| && outs[i].Made? ==> outs[i].span.start <= outs[i].span.end)
  {
    hide React, HandleAll;
    var inv := (c: Conversation) => |c.refused| <= REFUSED_KEPT;
    var good := (m: Mapping) => m.Made? ==> m.span.start <= m.span.end;
    var d := Dialogue(env);
    forall e: Entry, c: Conversation | inv(c)
      ensures good(d.react(e, c).out) && (d.react(e, c).remembers.Some? ==> inv(d.react(e, c).remembers.value))
    {
      SpansRunForward(env, e, c);
      AtMostSixteenRefusals(env, e, c);
    }
    RunKeeps(d, requests, capacity, inv, good);
  }

  /** A decision that refuses the call. */
  predicate Refuses(e: Entry, conv: string, call: string) {
    Session(e) == Some(conv) && EventOf(e) == Some("tool_decision") &&
    RefusalIn(e.rec.attributes).Some? && RefusalIn(e.rec.attributes).value.call == call
  }

  /** The call's result. */
  predicate Settles(e: Entry, conv: string, call: string) {
    Session(e) == Some(conv) && EventOf(e) == Some("tool_result") && AttrStr(e.rec.attributes, "call_id") == Some(call)
  }

  predicate RefusesSomething(e: Entry, conv: string) {
    Session(e) == Some(conv) && EventOf(e) == Some("tool_decision") && RefusalIn(e.rec.attributes).Some?
  }

  /** How many of the conversation's calls are refused by the records from `i` up to `j`. */
  function RefusalsBetween(records: seq<Entry>, i: nat, j: nat, conv: string): nat
    requires j <= |records|
    decreases j
  {
    if j <= i then 0
    else RefusalsBetween(records, i, j - 1, conv) + if RefusesSomething(records[j - 1], conv) then 1 else 0
  }

  predicate NotRefusedIn(refused: seq<Refusal>, call: string) {
    forall q :: 0 <= q < |refused| ==> refused[q].call != call
  }

  /** The refusal is held at `p`, the only one of its call, with at most `behind` after it. */
  predicate HeldAt(refused: seq<Refusal>, r: Refusal, behind: nat, p: int) {
    && 0 <= p < |refused| && refused[p] == r && |refused| - 1 - p <= behind
    && forall q :: 0 <= q < |refused| && q != p ==> refused[q].call != r.call
  }

  ghost predicate Held(refused: seq<Refusal>, r: Refusal, behind: nat) {
    exists p :: HeldAt(refused, r, behind, p)
  }

  lemma HeldWhileRefusing(c: Conversation, r: Refusal, behind: nat, other: Refusal)
    requires Held(c.refused, r, behind) && other.call != r.call && behind + 1 < REFUSED_KEPT
    ensures Held(Refuse(c, other).refused, r, behind + 1)
  {
    var p :| HeldAt(c.refused, r, behind, p);
    var all := c.refused + [other];
    assert HeldAt(Refuse(c, other).refused, r, behind + 1, if |all| > REFUSED_KEPT then p - 1 else p);
  }

  lemma HeldWhileSettling(c: Conversation, r: Refusal, behind: nat, id: string)
    requires Held(c.refused, r, behind) && id != r.call
    ensures Held(Settle(c, id).refused, r, behind)
  {
    var p :| HeldAt(c.refused, r, behind, p);
    FirstRefusalFinds(c.refused, id);
    match FirstRefusal(c.refused, id)
    case None =>
    case Some(i) => assert HeldAt(WithoutAt(c.refused, i), r, behind, if i < p then p - 1 else p);
  }

  lemma HeldIsFound(c: Conversation, r: Refusal, behind: nat)
    requires Held(c.refused, r, behind)
    ensures RefusalOf(c, Some(r.call)) == Some(r.why)
    ensures NotRefusedIn(Settle(c, r.call).refused, r.call)
  {
    FirstRefusalFinds(c.refused, r.call);
  }

  lemma UnheldIsNotFound(c: Conversation, call: string)
    requires NotRefusedIn(c.refused, call)
    ensures RefusalOf(c, Some(call)) == None
  {
    FirstRefusalFinds(c.refused, call);
  }

  lemma NewlyHeld(c: Conversation, r: Refusal)
    requires NotRefusedIn(c.refused, r.call)
    ensures Held(Refuse(c, r).refused, r, 0)
  {
    var refused := Refuse(c, r).refused;
    assert HeldAt(refused, r, 0, |refused| - 1);
  }

  lemma StaysUnheldOne(env: Env, e: Entry, c: Conversation, call: string)
    requires NotRefusedIn(c.refused, call)
    requires !(EventOf(e) == Some("tool_decision") && RefusalIn(e.rec.attributes).Some? &&
               RefusalIn(e.rec.attributes).value.call == call)
    ensures NotRefusedIn(React(env, e, c).remembers.UnwrapOr(c).refused, call)
  {
    RefusedChanges(env, e, c);
    hide React, RefusalIn, EventOf, AttrStr, Settle;
    forall id { SettleOnlyRemoves(c, id); }
    var c' := React(env, e, c).remembers.UnwrapOr(c);
    forall q | 0 <= q < |c'.refused|
      ensures c'.refused[q].call != call
    {
      assert c'.refused[q] in c'.refused;
    }
  }

  /** A call that no record of the stretch refuses stays unrefused. */
  lemma {:induction false} StaysUnheld(env: Env, records: seq<Entry>, i: nat, j: nat, conv: string, call: string)
    requires i <= j <= |records|
    requires NotRefusedIn(After(Dialogue(env), records[..i], conv).refused, call)
    requires forall k :: i <= k < j ==> !Refuses(records[k], conv, call)
    ensures NotRefusedIn(After(Dialogue(env), records[..j], conv).refused, call)
    decreases j
  {
    hide React, After, RefusalIn, EventOf, NotRefusedIn;
    if i < j {
      StaysUnheld(env, records, i, j - 1, conv, call);
      AfterOne(env, records, j - 1, conv);
      if Session(records[j - 1]) == Some(conv) {
        assert !Refuses(records[j - 1], conv, call);
        StaysUnheldOne(env, records[j - 1], After(Dialogue(env), records[..j - 1], conv), call);
      }
    }
  }

  /** Nothing but the stretch's own refusal of `call`, and no result of it. */
  predicate OnlyRefusal(records: seq<Entry>, d: nat, j: nat, conv: string, call: string)
    requires d < j <= |records|
  {
    && Refuses(records[d], conv, call)
    && (forall k :: 0 <= k < j && k != d ==> !Refuses(records[k], conv, call))
    && (forall k :: d < k < j ==> !Settles(records[k], conv, call))
  }

  lemma {:induction false} RefusalWaits(env: Env, records: seq<Entry>, d: nat, j: nat, conv: string, call: string)
    requires d < j <= |records| && OnlyRefusal(records, d, j, conv, call)
    requires RefusalsBetween(records, d + 1, j, conv) < REFUSED_KEPT
    ensures Held(After(Dialogue(env), records[..j], conv).refused, RefusalIn(records[d].rec.attributes).value,
                 RefusalsBetween(records, d + 1, j, conv))
    decreases j
  {
    hide React, After, RefusalIn, EventOf, Held;
    var r, e := RefusalIn(records[d].rec.attributes).value, records[j - 1];
    var c := After(Dialogue(env), records[..j - 1], conv);
    AfterOne(env, records, j - 1, conv);
    if j == d + 1 {
      assert NotRefusedIn(After(Dialogue(env), records[..0], conv).refused, call) by { NothingYet(env, records, conv); }
      StaysUnheld(env, records, 0, d, conv, call);
      RefusedChanges(env, e, c);
      NewlyHeld(c, r);
    } else if Session(e) != Some(conv) {
      RefusalWaits(env, records, d, j - 1, conv, call);
    } else {
      RefusalWaits(env, records, d, j - 1, conv, call);
      StillHeld(env, e, c, r, RefusalsBetween(records, d + 1, j - 1, conv), conv);
    }
  }

  lemma NothingYet(env: Env, records: seq<Entry>, conv: string)
    ensures After(Dialogue(env), records[..0], conv) == NEW_CONVERSATION
  {
  }

  lemma StillHeld(env: Env, e: Entry, c: Conversation, r: Refusal, behind: nat, conv: string)
    requires Held(c.refused, r, behind) && Session(e) == Some(conv)
    requires !Refuses(e, conv, r.call) && !Settles(e, conv, r.call)
    requires RefusesSomething(e, conv) ==> behind + 1 < REFUSED_KEPT
    ensures Held(React(env, e, c).remembers.UnwrapOr(c).refused, r,
                 if RefusesSomething(e, conv) then behind + 1 else behind)
  {
    var a := e.rec.attributes;
    RefusedChanges(env, e, c);
    hide React, Held, RefusalIn, EventOf, AttrStr;
    if RefusesSomething(e, conv) {
      HeldWhileRefusing(c, r, behind, RefusalIn(a).value);
    } else if EventOf(e) == Some("tool_result") && RefusalOf(c, AttrStr(a, "call_id")).Some? {
      HeldWhileSettling(c, r, behind, AttrStr(a, "call_id").value);
    }
  }

  lemma ResultStatus(env: Env, e: Entry, c: Conversation, conv: string, call: string)
    requires Settles(e, conv, call)
    ensures React(env, e, c).out.Made?
    ensures React(env, e, c).out.span.error ==
            if RefusalOf(c, Some(call)).Some? then RefusalOf(c, Some(call)) else OwnStatus(env, e.rec.attributes)
    ensures React(env, e, c).remembers.UnwrapOr(c).refused == Settle(c, call).refused
  {
    hide Common, ToolAttributes, StartOf, AttrStr, RefusalIn, Contains;
    FirstRefusalFinds(c.refused, call);
  }

  /** What a decision says of a refused call. */
  function Reason(a: Attributes): string {
    AttrStr(a, "decision").UnwrapOr("") + " (" + AttrStr(a, "source").UnwrapOr("unknown") + ")"
  }

  /** Only what is not approved refuses a call. */
  lemma RefusalSays(a: Attributes)
    ensures RefusalIn(a).Some? <==> AttrStr(a, "call_id").Some? && !("approved" <= AttrStr(a, "decision").UnwrapOr(""))
    ensures RefusalIn(a).Some? ==> AttrStr(a, "call_id") == Some(RefusalIn(a).value.call) && RefusalIn(a).value.why == Reason(a)
  {
    hide AttrStr;
  }

  /**
   * A refused call's own result carries the refusal, when fewer than sixteen other refusals of the
   * conversation come between.
   */
  lemma RefusalMarksItsResult(env: Env, requests: seq<seq<Entry>>, sessions: set<string>, capacity: nat,
                              d: nat, j: nat, conv: string, call: string)
    requires Fits(requests, sessions, capacity)
    requires var records := Concat(requests);
             && d < j < |records| && OnlyRefusal(records, d, j, conv, call) && Settles(records[j], conv, call)
             && RefusalsBetween(records, d + 1, j, conv) < REFUSED_KEPT
    ensures var records, outs := Concat(requests), Exported(env, requests, capacity);
            && |outs| == |records| && outs[j].Made?
            && outs[j].span.error == Some(RefusalIn(records[d].rec.attributes).value.why)
            && outs[j].span.error == Some(Reason(records[d].rec.attributes))
  {
    hide React, After, RefusalIn, EventOf, Held, Outputs, OwnStatus, RefusalOf, Reason;
    var records := Concat(requests);
    RefusalSays(records[d].rec.attributes);
    var r := RefusalIn(records[d].rec.attributes).value;
    ExportedAsOneStream(env, requests, sessions, capacity);
    OutputAt(env, records, j);
    var c := After(Dialogue(env), records[..j], conv);
    RefusalWaits(env, records, d, j, conv, call);
    HeldIsFound(c, r, RefusalsBetween(records, d + 1, j, conv));
    ResultStatus(env, records[j], c, conv, call);
  }

  // ----- How often a refusal marks -----

  /** How many refusals of the call are held. */
  function HeldCount(refused: seq<Refusal>, call: string): nat {
    if refused == [] then 0
    else HeldCount(refused[..|refused| - 1], call) + if refused[|refused| - 1].call == call then 1 else 0
  }

  lemma {:induction false} HeldCountJoin(a: seq<Refusal>, b: seq<Refusal>, call: string)
    ensures HeldCount(a + b, call) == HeldCount(a, call) + HeldCount(b, call)
  {
    if b == [] {
      assert a + b == a;
    } else {
      assert (a + b)[..|a + b| - 1] == a + b[..|b| - 1];
      HeldCountJoin(a, b[..|b| - 1], call);
    }
  }

  lemma {:induction false} NoneHeldIff(refused: seq<Refusal>, call: string)
    ensures HeldCount(refused, call) == 0 <==> NotRefusedIn(refused, call)
  {
    if refused != [] {
      NoneHeldIff(refused[..|refused| - 1], call);
      assert refused == refused[..|refused| - 1] + [refused[|refused| - 1]];
    }
  }

  lemma OneHeld(r: Refusal, call: string)
    ensures HeldCount([r], call) == if r.call == call then 1 else 0
  {
  }

  lemma RefuseCounts(c: Conversation, r: Refusal, call: string)
    ensures HeldCount(Refuse(c, r).refused, call) <= HeldCount(c.refused, call) + if r.call == call then 1 else 0
  {
    hide HeldCount;
    var all := c.refused + [r];
    HeldCountJoin(c.refused, [r], call);
    OneHeld(r, call);
    assert all == all[..1] + all[1..];
    HeldCountJoin(all[..1], all[1..], call);
  }

  lemma SettleCounts(c: Conversation, id: string, call: string)
    ensures HeldCount(Settle(c, id).refused, call)
         == HeldCount(c.refused, call) - if id == call && RefusalOf(c, Some(id)).Some? then 1 else 0
  {
    hide HeldCount;
    FirstRefusalFinds(c.refused, id);
    match FirstRefusal(c.refused, id)
    case None =>
    case Some(i) =>
      var before, behind := c.refused[..i], c.refused[i + 1..];
      assert c.refused == before + [c.refused[i]] + behind;
      HeldCountJoin(before + [c.refused[i]], behind, call);
      HeldCountJoin(before, [c.refused[i]], call);
      HeldCountJoin(before, behind, call);
      OneHeld(c.refused[i], call);
  }

  /** The result of the call finds a refusal remembered. */
  predicate Marks(env: Env, records: seq<Entry>, i: nat, conv: string, call: string)
    requires i < |records|
  {
    Settles(records[i], conv, call) && RefusalOf(After(Dialogue(env), records[..i], conv), Some(call)).Some?
  }

  /** How many results of the call, among the first `n` records, find one. */
  function MarkCount(env: Env, records: seq<Entry>, n: nat, conv: string, call: string): nat
    requires n <= |records|
  {
    if n == 0 then 0
    else MarkCount(env, records, n - 1, conv, call) + if Marks(env, records, n - 1, conv, call) then 1 else 0
  }

  /** How many refusals of the call there are among them. */
  function RefusalCount(records: seq<Entry>, n: nat, conv: string, call: string): nat
    requires n <= |records|
  {
    if n == 0 then 0
    else RefusalCount(records, n - 1, conv, call) + if Refuses(records[n - 1], conv, call) then 1 else 0
  }

  lemma CountedStep(env: Env, e: Entry, c: Conversation, conv: string, call: string)
    requires Session(e) == Some(conv)
    ensures HeldCount(React(env, e, c).remembers.UnwrapOr(c).refused, call)
            + (if Settles(e, conv, call) && RefusalOf(c, Some(call)).Some? then 1 else 0)
         <= HeldCount(c.refused, call) + if Refuses(e, conv, call) then 1 else 0
  {
    RefusedChanges(env, e, c);
    hide React, RefusalIn, EventOf, HeldCount, Refuse, Settle, RefusalOf, AttrStr;
    var a := e.rec.attributes;
    if EventOf(e) == Some("tool_decision") && RefusalIn(a).Some? {
      RefuseCounts(c, RefusalIn(a).value, call);
    } else if EventOf(e) == Some("tool_result") && RefusalOf(c, AttrStr(a, "call_id")).Some? {
      NoCallNoRefusal(c, AttrStr(a, "call_id"));
      SettleCounts(c, AttrStr(a, "call_id").value, call);
    }
  }

  lemma NoCallNoRefusal(c: Conversation, call: Option<string>)
    requires RefusalOf(c, call).Some?
    ensures call.Some?
  {
  }

  /** Each refusal is held or has marked a result, or is forgotten; it does not mark twice. */
  lemma {:induction false} MarksAreCovered(env: Env, records: seq<Entry>, n: nat, conv: string, call: string)
    requires n <= |records|
    ensures HeldCount(After(Dialogue(env), records[..n], conv).refused, call) + MarkCount(env, records, n, conv, call)
         <= RefusalCount(records, n, conv, call)
    decreases n
  {
    hide React, After, Refuses, RefusalOf, HeldCount;
    if n == 0 {
      NothingYet(env, records, conv);
      NoneHeldIff(NEW_CONVERSATION.refused, call);
    } else {
      MarksAreCovered(env, records, n - 1, conv, call);
      AfterOne(env, records, n - 1, conv);
      if Session(records[n - 1]) == Some(conv) {
        CountedStep(env, records[n - 1], After(Dialogue(env), records[..n - 1], conv), conv, call);
      }
    }
  }

  /** Results of the call whose span does not have the status their own record gives. */
  function ChangedResults(env: Env, records: seq<Entry>, outs: seq<Mapping>, n: nat, conv: string, call: string): nat
    requires n <= |records| == |outs|
  {
    if n == 0 then 0
    else ChangedResults(env, records, outs, n - 1, conv, call)
         + if Settles(records[n - 1], conv, call) && outs[n - 1].Made?
              && outs[n - 1].span.error != OwnStatus(env, records[n - 1].rec.attributes) then 1 else 0
  }

  lemma {:induction false} ChangedAreMarked(env: Env, records: seq<Entry>, n: nat, conv: string, call: string)
    requires n <= |records| == |Outputs(Dialogue(env), records)|
    ensures ChangedResults(env, records, Outputs(Dialogue(env), records), n, conv, call) <= MarkCount(env, records, n, conv, call)
  {
    hide React, After, RefusalOf, Outputs, OwnStatus;
    if n > 0 {
      ChangedAreMarked(env, records, n - 1, conv, call);
      if Settles(records[n - 1], conv, call) {
        OutputAt(env, records, n - 1);
        ResultStatus(env, records[n - 1], After(Dialogue(env), records[..n - 1], conv), conv, call);
      }
    }
  }

  /**
   * Whatever comes between and however often a call is refused, its refusals change no more of its
   * results than there are refusals of it.
   */
  lemma RefusalsMarkOnceEach(env: Env, requests: seq<seq<Entry>>, sessions: set<string>, capacity: nat,
                             n: nat, conv: string, call: string)
    requires Fits(requests, sessions, capacity) && n <= |Concat(requests)|
    ensures var records, outs := Concat(requests), Exported(env, requests, capacity);
            && |outs| == |records|
            && ChangedResults(env, records, outs, n, conv, call) <= RefusalCount(records, n, conv, call)
  {
    hide React, After, RefusalOf, Outputs, OwnStatus, HeldCount, Refuses;
    var records := Concat(requests);
    ExportedAsOneStream(env, requests, sessions, capacity);
    OutputCount(env, records);
    MarksAreCovered(env, records, n, conv, call);
    ChangedAreMarked(env, records, n, conv, call);
  }

  lemma {:induction false} CountsGrow(env: Env, records: seq<Entry>, m: nat, n: nat, conv: string, call: string)
    requires m <= n <= |records|
    ensures MarkCount(env, records, m, conv, call) <= MarkCount(env, records, n, conv, call)
    decreases n
  {
    hide Marks;
    if m < n {
      CountsGrow(env, records, m, n - 1, conv, call);
    }
  }

  lemma {:induction false} OneRefusalCounts(records: seq<Entry>, d: nat, n: nat, conv: string, call: string)
    requires n <= |records| && forall i :: 0 <= i < n && i != d ==> !Refuses(records[i], conv, call)
    ensures RefusalCount(records, n, conv, call) <= if d < n then 1 else 0
    decreases n
  {
    hide Refuses;
    if n > 0 {
      OneRefusalCounts(records, d, n - 1, conv, call);
    }
  }

  /**
   * Once a call refused once has had a result, marked or not, no later result of it is marked: each keeps
   * the status its own record gives, however many refusals of other calls come between.
   */
  lemma LaterResultsAreTheirOwn(env: Env, requests: seq<seq<Entry>>, sessions: set<string>, capacity: nat,
                                d: nat, j: nat, k: nat, conv: string, call: string)
    requires Fits(requests, sessions, capacity)
    requires var records := Concat(requests);
             && d < j < k < |records| && Settles(records[j], conv, call) && Settles(records[k], conv, call)
             && (forall i :: 0 <= i < k && i != d ==> !Refuses(records[i], conv, call))
    ensures var records, outs := Concat(requests), Exported(env, requests, capacity);
            && |outs| == |records| && outs[k].Made?
            && outs[k].span.error == OwnStatus(env, records[k].rec.attributes)
  {
    hide React, After, RefusalIn, EventOf, Outputs, OwnStatus, RefusalOf, HeldCount, Refuses;
    var records := Concat(requests);
    ExportedAsOneStream(env, requests, sessions, capacity);
    OutputAt(env, records, k);
    var c, later := After(Dialogue(env), records[..j], conv), After(Dialogue(env), records[..k], conv);
    NoneLeft(env, records, d, j, conv, call);
    StaysUnheld(env, records, j + 1, k, conv, call);
    UnheldIsNotFound(later, call);
    ResultStatus(env, records[k], later, conv, call);
  }

  lemma NoneLeft(env: Env, records: seq<Entry>, d: nat, j: nat, conv: string, call: string)
    requires d < j < |records| && Settles(records[j], conv, call)
    requires forall i :: 0 <= i <= j && i != d ==> !Refuses(records[i], conv, call)
    ensures NotRefusedIn(After(Dialogue(env), records[..j + 1], conv).refused, call)
  {
    hide React, After, RefusalIn, EventOf, RefusalOf, HeldCount, Refuses;
    var c := After(Dialogue(env), records[..j], conv);
    OneRefusalCounts(records, d, j + 1, conv, call);
    MarksAreCovered(env, records, j + 1, conv, call);
    NoneHeldIff(After(Dialogue(env), records[..j + 1], conv).refused, call);
    if !Marks(env, records, j, conv, call) {
      UnmarkedIsUnheld(c, call);
      StaysUnheld(env, records, j, j + 1, conv, call);
    }
  }

  lemma UnmarkedIsUnheld(c: Conversation, call: string)
    requires RefusalOf(c, Some(call)).None?
    ensures NotRefusedIn(c.refused, call)
  {
    FirstRefusalFinds(c.refused, call);
  }

  /** A result's own word: the call failed, or its command did, or neither. */
  predicate SpeaksFor(env: Env, a: Attributes, error: Option<string>) {
    && (AttrStr(a, "success") == Some("false") ==> error == Some("tool failed"))
    && (AttrStr(a, "success") != Some("false") ==>
          && (env.exitCode(a).None? ==> error == None)
          && (env.exitCode(a).Some? ==> error == Some("exit code " + Printed(env.exitCode(a).value))))
  }

  lemma OwnStatusSpeaks(env: Env, a: Attributes)
    ensures SpeaksFor(env, a, OwnStatus(env, a))
  {
    hide AttrStr, Printed;
  }

  /** A call none of the records before its result refuses keeps the status its own record gives. */
  lemma UnrefusedKeepsItsStatus(env: Env, requests: seq<seq<Entry>>, sessions: set<string>, capacity: nat,
                                j: nat, conv: string, call: string)
    requires Fits(requests, sessions, capacity)
    requires j < |Concat(requests)| && Settles(Concat(requests)[j], conv, call)
    requires forall i :: 0 <= i < j ==> !Refuses(Concat(requests)[i], conv, call)
    ensures var outs := Exported(env, requests, capacity);
            && |outs| == |Concat(requests)| && outs[j].Made?
            && outs[j].span.error == OwnStatus(env, Concat(requests)[j].rec.attributes)
            && SpeaksFor(env, Concat(requests)[j].rec.attributes, outs[j].span.error)
  {
    hide React, After, RefusalIn, EventOf, Outputs, OwnStatus, RefusalOf, SpeaksFor;
    var records := Concat(requests);
    OwnStatusSpeaks(env, records[j].rec.attributes);
    ExportedAsOneStream(env, requests, sessions, capacity);
    OutputAt(env, records, j);
    NothingYet(env, records, conv);
    StaysUnheld(env, records, 0, j, conv, call);
    var c := After(Dialogue(env), records[..j], conv);
    UnheldIsNotFound(c, call);
    ResultStatus(env, records[j], c, conv, call);
  }
}
