/** The logs door (src/logs.rs, `normalize_logs`): what becomes of every record of an export request. */
module LogsDoor {
  import opened Wrappers
  import opened Otlp
  import opened SessionMemory
  import Codex
  import GeminiCli

  datatype Policy = Off | Genai | All

  /** What an evaluation result becomes; its fields are read by code that is not part of this model. */
  datatype Score = Score(id: string, target: string, name: string, value: string)

  /** What happened to one record. */
  datatype Fate =
    | BecameSpan(span: SpanDraft)
    | BecameScore(score: Score)
    | WasFolded
    | WasUnmapped
    | WasOff
    | WasMalformed

  /**
   * What the door calls: Codex's environment, Gemini CLI's id hash, Claude Code's mapping (which remembers
   * nothing), the span made of a plain record, and the score read from an evaluation result.
   */
  datatype Door = Door(
    codex: Codex.Env,
    gemini: GeminiCli.Derive,
    claude: Entry -> Mapping,
    plain: Entry -> SpanDraft,
    score: LogRecord -> Option<Score>)

  const EVALUATION := "gen_ai.evaluation.result"

  predicate IsEvaluation(e: Entry) { EventName(e.rec) == Some(EVALUATION) }

  /** Does the record get as far as Codex's mapping, when the door is open? */
  predicate ReachesCodex(door: Door, open: bool, e: Entry) {
    open && !IsEvaluation(e) && door.claude(e) == NotMine
  }

  const CODEX_EVENTS := {"conversation_starts", "user_prompt", "api_request", "websocket_request", "sse_event",
                         "tool_decision", "tool_result"}

  /** Codex maps the record or folds it, whatever it remembers. */
  predicate CodexClaims(e: Entry) {
    Codex.EventOf(e).Some? && Codex.EventOf(e).value in CODEX_EVENTS
  }

  lemma ClaimedIsMine(env: Codex.Env, e: Entry, c: Codex.Conversation)
    ensures Codex.React(env, e, c).out == NotMine <==> !CodexClaims(e)
    ensures !CodexClaims(e) ==> Codex.React(env, e, c).remembers == None
  {
    hide Codex.EventOf, Codex.LlmSpan, Codex.ToolSpan, Codex.PromptSpan, Codex.TurnOf, Codex.RefusalIn, Codex.Refuse,
      Codex.Settle, Codex.NewRequest, Codex.RequestError, Codex.Contains, Codex.ConversationId, AttrStr, AttrU64, Codex.RefusalOf;
  }

  const GEMINI_EVENTS := {"gemini_cli.user_prompt", "gemini_cli.api_response", "gemini_cli.api_error", "gemini_cli.tool_call",
                          "gemini_cli.api_request", "gen_ai.client.inference.operation.details"}

  predicate GeminiClaims(e: Entry) {
    GeminiCli.EventOf(e).Some? && GeminiCli.EventOf(e).value in GEMINI_EVENTS
  }

  lemma GeminiIsMine(derive: GeminiCli.Derive, e: Entry, s: GeminiCli.Session)
    ensures GeminiCli.React(derive, e, s).out == NotMine <==> !GeminiClaims(e)
  {
    hide GeminiCli.EventOf, GeminiCli.LlmSpan, GeminiCli.ToolSpan, GeminiCli.PromptSpan, GeminiCli.TurnOf, GeminiCli.ApiError,
      GeminiCli.SessionId, Codex.OwnContext, AttrStr;
  }

  predicate ReachesGemini(door: Door, open: bool, e: Entry) {
    ReachesCodex(door, open, e) && !CodexClaims(e)
  }

  /** Codex as the door uses it. */
  function CodexAt(door: Door, open: bool): Dialect<Entry, Codex.Conversation, Mapping> {
    Dialect((e: Entry) => if ReachesCodex(door, open, e) then Codex.Session(e) else None, Codex.NEW_CONVERSATION,
            (e: Entry, c: Codex.Conversation) =>
              if ReachesCodex(door, open, e) then Codex.React(door.codex, e, c) else Reaction(NotMine, None))
  }

  /** Gemini CLI as the door uses it. */
  function GeminiAt(door: Door, open: bool): Dialect<Entry, GeminiCli.Session, Mapping> {
    Dialect((e: Entry) => if ReachesGemini(door, open, e) then GeminiCli.SessionOf(e) else None, GeminiCli.NEW_SESSION,
            (e: Entry, s: GeminiCli.Session) =>
              if ReachesGemini(door, open, e) then GeminiCli.React(door.gemini, e, s) else Reaction(NotMine, None))
  }

  function FateOfMapping(door: Door, policy: Policy, e: Entry, m: Mapping): Fate {
    match m
    case Made(span) => BecameSpan(span)
    case Folded => WasFolded
    case NotMine => if policy == All then BecameSpan(door.plain(e)) else WasUnmapped
  }

  /** What becomes of a record, given what Codex and Gemini CLI make of it; the first that claims it has it. */
  function FateOf(door: Door, policy: Policy, e: Entry, codex: Mapping, gemini: Mapping): Fate {
    if policy == Off then WasOff
    else if IsEvaluation(e) then match door.score(e.rec) case Some(s) => BecameScore(s) case None => WasMalformed
    else if door.claude(e) != NotMine then FateOfMapping(door, policy, e, door.claude(e))
    else FateOfMapping(door, policy, e, if codex == NotMine then gemini else codex)
  }

  function Fates(door: Door, policy: Policy, records: seq<Entry>, codex: seq<Mapping>, gemini: seq<Mapping>): seq<Fate>
    requires |codex| == |gemini| == |records|
  {
    seq(|records|, i requires 0 <= i < |records| && |codex| == |gemini| == |records| =>
      FateOf(door, policy, records[i], codex[i], gemini[i]))
  }

  // ----- The node -----

  /** What a node remembers for both dialects. */
  datatype Memories = Memories(codex: Memory<Codex.Conversation>, gemini: Memory<GeminiCli.Session>)

  /** What one request remembers for both. */
  datatype Locals = Locals(codex: map<string, Codex.Conversation>, gemini: map<string, GeminiCli.Session>)

  lemma {:induction false} RequestLength<R, T, O>(d: Dialect<R, T, O>, m: Memory<T>, local: map<string, T>, request: seq<R>, capacity: nat)
    ensures |HandleRequest(d, m, local, request, capacity).2| == |request|
    decreases |request|
  {
    hide Handle;
    if request != [] {
      RequestLength(d, m, local, request[..|request| - 1], capacity);
    }
  }

  /** What a request comes to: the memories, and what became of each record. */
  function Normalized(door: Door, policy: Policy, m: Memories, request: seq<Entry>, capacity: nat): (Memories, seq<Fate>) {
    var open := policy != Off;
    var c := HandleRequest(CodexAt(door, open), m.codex, map[], request, capacity);
    var g := HandleRequest(GeminiAt(door, open), m.gemini, map[], request, capacity);
    RequestLength(CodexAt(door, open), m.codex, map[], request, capacity);
    RequestLength(GeminiAt(door, open), m.gemini, map[], request, capacity);
    (Memories(c.0, g.0), Fates(door, policy, request, c.2, g.2))
  }

  // ----- Requests and batches -----

  datatype ScopeLogs = ScopeLogs(scope: Option<string>, records: seq<LogRecord>)

  datatype ResourceLogs = ResourceLogs(service: Option<string>, scopes: seq<ScopeLogs>)

  function ContextOf(r: ResourceLogs, s: ScopeLogs): Context {
    Context(r.service, NonEmpty(s.scope))
  }

  function EntriesOf(ctx: Context, records: seq<LogRecord>): seq<Entry> {
    seq(|records|, i requires 0 <= i < |records| => Entry(ctx, records[i]))
  }

  function ScopesOf(r: ResourceLogs, n: nat): seq<Entry>
    requires n <= |r.scopes|
  {
    if n == 0 then []
    else ScopesOf(r, n - 1) + EntriesOf(ContextOf(r, r.scopes[n - 1]), r.scopes[n - 1].records)
  }

  /** The records of a request in order. */
  function RecordsOf(request: seq<ResourceLogs>): seq<Entry> {
    if request == [] then []
    else RecordsOf(request[..|request| - 1]) + ScopesOf(request[|request| - 1], |request[|request| - 1].scopes|)
  }

  /** How many records come before those of scope `j` of resource `i`. */
  function Before(request: seq<ResourceLogs>, i: nat, j: nat): nat
    requires i < |request| && j <= |request[i].scopes|
  {
    if j > 0 then Before(request, i, j - 1) + |request[i].scopes[j - 1].records|
    else if i > 0 then Before(request, i - 1, |request[i - 1].scopes|)
    else 0
  }

  lemma {:induction false} ScopeAt(r: ResourceLogs, n: nat, j: nat)
    requires j < n <= |r.scopes|
    ensures |ScopesOf(r, j)| + |r.scopes[j].records| <= |ScopesOf(r, n)|
    ensures forall k :: 0 <= k < |r.scopes[j].records| ==>
              ScopesOf(r, n)[|ScopesOf(r, j)| + k] == Entry(ContextOf(r, r.scopes[j]), r.scopes[j].records[k])
    decreases n
  {
    hide ContextOf;
    if j < n - 1 {
      ScopeAt(r, n - 1, j);
    }
  }

  lemma {:induction false} BeforeIs(request: seq<ResourceLogs>, i: nat, j: nat)
    requires i < |request| && j <= |request[i].scopes|
    ensures Before(request, i, j) == |RecordsOf(request[..i])| + |ScopesOf(request[i], j)|
    decreases i, j
  {
    if j > 0 {
      BeforeIs(request, i, j - 1);
    } else if i > 0 {
      BeforeIs(request, i - 1, |request[i - 1].scopes|);
      assert request[..i][..i - 1] == request[..i - 1];
    } else {
      assert request[..0] == [];
    }
  }

  lemma {:induction false} RecordsBegin(request: seq<ResourceLogs>, i: nat)
    requires i <= |request|
    ensures RecordsOf(request[..i]) <= RecordsOf(request)
    decreases |request|
  {
    if i == |request| {
      assert request[..i] == request;
    } else {
      RecordsBegin(request[..|request| - 1], i);
      assert request[..|request| - 1][..i] == request[..i];
    }
  }

  /** Every record of a request is taken, in the order of resources, scopes and records, with the service and the scope it came under. */
  lemma RecordAt(request: seq<ResourceLogs>, i: nat, j: nat, k: nat)
    requires i < |request| && j < |request[i].scopes| && k < |request[i].scopes[j].records|
    ensures var at, scope := Before(request, i, j) + k, request[i].scopes[j];
            && at < |RecordsOf(request)| && RecordsOf(request)[at].rec == scope.records[k]
            && RecordsOf(request)[at].ctx.serviceName == request[i].service
            && RecordsOf(request)[at].ctx.scopeName == if scope.scope == Some("") then None else scope.scope
  {
    hide ScopesOf, Before;
    BeforeIs(request, i, j);
    RecordsBegin(request, i + 1);
    assert request[..i + 1][..i] == request[..i];
    ScopeAt(request[i], |request[i].scopes|, j);
    assert RecordsOf(request[..i + 1]) == RecordsOf(request[..i]) + ScopesOf(request[i], |request[i].scopes|);
  }

  /** And nothing else is. */
  lemma AllRecords(request: seq<ResourceLogs>)
    ensures |RecordsOf(request)| == if request == [] then 0 else Before(request, |request| - 1, |request[|request| - 1].scopes|)
  {
    if request != [] {
      var n := |request| - 1;
      BeforeIs(request, n, |request[n].scopes|);
    }
  }

  datatype Counts = Counts(span: nat, score: nat, folded: nat, unmapped: nat, off: nat, malformed: nat) {
    function Total(): nat { span + score + folded + unmapped + off + malformed }
  }

  datatype Batch = Batch(spans: seq<SpanDraft>, scores: seq<Score>, records: nat, outcomes: Counts)

  const EMPTY := Batch([], [], 0, Counts(0, 0, 0, 0, 0, 0))

  function Note(b: Batch, f: Fate): Batch {
    var c := b.outcomes;
    match f
    case BecameSpan(s) => Batch(b.spans + [s], b.scores, b.records + 1, c.(span := c.span + 1))
    case BecameScore(s) => Batch(b.spans, b.scores + [s], b.records + 1, c.(score := c.score + 1))
    case WasFolded => b.(records := b.records + 1, outcomes := c.(folded := c.folded + 1))
    case WasUnmapped => b.(records := b.records + 1, outcomes := c.(unmapped := c.unmapped + 1))
    case WasOff => b.(records := b.records + 1, outcomes := c.(off := c.off + 1))
    case WasMalformed => b.(records := b.records + 1, outcomes := c.(malformed := c.malformed + 1))
  }

  function BatchOf(fates: seq<Fate>): Batch {
    if fates == [] then EMPTY else Note(BatchOf(fates[..|fates| - 1]), fates[|fates| - 1])
  }

  /** The memories of the two dialects. */
  class Node {
    const codex: Recall<Codex.Conversation>
    const gemini: Recall<GeminiCli.Session>

    ghost predicate Valid()
      reads this, codex, gemini
    {
      && codex.Valid() && gemini.Valid() && codex.capacity == gemini.capacity
      && codex.initial == Codex.NEW_CONVERSATION && gemini.initial == GeminiCli.NEW_SESSION
    }

    ghost function State(): Memories
      reads this, codex, gemini
    {
      Memories(codex.State(), gemini.State())
    }

    constructor ()
      ensures Valid() && State() == Memories(Memory(map[], []), Memory(map[], [])) && codex.capacity == RECALL_CAPACITY
      ensures fresh(codex) && fresh(gemini)
    {
      codex := new Recall(RECALL_CAPACITY, Codex.NEW_CONVERSATION);
      gemini := new Recall(RECALL_CAPACITY, GeminiCli.NEW_SESSION);
    }
  }

  /** One record, on both memories. */
  function HandleOne(door: Door, policy: Policy, m: Memories, local: Locals, e: Entry, capacity: nat): (Memories, Locals, Fate) {
    var c := Handle(CodexAt(door, policy != Off), m.codex, local.codex, e, capacity);
    var g := Handle(GeminiAt(door, policy != Off), m.gemini, local.gemini, e, capacity);
    (Memories(c.0, g.0), Locals(c.1, g.1), FateOf(door, policy, e, c.2, g.2))
  }

  /** A record that does not reach a dialect leaves its memory alone. */
  lemma PassedBy(door: Door, open: bool, m: Memories, local: Locals, e: Entry, capacity: nat)
    ensures !ReachesCodex(door, open, e) ==>
              Handle(CodexAt(door, open), m.codex, local.codex, e, capacity) == (m.codex, local.codex, NotMine)
    ensures !ReachesGemini(door, open, e) ==>
              Handle(GeminiAt(door, open), m.gemini, local.gemini, e, capacity) == (m.gemini, local.gemini, NotMine)
    ensures var at := Handle(CodexAt(door, open), m.codex, local.codex, e, capacity);
            ReachesCodex(door, open, e) ==> at == Handle(Codex.Dialogue(door.codex), m.codex, local.codex, e, capacity)
    ensures var at := Handle(GeminiAt(door, open), m.gemini, local.gemini, e, capacity);
            ReachesGemini(door, open, e) ==> at == Handle(GeminiCli.Dialogue(door.gemini), m.gemini, local.gemini, e, capacity)
  {
    hide Codex.React, GeminiCli.React, Codex.Session, GeminiCli.SessionOf, CodexClaims, IsEvaluation, Store, Recalled;
  }

  lemma CodexAnswers(env: Codex.Env, m: Memory<Codex.Conversation>, local: map<string, Codex.Conversation>, e: Entry, capacity: nat)
    ensures Handle(Codex.Dialogue(env), m, local, e, capacity).2 == NotMine <==> !CodexClaims(e)
  {
    forall c { ClaimedIsMine(env, e, c); }
    hide Codex.React, Codex.Session, CodexClaims, Store, Recalled;
  }

  /** Maps one record: Claude Code first, then Codex, then Gemini CLI. */
  method MapRecord(door: Door, node: Node, local: Locals, e: Entry, policy: Policy) returns (f: Fate, local': Locals)
    requires node.Valid()
    modifies node.codex, node.gemini
    ensures node.Valid()
    ensures (node.State(), local', f) == HandleOne(door, policy, old(node.State()), local, e, node.codex.capacity)
  {
    hide Handle, EventName, IsMemory, CodexClaims;
    PassedBy(door, policy != Off, node.State(), local, e, node.codex.capacity);
    if policy == Off {
      return WasOff, local;
    }
    if IsEvaluation(e) {
      var score := door.score(e.rec);
      return if score.Some? then BecameScore(score.value) else WasMalformed, local;
    }
    var m := door.claude(e);
    if m != NotMine {
      return FateOfMapping(door, policy, e, m), local;
    }
    CodexAnswers(door.codex, node.codex.State(), local.codex, e, node.codex.capacity);
    var codex;
    m, codex := Codex.MapLog(door.codex, node.codex, local.codex, e);
    local' := local.(codex := codex);
    if m == NotMine {
      var gemini;
      m, gemini := GeminiCli.MapLog(door.gemini, node.gemini, local.gemini, e);
      local' := local'.(gemini := gemini);
    }
    f := FateOfMapping(door, policy, e, m);
  }

  /** What a request mapped so far has come to. */
  ghost predicate Mapped(door: Door, policy: Policy, before: Memories, done: seq<Entry>, capacity: nat,
                         after: Memories, local: Locals, batch: Batch)
  {
    var c := HandleRequest(CodexAt(door, policy != Off), before.codex, map[], done, capacity);
    var g := HandleRequest(GeminiAt(door, policy != Off), before.gemini, map[], done, capacity);
    && after == Memories(c.0, g.0) && local == Locals(c.1, g.1) && |c.2| == |g.2| == |done|
    && batch == BatchOf(Fates(door, policy, done, c.2, g.2))
  }

  lemma RequestGrows<R, T, O>(d: Dialect<R, T, O>, m: Memory<T>, done: seq<R>, r: R, capacity: nat)
    ensures var before := HandleRequest(d, m, map[], done, capacity);
            var next := Handle(d, before.0, before.1, r, capacity);
            HandleRequest(d, m, map[], done + [r], capacity) == (next.0, next.1, before.2 + [next.2])
  {
    hide Handle;
    assert (done + [r])[..|done|] == done;
  }

  lemma FatesGrow(door: Door, policy: Policy, records: seq<Entry>, cs: seq<Mapping>, gs: seq<Mapping>, e: Entry, c: Mapping, g: Mapping)
    requires |cs| == |gs| == |records|
    ensures Fates(door, policy, records + [e], cs + [c], gs + [g])
         == Fates(door, policy, records, cs, gs) + [FateOf(door, policy, e, c, g)]
  {
    hide FateOf;
  }

  lemma MappedMore(door: Door, policy: Policy, before: Memories, done: seq<Entry>, capacity: nat,
                   after: Memories, local: Locals, batch: Batch, e: Entry)
    requires Mapped(door, policy, before, done, capacity, after, local, batch)
    ensures var next := HandleOne(door, policy, after, local, e, capacity);
            Mapped(door, policy, before, done + [e], capacity, next.0, next.1, Note(batch, next.2))
  {
    hide Handle, HandleRequest, Note, FateOf, Fates, CodexAt, GeminiAt;
    var dc, dg := CodexAt(door, policy != Off), GeminiAt(door, policy != Off);
    RequestGrows(dc, before.codex, done, e, capacity);
    RequestGrows(dg, before.gemini, done, e, capacity);
    var cs := HandleRequest(dc, before.codex, map[], done, capacity).2;
    var gs := HandleRequest(dg, before.gemini, map[], done, capacity).2;
    var c := Handle(dc, after.codex, local.codex, e, capacity).2;
    var g := Handle(dg, after.gemini, local.gemini, e, capacity).2;
    FatesGrow(door, policy, done, cs, gs, e, c, g);
    var fates, f := Fates(door, policy, done, cs, gs), FateOf(door, policy, e, c, g);
    assert (fates + [f])[..|fates|] == fates;
  }

  /** The innermost loop, over the records of one scope. */
  method NormalizeScope(door: Door, node: Node, ctx: Context, records: seq<LogRecord>, policy: Policy, batch: Batch, local: Locals,
                        ghost before: Memories, ghost done: seq<Entry>)
    returns (batch': Batch, local': Locals)
    requires node.Valid() && Mapped(door, policy, before, done, node.codex.capacity, node.State(), local, batch)
    modifies node.codex, node.gemini
    ensures node.Valid()
    ensures Mapped(door, policy, before, done + EntriesOf(ctx, records), node.codex.capacity, node.State(), local', batch')
  {
    hide Handle, HandleOne, Note, Mapped, Normalized, IsMemory;
    batch', local' := batch, local;
    ghost var capacity := node.codex.capacity;
    assert records[..|records|] == records && done + EntriesOf(ctx, records[..0]) == done;
    for k := 0 to |records|
      invariant node.Valid()
      invariant Mapped(door, policy, before, done + EntriesOf(ctx, records[..k]), capacity, node.State(), local', batch')
    {
      var e := Entry(ctx, records[k]);
      MappedMore(door, policy, before, done + EntriesOf(ctx, records[..k]), capacity, node.State(), local', batch', e);
      assert done + EntriesOf(ctx, records[..k]) + [e] == done + EntriesOf(ctx, records[..k + 1]);
      var f;
      f, local' := MapRecord(door, node, local', e, policy);
      batch' := Note(batch', f);
    }
  }

  // ----- What becomes of each record -----

  /** No dialect has a use for the record. */
  predicate IsPlain(door: Door, e: Entry) {
    !IsEvaluation(e) && door.claude(e) == NotMine && !CodexClaims(e) && !GeminiClaims(e)
  }

  /** A dialect's word is passed on: its span, or that the record is covered by another. */
  predicate Passes(m: Mapping, f: Fate) {
    (m.Made? ==> f == BecameSpan(m.span)) && (m.Folded? ==> f == WasFolded)
  }

  /** What a reader of the policy expects of a record, from what each dialect says of it. */
  predicate IsFateOf(door: Door, policy: Policy, e: Entry, codex: Mapping, gemini: Mapping, f: Fate) {
    && (policy == Off <==> f == WasOff)
    && (policy != Off && IsEvaluation(e) ==>
          f == match door.score(e.rec) case Some(s) => BecameScore(s) case None => WasMalformed)
    && (policy != Off && !IsEvaluation(e) && door.claude(e) != NotMine ==> Passes(door.claude(e), f))
    && (ReachesCodex(door, policy != Off, e) && CodexClaims(e) ==> codex != NotMine && Passes(codex, f))
    && (ReachesGemini(door, policy != Off, e) && GeminiClaims(e) ==> gemini != NotMine && Passes(gemini, f))
    && (policy == Genai && IsPlain(door, e) <==> f == WasUnmapped)
    && (policy == All && IsPlain(door, e) ==> f == BecameSpan(door.plain(e)))
  }

  lemma FateIs(door: Door, policy: Policy, e: Entry, codex: Mapping, gemini: Mapping)
    requires codex == NotMine <==> !(ReachesCodex(door, policy != Off, e) && CodexClaims(e))
    requires gemini == NotMine <==> !(ReachesGemini(door, policy != Off, e) && GeminiClaims(e))
    ensures IsFateOf(door, policy, e, codex, gemini, FateOf(door, policy, e, codex, gemini))
  {
    hide IsEvaluation, CodexClaims, GeminiClaims;
  }

  /** What is true of a reaction whatever is remembered is true of the output. */
  lemma {:induction false} OutSatisfies<R, T(!new), O>(d: Dialect<R, T, O>, m: Memory<T>, local: map<string, T>, request: seq<R>,
                                                      capacity: nat, i: nat, good: O -> bool)
    requires i < |request| && forall t :: good(d.react(request[i], t).out)
    ensures |HandleRequest(d, m, local, request, capacity).2| == |request|
    ensures good(HandleRequest(d, m, local, request, capacity).2[i])
    decreases |request|
  {
    hide Recalled, Store;
    var front := request[..|request| - 1];
    RequestLength(d, m, local, request, capacity);
    RequestLength(d, m, local, front, capacity);
    if i < |front| {
      OutSatisfies(d, m, local, front, capacity, i, good);
    }
  }

  lemma CodexSays(door: Door, open: bool, m: Memory<Codex.Conversation>, request: seq<Entry>, capacity: nat, i: nat)
    requires i < |request|
    ensures |HandleRequest(CodexAt(door, open), m, map[], request, capacity).2| == |request|
    ensures HandleRequest(CodexAt(door, open), m, map[], request, capacity).2[i] == NotMine
       <==> !(ReachesCodex(door, open, request[i]) && CodexClaims(request[i]))
  {
    hide HandleRequest, Codex.React, CodexClaims, Codex.Session, ReachesCodex;
    var e := request[i];
    forall c { ClaimedIsMine(door.codex, e, c); }
    var claimed := ReachesCodex(door, open, e) && CodexClaims(e);
    OutSatisfies(CodexAt(door, open), m, map[], request, capacity, i, (out: Mapping) => out == NotMine <==> !claimed);
  }

  lemma GeminiSays(door: Door, open: bool, m: Memory<GeminiCli.Session>, request: seq<Entry>, capacity: nat, i: nat)
    requires i < |request|
    ensures |HandleRequest(GeminiAt(door, open), m, map[], request, capacity).2| == |request|
    ensures HandleRequest(GeminiAt(door, open), m, map[], request, capacity).2[i] == NotMine
       <==> !(ReachesGemini(door, open, request[i]) && GeminiClaims(request[i]))
  {
    hide HandleRequest, GeminiCli.React, GeminiClaims, GeminiCli.SessionOf, ReachesGemini;
    var e := request[i];
    forall s { GeminiIsMine(door.gemini, e, s); }
    var claimed := ReachesGemini(door, open, e) && GeminiClaims(e);
    OutSatisfies(GeminiAt(door, open), m, map[], request, capacity, i, (out: Mapping) => out == NotMine <==> !claimed);
  }

  /** Every record of a request, whatever is remembered when it comes. */
  lemma EveryFate(door: Door, policy: Policy, m: Memories, request: seq<Entry>, capacity: nat, i: nat)
    requires i < |request|
    ensures var codex := HandleRequest(CodexAt(door, policy != Off), m.codex, map[], request, capacity).2;
            var gemini := HandleRequest(GeminiAt(door, policy != Off), m.gemini, map[], request, capacity).2;
            var fates := Normalized(door, policy, m, request, capacity).1;
            && |codex| == |gemini| == |fates| == |request|
            && IsFateOf(door, policy, request[i], codex[i], gemini[i], fates[i])
  {
    hide HandleRequest, CodexAt, GeminiAt, ReachesCodex, ReachesGemini, CodexClaims, GeminiClaims, IsFateOf, FateOf;
    CodexSays(door, policy != Off, m.codex, request, capacity, i);
    GeminiSays(door, policy != Off, m.gemini, request, capacity, i);
    FateIs(door, policy, request[i], HandleRequest(CodexAt(door, policy != Off), m.codex, map[], request, capacity).2[i],
           HandleRequest(GeminiAt(door, policy != Off), m.gemini, map[], request, capacity).2[i]);
  }

  // ----- How many there are of each -----

  datatype Kind = Spans | Scores | Foldings | Unmapped | Offs | Malformed

  predicate IsOf(kind: Kind, f: Fate) {
    match kind
    case Spans => f.BecameSpan?
    case Scores => f.BecameScore?
    case Foldings => f.WasFolded?
    case Unmapped => f.WasUnmapped?
    case Offs => f.WasOff?
    case Malformed => f.WasMalformed?
  }

  function Counted(kind: Kind, c: Counts): nat {
    match kind
    case Spans => c.span
    case Scores => c.score
    case Foldings => c.folded
    case Unmapped => c.unmapped
    case Offs => c.off
    case Malformed => c.malformed
  }

  function PlacesOf(kind: Kind, fates: seq<Fate>): set<nat> {
    set i: nat | i < |fates| && IsOf(kind, fates[i])
  }

  /** Each outcome is counted as often as it happened. */
  lemma {:induction false} CountsAreRight(kind: Kind, fates: seq<Fate>)
    ensures Counted(kind, BatchOf(fates).outcomes) == |PlacesOf(kind, fates)|
  {
    if fates == [] {
      assert PlacesOf(kind, fates) == {};
    } else {
      var n := |fates| - 1;
      CountsAreRight(kind, fates[..n]);
      PlacesOfMore(kind, fates);
      CountedMore(kind, BatchOf(fates[..n]), fates[n]);
    }
  }

  lemma PlacesOfMore(kind: Kind, fates: seq<Fate>)
    requires fates != []
    ensures var n := |fates| - 1;
            |PlacesOf(kind, fates)| == |PlacesOf(kind, fates[..n])| + if IsOf(kind, fates[n]) then 1 else 0
  {
    hide IsOf, PlacesOf;
    var n: nat := |fates| - 1;
    var before, after := PlacesOf(kind, fates[..n]), PlacesOf(kind, fates);
    forall i: nat
      ensures i in after <==> i in before || (i == n && IsOf(kind, fates[n]))
      ensures i in before ==> i < n
    {
      IsPlaceOf(kind, fates, n, i);
    }
    assert after == if IsOf(kind, fates[n]) then before + {n} else before;
  }

  lemma IsPlaceOf(kind: Kind, fates: seq<Fate>, n: nat, i: nat)
    requires n < |fates|
    ensures i in PlacesOf(kind, fates[..n]) <==> i < n && IsOf(kind, fates[i])
    ensures i in PlacesOf(kind, fates) <==> i < |fates| && IsOf(kind, fates[i])
  {
    hide IsOf;
  }

  lemma CountedMore(kind: Kind, b: Batch, f: Fate)
    ensures Counted(kind, Note(b, f).outcomes) == Counted(kind, b.outcomes) + if IsOf(kind, f) then 1 else 0
  {
  }

  /** Where the records are that no dialect has a use for. */
  function PlainPlaces(door: Door, records: seq<Entry>): set<nat> {
    set i: nat | i < |records| && IsPlain(door, records[i])
  }

  /** Under `genai` just those records are unmapped, under `all` none is, and nothing is off but under `off`. */
  lemma UnmappedArePlain(door: Door, policy: Policy, m: Memories, request: seq<Entry>, capacity: nat)
    ensures var outcomes := BatchOf(Normalized(door, policy, m, request, capacity).1).outcomes;
            && outcomes.unmapped == (if policy == Genai then |PlainPlaces(door, request)| else 0)
            && outcomes.off == (if policy == Off then |request| else 0)
  {
    hide Normalized, BatchOf, IsPlain, HandleRequest, CodexAt, GeminiAt, CodexClaims, GeminiClaims, ReachesCodex, ReachesGemini,
         IsEvaluation;
    var fates := Normalized(door, policy, m, request, capacity).1;
    FatesLength(door, policy, m, request, capacity);
    CountsAreRight(Unmapped, fates);
    CountsAreRight(Offs, fates);
    forall i: nat | i < |request|
      ensures fates[i] == WasUnmapped <==> policy == Genai && IsPlain(door, request[i])
      ensures fates[i] == WasOff <==> policy == Off
    {
      EveryFate(door, policy, m, request, capacity, i);
    }
    assert PlacesOf(Unmapped, fates) == if policy == Genai then PlainPlaces(door, request) else {};
    if policy == Off {
      AllOff(fates);
    } else {
      assert PlacesOf(Offs, fates) == {};
    }
  }

  lemma FatesLength(door: Door, policy: Policy, m: Memories, request: seq<Entry>, capacity: nat)
    ensures |Normalized(door, policy, m, request, capacity).1| == |request|
  {
    hide HandleRequest, FateOf;
  }

  lemma {:induction false} AllOff(fates: seq<Fate>)
    requires forall i :: 0 <= i < |fates| ==> fates[i] == WasOff
    ensures BatchOf(fates).outcomes.off == |fates|
  {
    if fates != [] {
      AllOff(fates[..|fates| - 1]);
    }
  }

  // ----- The door -----

  /** A request, record by record, and what every record of it comes to. */
  method NormalizeLogs(door: Door, node: Node, request: seq<ResourceLogs>, policy: Policy) returns (batch: Batch)
    requires node.Valid()
    modifies node.codex, node.gemini
    ensures node.Valid()
    ensures var done := Normalized(door, policy, old(node.State()), RecordsOf(request), node.codex.capacity);
            node.State() == done.0 && batch == BatchOf(done.1)
    ensures policy == All ==> batch.outcomes.unmapped == 0
    ensures policy == Genai ==> batch.outcomes.unmapped == |PlainPlaces(door, RecordsOf(request))|
    ensures batch.outcomes.off == if policy == Off then |RecordsOf(request)| else 0
  {
    hide Handle, HandleOne, Note, Mapped, Normalized, IsMemory, PlainPlaces;
    ghost var before, capacity := node.State(), node.codex.capacity;
    batch := EMPTY;
    var local := Locals(map[], map[]);
    ghost var done: seq<Entry> := [];
    NothingMapped(door, policy, before, capacity);
    for i := 0 to |request|
      invariant node.Valid()
      invariant done == RecordsOf(request[..i])
      invariant Mapped(door, policy, before, done, capacity, node.State(), local, batch)
    {
      var resource := request[i];
      for j := 0 to |resource.scopes|
        invariant node.Valid()
        invariant done == RecordsOf(request[..i]) + ScopesOf(resource, j)
        invariant Mapped(door, policy, before, done, capacity, node.State(), local, batch)
      {
        var scope := resource.scopes[j];
        var ctx := ContextOf(resource, scope);
        batch, local := NormalizeScope(door, node, ctx, scope.records, policy, batch, local, before, done);
        done := done + EntriesOf(ctx, scope.records);
      }
      assert request[..i + 1][..i] == request[..i];
    }
    assert request[..|request|] == request;
    MappedMeans(door, policy, before, done, capacity, node.State(), local, batch);
    UnmappedArePlain(door, policy, before, done, capacity);
  }

  lemma NothingMapped(door: Door, policy: Policy, before: Memories, capacity: nat)
    ensures Mapped(door, policy, before, [], capacity, before, Locals(map[], map[]), EMPTY)
  {
    assert Fates(door, policy, [], [], []) == [];
  }

  lemma MappedMeans(door: Door, policy: Policy, before: Memories, done: seq<Entry>, capacity: nat,
                    after: Memories, local: Locals, batch: Batch)
    requires Mapped(door, policy, before, done, capacity, after, local, batch)
    ensures Normalized(door, policy, before, done, capacity).0 == after
    ensures batch == BatchOf(Normalized(door, policy, before, done, capacity).1)
  {
    hide HandleRequest;
  }

  // ----- Every record has one outcome -----

  lemma {:induction false} OutcomesAddUp(fates: seq<Fate>)
    ensures var b := BatchOf(fates);
            && b.outcomes.Total() == b.records == |fates|
            && b.outcomes.span == |b.spans| && b.outcomes.score == |b.scores|
  {
    if fates != [] {
      OutcomesAddUp(fates[..|fates| - 1]);
    }
  }

  // ----- `genai` keeps a part of what `all` keeps -----

  predicate IsSubsequence<T(==)>(a: seq<T>, b: seq<T>) {
    a == [] ||
    (b != [] && (IsSubsequence(a, b[..|b| - 1]) ||
                 (a[|a| - 1] == b[|b| - 1] && IsSubsequence(a[..|a| - 1], b[..|b| - 1]))))
  }

  lemma {:induction false} ExtendBoth<T>(a: seq<T>, b: seq<T>, x: T)
    requires IsSubsequence(a, b)
    ensures IsSubsequence(a + [x], b + [x]) && IsSubsequence(a, b + [x])
  {
    assert (a + [x])[..|a|] == a && (b + [x])[..|b|] == b;
  }

  /** The two policies differ on nothing but records no dialect maps. */
  predicate SameButUnmapped(g: Fate, a: Fate) {
    g == a || (g == WasUnmapped && a.BecameSpan?)
  }

  predicate AllSameButUnmapped(gs: seq<Fate>, as': seq<Fate>) {
    |gs| == |as'| && forall i :: 0 <= i < |gs| ==> SameButUnmapped(gs[i], as'[i])
  }

  lemma {:induction false} KeptWithin(gs: seq<Fate>, as': seq<Fate>)
    requires AllSameButUnmapped(gs, as')
    ensures IsSubsequence(BatchOf(gs).spans, BatchOf(as').spans)
    ensures BatchOf(gs).scores == BatchOf(as').scores
    decreases |gs|
  {
    if gs != [] {
      var n := |gs| - 1;
      KeptWithin(gs[..n], as'[..n]);
      var g, a := BatchOf(gs[..n]), BatchOf(as'[..n]);
      assert SameButUnmapped(gs[n], as'[n]);
      if as'[n].BecameSpan? {
        ExtendBoth(g.spans, a.spans, as'[n].span);
      }
    }
  }

  lemma UnderBoth(door: Door, records: seq<Entry>, codex: seq<Mapping>, gemini: seq<Mapping>)
    requires |codex| == |gemini| == |records|
    ensures AllSameButUnmapped(Fates(door, Genai, records, codex, gemini), Fates(door, All, records, codex, gemini))
  {
    hide IsEvaluation;
  }

  /**
   * From the same memories the two policies end with the same memories and the same scores, and the
   * spans kept under `genai` are some of those kept under `all`, in the same order.
   */
  lemma GenaiWithinAll(door: Door, m: Memories, request: seq<Entry>, capacity: nat)
    ensures var g, a := Normalized(door, Genai, m, request, capacity), Normalized(door, All, m, request, capacity);
            && g.0 == a.0
            && IsSubsequence(BatchOf(g.1).spans, BatchOf(a.1).spans)
            && BatchOf(g.1).scores == BatchOf(a.1).scores
  {
    hide HandleRequest, Fates, BatchOf, CodexAt, GeminiAt;
    var c, g := HandleRequest(CodexAt(door, true), m.codex, map[], request, capacity),
                HandleRequest(GeminiAt(door, true), m.gemini, map[], request, capacity);
    RequestLength(CodexAt(door, true), m.codex, map[], request, capacity);
    RequestLength(GeminiAt(door, true), m.gemini, map[], request, capacity);
    UnderBoth(door, request, c.2, g.2);
    KeptWithin(Normalized(door, Genai, m, request, capacity).1, Normalized(door, All, m, request, capacity).1);
  }

  /**
   * What `all` adds: as many spans as `genai` leaves records unmapped, each of those the plain span of its record,
   * and of every other record the same.
   */
  lemma AllAddsThePlain(door: Door, m: Memories, request: seq<Entry>, capacity: nat)
    ensures var g, a := Normalized(door, Genai, m, request, capacity).1, Normalized(door, All, m, request, capacity).1;
            && |BatchOf(a).spans| == |BatchOf(g).spans| + BatchOf(g).outcomes.unmapped
            && |g| == |a| == |request|
            && forall i :: 0 <= i < |request| ==>
                 if g[i] == WasUnmapped then a[i] == BecameSpan(door.plain(request[i])) else a[i] == g[i]
  {
    hide Normalized, BatchOf, HandleRequest, CodexAt, GeminiAt, CodexClaims, GeminiClaims, ReachesCodex, ReachesGemini, IsEvaluation,
         IsPlain;
    var g, a := Normalized(door, Genai, m, request, capacity).1, Normalized(door, All, m, request, capacity).1;
    FatesLength(door, Genai, m, request, capacity);
    FatesLength(door, All, m, request, capacity);
    SameFates(door, m, request, capacity);
    forall i | 0 <= i < |request|
      ensures g[i] == WasUnmapped <==> IsPlain(door, request[i])
      ensures IsPlain(door, request[i]) ==> a[i] == BecameSpan(door.plain(request[i]))
      ensures SameButUnmapped(g[i], a[i])
    {
      EveryFate(door, Genai, m, request, capacity, i);
      EveryFate(door, All, m, request, capacity, i);
    }
    SpansMade(g, a);
    UnmappedArePlain(door, All, m, request, capacity);
  }

  lemma SameFates(door: Door, m: Memories, request: seq<Entry>, capacity: nat)
    ensures AllSameButUnmapped(Normalized(door, Genai, m, request, capacity).1, Normalized(door, All, m, request, capacity).1)
  {
    hide HandleRequest, Fates, CodexAt, GeminiAt;
    RequestLength(CodexAt(door, true), m.codex, map[], request, capacity);
    RequestLength(GeminiAt(door, true), m.gemini, map[], request, capacity);
    UnderBoth(door, request, HandleRequest(CodexAt(door, true), m.codex, map[], request, capacity).2,
              HandleRequest(GeminiAt(door, true), m.gemini, map[], request, capacity).2);
  }

  lemma {:induction false} SpansMade(gs: seq<Fate>, as': seq<Fate>)
    requires AllSameButUnmapped(gs, as')
    ensures |BatchOf(as').spans| == |BatchOf(gs).spans| + BatchOf(gs).outcomes.unmapped - BatchOf(as').outcomes.unmapped
    decreases |gs|
  {
    if gs != [] {
      var n := |gs| - 1;
      SpansMade(gs[..n], as'[..n]);
      assert SameButUnmapped(gs[n], as'[n]);
    }
  }

  // ----- Cutting a stream into requests -----

  const NOTHING := Memories(Memory(map[], []), Memory(map[], []))

  /** What a stream of requests comes to, one after another, on a node that has seen nothing. */
  function NormalizedAll(door: Door, policy: Policy, requests: seq<seq<Entry>>, capacity: nat): (Memories, seq<Fate>) {
    if requests == [] then (NOTHING, [])
    else
      var before := NormalizedAll(door, policy, requests[..|requests| - 1], capacity);
      var last := Normalized(door, policy, before.0, requests[|requests| - 1], capacity);
      (last.0, before.1 + last.1)
  }

  /** The batches, put together. */
  function Received(door: Door, policy: Policy, requests: seq<seq<Entry>>, capacity: nat): Batch {
    BatchOf(NormalizedAll(door, policy, requests, capacity).1)
  }

  lemma FatesJoin(door: Door, policy: Policy, a: seq<Entry>, b: seq<Entry>, ca: seq<Mapping>, cb: seq<Mapping>,
                  ga: seq<Mapping>, gb: seq<Mapping>)
    requires |ca| == |ga| == |a| && |cb| == |gb| == |b|
    ensures Fates(door, policy, a + b, ca + cb, ga + gb) == Fates(door, policy, a, ca, ga) + Fates(door, policy, b, cb, gb)
  {
    hide FateOf;
  }

  /** Both dialects see the whole stream, each with its own memory. */
  lemma {:induction false} AllNormalized(door: Door, policy: Policy, requests: seq<seq<Entry>>, capacity: nat)
    ensures var c := HandleAll(CodexAt(door, policy != Off), NOTHING.codex, requests, capacity);
            var g := HandleAll(GeminiAt(door, policy != Off), NOTHING.gemini, requests, capacity);
            && |c.1| == |g.1| == |Concat(requests)|
            && NormalizedAll(door, policy, requests, capacity) == (Memories(c.0, g.0), Fates(door, policy, Concat(requests), c.1, g.1))
    decreases |requests|
  {
    hide HandleRequest, FateOf, CodexAt, GeminiAt;
    var dc, dg := CodexAt(door, policy != Off), GeminiAt(door, policy != Off);
    if requests == [] {
      assert Fates(door, policy, [], [], []) == [];
    } else {
      var front, last := requests[..|requests| - 1], requests[|requests| - 1];
      AllNormalized(door, policy, front, capacity);
      var c, g := HandleAll(dc, NOTHING.codex, front, capacity), HandleAll(dg, NOTHING.gemini, front, capacity);
      RequestLength(dc, c.0, map[], last, capacity);
      RequestLength(dg, g.0, map[], last, capacity);
      FatesJoin(door, policy, Concat(front), last, c.1, HandleRequest(dc, c.0, map[], last, capacity).2,
                g.1, HandleRequest(dg, g.0, map[], last, capacity).2);
    }
  }

  /**
   * Two ways of cutting one stream give the same spans and scores in the same order, and the same outcomes,
   * when its Codex conversations and its Gemini CLI sessions have ids and fit in the node's memory.
   */
  lemma CutsChangeNothing(door: Door, policy: Policy, one: seq<seq<Entry>>, other: seq<seq<Entry>>,
                          conversations: set<string>, sessions: set<string>, capacity: nat)
    requires Concat(one) == Concat(other)
    requires Within(CodexAt(door, policy != Off), Concat(one), conversations) && "" !in conversations && |conversations| <= capacity
    requires Within(GeminiAt(door, policy != Off), Concat(one), sessions) && "" !in sessions && |sessions| <= capacity
    ensures Received(door, policy, one, capacity) == Received(door, policy, other, capacity)
  {
    hide HandleAll, CodexAt, GeminiAt, Fates, Outputs;
    AllNormalized(door, policy, one, capacity);
    AllNormalized(door, policy, other, capacity);
    SplittingChangesNothing(CodexAt(door, policy != Off), one, conversations, capacity);
    SplittingChangesNothing(CodexAt(door, policy != Off), other, conversations, capacity);
    SplittingChangesNothing(GeminiAt(door, policy != Off), one, sessions, capacity);
    SplittingChangesNothing(GeminiAt(door, policy != Off), other, sessions, capacity);
  }
}
