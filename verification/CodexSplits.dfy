/** Exactly when the way a Codex stream is cut into export requests cannot be seen in its spans. */
module CodexSplits {
  import opened Wrappers
  import opened Otlp
  import opened SessionMemory
  import opened Codex
  import opened CodexRuns

  predicate OnlyFrom(records: seq<Entry>, sessions: set<string>) {
    Within(Dialogue(AnyEnv()), records, sessions)
  }

  /** The sessions of records do not depend on the environment. */
  function AnyEnv(): Env { Env((n: nat, parts: seq<string>) => [], (a: Attributes) => None) }

  /** However a stream over these conversations is cut, its records become the same. */
  ghost predicate CutsUnseen(env: Env, sessions: set<string>, capacity: nat) {
    forall requests: seq<seq<Entry>> :: OnlyFrom(Concat(requests), sessions) ==>
      Exported(env, requests, capacity) == Outputs(Dialogue(env), Concat(requests))
  }

  /** Span ids are eight bytes long. */
  ghost predicate EightByteIds(env: Env) {
    forall parts :: |env.derive(8, parts)| == 8
  }

  // ----- A stream whose cuts show -----

  const CODEX := Context(Some("codex_exec"), Some("codex_otel.log_only"))

  function EventRecord(event: string, conv: string): Entry {
    Entry(CODEX, LogRecord(1, 1, [], [], [
      KeyValue("event.name", Some(Str(event))),
      KeyValue("conversation.id", Some(Str(conv)))], "", None))
  }

  function Prompt(conv: string): Entry { EventRecord("codex.user_prompt", conv) }

  function Result(conv: string): Entry { EventRecord("codex.tool_result", conv) }

  lemma LookupOfTwo(x: KeyValue, y: KeyValue, key: string)
    ensures Lookup([x, y], key) == if x.key == key then x.value else if y.key == key then y.value else None
  {
    assert [x, y][1..] == [y] && [y][1..] == [];
    assert Lookup([y], key) == if y.key == key then y.value else None;
  }

  lemma EventReads(event: string, conv: string)
    ensures var e := EventRecord("codex." + event, conv);
            EventOf(e) == Some(event) && Session(e) == Some(conv) && AttrStr(e.rec.attributes, "call_id") == None
  {
    hide Lookup;
    var name := KeyValue("event.name", Some(Str("codex." + event)));
    var id := KeyValue("conversation.id", Some(Str(conv)));
    LookupOfTwo(name, id, "event.name");
    LookupOfTwo(name, id, "conversation.id");
    LookupOfTwo(name, id, "call_id");
    assert "codex_otel" <= "codex_otel.log_only";
    assert ("codex." + event)[6..] == event;
  }

  lemma RecordsRead(conv: string)
    ensures EventOf(Prompt(conv)) == Some("user_prompt") && Session(Prompt(conv)) == Some(conv)
    ensures EventOf(Result(conv)) == Some("tool_result") && Session(Result(conv)) == Some(conv)
    ensures AttrStr(Result(conv).rec.attributes, "call_id") == None
  {
    hide EventOf, Session, AttrStr, EventRecord;
    EventReads("user_prompt", conv);
    EventReads("tool_result", conv);
    assert "codex." + "user_prompt" == "codex.user_prompt" && "codex." + "tool_result" == "codex.tool_result";
  }

  lemma PromptRemembers(env: Env, conv: string, c: Conversation)
    ensures React(env, Prompt(conv), c).remembers == Some(c.(turn := Some(TurnOf(env, Prompt(conv).rec, conv))))
  {
    RecordsRead(conv);
    hide EventOf, AttrStr, Common, TurnOf;
  }

  /** A result shows where it was placed: under no marker, when nothing is remembered. */
  lemma ResultShowsTurn(env: Env, conv: string, c: Conversation)
    ensures React(env, Result(conv), c).remembers == None
    ensures React(env, Result(conv), c).out.Made?
    ensures React(env, Result(conv), c).out.span.parent == PlacementIn(env, c, conv).parent
  {
    RecordsRead(conv);
    hide EventOf, AttrStr, Common, ToolAttributes;
  }

  /** Each record in an export request of its own. */
  function Singles(records: seq<Entry>): seq<seq<Entry>> {
    seq(|records|, i requires 0 <= i < |records| => [records[i]])
  }

  lemma {:induction false} ConcatOfSingles(records: seq<Entry>)
    ensures Concat(Singles(records)) == records
    decreases |records|
  {
    if records != [] {
      var front := records[..|records| - 1];
      ConcatOfSingles(front);
      assert Singles(records)[..|records| - 1] == Singles(front);
      assert records == front + [records[|records| - 1]];
    }
  }

  lemma RequestOfOne(env: Env, m: Memory<Conversation>, e: Entry, capacity: nat)
    ensures var (m', local, out) := Handle(Dialogue(env), m, map[], e, capacity);
            HandleRequest(Dialogue(env), m, map[], [e], capacity) == (m', local, [out])
  {
    assert [e][..0] == [];
    hide Handle;
    assert HandleRequest(Dialogue(env), m, map[], [], capacity) == (m, map[], []);
    assert [] + [Handle(Dialogue(env), m, map[], e, capacity).2] == [Handle(Dialogue(env), m, map[], e, capacity).2];
  }

  lemma SingleLast(env: Env, records: seq<Entry>, e: Entry, capacity: nat)
    ensures var (m, outs) := HandleAll(Dialogue(env), Memory(map[], []), Singles(records), capacity);
            var handled := Handle(Dialogue(env), m, map[], e, capacity);
            HandleAll(Dialogue(env), Memory(map[], []), Singles(records + [e]), capacity) ==
            (handled.0, outs + [handled.2])
  {
    assert Singles(records + [e]) == Singles(records) + [[e]];
    HandleAllLast(Dialogue(env), Memory(map[], []), Singles(records), [e], capacity);
    RequestOfOne(env, HandleAll(Dialogue(env), Memory(map[], []), Singles(records), capacity).0, e, capacity);
    hide *;
  }

  function Prompts(names: seq<string>): seq<Entry> {
    seq(|names|, i requires 0 <= i < |names| => Prompt(names[i]))
  }

  /** While there is room, prompts fill the node's memory in order. */
  lemma {:induction false} PromptsFill(env: Env, names: seq<string>, capacity: nat)
    requires Distinct(names) && "" !in names && |names| <= capacity
    ensures var m := HandleAll(Dialogue(env), Memory(map[], []), Singles(Prompts(names)), capacity).0;
            m.order == names && (forall s :: s in m.recent <==> s in names)
    decreases |names|
  {
    if names != [] {
      var front, name := names[..|names| - 1], names[|names| - 1];
      assert names == front + [name];
      PromptsFill(env, front, capacity);
      assert Prompts(names) == Prompts(front) + [Prompt(name)];
      SingleLast(env, Prompts(front), Prompt(name), capacity);
      var m := HandleAll(Dialogue(env), Memory(map[], []), Singles(Prompts(front)), capacity).0;
      PromptHandled(env, m, name, capacity);
      hide HandleAll, Handle;
    }
  }

  /** A prompt of a conversation that is not remembered is stored. */
  lemma PromptHandled(env: Env, m: Memory<Conversation>, name: string, capacity: nat)
    requires name != "" && name !in m.recent
    ensures var turn := Some(TurnOf(env, Prompt(name).rec, name));
            Handle(Dialogue(env), m, map[], Prompt(name), capacity).0 ==
            Store(m, name, NEW_CONVERSATION.(turn := turn), capacity)
  {
    RecordsRead(name);
    PromptRemembers(env, name, NEW_CONVERSATION);
    hide React, Session, Prompt, TurnOf;
  }

  /** One conversation more than there is room for, each prompting once: the first is forgotten. */
  lemma FirstIsForgotten(env: Env, names: seq<string>, capacity: nat)
    requires Distinct(names) && "" !in names && |names| == capacity + 1 && capacity >= 1
    ensures var m := HandleAll(Dialogue(env), Memory(map[], []), Singles(Prompts(names)), capacity).0;
            names[0] !in m.recent
  {
    var front, name := names[..capacity], names[capacity];
    assert names == front + [name];
    PromptsFill(env, front, capacity);
    assert Prompts(names) == Prompts(front) + [Prompt(name)];
    SingleLast(env, Prompts(front), Prompt(name), capacity);
    var m := HandleAll(Dialogue(env), Memory(map[], []), Singles(Prompts(front)), capacity).0;
    PromptHandled(env, m, name, capacity);
    assert (m.order + [name])[0] == names[0];
    hide HandleAll, Handle;
  }

  /** A result with nothing recalled, though the stream has a prompt of its conversation, shows the cut. */
  lemma CutShows(env: Env, records: seq<Entry>, i: nat, conv: string, sessions: set<string>, capacity: nat)
    requires EightByteIds(env) && i < |records| && IsPrompt(records[i], conv)
    requires NoPromptBetween(records, i, |records|, conv)
    requires Recalled(HandleAll(Dialogue(env), Memory(map[], []), Singles(records), capacity).0, map[], conv) == None
    requires OnlyFrom(records, sessions) && conv in sessions
    ensures !CutsUnseen(env, sessions, capacity)
  {
    var e, all, n := Result(conv), records + [Result(conv)], |records|;
    var m := HandleAll(Dialogue(env), Memory(map[], []), Singles(records), capacity).0;
    RecordsRead(conv);
    hide React, Session, IsPrompt, Result, EventOf, TurnOf, PlacementIn;
    SingleLast(env, records, e, capacity);
    ConcatOfSingles(all);
    assert all[..n] == records && all[n] == e;
    var requests := Singles(all);
    var outs := Exported(env, requests, capacity);
    assert outs[|outs| - 1] == React(env, e, NEW_CONVERSATION).out;
    ResultShowsTurn(env, conv, NEW_CONVERSATION);
    OutputAt(env, all, n);
    TurnHolds(env, records, i, n, conv);
    assert records[..n] == records;
    var known := After(Dialogue(env), records, conv);
    ResultShowsTurn(env, conv, known);
    PlacesDiffer(env, known, records[i].rec, conv);
    assert OnlyFrom(all, sessions);
    assert outs != Outputs(Dialogue(env), all);
  }

  lemma PlacesDiffer(env: Env, known: Conversation, rec: LogRecord, conv: string)
    requires EightByteIds(env) && known.turn == Some(TurnOf(env, rec, conv))
    ensures PlacementIn(env, NEW_CONVERSATION, conv).parent != PlacementIn(env, known, conv).parent
  {
  }

  lemma {:induction false} Listed(sessions: set<string>, n: nat) returns (names: seq<string>)
    requires n <= |sessions|
    ensures |names| == n && Distinct(names) && forall s :: s in names ==> s in sessions
    decreases n
  {
    if n == 0 {
      names := [];
    } else {
      var s :| s in sessions;
      var rest := Listed(sessions - {s}, n - 1);
      names := [s] + rest;
    }
  }

  /**
   * The cuts of a stream cannot be seen exactly when every conversation has an id and the node
   * has room for all of them.
   */
  lemma CutsUnseenIff(env: Env, sessions: set<string>, capacity: nat)
    requires EightByteIds(env) && capacity >= 1
    ensures CutsUnseen(env, sessions, capacity) <==> "" !in sessions && |sessions| <= capacity
  {
    hide React, Prompt, Result, Singles, Prompts;
    if "" in sessions {
      UnnamedCutShows(env, sessions, capacity);
    } else if |sessions| > capacity {
      var names := Listed(sessions, capacity + 1);
      CrowdedCutShows(env, names, sessions, capacity);
    } else {
      forall requests: seq<seq<Entry>> | OnlyFrom(Concat(requests), sessions)
        ensures Exported(env, requests, capacity) == Outputs(Dialogue(env), Concat(requests))
      {
        SplittingChangesNothing(Dialogue(env), requests, sessions, capacity);
      }
    }
  }

  lemma UnnamedCutShows(env: Env, sessions: set<string>, capacity: nat)
    requires EightByteIds(env) && "" in sessions
    ensures !CutsUnseen(env, sessions, capacity)
  {
    RecordsRead("");
    hide React, Prompt, EventOf, Session;
    CutShows(env, [Prompt("")], 0, "", sessions, capacity);
  }

  lemma CrowdedCutShows(env: Env, names: seq<string>, sessions: set<string>, capacity: nat)
    requires EightByteIds(env) && capacity >= 1
    requires |names| == capacity + 1 && Distinct(names) && "" !in names && forall s :: s in names ==> s in sessions
    ensures !CutsUnseen(env, sessions, capacity)
  {
    var records := Prompts(names);
    FirstIsForgotten(env, names, capacity);
    PromptsRead(names);
    hide React, Prompt, Prompts, EventOf, Session, HandleAll, Distinct;
    CutShows(env, records, 0, names[0], sessions, capacity);
  }

  lemma PromptsRead(names: seq<string>)
    ensures forall i :: 0 <= i < |names| ==>
              Session(Prompts(names)[i]) == Some(names[i]) && IsPrompt(Prompts(names)[i], names[i])
    ensures Distinct(names) && names != [] ==> NoPromptBetween(Prompts(names), 0, |names|, names[0])
  {
    forall i | 0 <= i < |names|
      ensures Session(Prompts(names)[i]) == Some(names[i]) && IsPrompt(Prompts(names)[i], names[i])
    {
      RecordsRead(names[i]);
      hide EventOf, Session, Prompt;
    }
    hide EventOf, Session, Prompt;
  }
}
