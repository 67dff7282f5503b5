/** Where the engine (src/store) does lose what it acknowledged, and that it does so nowhere else. */
module DurabilityLimits {
  import opened Wrappers
  import opened Durability
  import opened DurabilityProof

  /** One more step of a run. */
  lemma Goes(env: Env, steps: seq<Step>, step: Step, w: World, w': World)
    requires Run(env, START, steps) == w && Enabled(env, w, step) && Next(env, w, step) == w'
    ensures Run(env, START, steps + [step]) == w'
  {
    hide Enabled, Next;
    assert (steps + [step])[..|steps|] == steps;
  }

  const NEW_NODE := Node(1, [], [], map[], Idle, map[])

  /** A world whose only segment is the active one. */
  function Logging(f: File, node: Node, acked: set<string>, offered: set<Span>): World {
    World(Disk(map[1 := f], 0, {}, map[]), Some(node), acked, offered, {})
  }

  lemma Opens(env: Env)
    ensures Run(env, START, [Open(1)]) == Logging(EMPTY_FILE, NEW_NODE, {}, {})
  {
    assert Enabled(env, START, Open(1));
    Goes(env, [], Open(1), START, Logging(EMPTY_FILE, NEW_NODE, {}, {}));
    assert [] + [Open(1)] == [Open(1)];
  }

  lemma Writes(env: Env, f: File, offered: set<Span>, batch: seq<Span>, f': File)
    requires f' == File(f.synced, f.unsynced + Wholes(batch))
    ensures var w := Logging(f, NEW_NODE, {}, offered);
            && Enabled(env, w, Write(batch))
            && Next(env, w, Write(batch)) == Logging(f', NEW_NODE.(written := [batch]), {}, offered + SpansOf(batch))
  {
    assert [] + [batch] == [batch];
    assert map[1 := f][1 := f'] == map[1 := f'];
  }

  lemma Syncs(env: Env, f: File, offered: set<Span>, batch: seq<Span>)
    ensures var w := Logging(f, NEW_NODE.(written := [batch]), {}, offered);
            && Enabled(env, w, Sync)
            && Next(env, w, Sync) == Logging(File(f.synced + f.unsynced, []), NEW_NODE.(committed := [batch]), {}, offered)
  {
  }

  lemma Publishes(env: Env, f: File, offered: set<Span>, batch: seq<Span>)
    ensures var w := Logging(f, NEW_NODE.(committed := [batch]), {}, offered);
            && Enabled(env, w, Publish)
            && Next(env, w, Publish) == Logging(f, NEW_NODE.(hot := map[1 := batch]), Keys(batch), offered)
  {
    assert [] + batch == batch && [batch][1..] == [];
    var held: map<nat, seq<Span>> := map[];
    assert held[1 := batch] == map[1 := batch];
  }

  // ----- A write that leaves part of a record -----

  lemma Fails(env: Env, a: Span)
    requires env.tornWrites
    ensures var w := Logging(EMPTY_FILE, NEW_NODE, {}, {});
            && Enabled(env, w, WriteFails([a], 0, true))
            && Next(env, w, WriteFails([a], 0, true)) == Logging(File([], [Torn]), NEW_NODE, {}, {a})
  {
    OneSpan(a);
    assert Wholes([a][..0]) + [Torn] == [Torn];
  }

  ghost function TornRun(a: Span, b: Span): seq<Step> {
    [Open(1)] + [WriteFails([a], 0, true)] + [Write([b])] + [Sync] + [Publish] + [Kill(_ => (0, false))]
  }

  lemma KillsTorn(env: Env, b: Span, offered: set<Span>)
    ensures var w := Logging(File([Torn, Whole(b)], []), NEW_NODE.(hot := map[1 := [b]]), {b.key}, offered);
            && Enabled(env, w, Kill(_ => (0, false)))
            && Next(env, w, Kill(_ => (0, false))) ==
               World(Disk(map[1 := File([Torn, Whole(b)], [])], 0, {}, map[]), None, {b.key}, offered, {})
  {
    assert [Torn, Whole(b)] + [][..0] + [] == [Torn, Whole(b)];
  }

  /** A failed write of any span may cost any other that is written and acknowledged behind it. */
  lemma TornWriteLosesTheNext(env: Env, a: Span, b: Span)
    requires env.tornWrites
    ensures var w := Run(env, START, TornRun(a, b)); b.key in w.acked && !Durable(w.disk, b.key)
  {
    hide Run, Next, Enabled;
    Opens(env);
    var w1, w2 := Logging(EMPTY_FILE, NEW_NODE, {}, {}), Logging(File([], [Torn]), NEW_NODE, {}, {a});
    Fails(env, a);
    Goes(env, [Open(1)], WriteFails([a], 0, true), w1, w2);
    var f := File([], [Torn, Whole(b)]);
    assert [Torn] + Wholes([b]) == [Torn, Whole(b)];
    OneSpan(b);
    Writes(env, File([], [Torn]), {a}, [b], f);
    var steps := [Open(1)] + [WriteFails([a], 0, true)];
    var w3 := Logging(f, NEW_NODE.(written := [[b]]), {}, {a} + {b});
    Goes(env, steps, Write([b]), w2, w3);
    steps := steps + [Write([b])];
    Syncs(env, f, {a} + {b}, [b]);
    assert [] + [Torn, Whole(b)] == [Torn, Whole(b)];
    var g := File([Torn, Whole(b)], []);
    var w4 := Logging(g, NEW_NODE.(committed := [[b]]), {}, {a} + {b});
    Goes(env, steps, Sync, w3, w4);
    steps := steps + [Sync];
    Publishes(env, g, {a} + {b}, [b]);
    var w5 := Logging(g, NEW_NODE.(hot := map[1 := [b]]), {b.key}, {a} + {b});
    Goes(env, steps, Publish, w4, w5);
    steps := steps + [Publish];
    KillsTorn(env, b, {a} + {b});
    var w6 := World(Disk(map[1 := g], 0, {}, map[]), None, {b.key}, {a} + {b}, {});
    Goes(env, steps, Kill(_ => (0, false)), w5, w6);
  }

  // ----- Two merges with one name -----

  const A := Span("a", 0)
  const B := Span("b", 0)
  const C := Span("c", 0)
  const D := Span("d", 0)
  const FOUR := [A, B, C, D]

  const DAY := Merged("day", "day", 1, 1)

  /** Each of the four spans in an hour of its own, all of one segment. */
  function Hourly(tornWrites: bool): Env { Env((x: Span) => x.key, tornWrites, true) }

  /** The second segment is active and the first one is being moved to blocks, or is there already. */
  function Compacting(d: Disk, hot: map<nat, seq<Span>>, c: Compactor, ever: set<Name>): World {
    World(d, Some(Node(2, [], [], hot, c, map[])), {"a", "b", "c", "d"}, {A, B, C, D}, ever)
  }

  const LOGGED: map<nat, File> := map[1 := File([Whole(A), Whole(B), Whole(C), Whole(D)], []), 2 := EMPTY_FILE]
  const HELD: map<nat, seq<Span>> := map[1 := FOUR]

  function Hour(x: Span): Name { Flushed(x.key, 1) }

  const HOURS := {Hour(A), Hour(B), Hour(C), Hour(D)}
  const HOUR_BLOCKS: map<Name, seq<Span>> := map[Hour(A) := [A], Hour(B) := [B], Hour(C) := [C], Hour(D) := [D]]

  lemma {:induction false} DistinctAreFirst(spans: seq<Span>)
    requires DistinctKeys(spans)
    ensures FirstCopies(spans) == spans
  {
    if spans != [] {
      var front, last := spans[..|spans| - 1], spans[|spans| - 1];
      DistinctAreFirst(front);
      assert spans == front + [last];
    }
  }

  lemma {:induction false} HourGroup(tornWrites: bool, spans: seq<Span>, i: nat)
    requires DistinctKeys(spans) && i < |spans|
    ensures Group(Hourly(tornWrites), spans, spans[i].key) == [spans[i]]
  {
    var front, last := spans[..|spans| - 1], spans[|spans| - 1];
    if i < |spans| - 1 {
      HourGroup(tornWrites, front, i);
    } else {
      NoGroup(tornWrites, front, last.key);
    }
  }

  lemma {:induction false} NoGroup(tornWrites: bool, spans: seq<Span>, key: string)
    requires forall i :: 0 <= i < |spans| ==> spans[i].key != key
    ensures Group(Hourly(tornWrites), spans, key) == []
  {
    if spans != [] {
      NoGroup(tornWrites, spans[..|spans| - 1], key);
    }
  }

  lemma FourAre()
    ensures Keys(FOUR) == {"a", "b", "c", "d"} && SpansOf(FOUR) == {A, B, C, D} && DistinctKeys(FOUR)
    ensures forall t :: Partitions(Hourly(t), FOUR) == {"a", "b", "c", "d"}
  {
    assert FOUR[0] == A && FOUR[1] == B && FOUR[2] == C && FOUR[3] == D;
  }

  const FILLED := File([Whole(A), Whole(B), Whole(C), Whole(D)], [])

  /** The segment is still above the watermark. */
  function Draining(blocks: map<Name, seq<Span>>, c: Compactor): World {
    Compacting(Disk(LOGGED, 0, {}, blocks), HELD, c, {})
  }

  lemma Seals(t: bool)
    ensures var env, w := Hourly(t), Logging(FILLED, NEW_NODE.(hot := HELD), {"a", "b", "c", "d"}, {A, B, C, D});
            && Enabled(env, w, Seal) && Next(env, w, Seal) == Draining(map[], Idle)
  {
    assert map[1 := FILLED][2 := EMPTY_FILE] == LOGGED;
  }

  lemma Starts(t: bool)
    ensures var env, w := Hourly(t), Draining(map[], Idle);
            && Enabled(env, w, StartPass([1])) && Next(env, w, StartPass([1])) == Draining(map[], Pass([1]))
  {
  }

  lemma Takes(t: bool)
    ensures var env, w := Hourly(t), Draining(map[], Pass([1]));
            && Enabled(env, w, Take)
            && Next(env, w, Take) == Draining(map[], Writing([], 1, FOUR, {"a", "b", "c", "d"}))
  {
    FourAre();
    DistinctAreFirst(FOUR);
    assert [1][1..] == [];
  }

  lemma WritesHour(t: bool, blocks: map<Name, seq<Span>>, todo: set<string>, i: nat)
    requires i < 4 && FOUR[i].key in todo
    ensures var env, x := Hourly(t), FOUR[i];
            var w := Draining(blocks, Writing([], 1, FOUR, todo));
            && Enabled(env, w, WriteBlock(x.key))
            && Next(env, w, WriteBlock(x.key)) == Draining(blocks[Hour(x) := [x]], Writing([], 1, FOUR, todo - {x.key}))
  {
    FourAre();
    HourGroup(t, FOUR, i);
  }

  lemma HourNames(t: bool)
    ensures FlushedNames(Hourly(t), FOUR, 1) == HOURS
  {
    FourAre();
  }

  function Flushing(wal: map<nat, File>, hot: map<nat, seq<Span>>, c: Compactor): World {
    Compacting(Disk(wal, 1, HOURS, HOUR_BLOCKS), hot, c, HOURS)
  }

  lemma CommitsHours(t: bool)
    ensures var env, w := Hourly(t), Draining(HOUR_BLOCKS, Writing([], 1, FOUR, {}));
            && Enabled(env, w, CommitFlush)
            && Next(env, w, CommitFlush) == Flushing(LOGGED, HELD, Committed([], 1))
  {
    hide FlushedNames, Hourly;
    HourNames(t);
  }

  lemma Deletes(t: bool)
    ensures var env, w, wal := Hourly(t), Flushing(LOGGED, HELD, Committed([], 1)), map[2 := EMPTY_FILE];
            && Enabled(env, w, DeleteSegment) && Next(env, w, DeleteSegment) == Flushing(wal, HELD, Deleted([], 1))
  {
    assert LOGGED - {1} == map[2 := EMPTY_FILE];
  }

  lemma Drops(t: bool, wal: map<nat, File>)
    ensures var env, w := Hourly(t), Flushing(wal, HELD, Deleted([], 1));
            && Enabled(env, w, DropHot) && Next(env, w, DropHot) == Flushing(wal, map[], Pass([]))
            && Enabled(env, Flushing(wal, map[], Pass([])), EndPass)
            && Next(env, Flushing(wal, map[], Pass([])), EndPass) == Flushing(wal, map[], Idle)
  {
    assert HELD - {1} == map[];
  }

  /** With nothing left in memory and the first segment gone. */
  function Quiet(index: set<Name>, blocks: map<Name, seq<Span>>, c: Compactor, ever: set<Name>): World {
    Compacting(Disk(map[2 := EMPTY_FILE], 1, index, blocks), map[], c, ever)
  }

  /** Two hours of the segment, as a merge finds them. */
  predicate TwoHours(index: set<Name>, blocks: map<Name, seq<Span>>, x: Span, y: Span) {
    && x.key != y.key && {Hour(x), Hour(y)} <= index && Hour(x) in blocks && Hour(y) in blocks
    && blocks[Hour(x)] == [x] && blocks[Hour(y)] == [y]
  }

  lemma StartsMerge(t: bool, index: set<Name>, blocks: map<Name, seq<Span>>, ever: set<Name>, x: Span, y: Span)
    requires TwoHours(index, blocks, x, y)
    ensures var env, chunk, w := Hourly(t), [Hour(x), Hour(y)], Quiet(index, blocks, Idle, ever);
            && Enabled(env, w, StartMerge("day", "day", chunk))
            && Next(env, w, StartMerge("day", "day", chunk)) == Quiet(index, blocks, Merging(DAY, chunk), ever)
  {
    var chunk := [Hour(x), Hour(y)];
    assert chunk[1..] == [Hour(y)];
    assert Smallest([Hour(y)]) == 1 && Largest([Hour(y)]) == 1;
  }

  lemma TwoHoursMerged(index: set<Name>, blocks: map<Name, seq<Span>>, x: Span, y: Span)
    requires TwoHours(index, blocks, x, y)
    ensures FirstCopies(Concat(blocks, [Hour(x), Hour(y)])) == [x, y]
  {
    var chunk := [Hour(x), Hour(y)];
    assert chunk[..1] == [Hour(x)] && [Hour(x)][..0] == [];
    assert Concat(blocks, [Hour(x)]) == [x];
    assert Concat(blocks, chunk) == [x, y];
    DistinctAreFirst([x, y]);
  }

  lemma WritesMerged(t: bool, index: set<Name>, blocks: map<Name, seq<Span>>, ever: set<Name>, x: Span, y: Span)
    requires TwoHours(index, blocks, x, y)
    ensures var env, chunk := Hourly(t), [Hour(x), Hour(y)];
            var w := Quiet(index, blocks, Merging(DAY, chunk), ever);
            && Enabled(env, w, WriteMerged)
            && Next(env, w, WriteMerged) == Quiet(index, blocks[DAY := [x, y]], MergeWritten(DAY, chunk), ever)
  {
    hide FirstCopies, Concat;
    TwoHoursMerged(index, blocks, x, y);
  }

  lemma CommitsMerge(t: bool, index: set<Name>, blocks: map<Name, seq<Span>>, ever: set<Name>, x: Span, y: Span)
    ensures var env, w := Hourly(t), Quiet(index, blocks, MergeWritten(DAY, [Hour(x), Hour(y)]), ever);
            && Enabled(env, w, CommitMerge)
            && Next(env, w, CommitMerge) == Quiet(index - {Hour(x), Hour(y)} + {DAY}, blocks, Idle, ever + {DAY})
  {
    assert (set n | n in [Hour(x), Hour(y)]) == {Hour(x), Hour(y)};
  }

  ghost function LogRun(): seq<Step> { [Open(1)] + [Write(FOUR)] + [Sync] + [Publish] }

  /** The four spans are stored. */
  lemma LogsFour(t: bool)
    ensures Run(Hourly(t), START, LogRun()) ==
            Logging(FILLED, NEW_NODE.(hot := HELD), {"a", "b", "c", "d"}, {A, B, C, D})
  {
    hide Run, Next, Enabled;
    var env := Hourly(t);
    var records := [Whole(A), Whole(B), Whole(C), Whole(D)];
    var offered, none: set<Span> := {A, B, C, D}, {};
    FourAre();
    Opens(env);
    assert [] + Wholes(FOUR) == records && [] + records == records && none + offered == offered;
    Writes(env, EMPTY_FILE, {}, FOUR, File([], records));
    Goes(env, [Open(1)], Write(FOUR), Logging(EMPTY_FILE, NEW_NODE, {}, {}),
         Logging(File([], records), NEW_NODE.(written := [FOUR]), {}, offered));
    Syncs(env, File([], records), offered, FOUR);
    Goes(env, [Open(1)] + [Write(FOUR)], Sync, Logging(File([], records), NEW_NODE.(written := [FOUR]), {}, offered),
         Logging(File(records, []), NEW_NODE.(committed := [FOUR]), {}, offered));
    Publishes(env, File(records, []), offered, FOUR);
    Goes(env, [Open(1)] + [Write(FOUR)] + [Sync], Publish,
         Logging(File(records, []), NEW_NODE.(committed := [FOUR]), {}, offered),
         Logging(File(records, []), NEW_NODE.(hot := HELD), Keys(FOUR), offered));
  }

  ghost function HourRun(): seq<Step> {
    LogRun() + [Seal] + [StartPass([1])] + [Take]
    + [WriteBlock("a")] + [WriteBlock("b")] + [WriteBlock("c")] + [WriteBlock("d")]
  }

  lemma FillsHours(t: bool)
    ensures Run(Hourly(t), START, HourRun()) == Draining(HOUR_BLOCKS, Writing([], 1, FOUR, {}))
  {
    hide Run, Next, Enabled, LogRun, Hourly, Draining;
    var env, steps := Hourly(t), LogRun();
    LogsFour(t);
    Seals(t);
    Goes(env, steps, Seal, Logging(FILLED, NEW_NODE.(hot := HELD), {"a", "b", "c", "d"}, {A, B, C, D}), Draining(map[], Idle));
    steps := steps + [Seal];
    Starts(t);
    Goes(env, steps, StartPass([1]), Draining(map[], Idle), Draining(map[], Pass([1])));
    steps := steps + [StartPass([1])];
    Takes(t);
    Goes(env, steps, Take, Draining(map[], Pass([1])), Draining(map[], Writing([], 1, FOUR, {"a", "b", "c", "d"})));
    steps := steps + [Take];
    var blocks: map<Name, seq<Span>>, todo := map[], {"a", "b", "c", "d"};
    steps, blocks, todo := FillsHour(t, steps, blocks, todo, 0);
    steps, blocks, todo := FillsHour(t, steps, blocks, todo, 1);
    steps, blocks, todo := FillsHour(t, steps, blocks, todo, 2);
    steps, blocks, todo := FillsHour(t, steps, blocks, todo, 3);
    assert blocks == HOUR_BLOCKS && todo == {};
    assert steps == HourRun();
  }

  lemma FillsHour(t: bool, steps: seq<Step>, blocks: map<Name, seq<Span>>, todo: set<string>, i: nat)
    returns (steps': seq<Step>, blocks': map<Name, seq<Span>>, todo': set<string>)
    requires i < 4 && FOUR[i].key in todo
    requires Run(Hourly(t), START, steps) == Draining(blocks, Writing([], 1, FOUR, todo))
    ensures steps' == steps + [WriteBlock(FOUR[i].key)]
    ensures blocks' == blocks[Hour(FOUR[i]) := [FOUR[i]]] && todo' == todo - {FOUR[i].key}
    ensures Run(Hourly(t), START, steps') == Draining(blocks', Writing([], 1, FOUR, todo'))
  {
    hide Run, Next, Enabled, Hourly, Draining;
    var x := FOUR[i];
    blocks', todo' := blocks[Hour(x) := [x]], todo - {x.key};
    steps' := steps + [WriteBlock(x.key)];
    WritesHour(t, blocks, todo, i);
    Goes(Hourly(t), steps, WriteBlock(x.key), Draining(blocks, Writing([], 1, FOUR, todo)),
         Draining(blocks', Writing([], 1, FOUR, todo')));
  }

  ghost function FlushRun(): seq<Step> { HourRun() + [CommitFlush] + [DeleteSegment] + [DropHot] + [EndPass] }

  lemma FlushesHours(t: bool)
    ensures Run(Hourly(t), START, FlushRun()) == Quiet(HOURS, HOUR_BLOCKS, Idle, HOURS)
  {
    hide Run, Next, Enabled, HourRun, Hourly, Draining;
    var env, steps := Hourly(t), HourRun();
    FillsHours(t);
    CommitsHours(t);
    Goes(env, steps, CommitFlush, Draining(HOUR_BLOCKS, Writing([], 1, FOUR, {})), Flushing(LOGGED, HELD, Committed([], 1)));
    steps := steps + [CommitFlush];
    Deletes(t);
    var wal := map[2 := EMPTY_FILE];
    Goes(env, steps, DeleteSegment, Flushing(LOGGED, HELD, Committed([], 1)), Flushing(wal, HELD, Deleted([], 1)));
    steps := steps + [DeleteSegment];
    Drops(t, wal);
    Goes(env, steps, DropHot, Flushing(wal, HELD, Deleted([], 1)), Flushing(wal, map[], Pass([])));
    steps := steps + [DropHot];
    Goes(env, steps, EndPass, Flushing(wal, map[], Pass([])), Flushing(wal, map[], Idle));
  }

  ghost function MergeRun(x: Span, y: Span): seq<Step> {
    [StartMerge("day", "day", [Hour(x), Hour(y)])] + [WriteMerged] + [CommitMerge]
  }

  lemma MergesHours(t: bool, steps: seq<Step>, index: set<Name>, blocks: map<Name, seq<Span>>, ever: set<Name>, x: Span, y: Span)
    requires Run(Hourly(t), START, steps) == Quiet(index, blocks, Idle, ever) && TwoHours(index, blocks, x, y)
    ensures Run(Hourly(t), START, steps + MergeRun(x, y))
         == Quiet(index - {Hour(x), Hour(y)} + {DAY}, blocks[DAY := [x, y]], Idle, ever + {DAY})
  {
    hide Run, Next, Enabled, Hourly, Quiet, TwoHours;
    var env, chunk, merged := Hourly(t), [Hour(x), Hour(y)], blocks[DAY := [x, y]];
    StartsMerge(t, index, blocks, ever, x, y);
    var start := StartMerge("day", "day", chunk);
    Goes(env, steps, start, Quiet(index, blocks, Idle, ever), Quiet(index, blocks, Merging(DAY, chunk), ever));
    WritesMerged(t, index, blocks, ever, x, y);
    Goes(env, steps + [start], WriteMerged, Quiet(index, blocks, Merging(DAY, chunk), ever),
         Quiet(index, merged, MergeWritten(DAY, chunk), ever));
    CommitsMerge(t, index, merged, ever, x, y);
    Goes(env, steps + [start] + [WriteMerged], CommitMerge, Quiet(index, merged, MergeWritten(DAY, chunk), ever),
         Quiet(index - {Hour(x), Hour(y)} + {DAY}, merged, Idle, ever + {DAY}));
    assert steps + [start] + [WriteMerged] + [CommitMerge] == steps + MergeRun(x, y);
  }

  ghost function TwoMerges(): seq<Step> { FlushRun() + MergeRun(A, B) + MergeRun(C, D) }

  /**
   * One segment with spans of four hours of a day, merged two by two into day blocks: both are named by
   * the day and the segment, so the second takes the place of the first. No failure is involved.
   */
  lemma ReusedNameLosesTheFirst(t: bool)
    ensures var w := Run(Hourly(t), START, TwoMerges()); A.key in w.acked && !Durable(w.disk, A.key)
  {
    hide Run, FlushRun, MergeRun, Hourly;
    FlushesHours(t);
    MergesHours(t, FlushRun(), HOURS, HOUR_BLOCKS, HOURS, A, B);
    var blocks, ever := HOUR_BLOCKS[DAY := [A, B]], HOURS + {DAY};
    var index := HOURS - {Hour(A), Hour(B)} + {DAY};
    MergesHours(t, FlushRun() + MergeRun(A, B), index, blocks, ever, C, D);
    LastDay();
  }

  lemma LastDay()
    ensures var index := HOURS - {Hour(A), Hour(B)} + {DAY} - {Hour(C), Hour(D)} + {DAY};
            !Durable(Disk(map[2 := EMPTY_FILE], 1, index, HOUR_BLOCKS[DAY := [A, B]][DAY := [C, D]]), "a")
  {
    assert HOURS - {Hour(A), Hour(B)} + {DAY} - {Hour(C), Hour(D)} + {DAY} == {DAY};
  }

  /**
   * What is promised holds in every run, whatever falls into which partition, exactly when no failed
   * write leaves part of a record behind and no merge is given a name that was in use.
   */
  lemma SafeIff(tornWrites: bool, reusedNames: bool)
    ensures (forall partition: Span -> string, steps: seq<Step> ::
               Safe(Run(Env(partition, tornWrites, reusedNames), START, steps)))
            <==> !tornWrites && !reusedNames
  {
    hide Run, Durable, TornRun, TwoMerges, CarefulRun;
    if tornWrites {
      var env := Env((x: Span) => x.key, true, reusedNames);
      TornWriteLosesTheNext(env, A, B);
      assert !Safe(Run(env, START, TornRun(A, B)));
    } else if reusedNames {
      ReusedNameLosesTheFirst(tornWrites);
      assert !Safe(Run(Hourly(tornWrites), START, TwoMerges()));
    } else {
      forall partition: Span -> string, steps: seq<Step>
        ensures Safe(Run(Env(partition, tornWrites, reusedNames), START, steps))
      {
        EveryRunIsCareful(Env(partition, tornWrites, reusedNames), steps);
        NothingIsLostOrCountedTwice(Env(partition, tornWrites, reusedNames), steps);
      }
    }
  }
}
