/**
 * The storage engine as a state machine over its steps (src/store): a writer that group-commits to the
 * log, a compactor that moves sealed segments to blocks and merges blocks, queries over both tiers, and
 * a node that may be killed between any two steps and is opened again.
 */
module Durability {
  import opened Wrappers

  /** A span: what it is told apart by, and the rest of it. */
  datatype Span = Span(key: string, body: nat)

  function Keys(spans: seq<Span>): set<string> {
    set i | 0 <= i < |spans| :: spans[i].key
  }

  function SpansOf(spans: seq<Span>): set<Span> {
    set i | 0 <= i < |spans| :: spans[i]
  }

  /** One copy of each span, the first. */
  function FirstCopies(spans: seq<Span>): seq<Span> {
    if spans == [] then []
    else
      var front, last := spans[..|spans| - 1], spans[|spans| - 1];
      FirstCopies(front) + if last.key in Keys(front) then [] else [last]
  }

  // ----- The log -----

  /** A record of a segment, or bytes at which reading stops. */
  datatype Record = Whole(span: Span) | Torn

  function Wholes(spans: seq<Span>): seq<Record> {
    seq(|spans|, i requires 0 <= i < |spans| => Whole(spans[i]))
  }

  /** What is read of a segment. */
  function Intact(records: seq<Record>): seq<Span> {
    if records == [] || records[0].Torn? then [] else [records[0].span] + Intact(records[1..])
  }

  /** A segment: what an fsync has covered, and what was only written. */
  datatype File = File(synced: seq<Record>, unsynced: seq<Record>)

  const EMPTY_FILE := File([], [])

  // ----- The disk -----

  /** A block's file: one of a flush, told apart by its partition and segment, or one of a merge. */
  datatype Name = Flushed(partition: string, seqno: nat) | Merged(dir: string, prefix: string, lo: nat, hi: nat) {
    function Lo(): nat { if Flushed? then seqno else lo }
    function Hi(): nat { if Flushed? then seqno else hi }
  }

  datatype Disk = Disk(
    wal: map<nat, File>,
    watermark: nat,
    index: set<Name>,
    blocks: map<Name, seq<Span>>)

  /** Is a span of this key in a block the index names? */
  predicate InCold(d: Disk, key: string) {
    exists n :: n in d.index && n in d.blocks && key in Keys(d.blocks[n])
  }

  // ----- The node -----

  datatype Compactor =
    | Idle
    | Pass(queue: seq<nat>)
    | Writing(queue: seq<nat>, seqno: nat, spans: seq<Span>, todo: set<string>)
    | Committed(queue: seq<nat>, seqno: nat)
    | Deleted(queue: seq<nat>, seqno: nat)
    | Merging(out: Name, chunk: seq<Name>)
    | MergeWritten(out: Name, chunk: seq<Name>)

  /** A query: it reads the hot tier, then lists the index, then reads the blocks listed. */
  datatype Reader =
    | Begun
    | HotRead(hot: seq<Span>, lists: nat)
    | Reading(hot: seq<Span>, lists: nat, todo: seq<Name>, cold: seq<Span>)
    | Answered(result: seq<Span>)
    | Failed

  /** With the keys that were acknowledged when it began. */
  datatype Query = Query(promised: set<string>, reader: Reader)

  datatype Node = Node(
    active: nat,
    written: seq<seq<Span>>,
    committed: seq<seq<Span>>,
    hot: map<nat, seq<Span>>,
    compactor: Compactor,
    queries: map<nat, Query>)

  /**
   * The disk, the node when it is up, and what has happened: the keys acknowledged, the spans ever
   * offered, and the blocks the index has ever named.
   */
  datatype World = World(disk: Disk, node: Option<Node>, acked: set<string>, offered: set<Span>, ever: set<Name>)

  const START := World(Disk(map[], 0, {}, map[]), None, {}, {}, {})

  /** How spans fall into partitions, and what is left open of the environment. */
  datatype Env = Env(
    partition: Span -> string,
    tornWrites: bool,   // a write that fails may leave part of a record behind
    reusedNames: bool)  // a merge may be given the name of a block the index has named before

  function Partitions(env: Env, spans: seq<Span>): set<string> {
    set i | 0 <= i < |spans| :: env.partition(spans[i])
  }

  function Group(env: Env, spans: seq<Span>, p: string): seq<Span> {
    if spans == [] then []
    else
      var last := spans[|spans| - 1];
      Group(env, spans[..|spans| - 1], p) + if env.partition(last) == p then [last] else []
  }

  function Concat(blocks: map<Name, seq<Span>>, chunk: seq<Name>): seq<Span>
    requires forall i :: 0 <= i < |chunk| ==> chunk[i] in blocks
  {
    if chunk == [] then [] else Concat(blocks, chunk[..|chunk| - 1]) + blocks[chunk[|chunk| - 1]]
  }

  function Smallest(chunk: seq<Name>): nat
    requires chunk != []
  {
    if |chunk| == 1 then chunk[0].Lo()
    else var s := Smallest(chunk[1..]); if chunk[0].Lo() < s then chunk[0].Lo() else s
  }

  function Largest(chunk: seq<Name>): nat
    requires chunk != []
  {
    if |chunk| == 1 then chunk[0].Hi()
    else var s := Largest(chunk[1..]); if chunk[0].Hi() > s then chunk[0].Hi() else s
  }

  // ----- Steps -----

  datatype Step =
    // the writer
    | Write(batch: seq<Span>)
    | WriteFails(batch: seq<Span>, whole: nat, torn: bool)
    | Sync
    | SyncFails
    | Publish
    | Seal
    // the compactor
    | StartPass(queue: seq<nat>)
    | Take
    | WriteBlock(partition: string)
    | CommitFlush
    | DeleteSegment
    | DropHot
    | EndPass
    | StartMerge(dir: string, prefix: string, chunk: seq<Name>)
    | WriteMerged
    | CommitMerge
    | GiveUp
    | Sweep(name: Name)
    // queries
    | Begin(id: nat)
    | ReadHot(id: nat, spans: seq<Span>)
    | ListBlocks(id: nat, names: seq<Name>)
    | ReadBlock(id: nat)
    | Answer(id: nat)
    // a kill, and opening again
    | Kill(kept: nat -> (nat, bool))
    | DeleteStale(seqno: nat)
    | SweepClosed(name: Name)
    | Truncate(seqno: nat)
    | Open(active: nat)

  predicate Ascending(queue: seq<nat>) {
    forall i, j :: 0 <= i < j < |queue| ==> queue[i] < queue[j]
  }

  predicate DistinctNames(names: seq<Name>) {
    forall i, j :: 0 <= i < j < |names| ==> names[i] != names[j]
  }

  /** What a kill leaves of a segment: everything synced, and of the rest whole records and perhaps a torn one. */
  function Survivor(f: File, kept: (nat, bool)): File {
    var k := if kept.0 <= |f.unsynced| then kept.0 else |f.unsynced|;
    File(f.synced + f.unsynced[..k] + (if kept.1 && k < |f.unsynced| then [Torn] else []), [])
  }

  ghost predicate Enabled(env: Env, w: World, step: Step) {
    match step
    case Write(_) => CanWrite(w)
    case WriteFails(batch, whole, torn) => CanWrite(w) && whole <= |batch| && (torn ==> env.tornWrites && whole < |batch|)
    case Sync => CanWrite(w) && w.node.value.written != []
    case SyncFails => CanWrite(w) && w.node.value.written != []
    case Publish => w.node.Some? && w.node.value.committed != []
    case Seal => CanWrite(w) && w.node.value.written == []
    case StartPass(queue) =>
      && w.node.Some? && w.node.value.compactor.Idle? && Ascending(queue)
      && forall s :: s in queue <==> s in w.node.value.hot && w.disk.watermark < s < w.node.value.active
    case Take => w.node.Some? && w.node.value.compactor.Pass? && w.node.value.compactor.queue != []
    case WriteBlock(p) => w.node.Some? && w.node.value.compactor.Writing? && p in w.node.value.compactor.todo
    case CommitFlush => w.node.Some? && w.node.value.compactor.Writing? && w.node.value.compactor.todo == {}
    case DeleteSegment => w.node.Some? && w.node.value.compactor.Committed?
    case DropHot => w.node.Some? && w.node.value.compactor.Deleted?
    case EndPass => w.node.Some? && w.node.value.compactor.Pass? && w.node.value.compactor.queue == []
    case StartMerge(dir, prefix, chunk) =>
      && w.node.Some? && w.node.value.compactor.Idle?
      && |chunk| >= 2 && DistinctNames(chunk)
      && (forall i :: 0 <= i < |chunk| ==> chunk[i] in w.disk.index && chunk[i] in w.disk.blocks)
      && var out := Merged(dir, prefix, Smallest(chunk), Largest(chunk));
         out !in chunk && (out in w.ever ==> env.reusedNames)
    case WriteMerged => w.node.Some? && w.node.value.compactor.Merging?
    case CommitMerge => w.node.Some? && w.node.value.compactor.MergeWritten?
    case GiveUp => w.node.Some?
    case Sweep(name) => w.node.Some? && w.node.value.compactor.Idle? && name in w.disk.blocks && name !in w.disk.index
    case Begin(id) => w.node.Some? && id !in w.node.value.queries
    case ReadHot(id, spans) =>
      && IsAt(w, id) && At(w, id).Begun?
      && forall x :: x in spans <==> exists s :: s in w.node.value.hot && x in w.node.value.hot[s]
    case ListBlocks(id, names) =>
      IsAt(w, id) && At(w, id).HotRead? && DistinctNames(names) && forall n :: n in names <==> n in w.disk.index
    case ReadBlock(id) => IsAt(w, id) && At(w, id).Reading? && At(w, id).todo != []
    case Answer(id) => IsAt(w, id) && At(w, id).Reading? && At(w, id).todo == []
    case Kill(_) => w.node.Some?
    case DeleteStale(s) => w.node.None? && s in w.disk.wal && s <= w.disk.watermark
    case SweepClosed(name) => w.node.None? && name in w.disk.blocks && name !in w.disk.index
    case Truncate(s) => w.node.None? && s in w.disk.wal && s > w.disk.watermark
    case Open(active) =>
      && w.node.None? && active > w.disk.watermark
      && (active - 1 == w.disk.watermark || active - 1 in w.disk.wal)
      && (forall s :: s in w.disk.wal ==> w.disk.watermark < s < active && w.disk.wal[s] == File(Wholes(Intact(w.disk.wal[s].synced)), []))
      && w.disk.blocks.Keys <= w.disk.index
  }

  /** The writer takes commands when it has answered those before. */
  predicate CanWrite(w: World) {
    w.node.Some? && w.node.value.committed == [] && w.node.value.active in w.disk.wal
  }

  predicate IsAt(w: World, id: nat) { w.node.Some? && id in w.node.value.queries }

  function At(w: World, id: nat): Reader
    requires IsAt(w, id)
  {
    w.node.value.queries[id].reader
  }

  // ----- What a step does -----

  function WithNode(w: World, node: Node): World { w.(node := Some(node)) }

  function WithCompactor(w: World, c: Compactor): World
    requires w.node.Some?
  {
    WithNode(w, w.node.value.(compactor := c))
  }

  function Appended(w: World, records: seq<Record>, batch: seq<Span>): World
    requires CanWrite(w)
  {
    var active := w.node.value.active;
    var f := w.disk.wal[active];
    w.(disk := w.disk.(wal := w.disk.wal[active := File(f.synced, f.unsynced + records)]),
       offered := w.offered + SpansOf(batch))
  }

  function WithReader(w: World, id: nat, r: Reader): World
    requires IsAt(w, id)
  {
    var node := w.node.value;
    WithNode(w, node.(queries := node.queries[id := node.queries[id].(reader := r)]))
  }

  /** Segments that hold something, as they are loaded. */
  function Loaded(wal: map<nat, File>): map<nat, seq<Span>> {
    map s | s in wal && Intact(wal[s].synced) != [] :: Intact(wal[s].synced)
  }

  function FlushedNames(env: Env, spans: seq<Span>, seqno: nat): set<Name> {
    set p | p in Partitions(env, spans) :: Flushed(p, seqno)
  }

  ghost function Next(env: Env, w: World, step: Step): World
    requires Enabled(env, w, step)
  {
    match step
    case Write(batch) =>
      var node := w.node.value;
      Appended(w, Wholes(batch), batch).(node := Some(node.(written := node.written + [batch])))
    case WriteFails(batch, whole, torn) =>
      Appended(w, Wholes(batch[..whole]) + (if torn then [Torn] else []), batch)
    case Sync =>
      var node := w.node.value;
      var f := w.disk.wal[node.active];
      w.(disk := w.disk.(wal := w.disk.wal[node.active := File(f.synced + f.unsynced, [])]),
         node := Some(node.(written := [], committed := node.written)))
    case SyncFails => WithNode(w, w.node.value.(written := []))
    case Publish =>
      var node := w.node.value;
      var batch := node.committed[0];
      var held := if node.active in node.hot then node.hot[node.active] else [];
      w.(node := Some(node.(committed := node.committed[1..], hot := node.hot[node.active := held + batch])),
         acked := w.acked + Keys(batch))
    case Seal =>
      var node := w.node.value;
      w.(disk := w.disk.(wal := w.disk.wal[node.active + 1 := EMPTY_FILE]), node := Some(node.(active := node.active + 1)))
    case StartPass(queue) => WithCompactor(w, Pass(queue))
    case Take =>
      var node := w.node.value;
      var s, rest := node.compactor.queue[0], node.compactor.queue[1..];
      if s in node.hot
      then var spans := FirstCopies(node.hot[s]); WithCompactor(w, Writing(rest, s, spans, Partitions(env, spans)))
      else WithCompactor(w, Pass(rest))
    case WriteBlock(p) =>
      var c := w.node.value.compactor;
      WithCompactor(w.(disk := w.disk.(blocks := w.disk.blocks[Flushed(p, c.seqno) := Group(env, c.spans, p)])),
                    c.(todo := c.todo - {p}))
    case CommitFlush =>
      var c := w.node.value.compactor;
      var names := FlushedNames(env, c.spans, c.seqno);
      WithCompactor(w.(disk := w.disk.(index := w.disk.index + names, watermark := c.seqno), ever := w.ever + names),
                    Committed(c.queue, c.seqno))
    case DeleteSegment =>
      var c := w.node.value.compactor;
      WithCompactor(w.(disk := w.disk.(wal := w.disk.wal - {c.seqno})), Deleted(c.queue, c.seqno))
    case DropHot =>
      var node := w.node.value;
      var c := node.compactor;
      WithNode(w, node.(hot := node.hot - {c.seqno}, compactor := Pass(c.queue)))
    case EndPass => WithCompactor(w, Idle)
    case StartMerge(dir, prefix, chunk) =>
      WithCompactor(w, Merging(Merged(dir, prefix, Smallest(chunk), Largest(chunk)), chunk))
    case WriteMerged =>
      var c := w.node.value.compactor;
      if forall i :: 0 <= i < |c.chunk| ==> c.chunk[i] in w.disk.blocks
      then WithCompactor(w.(disk := w.disk.(blocks := w.disk.blocks[c.out := FirstCopies(Concat(w.disk.blocks, c.chunk))])),
                         MergeWritten(c.out, c.chunk))
      else WithCompactor(w, Idle)
    case CommitMerge =>
      var c := w.node.value.compactor;
      var inputs := set n | n in c.chunk;
      WithCompactor(w.(disk := w.disk.(index := w.disk.index - inputs + {c.out}), ever := w.ever + {c.out}), Idle)
    case GiveUp => WithCompactor(w, Idle)
    case Sweep(name) => w.(disk := w.disk.(blocks := w.disk.blocks - {name}))
    case Begin(id) =>
      var node := w.node.value;
      WithNode(w, node.(queries := node.queries[id := Query(w.acked, Begun)]))
    case ReadHot(id, spans) => WithReader(w, id, HotRead(FirstCopies(spans), 0))
    case ListBlocks(id, names) => WithReader(w, id, Reading(At(w, id).hot, At(w, id).lists + 1, names, []))
    case ReadBlock(id) =>
      var r := At(w, id);
      var n := r.todo[0];
      if n in w.disk.blocks then WithReader(w, id, Reading(r.hot, r.lists, r.todo[1..], r.cold + w.disk.blocks[n]))
      else if r.lists == 1 then WithReader(w, id, HotRead(r.hot, 1))
      else WithReader(w, id, Failed)
    case Answer(id) => WithReader(w, id, Answered(FirstCopies(At(w, id).hot + At(w, id).cold)))
    case Kill(kept) =>
      w.(disk := w.disk.(wal := map s | s in w.disk.wal :: Survivor(w.disk.wal[s], kept(s))), node := None)
    case DeleteStale(s) => w.(disk := w.disk.(wal := w.disk.wal - {s}))
    case SweepClosed(name) => w.(disk := w.disk.(blocks := w.disk.blocks - {name}))
    case Truncate(s) =>
      w.(disk := w.disk.(wal := w.disk.wal[s := File(Wholes(Intact(w.disk.wal[s].synced)), [])]))
    case Open(active) =>
      w.(disk := w.disk.(wal := w.disk.wal[active := EMPTY_FILE]),
         node := Some(Node(active, [], [], Loaded(w.disk.wal), Idle, map[])))
  }

  /** A run; steps that are not enabled do not happen. */
  ghost function Run(env: Env, w: World, steps: seq<Step>): World {
    if steps == [] then w
    else
      var before := Run(env, w, steps[..|steps| - 1]);
      var step := steps[|steps| - 1];
      if Enabled(env, before, step) then Next(env, before, step) else before
  }

  /** No failed write leaves part of a record behind, and no merge gets a name the index has used. */
  predicate Careful(w: World, step: Step) {
    match step
    case WriteFails(_, _, torn) => !torn
    case StartMerge(dir, prefix, chunk) => chunk != [] ==> Merged(dir, prefix, Smallest(chunk), Largest(chunk)) !in w.ever
    case _ => true
  }

  /** Every step of the run that happens is. */
  ghost predicate CarefulRun(env: Env, steps: seq<Step>) {
    steps == [] ||
    (var before := Run(env, START, steps[..|steps| - 1]);
     CarefulRun(env, steps[..|steps| - 1])
     && (Enabled(env, before, steps[|steps| - 1]) ==> Careful(before, steps[|steps| - 1])))
  }

  // ----- What is promised -----

  /** A key is on the disk for good: in a block of the index, or readable in the log above the watermark. */
  predicate Durable(d: Disk, key: string) {
    || InCold(d, key)
    || exists s :: s in d.wal && s > d.watermark && key in Keys(Intact(d.wal[s].synced))
  }

  /** Everything acknowledged is durable, and every answer holds all that was acknowledged, each span once. */
  ghost predicate Safe(w: World) {
    && (forall key :: key in w.acked ==> Durable(w.disk, key))
    && forall id :: IsAt(w, id) && At(w, id).Answered? ==>
         && w.node.value.queries[id].promised <= Keys(At(w, id).result)
         && DistinctKeys(At(w, id).result)
         && SpansOf(At(w, id).result) <= w.offered
  }

  predicate DistinctKeys(spans: seq<Span>) {
    forall i, j :: 0 <= i < j < |spans| ==> spans[i].key != spans[j].key
  }
}
