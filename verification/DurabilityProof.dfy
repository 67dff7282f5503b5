/** Nothing acknowledged is lost and nothing is answered twice, in every run of the engine (src/store). */
module DurabilityProof {
  import opened Wrappers
  import opened Durability

  // ----- Sequences of spans -----

  lemma KeyIn(spans: seq<Span>, i: nat)
    requires i < |spans|
    ensures spans[i].key in Keys(spans) && spans[i] in SpansOf(spans)
  {
  }

  lemma KeysJoin(a: seq<Span>, b: seq<Span>)
    ensures Keys(a + b) == Keys(a) + Keys(b) && SpansOf(a + b) == SpansOf(a) + SpansOf(b)
  {
    var all := a + b;
    forall key
      ensures key in Keys(all) <==> key in Keys(a) + Keys(b)
    {
      if key in Keys(a) {
        var i :| 0 <= i < |a| && a[i].key == key;
        assert all[i].key == key;
      }
      if key in Keys(b) {
        var i :| 0 <= i < |b| && b[i].key == key;
        assert all[|a| + i].key == key;
      }
    }
    forall x
      ensures x in SpansOf(all) <==> x in SpansOf(a) + SpansOf(b)
    {
      if x in SpansOf(a) {
        var i :| 0 <= i < |a| && a[i] == x;
        assert all[i] == x;
      }
      if x in SpansOf(b) {
        var i :| 0 <= i < |b| && b[i] == x;
        assert all[|a| + i] == x;
      }
    }
  }

  lemma OneSpan(x: Span)
    ensures Keys([x]) == {x.key} && SpansOf([x]) == {x} && Keys([]) == {} && SpansOf([]) == {}
  {
    assert [x][0] == x;
  }

  /** First copies: every key, each once, and nothing new. */
  lemma {:induction false} FirstCopiesKeep(spans: seq<Span>)
    ensures Keys(FirstCopies(spans)) == Keys(spans) && DistinctKeys(FirstCopies(spans))
    ensures SpansOf(FirstCopies(spans)) <= SpansOf(spans)
  {
    hide Keys, SpansOf;
    if spans == [] {
    } else {
      var front, last := spans[..|spans| - 1], spans[|spans| - 1];
      FirstCopiesKeep(front);
      OneSpan(last);
      KeysJoin(front, [last]);
      assert spans == front + [last];
      KeysJoin(FirstCopies(front), [last]);
      if last.key !in Keys(front) {
        OneMoreDistinct(FirstCopies(front), last);
      } else {
        assert FirstCopies(spans) == FirstCopies(front);
      }
    }
  }

  lemma OneMoreDistinct(spans: seq<Span>, last: Span)
    requires DistinctKeys(spans) && last.key !in Keys(spans)
    ensures DistinctKeys(spans + [last])
  {
  }

  /** A span is in the group of its partition, and a group holds nothing else. */
  lemma {:induction false} GroupHolds(env: Env, spans: seq<Span>, p: string)
    ensures SpansOf(Group(env, spans, p)) == set x | x in SpansOf(spans) && env.partition(x) == p
  {
    hide SpansOf;
    if spans == [] {
      OneSpan(Span("", 0));
    } else {
      var front, last := spans[..|spans| - 1], spans[|spans| - 1];
      GroupHolds(env, front, p);
      OneSpan(last);
      KeysJoin(front, [last]);
      assert spans == front + [last];
      KeysJoin(Group(env, front, p), [last]);
      assert Group(env, front, p) + [] == Group(env, front, p);
    }
  }

  lemma KeyOfSpan(spans: seq<Span>, key: string)
    ensures key in Keys(spans) <==> exists x :: x in SpansOf(spans) && x.key == key
  {
    if key in Keys(spans) {
      var i :| 0 <= i < |spans| && spans[i].key == key;
      assert spans[i] in SpansOf(spans);
    }
  }

  lemma {:induction false} ConcatHolds(blocks: map<Name, seq<Span>>, chunk: seq<Name>, offered: set<Span>)
    requires forall i :: 0 <= i < |chunk| ==> chunk[i] in blocks && SpansOf(blocks[chunk[i]]) <= offered
    ensures SpansOf(Concat(blocks, chunk)) <= offered
    ensures forall i :: 0 <= i < |chunk| ==> Keys(blocks[chunk[i]]) <= Keys(Concat(blocks, chunk))
  {
    hide Keys, SpansOf;
    if chunk == [] {
      OneSpan(Span("", 0));
    } else {
      var front := chunk[..|chunk| - 1];
      ConcatHolds(blocks, front, offered);
      KeysJoin(Concat(blocks, front), blocks[chunk[|chunk| - 1]]);
    }
  }

  // ----- Records -----

  predicate NoTorn(records: seq<Record>) {
    forall i :: 0 <= i < |records| ==> records[i].Whole?
  }

  /** Every span is among the records. */
  predicate Logged(spans: seq<Span>, records: seq<Record>) {
    forall i :: 0 <= i < |spans| ==> Whole(spans[i]) in records
  }

  predicate RecordsOffered(records: seq<Record>, offered: set<Span>) {
    forall i :: 0 <= i < |records| ==> records[i].Whole? ==> records[i].span in offered
  }

  /** Of records of which none is torn, all are read, whatever stands behind them. */
  lemma {:induction false} IntactHolds(records: seq<Record>, more: seq<Record>, x: Span)
    requires NoTorn(records) && Whole(x) in records
    ensures x.key in Keys(Intact(records + more))
  {
    var all := records + more;
    assert all[0] == records[0] && all[1..] == records[1..] + more;
    OneSpan(records[0].span);
    KeysJoin([records[0].span], Intact(all[1..]));
    if records[0] != Whole(x) {
      assert Whole(x) in records[1..];
      IntactHolds(records[1..], more, x);
    }
  }

  lemma {:induction false} IntactOffered(records: seq<Record>, offered: set<Span>)
    requires RecordsOffered(records, offered)
    ensures SpansOf(Intact(records)) <= offered
    ensures Logged(Intact(records), records)
  {
    if records == [] || records[0].Torn? {
    } else {
      IntactOffered(records[1..], offered);
      OneSpan(records[0].span);
      KeysJoin([records[0].span], Intact(records[1..]));
      forall i | 0 <= i < |Intact(records)|
        ensures Whole(Intact(records)[i]) in records
      {
        if i > 0 {
          assert Intact(records)[i] == Intact(records[1..])[i - 1];
        }
      }
    }
  }

  lemma {:induction false} IntactTwice(records: seq<Record>)
    ensures Intact(Wholes(Intact(records))) == Intact(records) && NoTorn(Wholes(Intact(records)))
  {
    if records != [] && records[0].Whole? {
      IntactTwice(records[1..]);
      assert Wholes(Intact(records))[1..] == Wholes(Intact(records[1..]));
    }
  }

  // ----- What every step keeps -----

  ghost predicate DiskOk(w: World) {
    && w.disk.index <= w.ever && w.disk.index <= w.disk.blocks.Keys
    && (forall n :: n in w.ever && n.Flushed? ==> n.seqno <= w.disk.watermark)
    && (forall n :: n in w.disk.blocks ==> SpansOf(w.disk.blocks[n]) <= w.offered)
    && forall s :: s in w.disk.wal ==>
         RecordsOffered(w.disk.wal[s].synced, w.offered) && RecordsOffered(w.disk.wal[s].unsynced, w.offered)
  }

  /** The log, as the writer leaves it. */
  ghost predicate LogOk(d: Disk, active: nat) {
    && d.watermark < active && active in d.wal
    && forall s :: s in d.wal ==> s <= active && NoTorn(d.wal[s].synced) && NoTorn(d.wal[s].unsynced)
  }

  /** What is in memory is in the log, above the watermark. */
  ghost predicate HotOk(d: Disk, active: nat, hot: map<nat, seq<Span>>, offered: set<Span>) {
    forall s :: s in hot ==>
      s <= active && SpansOf(hot[s]) <= offered && (s > d.watermark ==> s in d.wal && Logged(hot[s], d.wal[s].synced))
  }

  ghost predicate WriterOk(d: Disk, node: Node, offered: set<Span>) {
    && node.active in d.wal
    && (forall i :: 0 <= i < |node.committed| ==>
          Logged(node.committed[i], d.wal[node.active].synced) && SpansOf(node.committed[i]) <= offered)
    && forall i :: 0 <= i < |node.written| ==>
         Logged(node.written[i], d.wal[node.active].synced + d.wal[node.active].unsynced) && SpansOf(node.written[i]) <= offered
  }

  predicate InHot(hot: map<nat, seq<Span>>, watermark: nat, key: string) {
    exists s :: s in hot && s > watermark && key in Keys(hot[s])
  }

  ghost predicate AckedHeld(w: World, node: Node) {
    forall key :: key in w.acked ==> InCold(w.disk, key) || InHot(node.hot, w.disk.watermark, key)
  }

  /** No segment in memory between the watermark and one of the queue is missing from the queue. */
  ghost predicate QueueOk(queue: seq<nat>, hot: map<nat, seq<Span>>, watermark: nat, active: nat) {
    && Ascending(queue)
    && (forall s :: s in queue ==> watermark < s < active)
    && forall s, t :: s in queue && t in hot && watermark < t < s ==> t in queue
  }

  /** The blocks of a segment that are written so far. */
  ghost predicate BlocksWritten(env: Env, d: Disk, s: nat, spans: seq<Span>, todo: set<string>) {
    && todo <= Partitions(env, spans)
    && forall p :: p in Partitions(env, spans) && p !in todo ==>
         Flushed(p, s) in d.blocks && d.blocks[Flushed(p, s)] == Group(env, spans, p)
  }

  ghost predicate ChunkOk(d: Disk, chunk: seq<Name>) {
    forall i :: 0 <= i < |chunk| ==> chunk[i] in d.index
  }

  ghost predicate CompactorOk(env: Env, w: World, node: Node) {
    match node.compactor
    case Idle => true
    case Pass(queue) => QueueOk(queue, node.hot, w.disk.watermark, node.active)
    case Writing(queue, s, spans, todo) =>
      && QueueOk([s] + queue, node.hot, w.disk.watermark, node.active)
      && s in node.hot && spans == FirstCopies(node.hot[s])
      && BlocksWritten(env, w.disk, s, spans, todo)
    case Committed(queue, s) => s == w.disk.watermark && QueueOk(queue, node.hot, s, node.active)
    case Deleted(queue, s) => s == w.disk.watermark && QueueOk(queue, node.hot, s, node.active)
    case Merging(out, chunk) => out !in w.ever && out.Merged? && ChunkOk(w.disk, chunk)
    case MergeWritten(out, chunk) =>
      && out !in w.ever && out.Merged? && ChunkOk(w.disk, chunk) && out in w.disk.blocks
      && forall i :: 0 <= i < |chunk| && chunk[i] in w.disk.blocks ==> Keys(w.disk.blocks[chunk[i]]) <= Keys(w.disk.blocks[out])
  }

  /** A key is in what was read of memory, or in a block that is still named. */
  ghost predicate Within(d: Disk, hot: seq<Span>, key: string) {
    key in Keys(hot) || InCold(d, key)
  }

  /** A key is read already, or in a listed block unless that is gone. */
  ghost predicate ToCome(d: Disk, hot: seq<Span>, todo: seq<Name>, cold: seq<Span>, key: string) {
    || key in Keys(hot) || key in Keys(cold)
    || exists i :: 0 <= i < |todo| && (todo[i] in d.blocks ==> key in Keys(d.blocks[todo[i]]))
  }

  ghost predicate QueryOk(w: World, q: Query) {
    && q.promised <= w.acked
    && match q.reader
       case Begun => true
       case HotRead(hot, _) => SpansOf(hot) <= w.offered && forall key :: key in q.promised ==> Within(w.disk, hot, key)
       case Reading(hot, _, todo, cold) =>
         && SpansOf(hot) <= w.offered && SpansOf(cold) <= w.offered
         && (forall n :: n in todo ==> n in w.ever)
         && forall key :: key in q.promised ==> Within(w.disk, hot, key) && ToCome(w.disk, hot, todo, cold, key)
       case Answered(result) =>
         q.promised <= Keys(result) && DistinctKeys(result) && SpansOf(result) <= w.offered
       case Failed => true
  }

  ghost predicate QueriesOk(w: World, node: Node) {
    forall id :: id in node.queries ==> QueryOk(w, node.queries[id])
  }

  ghost predicate NodeOk(env: Env, w: World, node: Node) {
    && LogOk(w.disk, node.active) && HotOk(w.disk, node.active, node.hot, w.offered) && WriterOk(w.disk, node, w.offered)
    && AckedHeld(w, node) && CompactorOk(env, w, node) && QueriesOk(w, node)
  }

  ghost predicate ClosedOk(w: World) {
    forall key :: key in w.acked ==> Durable(w.disk, key)
  }

  ghost predicate Inv(env: Env, w: World) {
    DiskOk(w) && match w.node case Some(node) => NodeOk(env, w, node) case None => ClosedOk(w)
  }

  // ----- What a step may do to the cold tier -----

  /** Nothing leaves the cold tier, and a block the index has named keeps its content while it is there. */
  ghost predicate ColdStays(w: World, w': World) {
    && (forall key :: InCold(w.disk, key) ==> InCold(w'.disk, key))
    && (forall n :: n in w.ever && n in w'.disk.blocks ==> n in w.disk.blocks && w'.disk.blocks[n] == w.disk.blocks[n])
    && w.ever <= w'.ever && w.acked <= w'.acked && w.offered <= w'.offered
  }

  lemma QueryStays(w: World, w': World, q: Query)
    requires QueryOk(w, q) && ColdStays(w, w')
    ensures QueryOk(w', q)
  {
    hide InCold, Keys, SpansOf, DistinctKeys;
    if q.reader.Reading? {
      var r := q.reader;
      forall key | key in q.promised
        ensures ToCome(w'.disk, r.hot, r.todo, r.cold, key)
      {
        if key !in Keys(r.hot) && key !in Keys(r.cold) {
          var i :| 0 <= i < |r.todo| && (r.todo[i] in w.disk.blocks ==> key in Keys(w.disk.blocks[r.todo[i]]));
          assert r.todo[i] in w.ever;
          assert r.todo[i] in w'.disk.blocks ==> key in Keys(w'.disk.blocks[r.todo[i]]);
        }
      }
    }
  }

  lemma QueriesStay(w: World, w': World, node: Node, node': Node)
    requires QueriesOk(w, node) && ColdStays(w, w') && node'.queries == node.queries
    ensures QueriesOk(w', node')
  {
    hide QueryOk, ColdStays;
    forall id | id in node'.queries
      ensures QueryOk(w', node'.queries[id])
    {
      QueryStays(w, w', node.queries[id]);
    }
  }

  /** A step that leaves the cold tier alone. */
  lemma SameCold(w: World, w': World)
    requires w'.disk.index == w.disk.index && w'.disk.blocks == w.disk.blocks
    requires w.ever <= w'.ever && w.acked <= w'.acked && w.offered <= w'.offered
    ensures ColdStays(w, w')
  {
  }

  // ----- The writer -----

  /** The log gains records; nothing else of the disk changes. */
  ghost predicate LogGrows(d: Disk, d': Disk) {
    && d'.watermark == d.watermark && d'.index == d.index && d'.blocks == d.blocks
    && forall s :: s in d.wal ==> s in d'.wal && forall r :: r in d.wal[s].synced ==> r in d'.wal[s].synced
  }

  lemma HotStays(d: Disk, d': Disk, active: nat, active': nat, hot: map<nat, seq<Span>>, offered: set<Span>, offered': set<Span>)
    requires HotOk(d, active, hot, offered) && LogGrows(d, d') && active <= active' && offered <= offered'
    ensures HotOk(d', active', hot, offered')
  {
    hide SpansOf;
  }

  /** Only the group of the active segment may change. */
  predicate HotGrows(hot: map<nat, seq<Span>>, hot': map<nat, seq<Span>>, active: nat) {
    && (forall s :: s in hot ==> s in hot' && (s == active || hot'[s] == hot[s]))
    && forall s :: s in hot' ==> s in hot || s == active
  }

  lemma CompactorStays(env: Env, w: World, w': World, node: Node, node': Node)
    requires CompactorOk(env, w, node) && node'.compactor == node.compactor
    requires HotGrows(node.hot, node'.hot, node.active) && node.active <= node'.active
    requires w'.disk.watermark == w.disk.watermark && w'.disk.index == w.disk.index && w'.disk.blocks == w.disk.blocks
    requires w'.ever == w.ever
    ensures CompactorOk(env, w', node')
  {
    hide Keys, FirstCopies, BlocksWritten, Partitions, Ascending;
    if node.compactor.Writing? {
      var c := node.compactor;
      assert c.seqno in [c.seqno] + c.queue;
      BlocksStay(env, w.disk, w'.disk, c.seqno, c.spans, c.todo);
    }
  }

  lemma BlocksStay(env: Env, d: Disk, d': Disk, s: nat, spans: seq<Span>, todo: set<string>)
    requires BlocksWritten(env, d, s, spans, todo) && d'.blocks == d.blocks
    ensures BlocksWritten(env, d', s, spans, todo)
  {
  }

  lemma HeldStays(w: World, w': World, node: Node, node': Node)
    requires AckedHeld(w, node) && w'.acked == w.acked && node'.hot == node.hot
    requires w'.disk.watermark == w.disk.watermark && w'.disk.index == w.disk.index && w'.disk.blocks == w.disk.blocks
    ensures AckedHeld(w', node')
  {
  }

  /** A step of the writer that touches the log and what waits to be answered. */
  lemma WriterStays(env: Env, w: World, w': World, node: Node, node': Node)
    requires DiskOk(w) && NodeOk(env, w, node) && LogGrows(w.disk, w'.disk)
    requires w'.acked == w.acked && w'.ever == w.ever && w.offered <= w'.offered
    requires node'.hot == node.hot && node'.compactor == node.compactor && node'.queries == node.queries
    requires node.active <= node'.active
    ensures HotOk(w'.disk, node'.active, node'.hot, w'.offered) && AckedHeld(w', node')
    ensures CompactorOk(env, w', node') && QueriesOk(w', node')
  {
    hide HotOk, AckedHeld, CompactorOk, QueriesOk, LogOk, WriterOk, DiskOk, ColdStays;
    HotStays(w.disk, w'.disk, node.active, node'.active, node.hot, w.offered, w'.offered);
    HeldStays(w, w', node, node');
    CompactorStays(env, w, w', node, node');
    SameCold(w, w');
    QueriesStay(w, w', node, node');
  }

  /** Records go to the end of the active segment. */
  lemma AppendKeeps(env: Env, w: World, node: Node, records: seq<Record>, batch: seq<Span>, written': seq<seq<Span>>)
    requires DiskOk(w) && w.node == Some(node) && NodeOk(env, w, node) && CanWrite(w)
    requires NoTorn(records) && RecordsOffered(records, SpansOf(batch))
    requires written' == node.written || (written' == node.written + [batch] && Logged(batch, records))
    ensures Inv(env, Appended(w, records, batch).(node := Some(node.(written := written'))))
  {
    hide CompactorOk, AckedHeld, HotOk, QueriesOk, ColdStays, InCold;
    var node' := node.(written := written');
    var w' := Appended(w, records, batch).(node := Some(node'));
    assert LogGrows(w.disk, w'.disk);
    WriterStays(env, w, w', node, node');
    AppendedDiskOk(w, records, batch);
    AppendedWriterOk(w, node, records, batch, written');
  }

  lemma AppendedDiskOk(w: World, records: seq<Record>, batch: seq<Span>)
    requires DiskOk(w) && CanWrite(w) && RecordsOffered(records, SpansOf(batch))
    ensures DiskOk(Appended(w, records, batch))
  {
    hide SpansOf;
  }

  lemma AppendedWriterOk(w: World, node: Node, records: seq<Record>, batch: seq<Span>, written': seq<seq<Span>>)
    requires w.node == Some(node) && CanWrite(w) && WriterOk(w.disk, node, w.offered)
    requires written' == node.written || (written' == node.written + [batch] && Logged(batch, records))
    ensures WriterOk(Appended(w, records, batch).disk, node.(written := written'), w.offered + SpansOf(batch))
  {
    hide SpansOf;
    var f := w.disk.wal[node.active];
    assert f.synced + (f.unsynced + records) == f.synced + f.unsynced + records;
  }

  lemma BatchRecords(batch: seq<Span>, whole: nat)
    requires whole <= |batch|
    ensures NoTorn(Wholes(batch)) && RecordsOffered(Wholes(batch), SpansOf(batch)) && Logged(batch, Wholes(batch))
    ensures NoTorn(Wholes(batch[..whole])) && RecordsOffered(Wholes(batch[..whole]), SpansOf(batch))
  {
    forall i | 0 <= i < |batch|
      ensures batch[i] in SpansOf(batch) && Whole(batch[i]) in Wholes(batch)
    {
      assert Wholes(batch)[i] == Whole(batch[i]);
    }
  }

  lemma SyncKeeps(env: Env, w: World, node: Node)
    requires DiskOk(w) && w.node == Some(node) && NodeOk(env, w, node) && Enabled(env, w, Sync)
    ensures Inv(env, Next(env, w, Sync))
  {
    hide CompactorOk, AckedHeld, HotOk, QueriesOk, ColdStays, InCold, SpansOf;
    var w' := Next(env, w, Sync);
    WriterStays(env, w, w', node, w'.node.value);
  }

  lemma SyncFailsKeeps(env: Env, w: World, node: Node)
    requires DiskOk(w) && w.node == Some(node) && NodeOk(env, w, node) && Enabled(env, w, SyncFails)
    ensures Inv(env, Next(env, w, SyncFails))
  {
    hide CompactorOk, AckedHeld, HotOk, QueriesOk, ColdStays, InCold, SpansOf;
    var w' := Next(env, w, SyncFails);
    WriterStays(env, w, w', node, w'.node.value);
  }

  lemma SealKeeps(env: Env, w: World, node: Node)
    requires DiskOk(w) && w.node == Some(node) && NodeOk(env, w, node) && Enabled(env, w, Seal)
    ensures Inv(env, Next(env, w, Seal))
  {
    hide CompactorOk, AckedHeld, HotOk, QueriesOk, ColdStays, InCold, SpansOf;
    var w' := Next(env, w, Seal);
    WriterStays(env, w, w', node, w'.node.value);
  }

  /** Publishing a batch that is synced, and acknowledging it. */
  lemma PublishKeeps(env: Env, w: World, node: Node)
    requires DiskOk(w) && w.node == Some(node) && NodeOk(env, w, node) && Enabled(env, w, Publish)
    ensures Inv(env, Next(env, w, Publish))
  {
    hide CompactorOk, AckedHeld, HotOk, QueriesOk, ColdStays, InCold, SpansOf, Keys;
    var w' := Next(env, w, Publish);
    var node' := w'.node.value;
    assert node.committed[0] == node.committed[0];
    PublishedHot(w, node, w', node');
    PublishedHeld(w, node, w', node');
    CompactorStays(env, w, w', node, node');
    SameCold(w, w');
    QueriesStay(w, w', node, node');
  }

  lemma PublishedHot(w: World, node: Node, w': World, node': Node)
    requires HotOk(w.disk, node.active, node.hot, w.offered) && WriterOk(w.disk, node, w.offered) && node.committed != []
    requires w'.disk == w.disk && w'.offered == w.offered && node'.active == node.active
    requires var held := if node.active in node.hot then node.hot[node.active] else [];
             node'.hot == node.hot[node.active := held + node.committed[0]]
    ensures HotOk(w'.disk, node'.active, node'.hot, w'.offered) && HotGrows(node.hot, node'.hot, node.active)
  {
    hide SpansOf;
    var held := if node.active in node.hot then node.hot[node.active] else [];
    KeysJoin(held, node.committed[0]);
    OneSpan(Span("", 0));
  }

  lemma PublishedHeld(w: World, node: Node, w': World, node': Node)
    requires AckedHeld(w, node) && w.disk.watermark < node.active && node.committed != []
    requires w'.disk == w.disk && w'.acked == w.acked + Keys(node.committed[0])
    requires var held := if node.active in node.hot then node.hot[node.active] else [];
             node'.hot == node.hot[node.active := held + node.committed[0]]
    ensures AckedHeld(w', node')
  {
    hide Keys, InCold;
    var held := if node.active in node.hot then node.hot[node.active] else [];
    KeysJoin(held, node.committed[0]);
    forall key | key in w'.acked
      ensures InCold(w'.disk, key) || InHot(node'.hot, w'.disk.watermark, key)
    {
      if key in Keys(node.committed[0]) {
        assert key in Keys(node'.hot[node.active]);
      } else if !InCold(w.disk, key) {
        var s :| s in node.hot && s > w.disk.watermark && key in Keys(node.hot[s]);
        assert s in node'.hot && key in Keys(node'.hot[s]);
      }
    }
  }

  // ----- The compactor -----

  /** Only the compactor's own state changes. */
  lemma PhaseChange(env: Env, w: World, node: Node, c: Compactor)
    requires DiskOk(w) && w.node == Some(node) && NodeOk(env, w, node)
    requires CompactorOk(env, w, node.(compactor := c))
    ensures Inv(env, WithCompactor(w, c))
  {
    hide HotOk, LogOk, CompactorOk, InCold;
    var w', node' := WithCompactor(w, c), node.(compactor := c);
    SamePhase(env, w, w', node');
    SameCold(w, w');
    hide ColdStays, QueriesOk;
    QueriesStay(w, w', node, node');
  }

  lemma SamePhase(env: Env, w: World, w': World, node: Node)
    requires CompactorOk(env, w, node) && w'.disk == w.disk && w'.ever == w.ever
    ensures CompactorOk(env, w', node)
  {
  }

  lemma StartPassKeeps(env: Env, w: World, node: Node, queue: seq<nat>)
    requires DiskOk(w) && w.node == Some(node) && NodeOk(env, w, node) && Enabled(env, w, StartPass(queue))
    ensures Inv(env, Next(env, w, StartPass(queue)))
  {
    hide DiskOk, HotOk, LogOk, WriterOk, AckedHeld, QueriesOk;
    PhaseChange(env, w, node, Pass(queue));
  }

  lemma TakeKeeps(env: Env, w: World, node: Node)
    requires DiskOk(w) && w.node == Some(node) && NodeOk(env, w, node) && Enabled(env, w, Take)
    ensures Inv(env, Next(env, w, Take))
  {
    hide DiskOk, HotOk, LogOk, WriterOk, AckedHeld, QueriesOk, FirstCopies, Partitions;
    var queue := node.compactor.queue;
    var s, rest := queue[0], queue[1..];
    assert [s] + rest == queue && s in queue;
    if s in node.hot {
      var spans := FirstCopies(node.hot[s]);
      PhaseChange(env, w, node, Writing(rest, s, spans, Partitions(env, spans)));
    } else {
      SkippedQueue(s, rest, node.hot, w.disk.watermark, node.active);
      PhaseChange(env, w, node, Pass(rest));
    }
  }

  /** A block of a segment above the watermark is not one the index has named. */
  lemma WriteBlockKeeps(env: Env, w: World, node: Node, p: string)
    requires DiskOk(w) && w.node == Some(node) && NodeOk(env, w, node) && Enabled(env, w, WriteBlock(p))
    ensures Inv(env, Next(env, w, WriteBlock(p)))
  {
    hide LogOk, WriterOk, AckedHeld, QueriesOk, HotOk, Partitions, Keys, SpansOf, FirstCopies, Ascending, ColdStays, InCold;
    var w' := Next(env, w, WriteBlock(p));
    var node', c := w'.node.value, node.compactor;
    assert c.seqno in [c.seqno] + c.queue;
    var name := Flushed(p, c.seqno);
    assert name !in w.ever;
    GroupOffered(env, w, node, p);
    UnnamedBlock(w, w', name, Group(env, c.spans, p));
    HotSame(w, w', node);
    HeldLater(w, w', node, node');
    QueriesStay(w, w', node, node');
  }

  lemma GroupOffered(env: Env, w: World, node: Node, p: string)
    requires HotOk(w.disk, node.active, node.hot, w.offered) && node.compactor.Writing?
    requires node.compactor.seqno in node.hot && node.compactor.spans == FirstCopies(node.hot[node.compactor.seqno])
    ensures SpansOf(Group(env, node.compactor.spans, p)) <= w.offered
  {
    hide SpansOf;
    FirstCopiesKeep(node.hot[node.compactor.seqno]);
    GroupHolds(env, node.compactor.spans, p);
  }

  /** Writing a block the index has never named changes nothing that is read. */
  lemma UnnamedBlock(w: World, w': World, name: Name, spans: seq<Span>)
    requires DiskOk(w) && name !in w.ever && SpansOf(spans) <= w.offered
    requires w'.disk == w.disk.(blocks := w.disk.blocks[name := spans])
    requires w'.ever == w.ever && w'.acked == w.acked && w'.offered == w.offered
    ensures ColdStays(w, w') && DiskOk(w')
  {
    hide SpansOf, Keys;
    forall key | InCold(w.disk, key)
      ensures InCold(w'.disk, key)
    {
      var n :| n in w.disk.index && n in w.disk.blocks && key in Keys(w.disk.blocks[n]);
      assert n in w.ever;
      assert n in w'.disk.index && n in w'.disk.blocks && key in Keys(w'.disk.blocks[n]);
    }
  }

  lemma HotSame(w: World, w': World, node: Node)
    requires LogOk(w.disk, node.active) && HotOk(w.disk, node.active, node.hot, w.offered) && WriterOk(w.disk, node, w.offered)
    requires w'.disk.wal == w.disk.wal && w'.disk.watermark == w.disk.watermark && w'.offered == w.offered
    ensures LogOk(w'.disk, node.active) && HotOk(w'.disk, node.active, node.hot, w'.offered)
    ensures forall node': Node :: node'.active == node.active && node'.committed == node.committed && node'.written == node.written ==>
              WriterOk(w'.disk, node', w'.offered)
  {
    hide SpansOf;
  }

  lemma HeldLater(w: World, w': World, node: Node, node': Node)
    requires AckedHeld(w, node) && ColdStays(w, w') && w'.acked == w.acked
    requires node'.hot == node.hot && w'.disk.watermark == w.disk.watermark
    ensures AckedHeld(w', node')
  {
    hide InCold, Keys;
    forall key | key in w'.acked
      ensures InCold(w'.disk, key) || InHot(node'.hot, w'.disk.watermark, key)
    {
      assert InCold(w.disk, key) || InHot(node.hot, w.disk.watermark, key);
    }
  }

  /** The commit: every span of the segment is in one of the blocks the index now names. */
  lemma CommitFlushKeeps(env: Env, w: World, node: Node)
    requires DiskOk(w) && w.node == Some(node) && NodeOk(env, w, node) && Enabled(env, w, CommitFlush)
    ensures Inv(env, Next(env, w, CommitFlush))
  {
    hide LogOk, HotOk, WriterOk, AckedHeld, QueriesOk, Keys, SpansOf, FirstCopies, ColdStays, InCold, InHot, Ascending, DiskOk,
      Partitions, FlushedNames;
    var w' := Next(env, w, CommitFlush);
    var node', c := w'.node.value, node.compactor;
    CommitQueue(c.seqno, c.queue, node.hot, w.disk.watermark, node.active);
    CommitDisk(env, w, node, w');
    CommitLog(w, w', node, node', c.seqno);
    CommitHeld(env, w, node, w', node');
    QueriesStay(w, w', node, node');
  }

  lemma CommitDisk(env: Env, w: World, node: Node, w': World)
    requires DiskOk(w) && node.compactor.Writing? && node.compactor.todo == {} && node.compactor.seqno > w.disk.watermark
    requires BlocksWritten(env, w.disk, node.compactor.seqno, node.compactor.spans, {})
    requires var names := FlushedNames(env, node.compactor.spans, node.compactor.seqno);
             && w'.disk == w.disk.(index := w.disk.index + names, watermark := node.compactor.seqno)
             && w'.ever == w.ever + names && w'.acked == w.acked && w'.offered == w.offered
    ensures DiskOk(w') && ColdStays(w, w')
  {
    hide SpansOf, Keys, Partitions;
    forall key | InCold(w.disk, key)
      ensures InCold(w'.disk, key)
    {
      var n :| n in w.disk.index && n in w.disk.blocks && key in Keys(w.disk.blocks[n]);
      assert n in w'.disk.index && n in w'.disk.blocks;
    }
  }

  lemma CommitQueue(s: nat, queue: seq<nat>, hot: map<nat, seq<Span>>, watermark: nat, active: nat)
    requires QueueOk([s] + queue, hot, watermark, active)
    ensures QueueOk(queue, hot, s, active) && watermark < s < active
    ensures forall t :: t in hot && watermark < t ==> t >= s
  {
    hide Ascending;
    QueueHead(s, queue);
    forall q | q in queue
      ensures s < q < active
    {
      assert q in [s] + queue;
    }
    NoneBefore(s, queue, hot, watermark, active);
    forall q, t | q in queue && t in hot && s < t < q
      ensures t in queue
    {
      assert q in [s] + queue && t in [s] + queue;
    }
    assert s in [s] + queue;
  }

  lemma NoneBefore(s: nat, queue: seq<nat>, hot: map<nat, seq<Span>>, watermark: nat, active: nat)
    requires QueueOk([s] + queue, hot, watermark, active)
    ensures forall t :: t in hot && watermark < t < s ==> t in [s] + queue
  {
    hide Ascending;
    assert s in [s] + queue;
  }

  lemma SkippedQueue(s: nat, queue: seq<nat>, hot: map<nat, seq<Span>>, watermark: nat, active: nat)
    requires QueueOk([s] + queue, hot, watermark, active) && s !in hot
    ensures QueueOk(queue, hot, watermark, active)
  {
    hide Ascending;
    QueueHead(s, queue);
    forall q | q in queue
      ensures watermark < q < active
    {
      assert q in [s] + queue;
    }
    forall q, t | q in queue && t in hot && watermark < t < q
      ensures t in queue
    {
      assert q in [s] + queue && t in [s] + queue;
    }
  }

  lemma QueueHead(s: nat, queue: seq<nat>)
    requires Ascending([s] + queue)
    ensures Ascending(queue) && forall q :: q in queue ==> s < q
  {
    var all := [s] + queue;
    forall i | 0 <= i < |queue|
      ensures s < queue[i]
    {
      assert all[0] == s && all[i + 1] == queue[i];
    }
    forall i, j | 0 <= i < j < |queue|
      ensures queue[i] < queue[j]
    {
      assert all[i + 1] == queue[i] && all[j + 1] == queue[j];
    }
  }

  lemma CommitLog(w: World, w': World, node: Node, node': Node, s: nat)
    requires LogOk(w.disk, node.active) && HotOk(w.disk, node.active, node.hot, w.offered) && WriterOk(w.disk, node, w.offered)
    requires w'.disk.wal == w.disk.wal && w.disk.watermark < s == w'.disk.watermark < node.active && w'.offered == w.offered
    requires node'.active == node.active && node'.hot == node.hot
    requires node'.committed == node.committed && node'.written == node.written
    ensures LogOk(w'.disk, node'.active) && HotOk(w'.disk, node'.active, node'.hot, w'.offered)
    ensures WriterOk(w'.disk, node', w'.offered)
  {
    hide SpansOf;
  }

  lemma CommitHeld(env: Env, w: World, node: Node, w': World, node': Node)
    requires AckedHeld(w, node) && ColdStays(w, w') && node.compactor.Writing? && node.compactor.todo == {}
    requires CompactorOk(env, w, node)
    requires w'.acked == w.acked && w'.disk.watermark == node.compactor.seqno && node'.hot == node.hot
    requires w'.disk.blocks == w.disk.blocks
    requires FlushedNames(env, node.compactor.spans, node.compactor.seqno) <= w'.disk.index
    ensures AckedHeld(w', node')
  {
    hide InCold, Keys, FirstCopies, FlushedNames, Partitions, ColdStays;
    var c := node.compactor;
    CommitQueue(c.seqno, c.queue, node.hot, w.disk.watermark, node.active);
    forall key | key in w'.acked
      ensures InCold(w'.disk, key) || InHot(node'.hot, w'.disk.watermark, key)
    {
      if InCold(w.disk, key) {
        ColdKeptKey(w, w', key);
      } else {
        assert InHot(node.hot, w.disk.watermark, key);
        var t :| t in node.hot && t > w.disk.watermark && key in Keys(node.hot[t]);
        if t == c.seqno {
          FlushedKey(env, w.disk, w'.disk, node, key);
        }
      }
    }
  }

  lemma ColdKeptKey(w: World, w': World, key: string)
    requires ColdStays(w, w') && InCold(w.disk, key)
    ensures InCold(w'.disk, key)
  {
  }

  /** A key of the segment is in the block of its span's partition. */
  lemma FlushedKey(env: Env, d: Disk, d': Disk, node: Node, key: string)
    requires node.compactor.Writing? && node.compactor.seqno in node.hot
    requires node.compactor.spans == FirstCopies(node.hot[node.compactor.seqno])
    requires key in Keys(node.hot[node.compactor.seqno])
    requires BlocksWritten(env, d, node.compactor.seqno, node.compactor.spans, {}) && d'.blocks == d.blocks
    requires FlushedNames(env, node.compactor.spans, node.compactor.seqno) <= d'.index
    ensures InCold(d', key)
  {
    hide FirstCopies, Group, Keys, SpansOf;
    var c := node.compactor;
    FirstCopiesKeep(node.hot[c.seqno]);
    KeyOfSpan(c.spans, key);
    var x :| x in SpansOf(c.spans) && x.key == key;
    var p := env.partition(x);
    PartitionOf(env, c.spans, x);
    GroupHolds(env, c.spans, p);
    KeyOfSpan(Group(env, c.spans, p), key);
    assert Flushed(p, c.seqno) in d'.index && Flushed(p, c.seqno) in d'.blocks;
  }

  lemma PartitionOf(env: Env, spans: seq<Span>, x: Span)
    requires x in SpansOf(spans)
    ensures env.partition(x) in Partitions(env, spans)
  {
  }

  lemma DeleteSegmentKeeps(env: Env, w: World, node: Node)
    requires DiskOk(w) && w.node == Some(node) && NodeOk(env, w, node) && Enabled(env, w, DeleteSegment)
    ensures Inv(env, Next(env, w, DeleteSegment))
  {
    hide AckedHeld, QueriesOk, Keys, SpansOf, ColdStays, InCold;
    var w' := Next(env, w, DeleteSegment);
    var node' := w'.node.value;
    SameCold(w, w');
    HeldLater(w, w', node, node');
    QueriesStay(w, w', node, node');
  }

  lemma DropHotKeeps(env: Env, w: World, node: Node)
    requires DiskOk(w) && w.node == Some(node) && NodeOk(env, w, node) && Enabled(env, w, DropHot)
    ensures Inv(env, Next(env, w, DropHot))
  {
    hide QueriesOk, Keys, SpansOf, ColdStays, InCold, LogOk, AckedHeld;
    var w' := Next(env, w, DropHot);
    var node' := w'.node.value;
    SameCold(w, w');
    DroppedHeld(w, w', node, node', node.compactor.seqno);
    QueriesStay(w, w', node, node');
  }

  /** What is dropped from memory is at the watermark, not above it. */
  lemma DroppedHeld(w: World, w': World, node: Node, node': Node, s: nat)
    requires AckedHeld(w, node) && s == w.disk.watermark
    requires w'.disk == w.disk && w'.acked == w.acked && node'.hot == node.hot - {s}
    ensures AckedHeld(w', node')
  {
    hide InCold, Keys;
    forall key | key in w'.acked && !InCold(w'.disk, key)
      ensures InHot(node'.hot, w'.disk.watermark, key)
    {
      var t :| t in node.hot && t > w.disk.watermark && key in Keys(node.hot[t]);
      assert t in node'.hot;
    }
  }

  lemma StartMergeKeeps(env: Env, w: World, node: Node, dir: string, prefix: string, chunk: seq<Name>)
    requires DiskOk(w) && w.node == Some(node) && NodeOk(env, w, node) && Careful(w, StartMerge(dir, prefix, chunk))
    requires Enabled(env, w, StartMerge(dir, prefix, chunk))
    ensures Inv(env, Next(env, w, StartMerge(dir, prefix, chunk)))
  {
    hide DiskOk, HotOk, LogOk, WriterOk, AckedHeld, QueriesOk, Smallest, Largest;
    PhaseChange(env, w, node, Merging(Merged(dir, prefix, Smallest(chunk), Largest(chunk)), chunk));
  }

  lemma WriteMergedKeeps(env: Env, w: World, node: Node)
    requires DiskOk(w) && w.node == Some(node) && NodeOk(env, w, node) && Enabled(env, w, WriteMerged)
    ensures Inv(env, Next(env, w, WriteMerged))
  {
    hide LogOk, WriterOk, AckedHeld, QueriesOk, HotOk, Keys, SpansOf, FirstCopies, Concat, ColdStays, InCold;
    var c := node.compactor;
    if forall i :: 0 <= i < |c.chunk| ==> c.chunk[i] in w.disk.blocks {
      var w' := Next(env, w, WriteMerged);
      var node', all := w'.node.value, Concat(w.disk.blocks, c.chunk);
      ConcatHolds(w.disk.blocks, c.chunk, w.offered);
      FirstCopiesKeep(all);
      UnnamedBlock(w, w', c.out, FirstCopies(all));
      HotSame(w, w', node);
      HeldLater(w, w', node, node');
      QueriesStay(w, w', node, node');
    } else {
      PhaseChange(env, w, node, Idle);
    }
  }

  lemma CommitMergeKeeps(env: Env, w: World, node: Node)
    requires DiskOk(w) && w.node == Some(node) && NodeOk(env, w, node) && Enabled(env, w, CommitMerge)
    ensures Inv(env, Next(env, w, CommitMerge))
  {
    hide LogOk, WriterOk, AckedHeld, QueriesOk, HotOk, Keys, SpansOf, ColdStays, InCold;
    var w' := Next(env, w, CommitMerge);
    var node' := w'.node.value;
    SwappedCold(w, w', node.compactor.out, node.compactor.chunk);
    HotSame(w, w', node);
    HeldLater(w, w', node, node');
    QueriesStay(w, w', node, node');
  }

  /** Every key of the inputs is in the output. */
  lemma SwappedCold(w: World, w': World, out: Name, chunk: seq<Name>)
    requires DiskOk(w) && out in w.disk.blocks
    requires forall i :: 0 <= i < |chunk| && chunk[i] in w.disk.blocks ==> Keys(w.disk.blocks[chunk[i]]) <= Keys(w.disk.blocks[out])
    requires w'.disk.index == w.disk.index - (set n | n in chunk) + {out} && w'.disk.blocks == w.disk.blocks
    requires w'.ever == w.ever + {out} && w'.acked == w.acked && w'.offered == w.offered
    ensures ColdStays(w, w')
  {
    hide Keys;
    forall key | InCold(w.disk, key)
      ensures InCold(w'.disk, key)
    {
      var n :| n in w.disk.index && n in w.disk.blocks && key in Keys(w.disk.blocks[n]);
      if n in chunk {
        assert out in w'.disk.index && key in Keys(w'.disk.blocks[out]);
      } else {
        assert n in w'.disk.index;
      }
    }
  }

  lemma SweepKeeps(env: Env, w: World, node: Node, name: Name)
    requires DiskOk(w) && w.node == Some(node) && NodeOk(env, w, node) && Enabled(env, w, Sweep(name))
    ensures Inv(env, Next(env, w, Sweep(name)))
  {
    hide LogOk, WriterOk, AckedHeld, QueriesOk, HotOk, Keys, SpansOf, ColdStays, InCold;
    var w' := Next(env, w, Sweep(name));
    SweptCold(w, w', name);
    HotSame(w, w', node);
    HeldLater(w, w', node, node);
    QueriesStay(w, w', node, node);
  }

  lemma SweptCold(w: World, w': World, name: Name)
    requires DiskOk(w) && name !in w.disk.index && w'.disk == w.disk.(blocks := w.disk.blocks - {name})
    requires w'.ever == w.ever && w'.acked == w.acked && w'.offered == w.offered
    ensures ColdStays(w, w') && DiskOk(w')
  {
    hide Keys, SpansOf;
    forall key | InCold(w.disk, key)
      ensures InCold(w'.disk, key)
    {
      var n :| n in w.disk.index && n in w.disk.blocks && key in Keys(w.disk.blocks[n]);
      assert n in w'.disk.blocks;
    }
  }

  // ----- Queries -----

  /** Only one query moves on. */
  lemma QueryMoves(env: Env, w: World, node: Node, queries': map<nat, Query>)
    requires DiskOk(w) && w.node == Some(node) && NodeOk(env, w, node)
    requires forall id :: id in queries' ==> QueryOk(w, queries'[id])
    ensures Inv(env, WithNode(w, node.(queries := queries')))
  {
    hide LogOk, HotOk, CompactorOk, ColdStays, QueryOk, InCold;
    var node' := node.(queries := queries');
    var w' := WithNode(w, node');
    SamePhaseQueries(env, w, node, queries');
    SameCold(w, w');
    forall id | id in queries'
      ensures QueryOk(w', queries'[id])
    {
      QueryStays(w, w', queries'[id]);
    }
  }

  lemma SamePhaseQueries(env: Env, w: World, node: Node, queries': map<nat, Query>)
    requires CompactorOk(env, w, node)
    ensures CompactorOk(env, w, node.(queries := queries'))
    ensures CompactorOk(env, WithNode(w, node.(queries := queries')), node.(queries := queries'))
  {
  }

  lemma ReaderMoves(env: Env, w: World, node: Node, id: nat, r: Reader)
    requires DiskOk(w) && w.node == Some(node) && NodeOk(env, w, node) && id in node.queries
    requires QueryOk(w, node.queries[id].(reader := r))
    ensures Inv(env, WithReader(w, id, r))
  {
    hide QueryOk, LogOk, HotOk, WriterOk, AckedHeld, CompactorOk, DiskOk;
    QueryMoves(env, w, node, node.queries[id := node.queries[id].(reader := r)]);
  }

  lemma BeginKeeps(env: Env, w: World, node: Node, id: nat)
    requires DiskOk(w) && w.node == Some(node) && NodeOk(env, w, node) && Enabled(env, w, Begin(id))
    ensures Inv(env, Next(env, w, Begin(id)))
  {
    hide LogOk, HotOk, WriterOk, AckedHeld, CompactorOk, DiskOk;
    QueryMoves(env, w, node, node.queries[id := Query(w.acked, Begun)]);
  }

  lemma ReadHotKeeps(env: Env, w: World, node: Node, id: nat, spans: seq<Span>)
    requires DiskOk(w) && w.node == Some(node) && NodeOk(env, w, node) && Enabled(env, w, ReadHot(id, spans))
    ensures Inv(env, Next(env, w, ReadHot(id, spans)))
  {
    hide LogOk, WriterOk, CompactorOk, DiskOk, InCold, Keys, SpansOf, FirstCopies;
    HotListed(w, node, spans);
    FirstCopiesKeep(spans);
    ReaderMoves(env, w, node, id, HotRead(FirstCopies(spans), 0));
  }

  /** What is in memory is in the list of it. */
  lemma HotListed(w: World, node: Node, spans: seq<Span>)
    requires HotOk(w.disk, node.active, node.hot, w.offered)
    requires forall x :: x in spans <==> exists s :: s in node.hot && x in node.hot[s]
    ensures SpansOf(spans) <= w.offered
    ensures forall key :: InHot(node.hot, w.disk.watermark, key) ==> key in Keys(spans)
  {
    forall i | 0 <= i < |spans|
      ensures spans[i] in w.offered
    {
      assert spans[i] in spans;
      var s :| s in node.hot && spans[i] in node.hot[s];
      var k :| 0 <= k < |node.hot[s]| && node.hot[s][k] == spans[i];
      KeyIn(node.hot[s], k);
    }
    forall key | InHot(node.hot, w.disk.watermark, key)
      ensures key in Keys(spans)
    {
      var s :| s in node.hot && s > w.disk.watermark && key in Keys(node.hot[s]);
      var k :| 0 <= k < |node.hot[s]| && node.hot[s][k].key == key;
      assert node.hot[s][k] in spans;
      var i :| 0 <= i < |spans| && spans[i] == node.hot[s][k];
      KeyIn(spans, i);
    }
  }

  lemma ListBlocksKeeps(env: Env, w: World, node: Node, id: nat, names: seq<Name>)
    requires DiskOk(w) && w.node == Some(node) && NodeOk(env, w, node) && Enabled(env, w, ListBlocks(id, names))
    ensures Inv(env, Next(env, w, ListBlocks(id, names)))
  {
    hide LogOk, WriterOk, CompactorOk, HotOk, AckedHeld, Keys, SpansOf;
    var r := At(w, id);
    forall key | key in node.queries[id].promised
      ensures ToCome(w.disk, r.hot, names, [], key)
    {
      if key !in Keys(r.hot) {
        var n :| n in w.disk.index && n in w.disk.blocks && key in Keys(w.disk.blocks[n]);
        assert n in names;
        var i :| 0 <= i < |names| && names[i] == n;
      }
    }
    OneSpan(Span("", 0));
    ReaderMoves(env, w, node, id, Reading(r.hot, r.lists + 1, names, []));
  }

  lemma ReadBlockKeeps(env: Env, w: World, node: Node, id: nat)
    requires DiskOk(w) && w.node == Some(node) && NodeOk(env, w, node) && Enabled(env, w, ReadBlock(id))
    ensures Inv(env, Next(env, w, ReadBlock(id)))
  {
    hide LogOk, WriterOk, CompactorOk, HotOk, AckedHeld, Keys, SpansOf, InCold;
    var r := At(w, id);
    var n := r.todo[0];
    if n in w.disk.blocks {
      KeysJoin(r.cold, w.disk.blocks[n]);
      forall key | key in node.queries[id].promised
        ensures ToCome(w.disk, r.hot, r.todo[1..], r.cold + w.disk.blocks[n], key)
      {
        OneBlockRead(w.disk, r.hot, r.todo, r.cold, key);
      }
      ReaderMoves(env, w, node, id, Reading(r.hot, r.lists, r.todo[1..], r.cold + w.disk.blocks[n]));
    } else if r.lists == 1 {
      ReaderMoves(env, w, node, id, HotRead(r.hot, 1));
    } else {
      ReaderMoves(env, w, node, id, Failed);
    }
  }

  lemma OneBlockRead(d: Disk, hot: seq<Span>, todo: seq<Name>, cold: seq<Span>, key: string)
    requires todo != [] && todo[0] in d.blocks && ToCome(d, hot, todo, cold, key)
    ensures ToCome(d, hot, todo[1..], cold + d.blocks[todo[0]], key)
  {
    hide Keys, SpansOf;
    KeysJoin(cold, d.blocks[todo[0]]);
    if key !in Keys(hot) && key !in Keys(cold) && key !in Keys(d.blocks[todo[0]]) {
      var i :| 0 <= i < |todo| && (todo[i] in d.blocks ==> key in Keys(d.blocks[todo[i]]));
      assert todo[1..][i - 1] == todo[i];
    }
  }

  /** When nothing is left to read, everything promised is in the answer. */
  lemma AnswerKeeps(env: Env, w: World, node: Node, id: nat)
    requires DiskOk(w) && w.node == Some(node) && NodeOk(env, w, node) && Enabled(env, w, Answer(id))
    ensures Inv(env, Next(env, w, Answer(id)))
  {
    hide LogOk, WriterOk, CompactorOk, HotOk, AckedHeld, Keys, SpansOf, InCold, FirstCopies, DistinctKeys;
    var r := At(w, id);
    KeysJoin(r.hot, r.cold);
    FirstCopiesKeep(r.hot + r.cold);
    ReaderMoves(env, w, node, id, Answered(FirstCopies(r.hot + r.cold)));
  }

  // ----- Killed, and opened again -----

  /** A key in memory above the watermark is read of its segment, whatever a kill leaves behind it. */
  lemma HotIsLogged(d: Disk, node: Node, offered: set<Span>, key: string)
    requires LogOk(d, node.active) && HotOk(d, node.active, node.hot, offered) && InHot(node.hot, d.watermark, key)
    ensures exists s :: s in d.wal && s > d.watermark && forall more: seq<Record> :: key in Keys(Intact(d.wal[s].synced + more))
  {
    hide SpansOf, Intact;
    var s :| s in node.hot && s > d.watermark && key in Keys(node.hot[s]);
    var i :| 0 <= i < |node.hot[s]| && node.hot[s][i].key == key;
    forall more: seq<Record>
      ensures key in Keys(Intact(d.wal[s].synced + more))
    {
      IntactHolds(d.wal[s].synced, more, node.hot[s][i]);
    }
  }

  lemma HeldIsDurable(w: World, node: Node)
    requires LogOk(w.disk, node.active) && HotOk(w.disk, node.active, node.hot, w.offered) && AckedHeld(w, node)
    ensures forall key :: key in w.acked ==> Durable(w.disk, key)
  {
    hide LogOk, HotOk, Keys, Intact, InCold, InHot;
    forall key | key in w.acked
      ensures Durable(w.disk, key)
    {
      if !InCold(w.disk, key) {
        HotIsLogged(w.disk, node, w.offered, key);
        var s :| s in w.disk.wal && s > w.disk.watermark && forall more: seq<Record> :: key in Keys(Intact(w.disk.wal[s].synced + more));
        assert w.disk.wal[s].synced + [] == w.disk.wal[s].synced;
      }
    }
  }

  lemma KillKeeps(env: Env, w: World, node: Node, kept: nat -> (nat, bool))
    requires DiskOk(w) && w.node == Some(node) && NodeOk(env, w, node)
    ensures Inv(env, Next(env, w, Kill(kept)))
  {
    hide LogOk, HotOk, Keys, Intact, InHot, Survivor, DiskOk, InCold;
    var w' := Next(env, w, Kill(kept));
    KilledDiskOk(env, w, kept);
    forall key | key in w'.acked
      ensures Durable(w'.disk, key)
    {
      if InCold(w.disk, key) {
        SameColdKey(w.disk, w'.disk, key);
      } else {
        HotIsLogged(w.disk, node, w.offered, key);
        var s :| s in w.disk.wal && s > w.disk.watermark && forall more: seq<Record> :: key in Keys(Intact(w.disk.wal[s].synced + more));
        SurvivorShape(w.disk.wal[s], kept(s));
        var more :| Survivor(w.disk.wal[s], kept(s)).synced == w.disk.wal[s].synced + more;
        assert w'.disk.wal[s] == Survivor(w.disk.wal[s], kept(s));
      }
    }
  }

  lemma SameColdKey(d: Disk, d': Disk, key: string)
    requires InCold(d, key) && d'.index == d.index && d'.blocks == d.blocks
    ensures InCold(d', key)
  {
  }

  lemma SurvivorShape(f: File, kept: (nat, bool))
    ensures exists more :: Survivor(f, kept).synced == f.synced + more
    ensures forall r :: r in Survivor(f, kept).synced ==> r in f.synced || r in f.unsynced || r == Torn
  {
    var k := if kept.0 <= |f.unsynced| then kept.0 else |f.unsynced|;
    var more := f.unsynced[..k] + if kept.1 && k < |f.unsynced| then [Torn] else [];
    assert Survivor(f, kept).synced == f.synced + more;
  }

  lemma KilledDiskOk(env: Env, w: World, kept: nat -> (nat, bool))
    requires DiskOk(w) && w.node.Some?
    ensures DiskOk(Next(env, w, Kill(kept)))
  {
    hide SpansOf, Survivor;
    var w' := Next(env, w, Kill(kept));
    forall s | s in w'.disk.wal
      ensures RecordsOffered(w'.disk.wal[s].synced, w'.offered) && RecordsOffered(w'.disk.wal[s].unsynced, w'.offered)
    {
      SurvivorShape(w.disk.wal[s], kept(s));
      SurvivorOffered(w.disk.wal[s], kept(s), w.offered);
    }
  }

  lemma SurvivorOffered(f: File, kept: (nat, bool), offered: set<Span>)
    requires RecordsOffered(f.synced, offered) && RecordsOffered(f.unsynced, offered)
    ensures RecordsOffered(Survivor(f, kept).synced, offered) && Survivor(f, kept).unsynced == []
  {
  }

  lemma DeleteStaleKeeps(env: Env, w: World, s: nat)
    requires Inv(env, w) && Enabled(env, w, DeleteStale(s))
    ensures Inv(env, Next(env, w, DeleteStale(s)))
  {
    hide Keys, SpansOf, Intact, InCold;
    var w' := Next(env, w, DeleteStale(s));
    forall key | key in w'.acked
      ensures Durable(w'.disk, key)
    {
      if InCold(w.disk, key) {
        SameColdKey(w.disk, w'.disk, key);
      } else {
        var t :| t in w.disk.wal && t > w.disk.watermark && key in Keys(Intact(w.disk.wal[t].synced));
        assert t in w'.disk.wal;
      }
    }
  }

  lemma SweepClosedKeeps(env: Env, w: World, name: Name)
    requires Inv(env, w) && Enabled(env, w, SweepClosed(name))
    ensures Inv(env, Next(env, w, SweepClosed(name)))
  {
    hide Keys, SpansOf, Intact, InCold, DiskOk, ColdStays;
    var w' := Next(env, w, SweepClosed(name));
    SweptUnnamed(w, w', name);
    forall key | key in w'.acked
      ensures Durable(w'.disk, key)
    {
      if InCold(w.disk, key) {
        ColdKeptKey(w, w', key);
      }
    }
  }

  lemma SweptUnnamed(w: World, w': World, name: Name)
    requires DiskOk(w) && name !in w.disk.index && w'.disk == w.disk.(blocks := w.disk.blocks - {name})
    requires w'.ever == w.ever && w'.acked == w.acked && w'.offered == w.offered
    ensures ColdStays(w, w') && DiskOk(w')
  {
    SweptCold(w, w', name);
  }

  lemma TruncateKeeps(env: Env, w: World, s: nat)
    requires Inv(env, w) && Enabled(env, w, Truncate(s))
    ensures Inv(env, Next(env, w, Truncate(s)))
  {
    hide Keys, SpansOf, Intact, InCold, Wholes;
    var w' := Next(env, w, Truncate(s));
    var records := w.disk.wal[s].synced;
    IntactTwice(records);
    IntactOffered(records, w.offered);
    WholesOffered(Intact(records), w.offered);
    forall key | key in w'.acked
      ensures Durable(w'.disk, key)
    {
      if InCold(w.disk, key) {
        SameColdKey(w.disk, w'.disk, key);
      } else {
        var t :| t in w.disk.wal && t > w.disk.watermark && key in Keys(Intact(w.disk.wal[t].synced));
        assert t in w'.disk.wal && key in Keys(Intact(w'.disk.wal[t].synced));
      }
    }
  }

  lemma WholesOffered(spans: seq<Span>, offered: set<Span>)
    requires SpansOf(spans) <= offered
    ensures RecordsOffered(Wholes(spans), offered)
  {
    forall i | 0 <= i < |spans|
      ensures Wholes(spans)[i].span in offered
    {
      KeyIn(spans, i);
    }
  }

  /** Opening loads what the log holds above the watermark, and it is all there is beside the cold tier. */
  lemma OpenKeeps(env: Env, w: World, active: nat)
    requires Inv(env, w) && Enabled(env, w, Open(active))
    ensures Inv(env, Next(env, w, Open(active)))
  {
    hide Keys, SpansOf, Intact, InCold, Wholes, Loaded, ColdStays;
    var w' := Next(env, w, Open(active));
    var node := w'.node.value;
    OpenedLog(w, w', active);
    OpenedHot(w, w', active);
    OpenedHeld(w, w', node);
  }

  lemma OpenedLog(w: World, w': World, active: nat)
    requires DiskOk(w) && w.disk.watermark < active
    requires forall s :: s in w.disk.wal ==> s < active && w.disk.wal[s] == File(Wholes(Intact(w.disk.wal[s].synced)), [])
    requires w'.disk == w.disk.(wal := w.disk.wal[active := EMPTY_FILE]) && w'.offered == w.offered && w'.ever == w.ever
    ensures LogOk(w'.disk, active) && DiskOk(w')
  {
    hide SpansOf, Intact, Wholes;
    forall s | s in w.disk.wal
      ensures NoTorn(w.disk.wal[s].synced)
    {
      IntactTwice(w.disk.wal[s].synced);
    }
  }

  lemma OpenedHot(w: World, w': World, active: nat)
    requires DiskOk(w) && forall s :: s in w.disk.wal ==> w.disk.watermark < s < active
    requires w'.disk == w.disk.(wal := w.disk.wal[active := EMPTY_FILE]) && w'.offered == w.offered
    ensures HotOk(w'.disk, active, Loaded(w.disk.wal), w'.offered)
  {
    hide SpansOf, Intact;
    forall s | s in Loaded(w.disk.wal)
      ensures SpansOf(Loaded(w.disk.wal)[s]) <= w'.offered && Logged(Loaded(w.disk.wal)[s], w'.disk.wal[s].synced)
    {
      IntactOffered(w.disk.wal[s].synced, w.offered);
    }
  }

  lemma OpenedHeld(w: World, w': World, node: Node)
    requires ClosedOk(w) && node.hot == Loaded(w.disk.wal) && w'.acked == w.acked
    requires w'.disk.index == w.disk.index && w'.disk.blocks == w.disk.blocks && w'.disk.watermark == w.disk.watermark
    ensures AckedHeld(w', node)
  {
    hide Intact, Keys, InCold;
    forall key | key in w'.acked
      ensures InCold(w'.disk, key) || InHot(node.hot, w'.disk.watermark, key)
    {
      if InCold(w.disk, key) {
        SameColdKey(w.disk, w'.disk, key);
      } else {
        var s :| s in w.disk.wal && s > w.disk.watermark && key in Keys(Intact(w.disk.wal[s].synced));
        NoKeyInNothing(Intact(w.disk.wal[s].synced), key);
        assert s in node.hot && key in Keys(node.hot[s]);
      }
    }
  }

  lemma NoKeyInNothing(spans: seq<Span>, key: string)
    requires key in Keys(spans)
    ensures spans != []
  {
  }

  // ----- Every run -----

  lemma WriterStepKeeps(env: Env, w: World, node: Node, step: Step)
    requires DiskOk(w) && w.node == Some(node) && NodeOk(env, w, node) && Enabled(env, w, step) && Careful(w, step)
    requires step.Write? || step.WriteFails? || step.Sync? || step.SyncFails? || step.Publish? || step.Seal?
    ensures Inv(env, Next(env, w, step))
  {
    hide DiskOk, NodeOk, Wholes, RecordsOffered, Logged;
    match step
    case Write(batch) =>
      BatchRecords(batch, 0);
      AppendKeeps(env, w, node, Wholes(batch), batch, node.written + [batch]);
    case WriteFails(batch, whole, _) =>
      BatchRecords(batch, whole);
      assert Wholes(batch[..whole]) + [] == Wholes(batch[..whole]);
      AppendKeeps(env, w, node, Wholes(batch[..whole]), batch, node.written);
      assert w.node.value.(written := node.written) == node;
    case Sync => SyncKeeps(env, w, node);
    case SyncFails => SyncFailsKeeps(env, w, node);
    case Publish => PublishKeeps(env, w, node);
    case Seal => SealKeeps(env, w, node);
  }

  lemma CompactorStepKeeps(env: Env, w: World, node: Node, step: Step)
    requires DiskOk(w) && w.node == Some(node) && NodeOk(env, w, node) && Enabled(env, w, step) && Careful(w, step)
    requires || step.StartPass? || step.Take? || step.WriteBlock? || step.CommitFlush? || step.DeleteSegment? || step.DropHot?
             || step.EndPass? || step.StartMerge? || step.WriteMerged? || step.CommitMerge? || step.GiveUp? || step.Sweep?
    ensures Inv(env, Next(env, w, step))
  {
    hide DiskOk, NodeOk, Inv;
    match step
    case StartPass(queue) => StartPassKeeps(env, w, node, queue);
    case Take => TakeKeeps(env, w, node);
    case WriteBlock(p) => WriteBlockKeeps(env, w, node, p);
    case CommitFlush => CommitFlushKeeps(env, w, node);
    case DeleteSegment => DeleteSegmentKeeps(env, w, node);
    case DropHot => DropHotKeeps(env, w, node);
    case EndPass => BackToIdle(env, w, node);
    case StartMerge(dir, prefix, chunk) => StartMergeKeeps(env, w, node, dir, prefix, chunk);
    case WriteMerged => WriteMergedKeeps(env, w, node);
    case CommitMerge => CommitMergeKeeps(env, w, node);
    case GiveUp => BackToIdle(env, w, node);
    case Sweep(name) => SweepKeeps(env, w, node, name);
  }

  /** A pass can be given up at any point. */
  lemma BackToIdle(env: Env, w: World, node: Node)
    requires DiskOk(w) && w.node == Some(node) && NodeOk(env, w, node)
    ensures Inv(env, WithCompactor(w, Idle))
  {
    hide DiskOk, HotOk, LogOk, WriterOk, AckedHeld, QueriesOk;
    PhaseChange(env, w, node, Idle);
  }

  lemma QueryStepKeeps(env: Env, w: World, node: Node, step: Step)
    requires DiskOk(w) && w.node == Some(node) && NodeOk(env, w, node) && Enabled(env, w, step)
    requires step.Begin? || step.ReadHot? || step.ListBlocks? || step.ReadBlock? || step.Answer?
    ensures Inv(env, Next(env, w, step))
  {
    hide DiskOk, NodeOk, Inv;
    match step
    case Begin(id) => BeginKeeps(env, w, node, id);
    case ReadHot(id, spans) => ReadHotKeeps(env, w, node, id, spans);
    case ListBlocks(id, names) => ListBlocksKeeps(env, w, node, id, names);
    case ReadBlock(id) => ReadBlockKeeps(env, w, node, id);
    case Answer(id) => AnswerKeeps(env, w, node, id);
  }

  /** Every step of the engine, of a query or of an outage keeps what the engine relies on. */
  lemma StepKeepsInv(env: Env, w: World, step: Step)
    requires Inv(env, w) && Enabled(env, w, step) && Careful(w, step)
    ensures Inv(env, Next(env, w, step))
  {
    hide DiskOk, NodeOk, ClosedOk, Next;
    match step
    case DeleteStale(s) => DeleteStaleKeeps(env, w, s);
    case SweepClosed(name) => SweepClosedKeeps(env, w, name);
    case Truncate(s) => TruncateKeeps(env, w, s);
    case Open(active) => OpenKeeps(env, w, active);
    case Kill(kept) => KillKeeps(env, w, w.node.value, kept);
    case _ =>
      var node := w.node.value;
      if step.Write? || step.WriteFails? || step.Sync? || step.SyncFails? || step.Publish? || step.Seal? {
        WriterStepKeeps(env, w, node, step);
      } else if step.Begin? || step.ReadHot? || step.ListBlocks? || step.ReadBlock? || step.Answer? {
        QueryStepKeeps(env, w, node, step);
      } else {
        CompactorStepKeeps(env, w, node, step);
      }
  }

  lemma StartHolds(env: Env)
    ensures Inv(env, START)
  {
  }

  lemma {:induction false} RunKeepsInv(env: Env, steps: seq<Step>)
    requires CarefulRun(env, steps)
    ensures Inv(env, Run(env, START, steps))
    decreases |steps|
  {
    hide Inv, Enabled, Next, Careful;
    if steps == [] {
      StartHolds(env);
    } else {
      RunKeepsInv(env, steps[..|steps| - 1]);
      var before, step := Run(env, START, steps[..|steps| - 1]), steps[|steps| - 1];
      if Enabled(env, before, step) {
        StepKeepsInv(env, before, step);
      }
    }
  }

  lemma InvIsSafe(env: Env, w: World)
    requires Inv(env, w)
    ensures Safe(w)
  {
    hide DiskOk, LogOk, HotOk, WriterOk, AckedHeld, CompactorOk, Durable, DistinctKeys;
    if w.node.Some? {
      HeldIsDurable(w, w.node.value);
    }
  }

  /**
   * In every run, with kills, failures and opening again at any point, in which no failed write leaves part
   * of a record and no merge gets a used name: what was acknowledged is never lost, and every answer to a
   * query holds all that was acknowledged when it began, no span twice and none that was never offered.
   */
  lemma NothingIsLostOrCountedTwice(env: Env, steps: seq<Step>)
    requires CarefulRun(env, steps)
    ensures Safe(Run(env, START, steps))
  {
    hide Inv, Safe, Run, CarefulRun;
    RunKeepsInv(env, steps);
    InvIsSafe(env, Run(env, START, steps));
  }

  lemma EnabledIsCareful(env: Env, w: World, step: Step)
    requires !env.tornWrites && !env.reusedNames && Enabled(env, w, step)
    ensures Careful(w, step)
  {
    hide Smallest, Largest, CanWrite, IsAt;
  }

  /** Where neither can happen every run is careful. */
  lemma {:induction false} EveryRunIsCareful(env: Env, steps: seq<Step>)
    requires !env.tornWrites && !env.reusedNames
    ensures CarefulRun(env, steps)
    decreases |steps|
  {
    hide Enabled, Careful, Next;
    if steps != [] {
      EveryRunIsCareful(env, steps[..|steps| - 1]);
      var before := Run(env, START, steps[..|steps| - 1]);
      if Enabled(env, before, steps[|steps| - 1]) {
        EnabledIsCareful(env, before, steps[|steps| - 1]);
      }
    }
  }
}
