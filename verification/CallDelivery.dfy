/**
 * The three steps an ingest request takes around the ledger (src/store/mod.rs, `ingest_batch`):
 * filter, durable append, remember. The first and the last hold the ledger's lock, the append
 * does not, so the steps of concurrent requests interleave in any order.
 */
module CallDelivery {
  import opened Wrappers
  import opened CallLedger

  // ----- One step of one request -----

  /** A batch that cannot carry keys never reaches the ledger. */
  function FilterBatch(order: seq<string>, batch: seq<Span>): Filtered {
    if MayCarryKeys(batch) then FilterAll(Elements(order), batch) else Filtered(batch, [], 0)
  }

  datatype Request =
    | Arrived(batch: seq<Span>)
    | Waiting(batch: seq<Span>, kept: seq<Span>, keys: seq<string>)
    | Appended(batch: seq<Span>, keys: seq<string>)
    | Answered(batch: seq<Span>)
    | Refused(batch: seq<Span>)

  /** The ledger's queue, the spans that are durable, and every request seen so far. */
  datatype World = World(order: seq<string>, durable: seq<Span>, requests: map<nat, Request>)

  datatype Step =
    | Arrive(id: nat, batch: seq<Span>)
    | Filter(id: nat)
    | AppendSucceeds(id: nat)
    | AppendFails(id: nat)
    | Remember(id: nat)

  predicate Enabled(w: World, step: Step) {
    match step
    case Arrive(id, _) => id !in w.requests
    case Filter(id) => id in w.requests && w.requests[id].Arrived?
    case AppendSucceeds(id) => id in w.requests && w.requests[id].Waiting?
    case AppendFails(id) => id in w.requests && w.requests[id].Waiting?
    case Remember(id) => id in w.requests && w.requests[id].Appended?
  }

  function Next(w: World, step: Step, capacity: nat): World
    requires Enabled(w, step)
  {
    match step
    case Arrive(id, batch) => w.(requests := w.requests[id := Arrived(batch)])
    case Filter(id) =>
      var batch := w.requests[id].batch;
      var f := FilterBatch(w.order, batch);
      w.(requests := w.requests[id := Waiting(batch, f.kept, f.keys)])
    case AppendSucceeds(id) =>
      var r := w.requests[id];
      w.(durable := w.durable + r.kept, requests := w.requests[id := Appended(r.batch, r.keys)])
    case AppendFails(id) => w.(requests := w.requests[id := Refused(w.requests[id].batch)])
    case Remember(id) =>
      var r := w.requests[id];
      w.(order := RememberAll(w.order, r.keys, capacity), requests := w.requests[id := Answered(r.batch)])
  }

  const START := World([], [], map[])

  /** The worlds a run passes through; steps that are not enabled do not happen. */
  function Run(w: World, steps: seq<Step>, capacity: nat): World
    decreases |steps|
  {
    if steps == [] then w
    else Run(if Enabled(w, steps[0]) then Next(w, steps[0], capacity) else w, steps[1..], capacity)
  }

  // ----- Nothing is lost -----

  /** The span is stored, or it is a droppable copy of a call that is. */
  ghost predicate Accounted(s: Span, stored: seq<Span>) {
    s in stored || (s.Droppable() && CarriedBy(s.callKey.value, stored))
  }

  ghost predicate AllAccounted(batch: seq<Span>, stored: seq<Span>) {
    forall s :: s in batch ==> Accounted(s, stored)
  }

  ghost predicate AllCarried(keys: seq<string>, stored: seq<Span>) {
    forall key :: key in keys ==> CarriedBy(key, stored)
  }

  ghost predicate RequestKept(r: Request, durable: seq<Span>) {
    match r
    case Waiting(batch, kept, keys) => AllAccounted(batch, durable + kept) && AllCarried(keys, kept)
    case Appended(batch, keys) => AllAccounted(batch, durable) && AllCarried(keys, durable)
    case Answered(batch) => AllAccounted(batch, durable)
    case _ => true
  }

  /** What every step of every request keeps. */
  ghost predicate Inv(w: World, capacity: nat) {
    && Distinct(w.order) && |w.order| <= capacity
    && AllCarried(w.order, w.durable)
    && (forall id :: id in w.requests ==> RequestKept(w.requests[id], w.durable))
  }

  lemma CarriedGrows(key: string, stored: seq<Span>, before: seq<Span>, after: seq<Span>)
    requires CarriedBy(key, stored)
    ensures CarriedBy(key, before + stored + after)
  {
    var i :| 0 <= i < |stored| && stored[i].Carries() == Some(key);
    assert (before + stored + after)[|before| + i] == stored[i];
  }

  lemma AccountedGrows(batch: seq<Span>, stored: seq<Span>, more: seq<Span>)
    ensures AllAccounted(batch, stored) ==> AllAccounted(batch, stored + more)
  {
    if AllAccounted(batch, stored) {
      forall s | s in batch
        ensures Accounted(s, stored + more)
      {
        if s !in stored {
          CarriedGrows(s.callKey.value, stored, [], more);
          assert [] + stored + more == stored + more;
        }
      }
    }
  }

  lemma CarriedAllGrow(keys: seq<string>, stored: seq<Span>, before: seq<Span>, after: seq<Span>)
    requires AllCarried(keys, stored)
    ensures AllCarried(keys, before + stored + after)
  {
    forall key | key in keys {
      CarriedGrows(key, stored, before, after);
    }
  }

  /** A kept request stays kept while others append. */
  lemma RequestKeptGrows(r: Request, durable: seq<Span>, more: seq<Span>)
    requires RequestKept(r, durable)
    ensures RequestKept(r, durable + more)
  {
    match r
    case Waiting(batch, kept, keys) =>
      forall s | s in batch
        ensures Accounted(s, durable + more + kept)
      {
        if s !in durable + kept {
          var key := s.callKey.value;
          var i :| 0 <= i < |durable + kept| && (durable + kept)[i].Carries() == Some(key);
          var j := if i < |durable| then i else i + |more|;
          assert (durable + more + kept)[j] == (durable + kept)[i];
        }
      }
    case Appended(batch, keys) =>
      AccountedGrows(batch, durable, more);
      CarriedAllGrow(keys, durable, [], more);
      assert [] + durable + more == durable + more;
    case Answered(batch) => AccountedGrows(batch, durable, more);
    case _ =>
  }

  /** What the filter drops is a copy of a call that is durable or kept in the same batch. */
  lemma FilterAccounts(order: seq<string>, durable: seq<Span>, batch: seq<Span>)
    requires AllCarried(order, durable)
    ensures var f := FilterBatch(order, batch);
            AllAccounted(batch, durable + f.kept) && AllCarried(f.keys, f.kept)
  {
    var f := FilterBatch(order, batch);
    if MayCarryKeys(batch) {
      FilterKeys(Elements(order), batch);
      FilterKeepsExactly(Elements(order), batch);
      hide FilterAll;
      forall i | 0 <= i < |batch|
        ensures Accounted(batch[i], durable + f.kept)
      {
        KeptContains(Elements(order), batch, |batch|, i);
        if !Keeps(Elements(order), batch, i) {
          var key := batch[i].callKey.value;
          assert CarriedBy(key, batch);
          if key in f.keys {
            CarriedGrows(key, f.kept, durable, []);
            assert durable + f.kept + [] == durable + f.kept;
          } else {
            CarriedGrows(key, durable, [], f.kept);
            assert [] + durable + f.kept == durable + f.kept;
          }
        }
      }
    }
  }

  lemma {:induction false} KeptContains(recent: set<string>, batch: seq<Span>, n: nat, i: nat)
    requires i < n <= |batch|
    ensures Keeps(recent, batch, i) ==> batch[i] in Kept(recent, batch, n)
  {
    if i < n - 1 {
      KeptContains(recent, batch, n - 1, i);
    }
  }

  lemma RememberedCarried(order: seq<string>, keys: seq<string>, capacity: nat, durable: seq<Span>)
    requires Distinct(order) && AllCarried(order, durable) && AllCarried(keys, durable)
    ensures var after := RememberAll(order, keys, capacity);
            Distinct(after) && |after| <= capacity && AllCarried(after, durable)
  {
    AddKeysAppends(order, keys);
  }

  lemma StepKeepsInv(w: World, step: Step, capacity: nat)
    requires Inv(w, capacity) && Enabled(w, step)
    ensures Inv(Next(w, step, capacity), capacity)
  {
    hide FilterBatch, AllAccounted, AllCarried, Distinct, RememberAll;
    match step
    case Arrive(_, _) =>
    case Filter(id) => FilterAccounts(w.order, w.durable, w.requests[id].batch);
    case AppendSucceeds(id) => AppendKeepsInv(w, id, capacity);
    case AppendFails(_) =>
    case Remember(id) => RememberedCarried(w.order, w.requests[id].keys, capacity, w.durable);
  }

  lemma AppendKeepsInv(w: World, id: nat, capacity: nat)
    requires Inv(w, capacity) && Enabled(w, AppendSucceeds(id))
    ensures Inv(Next(w, AppendSucceeds(id), capacity), capacity)
  {
    var r := w.requests[id];
    var w' := Next(w, AppendSucceeds(id), capacity);
    assert [] + w.durable + r.kept == w'.durable && w.durable + r.kept + [] == w'.durable;
    CarriedAllGrow(w.order, w.durable, [], r.kept);
    CarriedAllGrow(r.keys, r.kept, w.durable, []);
    forall other | other in w'.requests
      ensures RequestKept(w'.requests[other], w'.durable)
    {
      if other != id {
        RequestKeptGrows(w.requests[other], w.durable, r.kept);
      }
    }
  }

  lemma {:induction false} RunKeepsInv(w: World, steps: seq<Step>, capacity: nat)
    requires Inv(w, capacity)
    ensures Inv(Run(w, steps, capacity), capacity)
    decreases |steps|
  {
    if steps != [] {
      if Enabled(w, steps[0]) {
        StepKeepsInv(w, steps[0], capacity);
        RunKeepsInv(Next(w, steps[0], capacity), steps[1..], capacity);
      } else {
        RunKeepsInv(w, steps[1..], capacity);
      }
    }
  }

  /**
   * Under every interleaving: once a request's append has succeeded, each span it brought is
   * durable, or is a droppable copy of a call some durable span carries; and every key the
   * ledger remembers is on a durable span.
   */
  lemma NothingIsLost(steps: seq<Step>, capacity: nat, id: nat)
    ensures var w := Run(START, steps, capacity);
            && (id in w.requests && (w.requests[id].Appended? || w.requests[id].Answered?)
                ==> forall s :: s in w.requests[id].batch ==> Accounted(s, w.durable))
            && (forall key :: key in w.order ==> CarriedBy(key, w.durable))
  {
    RunKeepsInv(START, steps, capacity);
  }

  // ----- A refused request can be retried -----

  predicate NoRemember(steps: seq<Step>) {
    forall i :: 0 <= i < |steps| ==> !steps[i].Remember?
  }

  lemma {:induction false} OnlyRememberTeaches(w: World, steps: seq<Step>, capacity: nat)
    requires NoRemember(steps)
    ensures Run(w, steps, capacity).order == w.order
    decreases |steps|
  {
    if steps != [] {
      OnlyRememberTeaches(if Enabled(w, steps[0]) then Next(w, steps[0], capacity) else w, steps[1..], capacity);
    }
  }

  /**
   * A failed append teaches the ledger nothing: with no other request remembered from the first
   * filter to the second, the retry passes exactly the spans the first attempt passed.
   */
  lemma RetryPassesTheSameSpans(w: World, id: nat, between: seq<Step>, retry: nat, capacity: nat)
    requires Enabled(w, Filter(id)) && NoRemember(between)
    ensures var first := Next(w, Filter(id), capacity).requests[id];
            var later := Run(w, [Filter(id)] + between, capacity);
            Enabled(later, Filter(retry)) && later.requests[retry].batch == w.requests[id].batch
            ==> Next(later, Filter(retry), capacity).requests[retry] == first
  {
    assert ([Filter(id)] + between)[1..] == between;
    OnlyRememberTeaches(Next(w, Filter(id), capacity), between, capacity);
  }

  lemma RunFirst(w: World, step: Step, rest: seq<Step>, capacity: nat)
    requires Enabled(w, step)
    ensures Run(w, [step] + rest, capacity) == Run(Next(w, step, capacity), rest, capacity)
  {
    assert ([step] + rest)[1..] == rest;
  }

  lemma FilterAlone(s: Span)
    requires IsCopy(s)
    ensures FilterBatch([], [s]) == Filtered([s], [s.callKey.value], 0)
  {
    assert [s][0].IsClaudeCode();
    assert [s][..0] == [];
    LastFiltered(Elements([]), [s]);
  }

  /** Two copies in flight at once both pass: the ledger only knows what is already durable. */
  lemma CopiesInFlightBothPass(s: Span, capacity: nat)
    requires IsCopy(s)
    ensures exists steps :: Run(START, steps, capacity).durable == [s, s]
  {
    FilterAlone(s);
    var f := Filtered([s], [s.callKey.value], 0);
    var waiting := Waiting([s], f.kept, f.keys);
    var bothWait := World([], [], map[0 := waiting, 1 := waiting]);
    hide FilterBatch;
    var oneDone := Next(bothWait, AppendSucceeds(0), capacity);
    RunFirst(bothWait, AppendSucceeds(0), [AppendSucceeds(1)], capacity);
    RunFirst(oneDone, AppendSucceeds(1), [], capacity);
    assert [AppendSucceeds(1)] + [] == [AppendSucceeds(1)];
    var w1 := World([], [], map[0 := Arrived([s])]);
    var w2 := World([], [], map[0 := Arrived([s]), 1 := Arrived([s])]);
    var w3 := World([], [], map[0 := waiting, 1 := Arrived([s])]);
    assert Next(START, Arrive(0, [s]), capacity) == w1;
    assert Next(w1, Arrive(1, [s]), capacity) == w2;
    assert Next(w2, Filter(0), capacity) == w3;
    assert Next(w3, Filter(1), capacity) == bothWait;
    var end := [AppendSucceeds(0)] + [AppendSucceeds(1)];
    RunFirst(w3, Filter(1), end, capacity);
    RunFirst(w2, Filter(0), [Filter(1)] + end, capacity);
    RunFirst(w1, Arrive(1, [s]), [Filter(0)] + ([Filter(1)] + end), capacity);
    RunFirst(START, Arrive(0, [s]), [Arrive(1, [s])] + ([Filter(0)] + ([Filter(1)] + end)), capacity);
  }

  // ----- One request after another -----

  /** A stored span, with how many keys the ledger had ever taken in when its batch was filtered. */
  datatype Stored = Stored(span: Span, taken: nat)

  /** A node serving one request at a time; `taken` lists every key ever taken in, oldest first. */
  datatype Node = Node(order: seq<string>, taken: seq<string>, stored: seq<Stored>)

  const IDLE := Node([], [], [])

  function Stamp(spans: seq<Span>, taken: nat): (r: seq<Stored>)
    ensures |r| == |spans| && forall i :: 0 <= i < |r| ==> r[i] == Stored(spans[i], taken)
  {
    seq(|spans|, i requires 0 <= i < |spans| => Stored(spans[i], taken))
  }

  /** A whole request: filter, append, and remember when the append succeeded. */
  function Ingest(node: Node, batch: seq<Span>, appends: bool, capacity: nat): Node {
    var f := FilterBatch(node.order, batch);
    if !appends then node
    else
      var added := AddKeys(node.order, f.keys);
      Node(Newest(added, capacity),
           node.taken + NewKeys(node.order, f.keys),
           node.stored + Stamp(f.kept, |node.taken|))
  }

  /** The keys that adding appends to the queue. */
  function NewKeys(order: seq<string>, keys: seq<string>): seq<string> {
    var added := AddKeys(order, keys);
    if |order| <= |added| then added[|order|..] else []
  }

  function Serve(node: Node, requests: seq<(seq<Span>, bool)>, capacity: nat): Node
    decreases |requests|
  {
    if requests == [] then node
    else Serve(Ingest(node, requests[0].0, requests[0].1, capacity), requests[1..], capacity)
  }

  /** The queue is the newest `capacity` keys ever taken in. */
  ghost predicate QueueIsRecent(node: Node, capacity: nat) {
    node.order == Newest(node.taken, capacity)
  }

  /** Taking in the key of a stored copy came no earlier than its filter. */
  ghost predicate CopyTakenIn(e: Stored, taken: seq<string>) {
    IsCopy(e.span) ==>
      exists i :: e.taken <= i < |taken| && taken[i] == e.span.callKey.value
  }

  /** Copies of one call are more than `capacity` keys apart. */
  ghost predicate FarApart(first: Stored, second: Stored, capacity: nat) {
    IsCopy(first.span) && IsCopy(second.span) && first.span.callKey == second.span.callKey
    ==> first.taken + capacity < second.taken
  }

  ghost predicate NodeInv(node: Node, capacity: nat) {
    && Distinct(node.order)
    && QueueIsRecent(node, capacity)
    && (forall i :: 0 <= i < |node.stored| ==> CopyTakenIn(node.stored[i], node.taken))
    && (forall i, j :: 0 <= i < j < |node.stored| ==> FarApart(node.stored[i], node.stored[j], capacity))
  }

  lemma NewestOfMore(taken: seq<string>, more: seq<string>, capacity: nat)
    ensures Newest(Newest(taken, capacity) + more, capacity) == Newest(taken + more, capacity)
  {
  }

  lemma NewestDistinct(order: seq<string>, capacity: nat)
    requires Distinct(order)
    ensures Distinct(Newest(order, capacity))
  {
  }

  /** No two droppable spans carry the same key. */
  predicate CopiesDiffer(spans: seq<Span>) {
    forall i, j :: 0 <= i < j < |spans| && spans[i].Droppable() && spans[j].Droppable()
      ==> spans[i].callKey != spans[j].callKey
  }

  lemma {:induction false} KeptCopies(recent: set<string>, batch: seq<Span>, n: nat)
    requires n <= |batch|
    ensures forall s :: s in Kept(recent, batch, n) ==>
              s in batch[..n] && (s.Droppable() ==> s.callKey.value !in recent)
    ensures CopiesDiffer(Kept(recent, batch, n))
  {
    if n > 0 {
      KeptCopies(recent, batch, n - 1);
      var before, last := Kept(recent, batch, n - 1), batch[n - 1];
      assert batch[..n] == batch[..n - 1] + [last];
      if Keeps(recent, batch, n - 1) {
        forall s | s in before && s.Droppable() && last.Droppable()
          ensures s.callKey != last.callKey
        {
          var m :| 0 <= m < n - 1 && batch[..n - 1][m] == s;
          assert batch[m].Carries() == s.callKey;
        }
        assert CopiesDiffer(before + [last]);
      }
    }
  }

  predicate IsCopy(s: Span) { s.IsClaudeCode() && s.Droppable() }

  /** The copies let through are new calls, each once, all noted to be remembered. */
  ghost predicate LetsNewCopiesThrough(f: Filtered, order: seq<string>) {
    && (forall i :: 0 <= i < |f.kept| && IsCopy(f.kept[i])
          ==> f.kept[i].callKey.value !in order && f.kept[i].callKey.value in f.keys)
    && (forall i, j :: 0 <= i < j < |f.kept| && IsCopy(f.kept[i]) && IsCopy(f.kept[j])
          ==> f.kept[i].callKey != f.kept[j].callKey)
  }

  lemma CopiesLetThrough(order: seq<string>, batch: seq<Span>)
    ensures LetsNewCopiesThrough(FilterBatch(order, batch), order)
  {
    var f := FilterBatch(order, batch);
    if MayCarryKeys(batch) {
      FilterKeys(Elements(order), batch);
      FilterKeepsExactly(Elements(order), batch);
      KeptCopies(Elements(order), batch, |batch|);
      hide FilterAll, Kept;
      forall i | 0 <= i < |f.kept| && IsCopy(f.kept[i])
        ensures f.kept[i].callKey.value !in order && f.kept[i].callKey.value in f.keys
      {
        assert f.kept[i] in f.kept;
        assert CarriedBy(f.kept[i].callKey.value, f.kept);
      }
    }
  }

  lemma CopyStaysTakenIn(e: Stored, taken: seq<string>, more: seq<string>)
    requires CopyTakenIn(e, taken)
    ensures CopyTakenIn(e, taken + more)
  {
    if IsCopy(e.span) {
      var i :| e.taken <= i < |taken| && taken[i] == e.span.callKey.value;
      assert (taken + more)[i] == taken[i];
    }
  }

  lemma NewCopyTakenIn(node: Node, s: Span, keys: seq<string>)
    requires Distinct(node.order)
    requires IsCopy(s) ==> s.callKey.value !in node.order && s.callKey.value in keys
    ensures CopyTakenIn(Stored(s, |node.taken|), node.taken + NewKeys(node.order, keys))
  {
    if IsCopy(s) {
      var added, news := AddKeys(node.order, keys), NewKeys(node.order, keys);
      AddKeysAppends(node.order, keys);
      assert added == node.order + news;
      var i :| 0 <= i < |news| && news[i] == s.callKey.value;
      assert (node.taken + news)[|node.taken| + i] == s.callKey.value;
    }
  }

  /** A copy let through is `capacity` keys past any stored copy of its call. */
  lemma ForgottenIsFar(node: Node, e: Stored, s: Span, capacity: nat)
    requires QueueIsRecent(node, capacity) && CopyTakenIn(e, node.taken)
    requires IsCopy(s) ==> s.callKey.value !in node.order
    ensures FarApart(e, Stored(s, |node.taken|), capacity)
  {
    forall k | 0 <= k < |node.taken| && |node.taken| - capacity <= k
      ensures node.taken[k] in node.order
    {
      assert node.order[k - (|node.taken| - |node.order|)] == node.taken[k];
    }
  }

  lemma IngestKeepsInv(node: Node, batch: seq<Span>, appends: bool, capacity: nat)
    requires NodeInv(node, capacity)
    ensures NodeInv(Ingest(node, batch, appends, capacity), capacity)
  {
    if appends {
      var f, next := FilterBatch(node.order, batch), Ingest(node, batch, appends, capacity);
      var added, news := AddKeys(node.order, f.keys), NewKeys(node.order, f.keys);
      AddKeysAppends(node.order, f.keys);
      NewestDistinct(added, capacity);
      assert added == node.order + news;
      NewestOfMore(node.taken, news, capacity);
      CopiesLetThrough(node.order, batch);
      StoredKeepsInv(node, f, capacity);
    }
  }

  lemma StoredKeepsInv(node: Node, f: Filtered, capacity: nat)
    requires NodeInv(node, capacity)
    requires LetsNewCopiesThrough(f, node.order)
    ensures var stored, taken := node.stored + Stamp(f.kept, |node.taken|), node.taken + NewKeys(node.order, f.keys);
            && (forall i :: 0 <= i < |stored| ==> CopyTakenIn(stored[i], taken))
            && (forall i, j :: 0 <= i < j < |stored| ==> FarApart(stored[i], stored[j], capacity))
  {
    hide NewKeys, Distinct, QueueIsRecent;
    var n, news := |node.stored|, NewKeys(node.order, f.keys);
    var stored := node.stored + Stamp(f.kept, |node.taken|);
    forall i | 0 <= i < |stored|
      ensures CopyTakenIn(stored[i], node.taken + news)
    {
      if i < n {
        CopyStaysTakenIn(stored[i], node.taken, news);
      } else {
        NewCopyTakenIn(node, f.kept[i - n], f.keys);
      }
    }
    forall i, j | 0 <= i < j < |stored|
      ensures FarApart(stored[i], stored[j], capacity)
    {
      if i < n <= j {
        ForgottenIsFar(node, stored[i], f.kept[j - n], capacity);
      } else if n <= i {
        assert stored[i].span == f.kept[i - n] && stored[j].span == f.kept[j - n];
      }
    }
  }

  lemma {:induction false} ServeKeepsInv(node: Node, requests: seq<(seq<Span>, bool)>, capacity: nat)
    requires NodeInv(node, capacity)
    ensures NodeInv(Serve(node, requests, capacity), capacity)
    decreases |requests|
  {
    if requests != [] {
      IngestKeepsInv(node, requests[0].0, requests[0].1, capacity);
      ServeKeepsInv(Ingest(node, requests[0].0, requests[0].1, capacity), requests[1..], capacity);
    }
  }

  /**
   * One request after another, whatever appends fail: two stored droppable copies of one call
   * are more than `capacity` keys apart.
   */
  lemma StoredOncePerWindow(requests: seq<(seq<Span>, bool)>, capacity: nat, i: nat, j: nat)
    requires i < j < |Serve(IDLE, requests, capacity).stored|
    ensures var stored := Serve(IDLE, requests, capacity).stored;
            IsCopy(stored[i].span) && IsCopy(stored[j].span) && stored[i].span.callKey == stored[j].span.callKey
            ==> stored[i].taken + capacity < stored[j].taken
  {
    ServeKeepsInv(IDLE, requests, capacity);
  }

  /** Anchors, and spans without a call, are stored whatever the ledger remembers. */
  lemma AnchorsAreNeverDropped(node: Node, batch: seq<Span>, capacity: nat, s: Span)
    requires s in batch && !s.Droppable()
    ensures exists i :: |node.stored| <= i < |Ingest(node, batch, true, capacity).stored| &&
              Ingest(node, batch, true, capacity).stored[i].span == s
  {
    var f := FilterBatch(node.order, batch);
    var k :| 0 <= k < |batch| && batch[k] == s;
    if MayCarryKeys(batch) {
      FilterKeepsExactly(Elements(node.order), batch);
      KeptContains(Elements(node.order), batch, |batch|, k);
    }
    var i :| 0 <= i < |f.kept| && f.kept[i] == s;
    assert Ingest(node, batch, true, capacity).stored[|node.stored| + i].span == s;
  }
}
