/** What a run stored is what is read back by its id (src/eval.rs), and when that fails. */
module EvalReadBack {
  import opened Wrappers
  import opened Numerals
  import opened Scores
  import opened Dataset
  import opened EvalRun

  datatype AggEntry = AggEntry(mean: real, stats: Option<AggStats>)

  /** An aggregate of a run, as reading back recognises one. */
  predicate IsAggOf(s: Score, runId: string) {
    s.target == Run(runId) && AggId(runId, "") <= s.id && s.value.Some?
  }

  function EntryFrom(s: Score): AggEntry
    requires s.value.Some?
  {
    AggEntry(s.value.value, s.stats)
  }

  /** The names of a run's aggregates, each with the mean and statistics of one of its name. */
  ghost predicate ReadsBack(scores: Table, runId: string, out: map<string, AggEntry>) {
    && (forall id :: id in scores && IsAggOf(scores[id], runId) ==> scores[id].name in out)
    && (forall name :: name in out ==>
          exists id :: id in scores && IsAggOf(scores[id], runId) && scores[id].name == name && out[name] == EntryFrom(scores[id]))
  }

  /** Aggregates by evaluator name. */
  method RunAggregates(store: ScoreStore, runId: string) returns (out: map<string, AggEntry>)
    requires store.Valid()
    ensures ReadsBack(store.scores, runId, out)
  {
    var prefix := AggId(runId, "");
    var scores := store.ForTarget(Run(runId));
    out := map[];
    for i := 0 to |scores|
      invariant forall j :: 0 <= j < i && IsAggOf(scores[j], runId) ==> scores[j].name in out
      invariant forall name :: name in out ==>
                  exists j :: 0 <= j < i && IsAggOf(scores[j], runId) && scores[j].name == name && out[name] == EntryFrom(scores[j])
    {
      var s := scores[i];
      assert s in scores;
      if !(prefix <= s.id) || s.value == None {
        continue;
      }
      out := out[s.name := AggEntry(s.value.value, s.stats)];
    }
    forall id | id in store.scores && IsAggOf(store.scores[id], runId)
      ensures store.scores[id].name in out
    {
      assert store.scores[id] in scores;
    }
    forall name | name in out
      ensures exists id :: && id in store.scores && IsAggOf(store.scores[id], runId) && store.scores[id].name == name
                           && out[name] == EntryFrom(store.scores[id])
    {
      var j :| 0 <= j < |scores| && IsAggOf(scores[j], runId) && scores[j].name == name && out[name] == EntryFrom(scores[j]);
      assert scores[j] in scores;
      assert store.scores[scores[j].id] == scores[j];
    }
  }

  // ----- Ids that meet -----

  /** The score of item `k` under one name has the id of the aggregate of another. */
  predicate IdsMeet(name: string, k: nat, other: string) {
    name + ":" + Decimal(k) == "agg:" + other
  }

  lemma IdsMeetIff(runId: string, name: string, k: nat, other: string)
    ensures ItemId(runId, name, k) == AggId(runId, other) <==> IdsMeet(name, k, other)
  {
    hide Decimal;
    var a, b := name + ":" + Decimal(k), "agg:" + other;
    var head := runId + ":";
    assert ItemId(runId, name, k) == head + a;
    assert AggId(runId, other) == head + b;
    assert (head + a)[|head|..] == a && (head + b)[|head|..] == b;
  }

  lemma ColonsAlign(tag: string, name: string, digits: string, other: string)
    requires name + [':'] + digits == tag + [':'] + other && ':' !in digits
    ensures name == tag || tag + [':'] <= name
  {
    var s := name + [':'] + digits;
    assert s[|tag|] == ':';
    assert forall i :: |name| < i < |s| ==> s[i] == digits[i - |name| - 1];
    assert |tag| <= |name|;
    if |tag| == |name| {
      assert s[..|tag|] == tag && s[..|name|] == name;
    } else {
      assert s[..|tag| + 1] == tag + [':'] && s[..|name|] == name;
      assert name[..|tag| + 1] == s[..|tag| + 1];
    }
  }

  /** Only an evaluator called `agg`, or `agg:` and something, can take the id of an aggregate. */
  lemma OnlyAggMeets(name: string, k: nat, other: string)
    requires IdsMeet(name, k, other)
    ensures name == "agg" || "agg:" <= name
  {
    hide Decimal;
    DecimalReads(k);
    assert "agg:" == "agg" + [':'] && "agg:" + other == "agg" + [':'] + other;
    ColonsAlign("agg", name, Decimal(k), other);
  }

  lemma AggIdsDiffer(runId: string, a: string, b: string)
    requires AggId(runId, a) == AggId(runId, b)
    ensures a == b
  {
    var head := runId + ":agg:";
    assert (head + a)[|head|..] == a && (head + b)[|head|..] == b;
  }

  /** A later evaluator among the first `n` scores an item under the id of aggregate `i`. */
  ghost predicate Shadowed(entries: seq<Entry>, items: seq<DatasetItem>, i: nat, n: nat)
    requires i < n <= |entries| && Aligned(entries, items)
  {
    exists j, k :: i < j < n && Takes(entries[j], items, k, entries[i].name)
  }

  predicate Takes(e: Entry, items: seq<DatasetItem>, k: int, name: string)
    requires |e.outcomes| == |items|
  {
    0 <= k < |items| && e.outcomes[k].Some? && items[k].HasSpanOrTrace() && IdsMeet(e.name, k, name)
  }

  // ----- Storing one evaluator's scores -----

  lemma {:induction false} UpsertedTwice(table: Table, a: seq<Score>, b: seq<Score>)
    ensures Upserted(table, a + b) == Upserted(Upserted(table, a), b)
    decreases |b|
  {
    if b == [] {
      assert a + b == a;
    } else {
      UpsertedTwice(table, a, b[..|b| - 1]);
      assert (a + b)[..|a + b| - 1] == a + b[..|b| - 1];
    }
  }

  lemma {:induction false} ItemScoresAre(run: RunInfo, name: string, items: seq<DatasetItem>, outcomes: Outcomes, n: nat, s: Score)
    requires n <= |items| == |outcomes|
    ensures s in ItemScores(run, name, items, outcomes, n) <==>
              exists k :: 0 <= k < n && outcomes[k].Some? && items[k].HasSpanOrTrace()
                          && s == ScoreOf(run, name, items[k], k, outcomes[k].value)
  {
    hide ScoreOf;
    if n > 0 {
      ItemScoresAre(run, name, items, outcomes, n - 1, s);
    }
  }

  lemma BatchDecides(table: Table, batch: seq<Score>, id: string)
    ensures (exists i :: 0 <= i < |batch| && batch[i].id == id) ==>
              id in Upserted(table, batch) && Upserted(table, batch)[id] in batch && Upserted(table, batch)[id].id == id
    ensures (forall i :: 0 <= i < |batch| ==> batch[i].id != id) ==>
              (id in Upserted(table, batch) <==> id in table) && (id in table ==> Upserted(table, batch)[id] == table[id])
  {
    FromBatchOrBefore(table, batch, id);
    if i :| 0 <= i < |batch| && batch[i].id == id {
      IdStays(table, batch, i);
    }
  }

  lemma {:induction false} IdStays(table: Table, batch: seq<Score>, i: nat)
    requires i < |batch|
    ensures batch[i].id in Upserted(table, batch)
    decreases |batch|
  {
    if i < |batch| - 1 {
      IdStays(table, batch[..|batch| - 1], i);
    }
  }

  // ----- The table, evaluator by evaluator -----

  /** The table once the first `n` evaluators are stored. */
  function TableAfter(run: RunInfo, table: Table, entries: seq<Entry>, items: seq<DatasetItem>, n: nat): Table
    requires n <= |entries| && Aligned(entries, items)
  {
    Upserted(table, AllScores(run, entries, items, n))
  }

  function ItemScoresOf(run: RunInfo, e: Entry, items: seq<DatasetItem>): seq<Score>
    requires |e.outcomes| == |items|
  {
    ItemScores(run, e.name, items, e.outcomes, |items|)
  }

  lemma TableStep(run: RunInfo, table: Table, entries: seq<Entry>, items: seq<DatasetItem>, n: nat)
    requires n < |entries| && Aligned(entries, items)
    ensures TableAfter(run, table, entries, items, n + 1)
         == Upserted(TableAfter(run, table, entries, items, n), ItemScoresOf(run, entries[n], items))
              [AggId(run.id, entries[n].name) := AggScore(run, entries[n].name, entries[n].outcomes)]
  {
    hide AggScore, ItemScores;
    var e := entries[n];
    var agg := AggScore(run, e.name, e.outcomes);
    var front := AllScores(run, entries, items, n) + ItemScoresOf(run, e, items);
    assert AllScores(run, entries, items, n + 1) == front + [agg];
    assert (front + [agg])[..|front|] == front;
    AggIdIs(run, e.name, e.outcomes);
    UpsertedTwice(table, AllScores(run, entries, items, n), ItemScoresOf(run, e, items));
  }

  lemma AggIdIs(run: RunInfo, name: string, outcomes: Outcomes)
    ensures var s := AggScore(run, name, outcomes);
            s.id == AggId(run.id, name) && s.name == name && s.target == Run(run.id) && IsAggOf(s, run.id)
            && EntryFrom(s) == AggEntry(Mean(Values(outcomes)), Some(StatsOf(outcomes)))
  {
    hide Values, Mean, StatsOf, PassRate;
    var head := run.id + ":agg:";
    assert AggId(run.id, name)[..|head|] == head && AggId(run.id, "") == head;
  }

  /** What storing one evaluator's item scores does to an id. */
  lemma ItemScoresTake(run: RunInfo, table: Table, e: Entry, items: seq<DatasetItem>, other: string)
    requires |e.outcomes| == |items|
    ensures var after, id := Upserted(table, ItemScoresOf(run, e, items)), AggId(run.id, other);
            if exists k :: Takes(e, items, k, other)
            then id in after && !after[id].target.Run?
            else (id in after <==> id in table) && (id in table ==> after[id] == table[id])
  {
    hide IdsMeet, Decimal;
    var batch, id := ItemScoresOf(run, e, items), AggId(run.id, other);
    BatchDecides(table, batch, id);
    if k :| Takes(e, items, k, other) {
      var s := ScoreOf(run, e.name, items[k], k, e.outcomes[k].value);
      IdsMeetIff(run.id, e.name, k, other);
      ItemScoresAre(run, e.name, items, e.outcomes, |items|, s);
      assert s in batch && s.id == id;
      TargetsOfItems(run, e, items, Upserted(table, batch)[id]);
    } else {
      forall i | 0 <= i < |batch|
        ensures batch[i].id != id
      {
        assert batch[i] in batch;
        ItemScoresAre(run, e.name, items, e.outcomes, |items|, batch[i]);
        var k :| 0 <= k < |items| && e.outcomes[k].Some? && items[k].HasSpanOrTrace()
                 && batch[i] == ScoreOf(run, e.name, items[k], k, e.outcomes[k].value);
        IdsMeetIff(run.id, e.name, k, other);
        assert !Takes(e, items, k, other);
      }
    }
  }

  lemma TargetsOfItems(run: RunInfo, e: Entry, items: seq<DatasetItem>, s: Score)
    requires |e.outcomes| == |items| && s in ItemScoresOf(run, e, items)
    ensures !s.target.Run?
  {
    ItemScoresAre(run, e.name, items, e.outcomes, |items|, s);
  }

  // ----- Reading back -----

  /** No stored score targets this run yet. */
  predicate FreshRun(table: Table, runId: string) {
    forall id :: id in table ==> table[id].target != Run(runId)
  }

  /** Aggregate `i` stands under its id, or an item score of a later evaluator does. */
  ghost predicate AggregateStands(run: RunInfo, table: Table, entries: seq<Entry>, items: seq<DatasetItem>, i: nat, n: nat)
    requires i < n <= |entries| && Aligned(entries, items)
  {
    var id := AggId(run.id, entries[i].name);
    && id in table
    && if Shadowed(entries, items, i, n) then !table[id].target.Run?
       else table[id] == AggScore(run, entries[i].name, entries[i].outcomes)
  }

  ghost predicate RunIdsAreAggregates(run: RunInfo, table: Table, entries: seq<Entry>, n: nat)
    requires n <= |entries|
  {
    forall id :: id in table && table[id].target == Run(run.id) ==>
      exists i :: 0 <= i < n && id == AggId(run.id, entries[i].name)
  }

  lemma AggregateStep(run: RunInfo, table: Table, entries: seq<Entry>, items: seq<DatasetItem>, i: nat, n: nat)
    requires i < n < |entries| && Aligned(entries, items) && DistinctNames(entries)
    requires AggregateStands(run, TableAfter(run, table, entries, items, n), entries, items, i, n)
    ensures AggregateStands(run, TableAfter(run, table, entries, items, n + 1), entries, items, i, n + 1)
  {
    hide TableAfter, AggId, AggScore, ItemScoresOf, Takes, Upserted;
    var before, e, name := TableAfter(run, table, entries, items, n), entries[n], entries[i].name;
    TableStep(run, table, entries, items, n);
    ItemScoresTake(run, before, e, items, name);
    if AggId(run.id, e.name) == AggId(run.id, name) {
      AggIdsDiffer(run.id, e.name, name);
    }
    if k :| Takes(e, items, k, name) {
      assert Shadowed(entries, items, i, n + 1);
    } else {
      assert Shadowed(entries, items, i, n + 1) <==> Shadowed(entries, items, i, n);
    }
  }

  lemma NewAggregateStands(run: RunInfo, table: Table, entries: seq<Entry>, items: seq<DatasetItem>, n: nat)
    requires n < |entries| && Aligned(entries, items)
    ensures AggregateStands(run, TableAfter(run, table, entries, items, n + 1), entries, items, n, n + 1)
  {
    hide TableAfter, AggScore, ItemScoresOf, Takes, Upserted;
    TableStep(run, table, entries, items, n);
  }

  lemma RunIdsStep(run: RunInfo, table: Table, entries: seq<Entry>, items: seq<DatasetItem>, n: nat)
    requires n < |entries| && Aligned(entries, items)
    requires RunIdsAreAggregates(run, TableAfter(run, table, entries, items, n), entries, n)
    ensures RunIdsAreAggregates(run, TableAfter(run, table, entries, items, n + 1), entries, n + 1)
  {
    hide TableAfter, AggId, AggScore, ItemScoresOf, Upserted;
    var before, after := TableAfter(run, table, entries, items, n), TableAfter(run, table, entries, items, n + 1);
    var e := entries[n];
    TableStep(run, table, entries, items, n);
    forall id | id in after && after[id].target == Run(run.id)
      ensures exists i :: 0 <= i < n + 1 && id == AggId(run.id, entries[i].name)
    {
      if id != AggId(run.id, e.name) {
        BatchDecides(before, ItemScoresOf(run, e, items), id);
        if after[id] in ItemScoresOf(run, e, items) {
          TargetsOfItems(run, e, items, after[id]);
        }
      }
    }
  }

  lemma {:induction false} TableHolds(run: RunInfo, table: Table, entries: seq<Entry>, items: seq<DatasetItem>, n: nat)
    requires n <= |entries| && Aligned(entries, items) && DistinctNames(entries) && FreshRun(table, run.id)
    ensures forall i :: 0 <= i < n ==> AggregateStands(run, TableAfter(run, table, entries, items, n), entries, items, i, n)
    ensures RunIdsAreAggregates(run, TableAfter(run, table, entries, items, n), entries, n)
    decreases n
  {
    hide AggregateStands, RunIdsAreAggregates, TableAfter, DistinctNames, FreshRun;
    if n == 0 {
      NothingStored(run, table, entries, items);
    } else {
      TableHolds(run, table, entries, items, n - 1);
      RunIdsStep(run, table, entries, items, n - 1);
      NewAggregateStands(run, table, entries, items, n - 1);
      forall i | 0 <= i < n
        ensures AggregateStands(run, TableAfter(run, table, entries, items, n), entries, items, i, n)
      {
        if i < n - 1 {
          AggregateStep(run, table, entries, items, i, n - 1);
        }
      }
    }
  }

  lemma NothingStored(run: RunInfo, table: Table, entries: seq<Entry>, items: seq<DatasetItem>)
    requires Aligned(entries, items) && FreshRun(table, run.id)
    ensures RunIdsAreAggregates(run, TableAfter(run, table, entries, items, 0), entries, 0)
  {
    assert TableAfter(run, table, entries, items, 0) == table;
  }

  function ReadEntry(e: Entry): AggEntry { AggEntry(Mean(Values(e.outcomes)), Some(StatsOf(e.outcomes))) }

  /**
   * What a run stored is read back under its id, the mean and statistics of each evaluator by its
   * name and nothing else, exactly for the evaluators whose aggregate no later item score shadows.
   */
  lemma ReadBackIff(run: RunInfo, table: Table, entries: seq<Entry>, items: seq<DatasetItem>, out: map<string, AggEntry>)
    requires Aligned(entries, items) && DistinctNames(entries) && FreshRun(table, run.id)
    requires ReadsBack(Upserted(table, AllScores(run, entries, items, |entries|)), run.id, out)
    ensures forall i :: 0 <= i < |entries| ==>
              && (entries[i].name in out <==> !Shadowed(entries, items, i, |entries|))
              && (entries[i].name in out ==> out[entries[i].name] == ReadEntry(entries[i]))
    ensures forall name :: name in out ==> exists i :: 0 <= i < |entries| && entries[i].name == name
  {
    hide AllScores, Upserted, AggId, AggScore, IsAggOf, EntryFrom, Shadowed, ReadEntry;
    var n := |entries|;
    var after := TableAfter(run, table, entries, items, n);
    TableHolds(run, table, entries, items, n);
    forall id | id in after && IsAggOf(after[id], run.id)
      ensures exists i :: 0 <= i < n && !Shadowed(entries, items, i, n)
                          && after[id] == AggScore(run, entries[i].name, entries[i].outcomes)
    {
      TargetOfAgg(after[id], run.id);
      var i :| 0 <= i < n && id == AggId(run.id, entries[i].name);
      assert AggregateStands(run, after, entries, items, i, n);
    }
    forall i | 0 <= i < n
      ensures AggregateStands(run, after, entries, items, i, n)
      ensures AggScore(run, entries[i].name, entries[i].outcomes).name == entries[i].name
      ensures AggScore(run, entries[i].name, entries[i].outcomes).value.Some?
      ensures IsAggOf(AggScore(run, entries[i].name, entries[i].outcomes), run.id)
      ensures EntryFrom(AggScore(run, entries[i].name, entries[i].outcomes)) == ReadEntry(entries[i])
    {
      AggReads(run, entries[i]);
    }
  }

  lemma TargetOfAgg(s: Score, runId: string)
    requires IsAggOf(s, runId)
    ensures s.target == Run(runId)
  {
  }

  lemma AggReads(run: RunInfo, e: Entry)
    ensures var s := AggScore(run, e.name, e.outcomes); s.name == e.name && s.value.Some? && IsAggOf(s, run.id) && EntryFrom(s) == ReadEntry(e)
  {
    hide Values, Mean, StatsOf;
    AggIdIs(run, e.name, e.outcomes);
  }

  /** Without an evaluator called `agg`, or `agg:` and something, no aggregate is shadowed. */
  lemma PlainNamesAreReadBack(entries: seq<Entry>, items: seq<DatasetItem>)
    requires Aligned(entries, items)
    requires forall i :: 0 <= i < |entries| ==> entries[i].name != "agg" && !("agg:" <= entries[i].name)
    ensures forall i :: 0 <= i < |entries| ==> !Shadowed(entries, items, i, |entries|)
  {
    hide IdsMeet;
    forall i | 0 <= i < |entries|
      ensures !Shadowed(entries, items, i, |entries|)
    {
      forall j, k | i < j < |entries| && 0 <= k < |items|
        ensures !IdsMeet(entries[j].name, k, entries[i].name)
      {
        if IdsMeet(entries[j].name, k, entries[i].name) {
          OnlyAggMeets(entries[j].name, k, entries[i].name);
        }
      }
    }
  }

  /** A judge called `agg` behind one called `0` takes the aggregate of the latter away. */
  lemma AggJudgeShadows()
    ensures var score := Some(ItemScore(1.0, true, None));
            var items := [DatasetItem(None, "", None, Some("a1"), None, None)];
            Shadowed([Entry("0", [score]), Entry("agg", [score])], items, 0, 2)
  {
    var score := Some(ItemScore(1.0, true, None));
    var items := [DatasetItem(None, "", None, Some("a1"), None, None)];
    var entries := [Entry("0", [score]), Entry("agg", [score])];
    assert "agg" + ":" + Decimal(0) == "agg:" + "0";
    assert Takes(entries[1], items, 0, entries[0].name);
  }
}
