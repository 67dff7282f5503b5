/** Runs of the engine whose merges follow a plan (src/store/merge.rs): exactly when one is given a used name. */
module MergeRuns {
  import opened Durability
  import opened DurabilityProof
  import P = MergePlan

  // ----- The merges of a run -----

  /** The merges that are begun, in order. */
  function MergesOf(steps: seq<Step>): seq<Step> {
    if steps == [] then []
    else MergesOf(steps[..|steps| - 1]) + if steps[|steps| - 1].StartMerge? then [steps[|steps| - 1]] else []
  }

  predicate IsMerge(step: Step) { step.StartMerge? && step.chunk != [] }

  function NameOf(step: Step): Name
    requires IsMerge(step)
  {
    Merged(step.dir, step.prefix, Smallest(step.chunk), Largest(step.chunk))
  }

  /** No two of them get one name. */
  predicate NamesDiffer(merges: seq<Step>) {
    forall i, j :: 0 <= i < j < |merges| && IsMerge(merges[i]) && IsMerge(merges[j]) ==> NameOf(merges[i]) != NameOf(merges[j])
  }

  predicate NothingTorn(steps: seq<Step>) {
    forall i :: 0 <= i < |steps| && steps[i].WriteFails? ==> !steps[i].torn
  }

  predicate NamedBy(merges: seq<Step>, n: Name) {
    exists i :: 0 <= i < |merges| && IsMerge(merges[i]) && NameOf(merges[i]) == n
  }

  /** Every merged name the index has held, or is about to, is that of a merge of the run. */
  ghost predicate FromMerges(w: World, merges: seq<Step>) {
    && (forall n :: n in w.ever && n.Merged? ==> NamedBy(merges, n))
    && (w.node.Some? && (w.node.value.compactor.Merging? || w.node.value.compactor.MergeWritten?) ==>
          NamedBy(merges, w.node.value.compactor.out))
  }

  lemma NamedByMore(merges: seq<Step>, more: seq<Step>, n: Name)
    requires NamedBy(merges, n)
    ensures NamedBy(merges + more, n)
  {
    var i :| 0 <= i < |merges| && IsMerge(merges[i]) && NameOf(merges[i]) == n;
    assert (merges + more)[i] == merges[i];
  }

  /** Only the start of a merge brings a new name. */
  lemma StepBringsNoName(env: Env, w: World, merges: seq<Step>, step: Step)
    requires FromMerges(w, merges) && Enabled(env, w, step) && !step.StartMerge?
    ensures FromMerges(Next(env, w, step), merges)
  {
    hide NamedBy, Group, FirstCopies, Concat, Intact, Partitions, Keys, SpansOf, Loaded, Survivor, Wholes, Smallest, Largest;
  }

  lemma MergeBringsItsName(env: Env, w: World, merges: seq<Step>, step: Step)
    requires FromMerges(w, merges) && Enabled(env, w, step) && step.StartMerge?
    ensures FromMerges(Next(env, w, step), merges + [step])
  {
    hide Smallest, Largest, NamedBy;
    forall n | NamedBy(merges, n)
      ensures NamedBy(merges + [step], n)
    {
      NamedByMore(merges, [step], n);
    }
    LastNames(merges, step);
  }

  lemma LastNames(merges: seq<Step>, step: Step)
    requires IsMerge(step)
    ensures NamedBy(merges + [step], NameOf(step))
  {
    assert (merges + [step])[|merges|] == step;
  }

  lemma {:induction false} RunFromMerges(env: Env, steps: seq<Step>)
    ensures FromMerges(Run(env, START, steps), MergesOf(steps))
    decreases |steps|
  {
    hide Enabled, Next, NamedBy;
    if steps != [] {
      var front, step := steps[..|steps| - 1], steps[|steps| - 1];
      RunFromMerges(env, front);
      var before := Run(env, START, front);
      if Enabled(env, before, step) {
        if step.StartMerge? {
          MergeBringsItsName(env, before, MergesOf(front), step);
        } else {
          StepBringsNoName(env, before, MergesOf(front), step);
          assert MergesOf(front) + [] == MergesOf(front);
        }
      } else {
        StillFromMerges(before, MergesOf(front), if step.StartMerge? then [step] else []);
      }
    }
  }

  lemma StillFromMerges(w: World, merges: seq<Step>, more: seq<Step>)
    requires FromMerges(w, merges)
    ensures FromMerges(w, merges + more)
  {
    hide NamedBy;
    forall n | NamedBy(merges, n)
      ensures NamedBy(merges + more, n)
    {
      NamedByMore(merges, more, n);
    }
  }

  lemma FrontDiffers(merges: seq<Step>, more: seq<Step>)
    requires NamesDiffer(merges + more)
    ensures NamesDiffer(merges)
  {
    hide IsMerge, NameOf;
    assert forall i :: 0 <= i < |merges| ==> (merges + more)[i] == merges[i];
  }

  /** A run whose merges all have names of their own, and in which no write tears, is careful whatever happens between. */
  lemma {:induction false} DifferentNamesAreCareful(env: Env, steps: seq<Step>)
    requires NothingTorn(steps) && NamesDiffer(MergesOf(steps))
    ensures CarefulRun(env, steps)
    decreases |steps|
  {
    hide Enabled, Next, Run, NamesDiffer, FromMerges;
    if steps != [] {
      var front, step := steps[..|steps| - 1], steps[|steps| - 1];
      FrontDiffers(MergesOf(front), if step.StartMerge? then [step] else []);
      assert NothingTorn(front) by {
        assert forall i :: 0 <= i < |front| ==> front[i] == steps[i];
      }
      DifferentNamesAreCareful(env, front);
      RunFromMerges(env, front);
      if step.StartMerge? {
        NewNameIsUnused(Run(env, START, front), MergesOf(front), step);
      }
    }
  }

  lemma NewNameIsUnused(w: World, merges: seq<Step>, step: Step)
    requires FromMerges(w, merges) && step.StartMerge? && NamesDiffer(merges + [step])
    ensures Careful(w, step)
  {
    hide Smallest, Largest, NamesDiffer, NamedBy;
    if step.chunk != [] {
      NotNamedBefore(merges, step);
    }
  }

  lemma NotNamedBefore(merges: seq<Step>, step: Step)
    requires IsMerge(step) && NamesDiffer(merges + [step])
    ensures !NamedBy(merges, NameOf(step))
  {
    hide NameOf, IsMerge;
    var all := merges + [step];
    forall i | 0 <= i < |merges| && IsMerge(merges[i])
      ensures NameOf(merges[i]) != NameOf(step)
    {
      assert all[i] == merges[i] && all[|merges|] == step;
    }
  }

  // ----- Merges of a plan -----

  /** A block as the planner sees it. */
  function Seen(rows: Name -> nat, n: Name): P.Candidate { P.Candidate("", rows(n), n.Lo(), n.Hi()) }

  function SeenAll(rows: Name -> nat, chunk: seq<Name>): P.Chunk {
    seq(|chunk|, i requires 0 <= i < |chunk| => Seen(rows, chunk[i]))
  }

  function SeenChunks(rows: Name -> nat, plan: seq<seq<Name>>): seq<P.Chunk> {
    seq(|plan|, k requires 0 <= k < |plan| => SeenAll(rows, plan[k]))
  }

  lemma {:induction false} SmallestIsLeast(chunk: seq<Name>)
    requires chunk != []
    ensures forall i :: 0 <= i < |chunk| ==> Smallest(chunk) <= chunk[i].Lo()
    ensures exists i :: 0 <= i < |chunk| && chunk[i].Lo() == Smallest(chunk)
  {
    assert |chunk| == 1 ==> chunk[0].Lo() == Smallest(chunk);
    if |chunk| > 1 {
      SmallestIsLeast(chunk[1..]);
      var i :| 0 <= i < |chunk[1..]| && chunk[1..][i].Lo() == Smallest(chunk[1..]);
      assert chunk[i + 1] == chunk[1..][i];
      assert forall j :: 0 < j < |chunk| ==> chunk[j] == chunk[1..][j - 1];
      assert Smallest(chunk) == chunk[0].Lo() || Smallest(chunk) == chunk[i + 1].Lo();
    }
  }

  lemma {:induction false} LargestIsMost(chunk: seq<Name>)
    requires chunk != []
    ensures forall i :: 0 <= i < |chunk| ==> chunk[i].Hi() <= Largest(chunk)
    ensures exists i :: 0 <= i < |chunk| && chunk[i].Hi() == Largest(chunk)
  {
    assert |chunk| == 1 ==> chunk[0].Hi() == Largest(chunk);
    if |chunk| > 1 {
      LargestIsMost(chunk[1..]);
      var i :| 0 <= i < |chunk[1..]| && chunk[1..][i].Hi() == Largest(chunk[1..]);
      assert chunk[i + 1] == chunk[1..][i];
      assert forall j :: 0 < j < |chunk| ==> chunk[j] == chunk[1..][j - 1];
      assert Largest(chunk) == chunk[0].Hi() || Largest(chunk) == chunk[i + 1].Hi();
    }
  }

  lemma {:induction false} LowestIsLeast(chunk: P.Chunk)
    requires chunk != []
    ensures forall i :: 0 <= i < |chunk| ==> P.Lowest(chunk) <= chunk[i].lo
    ensures exists i :: 0 <= i < |chunk| && chunk[i].lo == P.Lowest(chunk)
  {
    assert |chunk| == 1 ==> chunk[0].lo == P.Lowest(chunk);
    if |chunk| > 1 {
      var front := chunk[..|chunk| - 1];
      LowestIsLeast(front);
      var i :| 0 <= i < |front| && front[i].lo == P.Lowest(front);
      assert chunk[i] == front[i];
      assert forall j :: 0 <= j < |front| ==> front[j] == chunk[j];
      assert P.Lowest(chunk) == chunk[i].lo || P.Lowest(chunk) == chunk[|chunk| - 1].lo;
    }
  }

  /** The planner and the engine read the same name off a chunk. */
  lemma SameEnds(rows: Name -> nat, chunk: seq<Name>)
    requires chunk != []
    ensures P.Lowest(SeenAll(rows, chunk)) == Smallest(chunk) && P.Highest(SeenAll(rows, chunk)) == Largest(chunk)
  {
    hide Smallest, Largest, P.Lowest, P.Highest;
    var seen := SeenAll(rows, chunk);
    SmallestIsLeast(chunk);
    LargestIsMost(chunk);
    LowestIsLeast(seen);
    P.HighestIsMax(seen);
    assert forall i :: 0 <= i < |chunk| ==> seen[i].lo == chunk[i].Lo() && seen[i].hi == chunk[i].Hi();
  }

  /** The merges of the run are chunks of the plan, each at most once, in its order; those left out hold one block, or failed. */
  predicate Follows(merges: seq<Step>, dir: string, prefix: string, plan: seq<seq<Name>>, which: seq<nat>) {
    && |which| == |merges| && (forall i, j :: 0 <= i < j < |which| ==> which[i] < which[j])
    && forall i :: 0 <= i < |merges| ==> which[i] < |plan| && plan[which[i]] != [] && merges[i] == StartMerge(dir, prefix, plan[which[i]])
  }

  /** Some two merges of the plan, and what lies between, are blocks of one log segment. */
  ghost predicate SegmentSpills(rows: Name -> nat, plan: seq<seq<Name>>, which: seq<nat>)
    requires forall i :: 0 <= i < |which| ==> which[i] < |plan|
  {
    var chunks := SeenChunks(rows, plan);
    exists i, j :: 0 <= i < j < |which| && SpillsOver(chunks, which[i], which[j])
  }

  ghost predicate SpillsOver(chunks: seq<P.Chunk>, k: nat, l: nat)
    requires k < |chunks| && l < |chunks|
  {
    && P.Start(chunks, k) < P.Start(chunks, l + 1) <= |P.Flat(chunks)|
    && P.OneSegment(P.Flat(chunks), P.Start(chunks, k), P.Start(chunks, l + 1))
  }

  lemma TwoMergesOfPlan(rows: Name -> nat, cap: nat, plan: seq<seq<Name>>, dir: string, prefix: string, k: nat, l: nat)
    requires var chunks := SeenChunks(rows, plan);
             && P.Sorted(P.Flat(chunks)) && P.Flushes(P.Flat(chunks)) && P.IsPlan(P.Flat(chunks), cap, chunks)
    requires k < l < |plan| && plan[k] != [] && plan[l] != []
    ensures NameOf(StartMerge(dir, prefix, plan[k])) == NameOf(StartMerge(dir, prefix, plan[l])) <==>
              SpillsOver(SeenChunks(rows, plan), k, l)
  {
    hide Smallest, Largest, P.Lowest, P.Highest, P.Flat, P.OneSegment, P.IsPlan, P.Sorted, P.Flushes, SeenAll;
    var chunks := SeenChunks(rows, plan);
    SameEnds(rows, plan[k]);
    SameEnds(rows, plan[l]);
    P.SameNameIff(P.Flat(chunks), cap, chunks, k, l);
  }

  /**
   * Of a run whose merges are those of a plan over one directory's flushed blocks, two get one name exactly
   * when the blocks one log segment left there spill over from one merge into another.
   */
  lemma PlannedNamesDifferIff(rows: Name -> nat, cap: nat, plan: seq<seq<Name>>, dir: string, prefix: string,
                              merges: seq<Step>, which: seq<nat>)
    requires var chunks := SeenChunks(rows, plan);
             && P.Sorted(P.Flat(chunks)) && P.Flushes(P.Flat(chunks)) && P.IsPlan(P.Flat(chunks), cap, chunks)
    requires Follows(merges, dir, prefix, plan, which)
    ensures NamesDiffer(merges) <==> !SegmentSpills(rows, plan, which)
  {
    hide NameOf, SpillsOver, P.Sorted, P.Flushes, P.IsPlan, P.Flat, SeenAll;
    forall i, j | 0 <= i < j < |merges|
      ensures NameOf(merges[i]) == NameOf(merges[j]) <==> SpillsOver(SeenChunks(rows, plan), which[i], which[j])
    {
      TwoMergesOfPlan(rows, cap, plan, dir, prefix, which[i], which[j]);
    }
  }

  /** So such a run is safe when no segment spills over and no write tears, whatever else happens in it. */
  lemma PlannedRunIsSafe(env: Env, steps: seq<Step>, rows: Name -> nat, cap: nat, plan: seq<seq<Name>>, dir: string,
                         prefix: string, which: seq<nat>)
    requires var chunks := SeenChunks(rows, plan);
             && P.Sorted(P.Flat(chunks)) && P.Flushes(P.Flat(chunks)) && P.IsPlan(P.Flat(chunks), cap, chunks)
    requires Follows(MergesOf(steps), dir, prefix, plan, which) && NothingTorn(steps) && !SegmentSpills(rows, plan, which)
    ensures Safe(Run(env, START, steps))
  {
    hide Safe, Run, CarefulRun, NamesDiffer, Follows, SegmentSpills, P.Sorted, P.Flushes, P.IsPlan, P.Flat, SeenChunks, MergesOf;
    PlannedNamesDifferIff(rows, cap, plan, dir, prefix, MergesOf(steps), which);
    DifferentNamesAreCareful(env, steps);
    NothingIsLostOrCountedTwice(env, steps);
  }
}
