/** What a judge run is estimated to cost beforehand, and what a rerun still asks (src/judge.rs). */
module JudgeCosts {
  import opened Wrappers
  import opened Dataset
  import opened JudgeCanon
  import opened JudgeCache
  import opened JudgeRuns

  predicate IsMiss(env: Env, table: Table, c: Case) {
    IsAsked(env, c) && Hit(table, KeyOf(env, c), VerifyOf(env, c)).None?
  }

  function ApproxTokens(s: string): nat { (|s| + 3) / 4 }

  datatype Estimate = Estimate(calls: nat, cached: nat, inputTokens: nat)

  function EstimateOne(env: Env, spec: JudgeSpec, item: DatasetItem, table: Table, e: Estimate): Estimate {
    match BuildPrompt(env.system, spec, item)
    case None => e
    case Some(prompt) =>
      if IsMiss(env, table, Case(spec, item))
      then Estimate(e.calls + 1, e.cached, e.inputTokens + ApproxTokens(prompt.system) + ApproxTokens(prompt.user))
      else e.(cached := e.cached + 1)
  }

  /** Over the first `n` items. */
  function Estimated(env: Env, spec: JudgeSpec, items: seq<DatasetItem>, n: nat, table: Table): Estimate
    requires n <= |items|
  {
    if n == 0 then Estimate(0, 0, 0)
    else EstimateOne(env, spec, items[n - 1], table, Estimated(env, spec, items, n - 1, table))
  }

  /** Estimates every judge; without a cache file nothing is cached. The first invalid judge fails it. */
  method EstimateJudges(env: Env, judges: seq<JudgeSpec>, items: seq<DatasetItem>, cache: Option<Table>)
    returns (r: Result<seq<Estimate>, SpecError>)
    ensures r.Ok? <==> forall j :: 0 <= j < |judges| ==> Validate(judges[j]).None?
    ensures r.Ok? ==>
              && |r.value| == |judges|
              && forall j :: 0 <= j < |judges| ==>
                   r.value[j] == Estimated(env, judges[j], items, |items|, cache.UnwrapOr(map[]))
  {
    hide Validate, BuildPrompt, Key, Verify, ApproxTokens;
    var out := [];
    for j := 0 to |judges|
      invariant |out| == j && forall k :: 0 <= k < j ==> Validate(judges[k]).None?
      invariant forall k :: 0 <= k < j ==> out[k] == Estimated(env, judges[k], items, |items|, cache.UnwrapOr(map[]))
    {
      var spec := judges[j];
      var invalid := Validate(spec);
      if invalid.Some? {
        return Err(invalid.value);
      }
      var calls: nat, cached: nat, inputTokens: nat := 0, 0, 0;
      for n := 0 to |items|
        invariant Estimated(env, spec, items, n, cache.UnwrapOr(map[])) == Estimate(calls, cached, inputTokens)
      {
        var prompt := BuildPrompt(env.system, spec, items[n]);
        if prompt == None {
          continue;
        }
        var key, verify := Key(env, spec, items[n]), Verify(env, spec, items[n]);
        if cache.Some? && Hit(cache.value, key, verify).Some? {
          cached := cached + 1;
          continue;
        }
        calls := calls + 1;
        inputTokens := inputTokens + ApproxTokens(prompt.value.system) + ApproxTokens(prompt.value.user);
      }
      out := out + [Estimate(calls, cached, inputTokens)];
    }
    r := Ok(out);
  }

  // ----- What an estimate says -----

  /** Where, among the first `n`, the items are that are asked about, and where those that miss the cache. */
  function AskedPlaces(env: Env, spec: JudgeSpec, items: seq<DatasetItem>, n: nat): set<nat>
    requires n <= |items|
  {
    set i: nat | i < n && IsAsked(env, Case(spec, items[i]))
  }

  function MissPlaces(env: Env, spec: JudgeSpec, items: seq<DatasetItem>, n: nat, table: Table): set<nat>
    requires n <= |items|
  {
    set i: nat | i < n && IsMiss(env, table, Case(spec, items[i]))
  }

  function CharsOf(env: Env, c: Case): nat {
    match BuildPrompt(env.system, c.spec, c.item)
    case None => 0
    case Some(prompt) => |prompt.system| + |prompt.user|
  }

  /** The characters of all prompts that will be sent. */
  function MissChars(env: Env, spec: JudgeSpec, items: seq<DatasetItem>, n: nat, table: Table): nat
    requires n <= |items|
  {
    if n == 0 then 0
    else
      var c := Case(spec, items[n - 1]);
      MissChars(env, spec, items, n - 1, table) + if IsMiss(env, table, c) then CharsOf(env, c) else 0
  }

  lemma AskedMore(env: Env, spec: JudgeSpec, items: seq<DatasetItem>, n: nat)
    requires n < |items|
    ensures |AskedPlaces(env, spec, items, n + 1)|
         == |AskedPlaces(env, spec, items, n)| + if IsAsked(env, Case(spec, items[n])) then 1 else 0
  {
    hide IsAsked;
    var before := AskedPlaces(env, spec, items, n);
    assert n !in before;
    assert AskedPlaces(env, spec, items, n + 1) == if IsAsked(env, Case(spec, items[n])) then before + {n} else before;
  }

  lemma MissesMore(env: Env, spec: JudgeSpec, items: seq<DatasetItem>, n: nat, table: Table)
    requires n < |items|
    ensures |MissPlaces(env, spec, items, n + 1, table)|
         == |MissPlaces(env, spec, items, n, table)| + if IsMiss(env, table, Case(spec, items[n])) then 1 else 0
  {
    hide IsMiss;
    var before := MissPlaces(env, spec, items, n, table);
    assert n !in before;
    assert MissPlaces(env, spec, items, n + 1, table) == if IsMiss(env, table, Case(spec, items[n])) then before + {n} else before;
  }

  lemma OneEstimate(env: Env, spec: JudgeSpec, item: DatasetItem, table: Table, e: Estimate)
    ensures var c, after := Case(spec, item), EstimateOne(env, spec, item, table, e);
            && after.calls == e.calls + (if IsMiss(env, table, c) then 1 else 0)
            && after.calls + after.cached == e.calls + e.cached + (if IsAsked(env, c) then 1 else 0)
            && (if IsMiss(env, table, c) then
                  4 * e.inputTokens + CharsOf(env, c) <= 4 * after.inputTokens <= 4 * e.inputTokens + CharsOf(env, c) + 6
                else after.inputTokens == e.inputTokens)
  {
    hide BuildPrompt, Key, Verify, Hit;
  }

  /**
   * An estimate counts a call for each item that is asked about and misses the cache, as cached the other items
   * that are asked about, and a token for every four characters of a prompt to be sent, a last part counted whole.
   */
  lemma {:induction false} EstimateIs(env: Env, spec: JudgeSpec, items: seq<DatasetItem>, n: nat, table: Table)
    requires n <= |items|
    ensures var e := Estimated(env, spec, items, n, table);
            && e.calls == |MissPlaces(env, spec, items, n, table)|
            && e.calls + e.cached == |AskedPlaces(env, spec, items, n)|
            && MissChars(env, spec, items, n, table) <= 4 * e.inputTokens <= MissChars(env, spec, items, n, table) + 6 * e.calls
    decreases n
  {
    hide EstimateOne, IsMiss, IsAsked, CharsOf;
    if n == 0 {
      assert AskedPlaces(env, spec, items, 0) == {} && MissPlaces(env, spec, items, 0, table) == {};
    } else {
      EstimateIs(env, spec, items, n - 1, table);
      AskedMore(env, spec, items, n - 1);
      MissesMore(env, spec, items, n - 1, table);
      OneEstimate(env, spec, items[n - 1], table, Estimated(env, spec, items, n - 1, table));
    }
  }

  // ----- All judges, on one cache -----

  /** What a number of jobs leaves: the cache, the scores of each, what each asked, and why they stopped. */
  datatype Progress = Progress(table: Table, outs: seq<Outcomes>, calls: seq<nat>, failed: Option<RunError>)

  function OneMoreJob(env: Env, job: Job, p: Progress): Progress {
    if p.failed.Some? then p
    else if Validate(job.spec).Some? then p.(failed := Some(Invalid(Validate(job.spec).value)))
    else
      var end := JobEnd(env, job, p.table);
      Progress(end.table, if end.failed.Some? then p.outs else p.outs + [end.out], p.calls + [end.calls],
               if end.failed.Some? then Some(Backend(end.failed.value)) else None)
  }

  /** After the first `n` jobs; the first that fails ends them. */
  function RunJobs(env: Env, jobs: seq<Job>, n: nat, table: Table): Progress
    requires n <= |jobs|
  {
    if n == 0 then Progress(table, [], [], None)
    else OneMoreJob(env, jobs[n - 1], RunJobs(env, jobs, n - 1, table))
  }

  /** Every judge over the same dataset. */
  function JobsOf(judges: seq<JudgeSpec>, items: seq<DatasetItem>, faults: nat -> Faults): seq<Job> {
    seq(|judges|, j requires 0 <= j < |judges| => Job(judges[j], items, faults(j)))
  }

  /** The judges run one after another on the same cache. */
  method RunAllJudges(env: Env, judges: seq<JudgeSpec>, items: seq<DatasetItem>, cache: JudgeCache, faults: nat -> Faults)
    returns (r: Result<seq<Outcomes>, RunError>, calls: seq<nat>)
    modifies cache
    ensures var end := RunJobs(env, JobsOf(judges, items, faults), |judges|, old(cache.table));
            && cache.table == end.table && calls == end.calls
            && r == if end.failed.Some? then Err(end.failed.value) else Ok(end.outs)
  {
    hide Validate, Run;
    ghost var jobs, start := JobsOf(judges, items, faults), cache.table;
    var outs := [];
    calls := [];
    for j := 0 to |judges|
      invariant RunJobs(env, jobs, j, start) == Progress(cache.table, outs, calls, None)
    {
      assert jobs[j] == Job(judges[j], items, faults(j));
      var invalid := Validate(judges[j]);
      if invalid.Some? {
        StoppedStays(env, jobs, j + 1, |judges|, start);
        return Err(Invalid(invalid.value)), calls;
      }
      var outcome, asked := ScoreItems(env, judges[j], items, cache, faults(j));
      calls := calls + [asked];
      if outcome.Err? {
        StoppedStays(env, jobs, j + 1, |judges|, start);
        return Err(outcome.error), calls;
      }
      outs := outs + [outcome.value];
    }
    r := Ok(outs);
  }

  lemma {:induction false} StoppedStays(env: Env, jobs: seq<Job>, m: nat, n: nat, table: Table)
    requires m <= n <= |jobs| && RunJobs(env, jobs, m, table).failed.Some?
    ensures RunJobs(env, jobs, n, table) == RunJobs(env, jobs, m, table)
    decreases n
  {
    hide Validate, Run;
    if m < n {
      StoppedStays(env, jobs, m, n - 1, table);
    }
  }

  // ----- Calls against the estimate -----

  /** Cases whose key is shared with one that gets stored share its verification hash too. */
  predicate KeysSettle(env: Env, all: set<Case>) {
    forall c, d :: c in all && d in all && CanRun(c) && CanRun(d) && Found(env, c).Some? && IsAsked(env, d)
                   && KeyOf(env, c) == KeyOf(env, d) ==>
      VerifyOf(env, c) == VerifyOf(env, d)
  }

  /** Whoever had a hit before has one after. */
  predicate HitsStay(env: Env, all: set<Case>, before: Table, after: Table) {
    forall d :: d in all && CanRun(d) && IsMiss(env, after, d) ==> IsMiss(env, before, d)
  }

  lemma HitsStayOn(env: Env, all: set<Case>, a: Table, b: Table, c: Table)
    requires HitsStay(env, all, a, b) && HitsStay(env, all, b, c)
    ensures HitsStay(env, all, a, c)
  {
    hide IsMiss;
  }

  /** What a step does to the cache and to the count, in the terms of cases. */
  lemma StepShape(env: Env, spec: JudgeSpec, item: DatasetItem, st: State, readFails: bool, writeFails: bool)
    requires st.failed.None?
    ensures var next, c := Step(env, spec, item, st, readFails, writeFails), Case(spec, item);
            && (next.table == st.table
                || (Found(env, c).Some? && next.table == st.table[KeyOf(env, c) := CachedScore(Found(env, c).value, VerifyOf(env, c))]))
            && next.calls == st.calls + (if IsMiss(env, st.table, c) || (IsAsked(env, c) && readFails) then 1 else 0)
            && (next.failed.None? && !writeFails && Found(env, c).Some? && next.table == st.table ==> !IsMiss(env, next.table, c))
            && (Found(env, c).None? || (!IsMiss(env, st.table, c) && !readFails) ==> next.table == st.table)
  {
    hide Asked, Key, Verify, ParseScore, Scored;
  }

  lemma StoringKeepsHits(env: Env, all: set<Case>, table: Table, c: Case)
    requires KeysSettle(env, all) && c in all && CanRun(c) && Found(env, c).Some?
    ensures var after := table[KeyOf(env, c) := CachedScore(Found(env, c).value, VerifyOf(env, c))];
            HitsStay(env, all, table, after) && !IsMiss(env, after, c)
  {
    hide Found, KeyOf, VerifyOf, IsAsked, CanRun;
  }

  lemma {:induction false} RunKeepsHits(env: Env, all: set<Case>, spec: JudgeSpec, items: seq<DatasetItem>, n: nat,
                                        table: Table, faults: Faults)
    requires KeysSettle(env, all) && Within(spec, items, all) && Validate(spec).None? && n <= |items|
    ensures HitsStay(env, all, table, Run(env, spec, items, n, table, faults).table)
    decreases n
  {
    hide KeysSettle, Step, Found, KeyOf, VerifyOf, IsMiss, Validate;
    if n > 0 {
      RunKeepsHits(env, all, spec, items, n - 1, table, faults);
      var st := Run(env, spec, items, n - 1, table, faults);
      if st.failed.None? {
        StepShape(env, spec, items[n - 1], st, faults.read(n - 1), faults.write(n - 1));
        if Found(env, Case(spec, items[n - 1])).Some? {
          StoringKeepsHits(env, all, st.table, Case(spec, items[n - 1]));
        }
      } else {
        FailedStep(env, spec, items[n - 1], st, faults.read(n - 1), faults.write(n - 1));
      }
    }
  }

  lemma EstimateShape(env: Env, spec: JudgeSpec, item: DatasetItem, table: Table, e: Estimate)
    ensures EstimateOne(env, spec, item, table, e).calls
         == e.calls + (if IsMiss(env, table, Case(spec, item)) then 1 else 0)
  {
    hide BuildPrompt, Key, Verify, ApproxTokens, Hit;
  }

  /** One judge, estimated on a cache and run on it or on a later one. */
  lemma {:induction false} CallsOfOne(env: Env, all: set<Case>, spec: JudgeSpec, items: seq<DatasetItem>, n: nat,
                                      before: Table, table: Table, faults: Faults)
    requires KeysSettle(env, all) && Within(spec, items, all) && Validate(spec).None? && n <= |items| && NoReadFails(faults)
    requires HitsStay(env, all, before, table)
    ensures Run(env, spec, items, n, table, faults).calls <= Estimated(env, spec, items, n, before).calls
    decreases n
  {
    hide KeysSettle, Step, Found, KeyOf, VerifyOf, IsMiss, EstimateOne, Validate;
    if n > 0 {
      CallsOfOne(env, all, spec, items, n - 1, before, table, faults);
      RunKeepsHits(env, all, spec, items, n - 1, table, faults);
      var st, item := Run(env, spec, items, n - 1, table, faults), items[n - 1];
      HitsStayOn(env, all, before, table, st.table);
      EstimateShape(env, spec, item, before, Estimated(env, spec, items, n - 1, before));
      if st.failed.None? {
        StepShape(env, spec, item, st, faults.read(n - 1), faults.write(n - 1));
      } else {
        FailedStep(env, spec, item, st, faults.read(n - 1), faults.write(n - 1));
      }
    }
  }

  lemma {:induction false} JobsKeepHits(env: Env, all: set<Case>, jobs: seq<Job>, n: nat, table: Table)
    requires KeysSettle(env, all) && JobsWithin(jobs, all) && n <= |jobs|
    ensures HitsStay(env, all, table, RunJobs(env, jobs, n, table).table)
    decreases n
  {
    hide KeysSettle, Run, IsMiss, Validate, Within;
    if n > 0 {
      JobsKeepHits(env, all, jobs, n - 1, table);
      var job, p := jobs[n - 1], RunJobs(env, jobs, n - 1, table);
      if Validate(job.spec).None? {
        RunKeepsHits(env, all, job.spec, job.items, |job.items|, p.table, job.faults);
        HitsStayOn(env, all, table, p.table, JobEnd(env, job, p.table).table);
      }
    }
  }

  ghost predicate ReadsWork(jobs: seq<Job>) { forall j :: 0 <= j < |jobs| ==> NoReadFails(jobs[j].faults) }

  ghost predicate WritesWork(jobs: seq<Job>) { forall j :: 0 <= j < |jobs| ==> NoWriteFails(jobs[j].faults) }

  /** How often the estimates, all made on the cache as it is beforehand, say that a job asks. */
  function EstimatedCalls(env: Env, job: Job, table: Table): nat {
    Estimated(env, job.spec, job.items, |job.items|, table).calls
  }

  /** No job was to ask less than it did. */
  predicate WithinEstimates(env: Env, jobs: seq<Job>, n: nat, table: Table)
    requires n <= |jobs|
  {
    var calls := RunJobs(env, jobs, n, table).calls;
    |calls| <= n && forall j :: 0 <= j < |calls| ==> calls[j] <= EstimatedCalls(env, jobs[j], table)
  }

  lemma OneMoreWithin(env: Env, jobs: seq<Job>, n: nat, table: Table)
    requires 0 < n <= |jobs| && WithinEstimates(env, jobs, n - 1, table)
    requires var p := RunJobs(env, jobs, n - 1, table);
             && (p.failed.None? ==> |p.calls| == n - 1)
             && (p.failed.None? && Validate(jobs[n - 1].spec).None? ==>
                   JobEnd(env, jobs[n - 1], p.table).calls <= EstimatedCalls(env, jobs[n - 1], table))
    ensures WithinEstimates(env, jobs, n, table)
    ensures RunJobs(env, jobs, n, table).failed.None? ==> |RunJobs(env, jobs, n, table).calls| == n
  {
    hide JobEnd, EstimatedCalls, Validate;
  }

  /**
   * However many judges run one after another on one cache, none of them asks the backend more often than
   * was estimated for it beforehand, even when writes to the cache fail.
   */
  lemma {:induction false} CallsWithinEstimates(env: Env, all: set<Case>, jobs: seq<Job>, n: nat, table: Table)
    requires KeysSettle(env, all) && JobsWithin(jobs, all) && ReadsWork(jobs) && n <= |jobs|
    ensures WithinEstimates(env, jobs, n, table)
    ensures RunJobs(env, jobs, n, table).failed.None? ==> |RunJobs(env, jobs, n, table).calls| == n
    decreases n
  {
    hide KeysSettle, Run, Estimated, Validate, Within, HitsStay, NoReadFails, OneMoreJob;
    if n > 0 {
      CallsWithinEstimates(env, all, jobs, n - 1, table);
      JobsKeepHits(env, all, jobs, n - 1, table);
      var job, p := jobs[n - 1], RunJobs(env, jobs, n - 1, table);
      if Validate(job.spec).None? {
        CallsOfOne(env, all, job.spec, job.items, |job.items|, table, p.table, job.faults);
      }
      OneMoreWithin(env, jobs, n, table);
    }
  }

  /** Each judge with each item. */
  function CasesOf(judges: seq<JudgeSpec>, items: seq<DatasetItem>): set<Case> {
    set j, i | 0 <= j < |judges| && 0 <= i < |items| :: Case(judges[j], items[i])
  }

  lemma JobsWithinCases(judges: seq<JudgeSpec>, items: seq<DatasetItem>, faults: nat -> Faults)
    ensures JobsWithin(JobsOf(judges, items, faults), CasesOf(judges, items))
  {
  }

  /** The same of the judges of one configuration over its dataset, in the terms of what was printed beforehand. */
  lemma JudgesWithinEstimates(env: Env, judges: seq<JudgeSpec>, items: seq<DatasetItem>, faults: nat -> Faults, table: Table)
    requires KeysSettle(env, CasesOf(judges, items)) && forall j :: NoReadFails(faults(j))
    ensures var end := RunJobs(env, JobsOf(judges, items, faults), |judges|, table);
            && |end.calls| <= |judges|
            && forall j :: 0 <= j < |end.calls| ==> end.calls[j] <= Estimated(env, judges[j], items, |items|, table).calls
  {
    hide KeysSettle, RunJobs, Estimated, NoReadFails, CasesOf;
    JobsWithinCases(judges, items, faults);
    CallsWithinEstimates(env, CasesOf(judges, items), JobsOf(judges, items, faults), |judges|, table);
  }

  /** Whatever the cache holds and however these cases are made into jobs, no job asks more than was estimated. */
  ghost predicate EstimatesHold(env: Env, all: set<Case>) {
    forall jobs: seq<Job>, table: Table :: JobsWithin(jobs, all) && ReadsWork(jobs) ==>
      WithinEstimates(env, jobs, |jobs|, table)
  }

  lemma EstimatesHoldIff(env: Env, all: set<Case>)
    ensures EstimatesHold(env, all) <==> KeysSettle(env, all)
  {
    hide *;
    if KeysSettle(env, all) {
      SettledHold(env, all);
    }
    if EstimatesHold(env, all) {
      HoldingSettles(env, all);
    }
  }

  lemma SettledHold(env: Env, all: set<Case>)
    requires KeysSettle(env, all)
    ensures EstimatesHold(env, all)
  {
    hide KeysSettle, WithinEstimates, JobsWithin, ReadsWork;
    forall jobs: seq<Job>, table: Table | JobsWithin(jobs, all) && ReadsWork(jobs)
      ensures WithinEstimates(env, jobs, |jobs|, table)
    {
      CallsWithinEstimates(env, all, jobs, |jobs|, table);
    }
  }

  /** A cache that holds a case. */
  function Holding(env: Env, d: Case): Table {
    map[KeyOf(env, d) := CachedScore(Verdict(0.0, None), VerifyOf(env, d))]
  }

  lemma OneCaseEstimate(env: Env, c: Case, table: Table)
    ensures EstimatedCalls(env, Single(c), table) == if IsMiss(env, table, c) then 1 else 0
  {
    hide EstimateOne, IsMiss;
    assert Estimated(env, c.spec, [c.item], 0, table) == Estimate(0, 0, 0);
    EstimateShape(env, c.spec, c.item, table, Estimate(0, 0, 0));
    assert [c.item][0] == c.item;
  }

  lemma FoundIsAsked(env: Env, c: Case)
    requires Found(env, c).Some?
    ensures IsAsked(env, c)
  {
  }

  lemma FoundIsStored(env: Env, c: Case, table: Table)
    requires Found(env, c).Some? && IsMiss(env, table, c)
    ensures var end := JobEnd(env, Single(c), table);
            && end.failed.None?
            && end.table == table[KeyOf(env, c) := CachedScore(Found(env, c).value, VerifyOf(env, c))]
  {
    hide Asked, Key, Verify, ParseScore, Scored, Run;
    OneItem(env, Single(c), table);
  }

  lemma MissIsAsked(env: Env, d: Case, table: Table)
    requires IsMiss(env, table, d)
    ensures JobEnd(env, Single(d), table).calls == 1
  {
    hide Asked, Key, Verify, ParseScore, Scored, Run;
    OneItem(env, Single(d), table);
  }

  /** Storing `c` drives out the entry of `d`, for which no call was estimated. */
  lemma DrivenOut(env: Env, c: Case, d: Case)
    requires CanRun(c) && CanRun(d)
    requires Found(env, c).Some? && IsAsked(env, d) && KeyOf(env, c) == KeyOf(env, d) && VerifyOf(env, c) != VerifyOf(env, d)
    ensures var calls := RunJobs(env, [Single(c), Single(d)], 2, Holding(env, d)).calls;
            |calls| == 2 && calls[1] == 1 && EstimatedCalls(env, Single(d), Holding(env, d)) == 0
  {
    hide Found, KeyOf, VerifyOf, IsAsked, Validate, JobEnd, EstimatedCalls;
    var jobs, table := [Single(c), Single(d)], Holding(env, d);
    FoundIsAsked(env, c);
    FoundIsStored(env, c, table);
    assert RunJobs(env, jobs, 0, table) == Progress(table, [], [], None);
    assert RunJobs(env, jobs, 1, table) == OneMoreJob(env, Single(c), RunJobs(env, jobs, 0, table));
    MissIsAsked(env, d, RunJobs(env, jobs, 1, table).table);
    OneCaseEstimate(env, d, table);
  }

  lemma HoldingSettles(env: Env, all: set<Case>)
    requires EstimatesHold(env, all)
    ensures KeysSettle(env, all)
  {
    hide RunJobs, EstimatedCalls, Found, IsAsked, KeyOf, VerifyOf, CanRun, Holding;
    forall c, d | c in all && d in all && CanRun(c) && CanRun(d) && Found(env, c).Some? && IsAsked(env, d)
                  && KeyOf(env, c) == KeyOf(env, d)
      ensures VerifyOf(env, c) == VerifyOf(env, d)
    {
      var jobs := [Single(c), Single(d)];
      assert JobsWithin(jobs, all) && ReadsWork(jobs) && |jobs| == 2;
      assert WithinEstimates(env, jobs, |jobs|, Holding(env, d));
      if VerifyOf(env, c) != VerifyOf(env, d) {
        DrivenOut(env, c, d);
      }
    }
  }

  // ----- A second run -----

  /** After a run that did not fail, with every write made, each item with a usable reply has a hit. */
  lemma {:induction false} FoundAreStored(env: Env, all: set<Case>, spec: JudgeSpec, items: seq<DatasetItem>, n: nat,
                                          table: Table, faults: Faults)
    requires KeysSettle(env, all) && Within(spec, items, all) && Validate(spec).None? && n <= |items| && NoWriteFails(faults)
    requires Run(env, spec, items, n, table, faults).failed.None?
    ensures forall i :: 0 <= i < n && Found(env, Case(spec, items[i])).Some? ==>
              !IsMiss(env, Run(env, spec, items, n, table, faults).table, Case(spec, items[i]))
    decreases n
  {
    hide KeysSettle, Step, Found, KeyOf, VerifyOf, IsMiss, Validate;
    if n > 0 {
      var st := Run(env, spec, items, n - 1, table, faults);
      if st.failed.Some? {
        FailedStep(env, spec, items[n - 1], st, faults.read(n - 1), faults.write(n - 1));
      }
      FoundAreStored(env, all, spec, items, n - 1, table, faults);
      StepShape(env, spec, items[n - 1], st, faults.read(n - 1), faults.write(n - 1));
      if Found(env, Case(spec, items[n - 1])).Some? {
        StoringKeepsHits(env, all, st.table, Case(spec, items[n - 1]));
      }
    }
  }

  /** Every item of the job that misses has a reply without a score. */
  predicate OnlyUnparseable(env: Env, job: Job, table: Table) {
    forall i :: 0 <= i < |job.items| && IsMiss(env, table, Case(job.spec, job.items[i])) ==>
      Found(env, Case(job.spec, job.items[i])).None?
  }

  /** When only items without a usable reply miss, a run stores nothing and asks exactly what was estimated. */
  lemma {:induction false} OnlyUnparseableMiss(env: Env, job: Job, n: nat, table: Table)
    requires n <= |job.items| && NoReadFails(job.faults) && OnlyUnparseable(env, job, table)
    ensures var st := Run(env, job.spec, job.items, n, table, job.faults);
            && st.table == table
            && (st.failed.None? ==> st.calls == Estimated(env, job.spec, job.items, n, table).calls)
    decreases n
  {
    hide Step, Found, KeyOf, VerifyOf, IsMiss, EstimateOne;
    if n > 0 {
      OnlyUnparseableMiss(env, job, n - 1, table);
      var st, item := Run(env, job.spec, job.items, n - 1, table, job.faults), job.items[n - 1];
      EstimateShape(env, job.spec, item, table, Estimated(env, job.spec, job.items, n - 1, table));
      if st.failed.None? {
        StepShape(env, job.spec, item, st, job.faults.read(n - 1), job.faults.write(n - 1));
      } else {
        FailedStep(env, job.spec, item, st, job.faults.read(n - 1), job.faults.write(n - 1));
      }
    }
  }

  lemma HitsStayUnparseable(env: Env, all: set<Case>, job: Job, before: Table, after: Table)
    requires Within(job.spec, job.items, all) && Validate(job.spec).None?
    requires HitsStay(env, all, before, after) && OnlyUnparseable(env, job, before)
    ensures OnlyUnparseable(env, job, after)
  {
    hide IsMiss, Found, Validate;
  }

  /** The jobs done so far leave only unusable replies to ask for. */
  lemma {:induction false} DoneAreStored(env: Env, all: set<Case>, jobs: seq<Job>, n: nat, table: Table)
    requires KeysSettle(env, all) && JobsWithin(jobs, all) && WritesWork(jobs) && n <= |jobs|
    requires RunJobs(env, jobs, n, table).failed.None?
    ensures forall j :: 0 <= j < n ==>
              Validate(jobs[j].spec).None? && OnlyUnparseable(env, jobs[j], RunJobs(env, jobs, n, table).table)
    decreases n
  {
    hide KeysSettle, Run, IsMiss, Found, Validate, Within, OnlyUnparseable, HitsStay, NoWriteFails;
    if n > 0 {
      var job, p := jobs[n - 1], RunJobs(env, jobs, n - 1, table);
      DoneAreStored(env, all, jobs, n - 1, table);
      RunKeepsHits(env, all, job.spec, job.items, |job.items|, p.table, job.faults);
      var after := JobEnd(env, job, p.table).table;
      forall j | 0 <= j < n
        ensures OnlyUnparseable(env, jobs[j], after)
      {
        if j < n - 1 {
          HitsStayUnparseable(env, all, jobs[j], p.table, after);
        } else {
          JobIsStored(env, all, job, p.table);
        }
      }
    }
  }

  lemma JobIsStored(env: Env, all: set<Case>, job: Job, table: Table)
    requires KeysSettle(env, all) && Within(job.spec, job.items, all) && Validate(job.spec).None? && NoWriteFails(job.faults)
    requires JobEnd(env, job, table).failed.None?
    ensures OnlyUnparseable(env, job, JobEnd(env, job, table).table)
  {
    hide KeysSettle, Run, IsMiss, Found, Within, NoWriteFails, Validate;
    FoundAreStored(env, all, job.spec, job.items, |job.items|, table, job.faults);
  }

  /** What the second run of the same judges over the same datasets may fail at differently. */
  predicate SameWork(jobs: seq<Job>, again: seq<Job>) {
    |jobs| == |again| && forall j :: 0 <= j < |jobs| ==> jobs[j].spec == again[j].spec && jobs[j].items == again[j].items
  }

  lemma {:induction false} NothingNew(env: Env, jobs: seq<Job>, n: nat, table: Table)
    requires n <= |jobs| && ReadsWork(jobs) && forall j :: 0 <= j < |jobs| ==> OnlyUnparseable(env, jobs[j], table)
    ensures var p := RunJobs(env, jobs, n, table);
            && p.table == table
            && (p.failed.None? ==> |p.calls| == n && forall j :: 0 <= j < n ==> p.calls[j] == EstimatedCalls(env, jobs[j], table))
    decreases n
  {
    hide Run, Estimated, OnlyUnparseable, Validate, NoReadFails;
    if n > 0 {
      NothingNew(env, jobs, n - 1, table);
      OnlyUnparseableMiss(env, jobs[n - 1], |jobs[n - 1].items|, table);
    }
  }

  /**
   * Running an unchanged eval again, all its judges one after another, asks the backend for exactly the
   * items that miss the filled cache, all of them items whose reply held no score, and stores nothing new.
   */
  lemma RerunAsksOnlyUnparseable(env: Env, all: set<Case>, jobs: seq<Job>, again: seq<Job>, table: Table)
    requires KeysSettle(env, all) && JobsWithin(jobs, all) && WritesWork(jobs) && ReadsWork(again) && SameWork(jobs, again)
    requires RunJobs(env, jobs, |jobs|, table).failed.None?
    ensures var filled := RunJobs(env, jobs, |jobs|, table).table;
            var end := RunJobs(env, again, |again|, filled);
            && end.table == filled
            && (forall j :: 0 <= j < |again| ==> OnlyUnparseable(env, again[j], filled))
            && (end.failed.None? ==>
                  |end.calls| == |again| && forall j :: 0 <= j < |again| ==> end.calls[j] == EstimatedCalls(env, again[j], filled))
  {
    hide KeysSettle, RunJobs, EstimatedCalls, Within, ReadsWork, WritesWork, IsMiss, Found;
    DoneAreStored(env, all, jobs, |jobs|, table);
    NothingNew(env, again, |again|, RunJobs(env, jobs, |jobs|, table).table);
  }
}
