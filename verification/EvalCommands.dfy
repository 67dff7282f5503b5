/**
 * The commands `eval run` and `eval compare` from end to end (src/eval.rs): evaluators and judges on one
 * dataset, their scores stored, the gate, and the JUnit report of it.
 */
module EvalCommands {
  import opened Wrappers
  import opened Orders
  import opened Dataset
  import opened Scores
  import opened JudgeCanon
  import J = JudgeCache
  import R = JudgeRuns
  import opened JudgeCosts
  import opened Junit
  import opened JunitReport
  import opened JunitGates
  import opened EvalCompare
  import opened EvalReadBack
  import E = EvalRun

  // ----- eval run -----

  datatype Config = Config(
    name: Option<string>,
    evaluators: seq<E.Evaluator>,
    judges: seq<JudgeSpec>,
    thresholds: map<string, real>)

  /** Evaluators and judges share one name space. */
  function NamesOf(config: Config): seq<string> {
    seq(|config.evaluators|, i requires 0 <= i < |config.evaluators| => config.evaluators[i].name)
    + seq(|config.judges|, i requires 0 <= i < |config.judges| => config.judges[i].Name())
  }

  predicate Distinct(names: seq<string>) {
    forall i, j :: 0 <= i < j < |names| ==> names[i] != names[j]
  }

  function JudgeEntries(judges: seq<JudgeSpec>, outs: seq<Outcomes>): seq<E.Entry>
    requires |judges| == |outs|
  {
    seq(|judges|, i requires 0 <= i < |judges| && |judges| == |outs| => E.Entry(judges[i].Name(), outs[i]))
  }

  function AggregatesOf(entries: seq<E.Entry>, thresholds: map<string, real>): seq<E.Aggregate> {
    seq(|entries|, i requires 0 <= i < |entries| =>
      E.AggregateOf(entries[i].name, entries[i].outcomes, E.ThresholdOf(thresholds, entries[i].name)))
  }

  /** What a run reports of what its evaluators and judges made of the dataset. */
  function ReportOf(info: E.RunInfo, config: Config, items: seq<DatasetItem>, entries: seq<E.Entry>): E.Report {
    E.Report(info.id, config.name, |items|, AggregatesOf(entries, config.thresholds))
  }

  datatype RunFailure = NoItems | Duplicate(name: string) | Judging(error: J.RunError) | Persisting

  /** Every job of a run that did not stop scored every item. */
  lemma {:induction false} JobsScoreAll(env: J.Env, jobs: seq<R.Job>, n: nat, table: J.Table)
    requires n <= |jobs| && RunJobs(env, jobs, n, table).failed.None?
    ensures |RunJobs(env, jobs, n, table).outs| == n
    ensures forall j :: 0 <= j < n ==> |RunJobs(env, jobs, n, table).outs[j]| == |jobs[j].items|
    decreases n
  {
    hide J.Run, J.Validate;
    if n > 0 {
      JobsScoreAll(env, jobs, n - 1, table);
      RunScoresAll(env, jobs[n - 1].spec, jobs[n - 1].items, |jobs[n - 1].items|, RunJobs(env, jobs, n - 1, table).table, jobs[n - 1].faults);
    }
  }

  lemma {:induction false} RunScoresAll(env: J.Env, spec: JudgeSpec, items: seq<DatasetItem>, n: nat, table: J.Table, faults: J.Faults)
    requires n <= |items|
    ensures J.Run(env, spec, items, n, table, faults).failed.None? ==> |J.Run(env, spec, items, n, table, faults).out| == n
    decreases n
  {
    hide J.Key, J.Verify, J.ParseScore, J.Hit;
    if n > 0 {
      RunScoresAll(env, spec, items, n - 1, table, faults);
    }
  }

  /** The first name that was there before, if one was. */
  method FindDuplicate(names: seq<string>) returns (found: Option<string>)
    ensures found.None? <==> Distinct(names)
  {
    var seen: set<string> := {};
    for i := 0 to |names|
      invariant forall s :: s in seen <==> exists j :: 0 <= j < i && names[j] == s
      invariant Distinct(names[..i])
    {
      if names[i] in seen {
        return Some(names[i]);
      }
      seen := seen + {names[i]};
    }
    assert names[..|names|] == names;
    found := None;
  }

  /** The aggregates and scores of the first `n` entries. */
  ghost predicate DoneWith(info: E.RunInfo, thresholds: map<string, real>, items: seq<DatasetItem>, entries: seq<E.Entry>, n: nat,
                           aggregates: seq<E.Aggregate>, scores: seq<Score>)
  {
    && n <= |entries| && E.Aligned(entries, items)
    && aggregates == AggregatesOf(entries[..n], thresholds) && scores == E.AllScores(info, entries, items, n)
  }

  lemma DoneWithMore(info: E.RunInfo, thresholds: map<string, real>, items: seq<DatasetItem>, entries: seq<E.Entry>, n: nat,
                     aggregates: seq<E.Aggregate>, scores: seq<Score>)
    requires DoneWith(info, thresholds, items, entries, n, aggregates, scores) && n < |entries|
    ensures var e := entries[n];
            DoneWith(info, thresholds, items, entries, n + 1,
                     aggregates + [E.AggregateOf(e.name, e.outcomes, E.ThresholdOf(thresholds, e.name))],
                     scores + E.ItemScores(info, e.name, items, e.outcomes, |items|) + [E.AggScore(info, e.name, e.outcomes)])
  {
    hide E.AggregateOf, E.ItemScores, E.AggScore, E.ThresholdOf, AggregatesOf, E.AllScores;
    assert entries[..n + 1] == entries[..n] + [entries[n]];
    OneMoreAggregate(thresholds, entries[..n], entries[n]);
    OneMoreScored(info, entries, items, n);
  }

  lemma OneMoreAggregate(thresholds: map<string, real>, entries: seq<E.Entry>, e: E.Entry)
    ensures AggregatesOf(entries + [e], thresholds)
         == AggregatesOf(entries, thresholds) + [E.AggregateOf(e.name, e.outcomes, E.ThresholdOf(thresholds, e.name))]
  {
    hide E.AggregateOf, E.ThresholdOf;
  }

  lemma OneMoreScored(info: E.RunInfo, entries: seq<E.Entry>, items: seq<DatasetItem>, n: nat)
    requires n < |entries| && E.Aligned(entries, items)
    ensures var e, before := entries[n], E.AllScores(info, entries, items, n);
            var after := before + E.ItemScores(info, e.name, items, e.outcomes, |items|) + [E.AggScore(info, e.name, e.outcomes)];
            E.AllScores(info, entries, items, n + 1) == after
  {
    hide E.ItemScores, E.AggScore;
  }

  lemma DoneWithFirst(info: E.RunInfo, thresholds: map<string, real>, items: seq<DatasetItem>, first: seq<E.Entry>,
                      entries: seq<E.Entry>)
    requires first <= entries && E.Aligned(first, items) && E.Aligned(entries, items)
    ensures DoneWith(info, thresholds, items, entries, |first|, AggregatesOf(first, thresholds), E.AllScores(info, first, items, |first|))
  {
    hide E.AllScores, AggregatesOf;
    ScoresOfPrefix(info, first, entries, items, |first|);
    assert entries[..|first|] == first;
  }

  lemma DoneWithAll(info: E.RunInfo, thresholds: map<string, real>, items: seq<DatasetItem>, entries: seq<E.Entry>,
                    aggregates: seq<E.Aggregate>, scores: seq<Score>)
    requires DoneWith(info, thresholds, items, entries, |entries|, aggregates, scores)
    ensures aggregates == AggregatesOf(entries, thresholds) && scores == E.AllScores(info, entries, items, |entries|)
  {
    hide E.AllScores, AggregatesOf;
    assert entries[..|entries|] == entries;
  }

  lemma Joined(items: seq<DatasetItem>, first: seq<E.Entry>, judges: seq<JudgeSpec>, outs: seq<Outcomes>)
    requires |outs| == |judges| && (forall j :: 0 <= j < |outs| ==> |outs[j]| == |items|) && E.Aligned(first, items)
    ensures var entries := first + JudgeEntries(judges, outs);
            && first <= entries && |entries| == |first| + |outs| && E.Aligned(entries, items)
            && forall j :: 0 <= j < |outs| ==> entries[|first| + j] == E.Entry(judges[j].Name(), outs[j])
  {
  }

  /** The judges' outcomes behind those of the evaluators, in the same report and the same scores. */
  method AddJudges(info: E.RunInfo, config: Config, items: seq<DatasetItem>, ghost first: seq<E.Entry>, outs: seq<Outcomes>,
                   aggregates: seq<E.Aggregate>, scores: seq<Score>)
    returns (aggregates': seq<E.Aggregate>, scores': seq<Score>)
    requires |outs| == |config.judges| && (forall j :: 0 <= j < |outs| ==> |outs[j]| == |items|) && E.Aligned(first, items)
    requires aggregates == AggregatesOf(first, config.thresholds) && scores == E.AllScores(info, first, items, |first|)
    ensures var entries := first + JudgeEntries(config.judges, outs);
            && E.Aligned(entries, items) && aggregates' == AggregatesOf(entries, config.thresholds)
            && scores' == E.AllScores(info, entries, items, |entries|)
  {
    hide *;
    ghost var entries := first + JudgeEntries(config.judges, outs);
    aggregates', scores' := aggregates, scores;
    Joined(items, first, config.judges, outs);
    DoneWithFirst(info, config.thresholds, items, first, entries);
    for j := 0 to |outs|
      invariant DoneWith(info, config.thresholds, items, entries, |first| + j, aggregates', scores')
    {
      DoneWithMore(info, config.thresholds, items, entries, |first| + j, aggregates', scores');
      var agg;
      var name := config.judges[j].Name();
      agg, scores' := E.FinalizeEvaluator(info, name, outs[j], items, E.ThresholdOf(config.thresholds, name), scores');
      aggregates' := aggregates' + [agg];
    }
    DoneWithAll(info, config.thresholds, items, entries, aggregates', scores');
  }

  lemma {:induction false} ScoresOfPrefix(info: E.RunInfo, a: seq<E.Entry>, b: seq<E.Entry>, items: seq<DatasetItem>, n: nat)
    requires n <= |a| && a <= b && E.Aligned(a, items) && E.Aligned(b, items)
    ensures E.AllScores(info, a, items, n) == E.AllScores(info, b, items, n)
  {
    hide E.ItemScores, E.AggScore;
    if n > 0 {
      ScoresOfPrefix(info, a, b, items, n - 1);
    }
  }

  /**
   * A run: refused without items or with a name used twice, before any judge is asked; else every evaluator
   * and every judge over every item, and the scores of all in one transaction.
   */
  method RunReport(env: J.Env, info: E.RunInfo, config: Config, items: seq<DatasetItem>, cache: J.JudgeCache, store: ScoreStore,
                   faults: nat -> J.Faults, putFails: Option<nat>)
    returns (r: Result<E.Report, RunFailure>)
    requires store.Valid()
    modifies cache, store
    ensures store.Valid() && (r.Err? ==> store.scores == old(store.scores))
    ensures items == [] ==> r == Err(NoItems) && cache.table == old(cache.table)
    ensures items != [] && !Distinct(NamesOf(config)) ==> r.Err? && r.error.Duplicate? && cache.table == old(cache.table)
    ensures items != [] && Distinct(NamesOf(config)) ==>
              var end := RunJobs(env, JobsOf(config.judges, items, faults), |config.judges|, old(cache.table));
              && cache.table == end.table && (end.failed.Some? ==> r == Err(Judging(end.failed.value)))
              && (end.failed.None? ==>
                    && |end.outs| == |config.judges|
                    && var entries := E.EntriesOf(config.evaluators, items) + JudgeEntries(config.judges, end.outs);
                       && E.Aligned(entries, items)
                       && var scores := E.AllScores(info, entries, items, |entries|);
                          if PutFails(scores, putFails) then r == Err(Persisting)
                          else r == Ok(ReportOf(info, config, items, entries)) && store.scores == Upserted(old(store.scores), scores))
  {
    hide RunJobs, E.AllScores, E.AggregateOf, PutFails, Upserted, IndexOf, JobsOf, JudgeEntries, Distinct;
    if items == [] {
      return Err(NoItems);
    }
    var clash := FindDuplicate(NamesOf(config));
    if clash.Some? {
      return Err(Duplicate(clash.value));
    }
    EvaluatorsDiffer(config, items);
    var first := E.RunEval(info, config.name, config.evaluators, config.thresholds, items);
    var report, scores := first.value.0, first.value.1;
    var judged, _ := RunAllJudges(env, config.judges, items, cache, faults);
    if judged.Err? {
      return Err(Judging(judged.error));
    }
    AllScored(env, config, items, faults, old(cache.table));
    var aggregates;
    aggregates, scores := AddJudges(info, config, items, E.EntriesOf(config.evaluators, items), judged.value, report.aggregates, scores);
    var put := store.PutBatch(scores, putFails);
    if put.Err? {
      return Err(Persisting);
    }
    r := Ok(report.(aggregates := aggregates));
  }

  lemma AllScored(env: J.Env, config: Config, items: seq<DatasetItem>, faults: nat -> J.Faults, table: J.Table)
    requires RunJobs(env, JobsOf(config.judges, items, faults), |config.judges|, table).failed.None?
    ensures var outs := RunJobs(env, JobsOf(config.judges, items, faults), |config.judges|, table).outs;
            |outs| == |config.judges| && forall j :: 0 <= j < |outs| ==> |outs[j]| == |items|
  {
    hide RunJobs;
    JobsScoreAll(env, JobsOf(config.judges, items, faults), |config.judges|, table);
  }

  lemma EvaluatorsDiffer(config: Config, items: seq<DatasetItem>)
    requires Distinct(NamesOf(config))
    ensures E.DistinctNames(E.EntriesOf(config.evaluators, items))
  {
    var entries := E.EntriesOf(config.evaluators, items);
    assert forall i :: 0 <= i < |entries| ==> entries[i].name == NamesOf(config)[i];
  }

  // ----- What its report says -----

  lemma ReportMeetsUnscored(info: E.RunInfo, config: Config, items: seq<DatasetItem>, entries: seq<E.Entry>)
    ensures UnscoredMeets(ReportOf(info, config, items, entries))
  {
    hide E.AggregateOf;
    var report := ReportOf(info, config, items, entries);
    forall i | 0 <= i < |report.aggregates|
      ensures report.aggregates[i].scored == 0 ==> report.aggregates[i].thresholdMet
    {
      AggregatesMeetUnscored(entries[i].name, entries[i].outcomes, E.ThresholdOf(config.thresholds, entries[i].name));
    }
  }

  /** What a reader of the written report finds: how many cases failed, and how many could not run. */
  predicate Reads(xml: string, failures: nat, errors: nat) {
    var read := ReadDocument(xml);
    && read.Some? && ReadReport(read.value).Some?
    && ReadReport(read.value).value.counts.failures == failures && ReadReport(read.value).value.counts.errors == errors
  }

  lemma ReportReads(suite: Suite)
    ensures Reads(Document(suite), Failures(suite.cases), Errors(suite.cases))
  {
    hide Document, ReadDocument, ReadReport, CleanProperties, CleanCases, Failures, Errors, Skips;
    ReportRoundTrip(suite);
  }

  lemma RunSpeaks(p: Prints, info: E.RunInfo, config: Config, items: seq<DatasetItem>, entries: seq<E.Entry>, time: Printed)
    ensures var report := ReportOf(info, config, items, entries);
            var cases := FromRun(p, report).(time := time).cases;
            (Failures(cases) == 0 <==> report.Passed()) && Errors(cases) == 0
  {
    hide ReportOf, RunCase;
    var report := ReportOf(info, config, items, entries);
    ReportMeetsUnscored(info, config, items, entries);
    RunReportFailsIffGateFails(p, report);
    FailuresCounted(FromRun(p, report).cases);
    forall i | 0 <= i < |report.aggregates|
      ensures !FromRun(p, report).cases[i].outcome.Error?
    {
      RunCaseIsNoError(p, report.aggregates[i]);
    }
    NoErrorsCounted(FromRun(p, report).cases);
  }

  lemma RunCaseIsNoError(p: Prints, a: E.Aggregate)
    ensures !RunCase(p, a).outcome.Error?
  {
  }

  lemma {:induction false} NoErrorsCounted(cases: seq<Case>)
    requires forall i :: 0 <= i < |cases| ==> !cases[i].outcome.Error?
    ensures Errors(cases) == 0
  {
    if cases != [] {
      NoErrorsCounted(cases[..|cases| - 1]);
    }
  }

  lemma ErrorSpeaks(name: string, classname: string, message: string, time: Printed)
    ensures var cases := ErrorSuite(name, classname, message).(time := time).cases; Failures(cases) == 0 && Errors(cases) == 1
  {
    var c := Case("run", Error(FirstLine(message), message), None);
    assert [c][..0] == [];
    assert CountIf([c][..0], (o: Outcome) => o.Error?) == 0 && CountIf([c][..0], (o: Outcome) => o.Fail?) == 0;
  }

  // ----- When a run fails -----

  /** No two evaluators, no two judges and no evaluator and judge share a name. */
  predicate NamesDiffer(config: Config) {
    && (forall i, j :: 0 <= i < j < |config.evaluators| ==> config.evaluators[i].name != config.evaluators[j].name)
    && (forall i, j :: 0 <= i < j < |config.judges| ==> config.judges[i].Name() != config.judges[j].Name())
    && (forall i, j :: 0 <= i < |config.evaluators| && 0 <= j < |config.judges| ==>
          config.evaluators[i].name != config.judges[j].Name())
  }

  lemma NamesDifferIff(config: Config)
    ensures Distinct(NamesOf(config)) <==> NamesDiffer(config)
  {
    var names, n := NamesOf(config), |config.evaluators|;
    assert forall i :: 0 <= i < n ==> names[i] == config.evaluators[i].name;
    forall j | 0 <= j < |config.judges|
      ensures names[n + j] == config.judges[j].Name()
    {
    }
    if NamesDiffer(config) {
      forall i, j | 0 <= i < j < |names|
        ensures names[i] != names[j]
      {
        if i < n <= j {
          assert config.evaluators[i].name != config.judges[j - n].Name();
        } else if n <= i {
          assert config.judges[i - n].Name() != config.judges[j - n].Name();
        }
      }
    }
    if Distinct(names) {
      forall i, j | 0 <= i < j < |config.judges|
        ensures config.judges[i].Name() != config.judges[j].Name()
      {
        assert names[n + i] != names[n + j];
      }
      forall i, j | 0 <= i < n && 0 <= j < |config.judges|
        ensures config.evaluators[i].name != config.judges[j].Name()
      {
        assert names[i] != names[n + j];
      }
    }
  }

  function OutcomesOf(evaluator: E.Evaluator, items: seq<DatasetItem>): Outcomes {
    seq(|items|, i requires 0 <= i < |items| => evaluator.score(items[i]))
  }

  /** There is a threshold under the name, something was scored, and the scores fall short of it on average. */
  predicate Misses(config: Config, name: string, outcomes: Outcomes) {
    name in config.thresholds && E.FallsShort(outcomes, config.thresholds[name])
  }

  predicate EvaluatorMisses(config: Config, items: seq<DatasetItem>) {
    exists i :: 0 <= i < |config.evaluators| && Misses(config, config.evaluators[i].name, OutcomesOf(config.evaluators[i], items))
  }

  predicate JudgeMisses(config: Config, outs: seq<Outcomes>) {
    exists j :: 0 <= j < |config.judges| && j < |outs| && Misses(config, config.judges[j].Name(), outs[j])
  }

  /** What the judges make of the items, with this cache. */
  function Judged(env: J.Env, config: Config, items: seq<DatasetItem>, faults: nat -> J.Faults, table: J.Table): Progress {
    RunJobs(env, JobsOf(config.judges, items, faults), |config.judges|, table)
  }

  lemma AggregateMisses(config: Config, name: string, outcomes: Outcomes)
    ensures E.AggregateOf(name, outcomes, E.ThresholdOf(config.thresholds, name)).thresholdMet <==> !Misses(config, name, outcomes)
  {
    hide E.AggregateOf, E.FallsShort;
    E.ThresholdMetIff(name, outcomes, E.ThresholdOf(config.thresholds, name));
  }

  predicate NoneMisses(config: Config, entries: seq<E.Entry>) {
    forall i :: 0 <= i < |entries| ==> !Misses(config, entries[i].name, entries[i].outcomes)
  }

  lemma EntriesMiss(config: Config, entries: seq<E.Entry>)
    ensures (forall i :: 0 <= i < |entries| ==> AggregatesOf(entries, config.thresholds)[i].thresholdMet)
       <==> NoneMisses(config, entries)
  {
    hide E.AggregateOf, Misses, E.ThresholdOf;
    var aggregates := AggregatesOf(entries, config.thresholds);
    forall i | 0 <= i < |entries|
      ensures aggregates[i].thresholdMet <==> !Misses(config, entries[i].name, entries[i].outcomes)
    {
      AggregateMisses(config, entries[i].name, entries[i].outcomes);
    }
  }

  lemma EvaluatorEntry(config: Config, items: seq<DatasetItem>, i: nat)
    requires i < |config.evaluators|
    ensures E.EntriesOf(config.evaluators, items)[i] == E.Entry(config.evaluators[i].name, OutcomesOf(config.evaluators[i], items))
  {
    assert E.EntryOf(config.evaluators[i], items).outcomes == OutcomesOf(config.evaluators[i], items);
  }

  /** The gate of a run is shut exactly when an evaluator or a judge with a threshold scored something, and too low. */
  lemma PassedIff(info: E.RunInfo, config: Config, items: seq<DatasetItem>, outs: seq<Outcomes>)
    requires |outs| == |config.judges|
    ensures var entries := E.EntriesOf(config.evaluators, items) + JudgeEntries(config.judges, outs);
            ReportOf(info, config, items, entries).Passed() <==> !EvaluatorMisses(config, items) && !JudgeMisses(config, outs)
  {
    hide *;
    var first, rest := E.EntriesOf(config.evaluators, items), JudgeEntries(config.judges, outs);
    ReportPasses(info, config, items, first + rest);
    MissesJoin(config, first, rest);
    EvaluatorsMiss(config, items);
    JudgesMiss(config, outs);
  }

  lemma ReportPasses(info: E.RunInfo, config: Config, items: seq<DatasetItem>, entries: seq<E.Entry>)
    ensures ReportOf(info, config, items, entries).Passed() <==> NoneMisses(config, entries)
  {
    hide NoneMisses, E.AggregateOf;
    EntriesMiss(config, entries);
    assert |ReportOf(info, config, items, entries).aggregates| == |entries|;
  }

  lemma EvaluatorsMiss(config: Config, items: seq<DatasetItem>)
    ensures NoneMisses(config, E.EntriesOf(config.evaluators, items)) <==> !EvaluatorMisses(config, items)
  {
    hide Misses, OutcomesOf;
    var entries := E.EntriesOf(config.evaluators, items);
    forall i | 0 <= i < |config.evaluators|
      ensures entries[i] == E.Entry(config.evaluators[i].name, OutcomesOf(config.evaluators[i], items))
    {
      EvaluatorEntry(config, items, i);
    }
  }

  lemma JudgesMiss(config: Config, outs: seq<Outcomes>)
    requires |outs| == |config.judges|
    ensures NoneMisses(config, JudgeEntries(config.judges, outs)) <==> !JudgeMisses(config, outs)
  {
    hide Misses;
    var entries := JudgeEntries(config.judges, outs);
    assert forall j :: 0 <= j < |outs| ==> entries[j] == E.Entry(config.judges[j].Name(), outs[j]);
  }

  lemma MissesJoin(config: Config, first: seq<E.Entry>, rest: seq<E.Entry>)
    ensures NoneMisses(config, first + rest) <==> NoneMisses(config, first) && NoneMisses(config, rest)
  {
    hide Misses;
    var entries := first + rest;
    forall i | 0 <= i < |rest|
      ensures entries[|first| + i] == rest[i]
    {
    }
    if NoneMisses(config, entries) {
      forall i | 0 <= i < |first|
        ensures !Misses(config, first[i].name, first[i].outcomes)
      {
        assert entries[i] == first[i];
      }
      forall i | 0 <= i < |rest|
        ensures !Misses(config, rest[i].name, rest[i].outcomes)
      {
        assert entries[|first| + i] == rest[i];
      }
    }
  }

  /**
   * `eval run` with a report: the verdict is about what the evaluators and judges made of the items, and an XML reader
   * finds a failed case in the report exactly when the gate fails, and an errored one exactly when there is no verdict.
   */
  method RunCommand(p: Prints, env: J.Env, info: E.RunInfo, config: Config, items: seq<DatasetItem>, cache: J.JudgeCache,
                    store: ScoreStore, faults: nat -> J.Faults, putFails: Option<nat>, time: Printed, message: RunFailure -> string)
    returns (r: Result<bool, RunFailure>, written: string)
    requires store.Valid()
    modifies cache, store
    ensures store.Valid()
    ensures r.Ok? ==> items != [] && NamesDiffer(config) && Judged(env, config, items, faults, old(cache.table)).failed.None?
    ensures r.Ok? ==>
              (r.value <==> !EvaluatorMisses(config, items)
                            && !JudgeMisses(config, Judged(env, config, items, faults, old(cache.table)).outs))
    ensures items == [] ==> r == Err(NoItems)
    ensures items != [] && !NamesDiffer(config) ==> r.Err? && r.error.Duplicate? && cache.table == old(cache.table)
    ensures items != [] && NamesDiffer(config) && Judged(env, config, items, faults, old(cache.table)).failed.Some? ==>
              r == Err(Judging(Judged(env, config, items, faults, old(cache.table)).failed.value))
    ensures r.Ok? ==> exists failures :: Reads(written, failures, 0) && (failures == 0 <==> r.value)
    ensures r.Err? ==> Reads(written, 0, 1)
  {
    hide Reads, Document, RunJobs, E.AllScores, FromRun, ReportOf, ErrorSuite, Failures, Errors, IndexOf, Upserted, PutFails, Distinct,
         EvaluatorMisses, JudgeMisses, NamesDiffer, JudgeEntries, E.EntriesOf;
    NamesDifferIff(config);
    var result := RunReport(env, info, config, items, cache, store, faults, putFails);
    var suite := match result
      case Ok(report) => FromRun(p, report).(time := time)
      case Err(e) => ErrorSuite("evald eval run", "evald.eval.run", message(e)).(time := time);
    written := Render(suite);
    ReportReads(suite);
    match result
    case Err(e) =>
      ErrorSpeaks("evald eval run", "evald.eval.run", message(e), time);
      r := Err(e);
    case Ok(report) =>
      ghost var end := Judged(env, config, items, faults, old(cache.table));
      RunSpeaks(p, info, config, items, E.EntriesOf(config.evaluators, items) + JudgeEntries(config.judges, end.outs), time);
      PassedIff(info, config, items, end.outs);
      r := Ok(report.Passed());
  }

  // ----- eval compare -----

  lemma CompareSpeaks(p: Prints, names: seq<string>, a: Aggregates, b: Aggregates, runA: string, runB: string, opts: CompareOpts,
                      welch: Welch, time: Printed)
    ensures var report := CompareReport(runA, runB, RowsOf(names, a, b, opts.alpha, welch));
            var cases := FromCompare(p, report, opts).(time := time).cases;
            (Failures(cases) == 0 <==> !GateFails(report, opts)) && Errors(cases) == 0
  {
    hide RowsOf, RowCase, GateFails;
    var report := CompareReport(runA, runB, RowsOf(names, a, b, opts.alpha, welch));
    RowsOfAreWhole(names, a, b, runA, runB, opts.alpha, welch);
    CompareReportFailsIffGateFails(p, report, opts);
    FailuresCounted(FromCompare(p, report, opts).cases);
    forall i | 0 <= i < |report.rows|
      ensures !FromCompare(p, report, opts).cases[i].outcome.Error?
    {
      RowCaseIsNoError(p, report.rows[i], opts);
    }
    NoErrorsCounted(FromCompare(p, report, opts).cases);
  }

  lemma RowCaseIsNoError(p: Prints, row: CompareRow, opts: CompareOpts)
    ensures !RowCase(p, row, opts).outcome.Error?
  {
    hide RowNumbers, RowNote, CellOf;
  }

  /**
   * `eval compare` with a report: the verdict is about the aggregates read back for the two runs, and what
   * an XML reader finds says the same.
   */
  method CompareCommand(p: Prints, store: ScoreStore, runA: string, runB: string, opts: CompareOpts, welch: Welch, sorted: Order,
                        time: Printed, message: CompareError -> string)
    returns (r: Result<bool, CompareError>, written: string, ghost a: Aggregates, ghost b: Aggregates)
    requires store.Valid() && IsOrder(sorted)
    ensures ReadsBack(store.scores, runA, a) && ReadsBack(store.scores, runB, b)
    ensures r.Ok? <==> a != map[] && b != map[]
    ensures r.Ok? ==> (r.value <==> !(opts.failOnRegression && exists name :: FellForSure(a, b, name, opts, welch)))
    ensures r.Ok? ==> exists failures :: Reads(written, failures, 0) && (failures == 0 <==> r.value)
    ensures r.Err? ==> Reads(written, 0, 1)
  {
    hide Reads, Document, FromCompare, ErrorSuite, Failures, Errors, RowsOf, GateFails, ReadsBack, FellForSure, IndexOf;
    var result;
    result, a, b := CompareRuns(store, runA, runB, opts.alpha, welch, sorted);
    var name := "evald eval compare " + runA + " vs " + runB;
    var suite := match result
      case Ok(report) => FromCompare(p, report, opts).(time := time)
      case Err(e) => ErrorSuite(name, "evald.eval.compare", message(e)).(time := time);
    written := Render(suite);
    ReportReads(suite);
    match result
    case Err(e) =>
      ErrorSpeaks(name, "evald.eval.compare", message(e), time);
      r := Err(e);
    case Ok(report) =>
      CompareSpeaks(p, sorted(a.Keys + b.Keys), a, b, runA, runB, opts, welch, time);
      assert Lists(sorted(a.Keys + b.Keys), a.Keys + b.Keys);
      GateFailsIff(sorted(a.Keys + b.Keys), a, b, runA, runB, opts, welch);
      r := Ok(!GateFails(report, opts));
  }
}
