/**
 * An eval run: every evaluator's outcomes become scores and an aggregate (src/eval.rs), the scores
 * are stored, and the aggregates are read back by run.
 */
module EvalRun {
  import opened Wrappers
  import opened Numerals
  import opened Scores
  import opened Dataset
  import C = Calibration

  datatype Aggregate = Aggregate(
    name: string,
    mean: real,
    passRate: real,
    scored: nat,
    skipped: nat,
    threshold: Option<real>,
    thresholdMet: bool)

  /** A run's identity, and how its aggregates are described. */
  datatype RunInfo = RunInfo(id: string, ts: nat, describe: (nat, real) -> string)

  // ----- Statistics -----

  function Sum(vs: seq<real>): real {
    if vs == [] then 0.0 else Sum(vs[..|vs| - 1]) + vs[|vs| - 1]
  }

  function Mean(vs: seq<real>): real {
    if vs == [] then 0.0 else Sum(vs) / |vs| as real
  }

  function SquaresAbout(vs: seq<real>, m: real): real {
    if vs == [] then 0.0
    else SquaresAbout(vs[..|vs| - 1], m) + C.Squared(vs[|vs| - 1] - m)
  }

  /** Two passes: the mean first, then the squares about it. */
  function Variance(vs: seq<real>): real {
    if |vs| <= 1 then 0.0 else SquaresAbout(vs, Mean(vs)) / (|vs| as real - 1.0)
  }

  predicate AllEqual(vs: seq<real>) {
    forall i, j :: 0 <= i < j < |vs| ==> vs[i] == vs[j]
  }

  lemma PositiveProduct(x: real, y: real)
    requires x > 0.0 && y > 0.0
    ensures x * y > 0.0
  {
  }

  lemma {:induction false} SquaresSign(vs: seq<real>, m: real)
    ensures SquaresAbout(vs, m) >= 0.0
    ensures SquaresAbout(vs, m) == 0.0 <==> forall i :: 0 <= i < |vs| ==> vs[i] == m
  {
    hide C.Squared;
    if vs != [] {
      var front, last := vs[..|vs| - 1], vs[|vs| - 1];
      SquaresSign(front, m);
      C.SquareNonNegative(last - m);
      if SquaresAbout(vs, m) == 0.0 {
        forall i | 0 <= i < |vs|
          ensures vs[i] == m
        {
          if i < |front| {
            assert front[i] == vs[i];
          }
        }
      }
    }
  }

  lemma {:induction false} SumOfEqual(vs: seq<real>, x: real)
    requires forall i :: 0 <= i < |vs| ==> vs[i] == x
    ensures Sum(vs) == |vs| as real * x
  {
    if vs != [] {
      SumOfEqual(vs[..|vs| - 1], x);
    }
  }

  lemma QuotientOfProduct(n: real, x: real)
    requires n > 0.0
    ensures n * x / n == x
  {
  }

  lemma QuotientSign(x: real, n: real)
    requires x >= 0.0 && n > 0.0
    ensures x / n >= 0.0 && (x / n == 0.0 <==> x == 0.0)
  {
  }

  /** The variance is never negative, and zero exactly for values that do not differ. */
  lemma VarianceSign(vs: seq<real>)
    ensures Variance(vs) >= 0.0 && (Variance(vs) == 0.0 <==> AllEqual(vs))
  {
    hide Sum;
    if |vs| > 1 {
      var m := Mean(vs);
      SquaresSign(vs, m);
      QuotientSign(SquaresAbout(vs, m), |vs| as real - 1.0);
      if AllEqual(vs) {
        SumOfEqual(vs, vs[0]);
        QuotientOfProduct(|vs| as real, vs[0]);
      }
    }
  }

  lemma {:induction false} SumBounds(vs: seq<real>, low: real, high: real)
    requires forall i :: 0 <= i < |vs| ==> low <= vs[i] <= high
    ensures |vs| as real * low <= Sum(vs) <= |vs| as real * high
  {
    if vs != [] {
      SumBounds(vs[..|vs| - 1], low, high);
    }
  }

  lemma ScaledStrict(n: real, a: real, b: real)
    requires n > 0.0 && a > b
    ensures n * a > n * b
  {
    PositiveProduct(n, a - b);
    assert n * (a - b) == n * a - n * b;
  }

  lemma ScaledOrder(n: real, a: real, b: real)
    requires n > 0.0 && n * a <= n * b
    ensures a <= b
  {
    if a > b {
      ScaledStrict(n, a, b);
    }
  }

  lemma QuotientBounds(x: real, n: real, low: real, high: real)
    requires n > 0.0 && n * low <= x <= n * high
    ensures low <= x / n <= high
  {
    var q := x / n;
    assert x == n * q;
    ScaledOrder(n, low, q);
    ScaledOrder(n, q, high);
  }

  /** A mean lies between the values. */
  lemma MeanBounds(vs: seq<real>, low: real, high: real)
    requires vs != [] && forall i :: 0 <= i < |vs| ==> low <= vs[i] <= high
    ensures low <= Mean(vs) <= high
  {
    hide Sum;
    SumBounds(vs, low, high);
    QuotientBounds(Sum(vs), |vs| as real, low, high);
  }

  // ----- One evaluator -----

  function Values(outcomes: Outcomes): (vs: seq<real>)
    ensures |vs| <= |outcomes|
  {
    if outcomes == [] then []
    else
      var last := outcomes[|outcomes| - 1];
      Values(outcomes[..|outcomes| - 1]) + if last.Some? then [last.value.value] else []
  }

  function PassCount(outcomes: Outcomes): nat {
    if outcomes == [] then 0
    else
      var last := outcomes[|outcomes| - 1];
      PassCount(outcomes[..|outcomes| - 1]) + if last.Some? && last.value.passed then 1 else 0
  }

  function ItemId(runId: string, name: string, idx: nat): string { runId + ":" + name + ":" + Decimal(idx) }

  function AggId(runId: string, name: string): string { runId + ":agg:" + name }

  function ScoreOf(run: RunInfo, name: string, item: DatasetItem, idx: nat, s: ItemScore): Score {
    Score(ItemId(run.id, name, idx), item.Target(run.id), name, Some(s.value), Eval, s.comment, Some(run.id), None, run.ts)
  }

  /** A score for each outcome that can attach to a span or a trace, over the first `n` items. */
  function ItemScores(run: RunInfo, name: string, items: seq<DatasetItem>, outcomes: Outcomes, n: nat): seq<Score>
    requires n <= |items| == |outcomes|
  {
    if n == 0 then []
    else
      ItemScores(run, name, items, outcomes, n - 1)
      + if outcomes[n - 1].Some? && items[n - 1].HasSpanOrTrace()
        then [ScoreOf(run, name, items[n - 1], n - 1, outcomes[n - 1].value)] else []
  }

  function PassRate(outcomes: Outcomes): real {
    if Values(outcomes) == [] then 0.0 else PassCount(outcomes) as real / |Values(outcomes)| as real
  }

  function StatsOf(outcomes: Outcomes): AggStats {
    AggStats(|Values(outcomes)|, PassCount(outcomes), Mean(Values(outcomes)), Variance(Values(outcomes)))
  }

  function AggScore(run: RunInfo, name: string, outcomes: Outcomes): Score {
    Score(AggId(run.id, name), Run(run.id), name, Some(Mean(Values(outcomes))), Eval,
          Some(run.describe(|Values(outcomes)|, PassRate(outcomes))), Some(run.id), Some(StatsOf(outcomes)), run.ts)
  }

  /** An evaluator that scored nothing meets its threshold whatever it is. */
  function AggregateOf(name: string, outcomes: Outcomes, threshold: Option<real>): Aggregate {
    var vs := Values(outcomes);
    Aggregate(name, Mean(vs), PassRate(outcomes), |vs|, |outcomes| - |vs|, threshold,
              vs == [] || threshold.None? || Mean(vs) >= threshold.value)
  }

  lemma {:induction false} ValuesFit(outcomes: Outcomes)
    ensures PassCount(outcomes) <= |Values(outcomes)|
  {
    if outcomes != [] {
      ValuesFit(outcomes[..|outcomes| - 1]);
    }
  }

  /** Every item is scored or skipped, and the pass rate is a share. */
  lemma AggregateAddsUp(name: string, outcomes: Outcomes, threshold: Option<real>)
    ensures var a := AggregateOf(name, outcomes, threshold);
            a.scored + a.skipped == |outcomes| && 0.0 <= a.passRate <= 1.0
  {
    hide Values, PassCount, Mean;
    ValuesFit(outcomes);
    if Values(outcomes) != [] {
      QuotientBounds(PassCount(outcomes) as real, |Values(outcomes)| as real, 0.0, 1.0);
    }
  }

  // ----- The same, over the outcomes alone -----

  function ScoredCount(outcomes: Outcomes): nat {
    if outcomes == [] then 0
    else (if outcomes[0].Some? then 1 else 0) + ScoredCount(outcomes[1..])
  }

  function ScoredSum(outcomes: Outcomes): real {
    if outcomes == [] then 0.0
    else (if outcomes[0].Some? then outcomes[0].value.value else 0.0) + ScoredSum(outcomes[1..])
  }

  /** The square of what lies between a score and `m`. */
  function SquareFrom(outcome: Option<ItemScore>, m: real): real {
    if outcome.Some? then (outcome.value.value - m) * (outcome.value.value - m) else 0.0
  }

  function ScoredSquares(outcomes: Outcomes, m: real): real {
    if outcomes == [] then 0.0 else SquareFrom(outcomes[0], m) + ScoredSquares(outcomes[1..], m)
  }

  function PassedAt(outcomes: Outcomes): set<nat> {
    set i: nat | i < |outcomes| && outcomes[i].Some? && outcomes[i].value.passed
  }

  /** Something was scored, and it falls short of the threshold on average. */
  predicate FallsShort(outcomes: Outcomes, threshold: real) {
    ScoredCount(outcomes) > 0 && ScoredSum(outcomes) < ScoredCount(outcomes) as real * threshold
  }

  lemma ScoredFirst(first: Option<ItemScore>, rest: Outcomes, m: real)
    ensures ScoredCount([first] + rest) == (if first.Some? then 1 else 0) + ScoredCount(rest)
    ensures ScoredSum([first] + rest) == (if first.Some? then first.value.value else 0.0) + ScoredSum(rest)
    ensures ScoredSquares([first] + rest, m) == SquareFrom(first, m) + ScoredSquares(rest, m)
  {
    hide SquareFrom;
    assert ([first] + rest)[1..] == rest;
  }

  lemma {:induction false} ScoredMore(outcomes: Outcomes, last: Option<ItemScore>, m: real)
    ensures ScoredCount(outcomes + [last]) == ScoredCount(outcomes) + if last.Some? then 1 else 0
    ensures ScoredSum(outcomes + [last]) == ScoredSum(outcomes) + if last.Some? then last.value.value else 0.0
    ensures ScoredSquares(outcomes + [last], m) == ScoredSquares(outcomes, m) + SquareFrom(last, m)
  {
    hide *;
    if outcomes == [] {
      ScoredFirst(last, [], m);
      NothingScored(m);
      assert [] + [last] == [last] + [];
    } else {
      var first, rest := outcomes[0], outcomes[1..];
      ScoredMore(rest, last, m);
      ScoredFirst(first, rest, m);
      ScoredFirst(first, rest + [last], m);
      assert outcomes == [first] + rest && outcomes + [last] == [first] + (rest + [last]);
    }
  }

  lemma {:induction false} ValuesAreScored(outcomes: Outcomes, m: real)
    ensures |Values(outcomes)| == ScoredCount(outcomes) && Sum(Values(outcomes)) == ScoredSum(outcomes)
    ensures SquaresAbout(Values(outcomes), m) == ScoredSquares(outcomes, m)
  {
    hide ScoredCount, ScoredSum, ScoredSquares;
    if outcomes == [] {
      NothingScored(m);
    } else {
      var front, last := outcomes[..|outcomes| - 1], outcomes[|outcomes| - 1];
      ValuesAreScored(front, m);
      ScoredMore(front, last, m);
      assert outcomes == front + [last];
      OneMoreValue(Values(front), last, m);
    }
  }

  lemma NothingScored(m: real)
    ensures ScoredCount([]) == 0 && ScoredSum([]) == 0.0 && ScoredSquares([], m) == 0.0
  {
  }

  lemma OneMoreValue(vs: seq<real>, last: Option<ItemScore>, m: real)
    ensures var more := vs + if last.Some? then [last.value.value] else [];
            && Sum(more) == Sum(vs) + (if last.Some? then last.value.value else 0.0)
            && SquaresAbout(more, m) == SquaresAbout(vs, m) + SquareFrom(last, m)
  {
    if last.Some? {
      var x := last.value.value;
      assert (vs + [x])[..|vs|] == vs;
    } else {
      assert vs + [] == vs;
    }
  }

  lemma {:induction false} PassCountIs(outcomes: Outcomes)
    ensures PassCount(outcomes) == |PassedAt(outcomes)|
  {
    if outcomes == [] {
      assert PassedAt(outcomes) == {};
    } else {
      var n := |outcomes| - 1;
      PassCountIs(outcomes[..n]);
      var before := PassedAt(outcomes[..n]);
      assert n !in before;
      assert PassedAt(outcomes) == if outcomes[n].Some? && outcomes[n].value.passed then before + {n} else before;
    }
  }

  lemma QuotientBelow(x: real, n: real, t: real)
    requires n > 0.0
    ensures x / n >= t <==> x >= n * t
  {
    var q := x / n;
    assert x == n * q;
    if q >= t {
      if q > t {
        ScaledStrict(n, q, t);
      }
    } else {
      ScaledStrict(n, t, q);
    }
  }

  /** A threshold is missed exactly when the scores fall short of it. */
  lemma ThresholdMetIff(name: string, outcomes: Outcomes, threshold: Option<real>)
    ensures AggregateOf(name, outcomes, threshold).thresholdMet <==> threshold.None? || !FallsShort(outcomes, threshold.value)
  {
    hide Sum, Values, ScoredCount, ScoredSum;
    ValuesAreScored(outcomes, 0.0);
    if threshold.Some? && ScoredCount(outcomes) > 0 {
      QuotientBelow(ScoredSum(outcomes), ScoredCount(outcomes) as real, threshold.value);
    }
  }

  lemma TimesQuotient(x: real, n: real)
    requires n > 0.0
    ensures n * (x / n) == x
  {
  }

  /** The kept statistics: how many were scored and how many passed, their mean, and their spread over one less. */
  lemma StatsAre(outcomes: Outcomes)
    ensures var stats := StatsOf(outcomes);
            && stats.n == ScoredCount(outcomes) && stats.passCount == |PassedAt(outcomes)|
            && (stats.n == 0 ==> stats.mean == 0.0) && stats.n as real * stats.mean == ScoredSum(outcomes)
            && (stats.n <= 1 ==> stats.variance == 0.0)
            && (stats.n > 1 ==> (stats.n as real - 1.0) * stats.variance == ScoredSquares(outcomes, stats.mean))
  {
    hide Sum, SquaresAbout, Values, ScoredCount, ScoredSum, ScoredSquares, PassCount, PassedAt;
    ValuesAreScored(outcomes, Mean(Values(outcomes)));
    PassCountIs(outcomes);
    var n := |Values(outcomes)|;
    if n > 0 {
      TimesQuotient(ScoredSum(outcomes), n as real);
    } else {
      NothingSummed(outcomes);
    }
    if n > 1 {
      TimesQuotient(ScoredSquares(outcomes, Mean(Values(outcomes))), n as real - 1.0);
    }
  }

  /** An aggregate, in the terms of the outcomes: who was scored and who was not, their mean, and the share that passed. */
  lemma AggregateIs(name: string, outcomes: Outcomes, threshold: Option<real>)
    ensures var a := AggregateOf(name, outcomes, threshold);
            && a.name == name && a.threshold == threshold
            && a.scored == ScoredCount(outcomes) && a.scored + a.skipped == |outcomes|
            && a.scored as real * a.mean == ScoredSum(outcomes) && (a.scored == 0 ==> a.mean == 0.0)
            && a.scored as real * a.passRate == |PassedAt(outcomes)| as real && (a.scored == 0 ==> a.passRate == 0.0)
  {
    hide *;
    AggregateFields(name, outcomes, threshold);
    ValuesAreScored(outcomes, 0.0);
    MeanTimes(Values(outcomes));
    RateTimes(outcomes);
    AggregateAddsUp(name, outcomes, threshold);
  }

  lemma AggregateFields(name: string, outcomes: Outcomes, threshold: Option<real>)
    ensures var a := AggregateOf(name, outcomes, threshold);
            && a.name == name && a.threshold == threshold && a.scored == |Values(outcomes)|
            && a.mean == Mean(Values(outcomes)) && a.passRate == PassRate(outcomes)
  {
    hide Mean, PassRate, Values;
  }

  lemma MeanTimes(vs: seq<real>)
    ensures |vs| as real * Mean(vs) == Sum(vs) && (vs == [] ==> Mean(vs) == 0.0)
  {
    if vs != [] {
      TimesQuotient(Sum(vs), |vs| as real);
    }
  }

  lemma RateTimes(outcomes: Outcomes)
    ensures |Values(outcomes)| as real * PassRate(outcomes) == |PassedAt(outcomes)| as real
    ensures Values(outcomes) == [] ==> PassRate(outcomes) == 0.0
  {
    hide Values, PassCount, PassedAt;
    PassCountIs(outcomes);
    ValuesFit(outcomes);
    if Values(outcomes) != [] {
      TimesQuotient(PassCount(outcomes) as real, |Values(outcomes)| as real);
    }
  }

  lemma {:induction false} NothingSummed(outcomes: Outcomes)
    requires ScoredCount(outcomes) == 0
    ensures ScoredSum(outcomes) == 0.0
  {
    if outcomes != [] {
      NothingSummed(outcomes[1..]);
    }
  }

  /** A score of an item stands at its span where it names one, else at its trace, and never at the run. */
  lemma {:induction false} ItemScoresStand(run: RunInfo, name: string, items: seq<DatasetItem>, outcomes: Outcomes, n: nat)
    requires n <= |items| == |outcomes|
    ensures forall s :: s in ItemScores(run, name, items, outcomes, n) ==>
              exists i :: && 0 <= i < n && outcomes[i].Some? && s.value == Some(outcomes[i].value.value) && s.name == name
                          && s.comment == outcomes[i].value.comment && s.ts == run.ts && s.configId == Some(run.id)
                          && s.target == if items[i].spanId.UnwrapOr("") != "" then Span(items[i].spanId.value)
                                         else Trace(items[i].traceId.UnwrapOr(""))
  {
    hide ItemId;
    if n > 0 {
      ItemScoresStand(run, name, items, outcomes, n - 1);
    }
  }

  predicate IsPlaced(item: DatasetItem) {
    item.spanId.UnwrapOr("") != "" || item.traceId.UnwrapOr("") != ""
  }

  /** Where the scored items are that name a span or a trace. */
  function PlacedAt(items: seq<DatasetItem>, outcomes: Outcomes, n: nat): set<nat>
    requires n <= |items| == |outcomes|
  {
    set i: nat | i < n && outcomes[i].Some? && IsPlaced(items[i])
  }

  /** The kept score of an item. */
  predicate Keeps(run: RunInfo, name: string, outcome: Option<ItemScore>, i: nat, s: Score) {
    outcome.Some? && s.id == run.id + ":" + name + ":" + Decimal(i) && s.value == Some(outcome.value.value)
  }

  lemma OneMoreKept(run: RunInfo, name: string, items: seq<DatasetItem>, outcomes: Outcomes, n: nat)
    requires n < |items| == |outcomes|
    ensures var before, after := ItemScores(run, name, items, outcomes, n), ItemScores(run, name, items, outcomes, n + 1);
            if outcomes[n].Some? && IsPlaced(items[n])
            then exists last :: after == before + [last] && Keeps(run, name, outcomes[n], n, last)
            else after == before
  {
    hide Decimal;
    if outcomes[n].Some? && IsPlaced(items[n]) {
      assert Keeps(run, name, outcomes[n], n, ScoreOf(run, name, items[n], n, outcomes[n].value));
    }
  }

  lemma OneMorePlaced(items: seq<DatasetItem>, outcomes: Outcomes, n: nat)
    requires n < |items| == |outcomes|
    ensures |PlacedAt(items, outcomes, n + 1)|
         == |PlacedAt(items, outcomes, n)| + if outcomes[n].Some? && IsPlaced(items[n]) then 1 else 0
  {
    hide IsPlaced;
    var before := PlacedAt(items, outcomes, n);
    assert n !in before;
    assert PlacedAt(items, outcomes, n + 1) == if outcomes[n].Some? && IsPlaced(items[n]) then before + {n} else before;
  }

  /** Each of those is kept, under the run's, the evaluator's and its own number, and no more. */
  lemma {:induction false} ItemScoresAreAll(run: RunInfo, name: string, items: seq<DatasetItem>, outcomes: Outcomes, n: nat)
    requires n <= |items| == |outcomes|
    ensures |ItemScores(run, name, items, outcomes, n)| == |PlacedAt(items, outcomes, n)|
    ensures forall i :: 0 <= i < n && outcomes[i].Some? && IsPlaced(items[i]) ==>
              exists s :: s in ItemScores(run, name, items, outcomes, n) && Keeps(run, name, outcomes[i], i, s)
    decreases n
  {
    hide ItemScores, PlacedAt, IsPlaced, Keeps;
    if n == 0 {
      NoneKept(run, name, items, outcomes);
    } else {
      ItemScoresAreAll(run, name, items, outcomes, n - 1);
      OneMorePlaced(items, outcomes, n - 1);
      OneMoreKept(run, name, items, outcomes, n - 1);
    }
  }

  lemma NoneKept(run: RunInfo, name: string, items: seq<DatasetItem>, outcomes: Outcomes)
    requires |items| == |outcomes|
    ensures ItemScores(run, name, items, outcomes, 0) == [] && PlacedAt(items, outcomes, 0) == {}
  {
  }

  method FinalizeEvaluator(run: RunInfo, name: string, outcomes: Outcomes, items: seq<DatasetItem>, threshold: Option<real>,
                           scores: seq<Score>)
    returns (agg: Aggregate, scores': seq<Score>)
    requires |items| == |outcomes|
    ensures agg == AggregateOf(name, outcomes, threshold)
    ensures scores' == scores + ItemScores(run, name, items, outcomes, |items|) + [AggScore(run, name, outcomes)]
  {
    hide Sum, SquaresAbout, Decimal, ScoreOf, ScoredCount, ScoredSum, ScoredSquares, PassedAt, FallsShort;
    scores' := scores;
    var values, passes := [], 0;
    for idx := 0 to |items|
      invariant values == Values(outcomes[..idx]) && passes == PassCount(outcomes[..idx])
      invariant scores' == scores + ItemScores(run, name, items, outcomes, idx)
    {
      assert outcomes[..idx + 1][..idx] == outcomes[..idx];
      if outcomes[idx] == None {
        continue;
      }
      var outcome := outcomes[idx].value;
      values := values + [outcome.value];
      if outcome.passed {
        passes := passes + 1;
      }
      if items[idx].HasSpanOrTrace() {
        scores' := scores' + [ScoreOf(run, name, items[idx], idx, outcome)];
      }
    }
    assert outcomes[..|items|] == outcomes;
    ValuesFit(outcomes);
    var scored := |values|;
    var skipped := |items| - scored;
    var mean := if scored > 0 then Sum(values) / scored as real else 0.0;
    var variance := if scored > 1 then SquaresAbout(values, mean) / (scored as real - 1.0) else 0.0;
    var passRate := if scored > 0 then passes as real / scored as real else 0.0;
    var met := scored == 0 || threshold.None? || mean >= threshold.value;
    scores' := scores' + [Score(AggId(run.id, name), Run(run.id), name, Some(mean), Eval, Some(run.describe(scored, passRate)),
                                Some(run.id), Some(AggStats(scored, passes, mean, variance)), run.ts)];
    agg := Aggregate(name, mean, passRate, scored, skipped, threshold, met);
  }

  // ----- The whole run -----

  datatype Evaluator = Evaluator(name: string, score: DatasetItem -> Option<ItemScore>)

  datatype Report = Report(runId: string, name: Option<string>, itemCount: nat, aggregates: seq<Aggregate>) {
    /** The gate. */
    predicate Passed() {
      forall i :: 0 <= i < |aggregates| ==> aggregates[i].thresholdMet
    }
  }

  /** What one evaluator or judge made of the dataset. */
  datatype Entry = Entry(name: string, outcomes: Outcomes)

  predicate Aligned(entries: seq<Entry>, items: seq<DatasetItem>) {
    forall i :: 0 <= i < |entries| ==> |entries[i].outcomes| == |items|
  }

  predicate DistinctNames(entries: seq<Entry>) {
    forall i, j :: 0 <= i < j < |entries| ==> entries[i].name != entries[j].name
  }

  /** All scores of the first `n` evaluators. */
  function AllScores(run: RunInfo, entries: seq<Entry>, items: seq<DatasetItem>, n: nat): seq<Score>
    requires n <= |entries| && Aligned(entries, items)
  {
    if n == 0 then []
    else
      var e := entries[n - 1];
      AllScores(run, entries, items, n - 1) + ItemScores(run, e.name, items, e.outcomes, |items|)
      + [AggScore(run, e.name, e.outcomes)]
  }

  function ThresholdOf(thresholds: map<string, real>, name: string): Option<real> {
    if name in thresholds then Some(thresholds[name]) else None
  }

  function EntryOf(ev: Evaluator, items: seq<DatasetItem>): (e: Entry)
    ensures |e.outcomes| == |items|
  {
    Entry(ev.name, seq(|items|, i requires 0 <= i < |items| => ev.score(items[i])))
  }

  function EntriesOf(evs: seq<Evaluator>, items: seq<DatasetItem>): (es: seq<Entry>)
    ensures |es| == |evs| && Aligned(es, items)
  {
    seq(|evs|, i requires 0 <= i < |evs| => EntryOf(evs[i], items))
  }

  datatype RunError = DuplicateEvaluator(name: string)

  /** Fails exactly when two evaluators share a name; else one aggregate each, and all their scores. */
  method RunEval(run: RunInfo, name: Option<string>, evs: seq<Evaluator>, thresholds: map<string, real>, items: seq<DatasetItem>)
    returns (r: Result<(Report, seq<Score>), RunError>)
    ensures r.Ok? <==> DistinctNames(EntriesOf(evs, items))
    ensures r.Ok? ==>
              var entries := EntriesOf(evs, items);
              && r.value.0.runId == run.id && r.value.0.name == name && r.value.0.itemCount == |items|
              && |r.value.0.aggregates| == |entries|
              && (forall i :: 0 <= i < |entries| ==>
                    r.value.0.aggregates[i]
                    == AggregateOf(entries[i].name, entries[i].outcomes, ThresholdOf(thresholds, entries[i].name)))
              && r.value.1 == AllScores(run, entries, items, |entries|)
  {
    hide AggregateOf, ItemScores, AggScore;
    ghost var entries := EntriesOf(evs, items);
    var seen: set<string> := {};
    for i := 0 to |evs|
      invariant forall s :: s in seen <==> exists j :: 0 <= j < i && evs[j].name == s
      invariant forall j, k :: 0 <= j < k < i ==> entries[j].name != entries[k].name
    {
      if evs[i].name in seen {
        ghost var j :| 0 <= j < i && evs[j].name == evs[i].name;
        assert entries[j].name == entries[i].name;
        return Err(DuplicateEvaluator(evs[i].name));
      }
      seen := seen + {evs[i].name};
    }
    var scores, aggregates := [], [];
    for i := 0 to |evs|
      invariant scores == AllScores(run, entries, items, i) && |aggregates| == i
      invariant forall k :: 0 <= k < i ==>
                  aggregates[k] == AggregateOf(entries[k].name, entries[k].outcomes, ThresholdOf(thresholds, entries[k].name))
    {
      var e := EntryOf(evs[i], items);
      var agg;
      agg, scores := FinalizeEvaluator(run, e.name, e.outcomes, items, ThresholdOf(thresholds, e.name), scores);
      aggregates := aggregates + [agg];
    }
    r := Ok((Report(run.id, name, |items|, aggregates), scores));
  }
}
