/** The JUnit reports of `eval run` and `eval compare` fail exactly when the command's gate does (src/junit.rs). */
module JunitGates {
  import opened Wrappers
  import opened Numerals
  import opened Junit
  import opened Dataset
  import E = EvalRun
  import opened EvalCompare

  /** How numbers are printed: to three places, with their sign, and the rest of a row's statistics. */
  datatype Prints = Prints(
    fixed: real -> string,
    signed: real -> string,
    statistics: (Option<Signif>, real) -> string,
    alpha: real -> string)

  const NO_TIME: Printed := "0.000"

  function CellOf(p: Prints, v: Option<real>): string {
    if v.Some? then p.fixed(v.value) else "-"
  }

  // ----- eval run -----

  function RunCase(p: Prints, a: E.Aggregate): Case {
    var threshold := if a.threshold.Some? then p.fixed(a.threshold.value) else "none";
    var numbers := "mean=" + p.fixed(a.mean) + " pass_rate=" + p.fixed(a.passRate) + " scored=" + Decimal(a.scored)
                   + " skipped=" + Decimal(a.skipped) + " threshold=" + threshold;
    Case(a.name,
         if a.scored == 0 then Skipped("no items scored (every item was skipped)")
         else if !a.thresholdMet then
           Fail("ThresholdNotMet", a.name + ": mean " + p.fixed(a.mean) + " is below the threshold " + threshold, numbers)
         else Pass,
         Some(numbers))
  }

  function FromRun(p: Prints, report: E.Report): Suite {
    Suite("evald eval run " + report.name.UnwrapOr(report.runId), "evald.eval.run", NO_TIME,
          [Property("run_id", report.runId), Property("items", Decimal(report.itemCount))],
          seq(|report.aggregates|, i requires 0 <= i < |report.aggregates| => RunCase(p, report.aggregates[i])))
  }

  // ----- eval compare -----

  predicate RowGates(row: CompareRow, opts: CompareOpts) {
    opts.failOnRegression && row.Gates(opts.tolerance, opts.significance)
  }

  function RowNumbers(p: Prints, row: CompareRow, alpha: real): string {
    "run_a=" + CellOf(p, row.a) + " run_b=" + CellOf(p, row.b)
    + " delta=" + (if row.delta.Some? then p.signed(row.delta.value) else "-")
    + " n_a=" + (if row.nA.Some? then Decimal(row.nA.value) else "-")
    + " n_b=" + (if row.nB.Some? then Decimal(row.nB.value) else "-") + " " + p.statistics(row.signif, alpha)
  }

  function RowNote(row: CompareRow, opts: CompareOpts): string {
    if row.IsRegression(opts.tolerance) && !RowGates(row, opts) then
      if !opts.failOnRegression then "; regressed beyond tolerance, not gated (--fail-on-regression is off)"
      else "; regressed beyond tolerance but proven within sampling noise"
    else ""
  }

  function RowOutcome(p: Prints, row: CompareRow, opts: CompareOpts): Outcome {
    if row.a.None? && row.b.Some? then Skipped("evaluator only in run B")
    else if row.a.Some? && row.b.None? then Skipped("evaluator only in run A")
    else if RowGates(row, opts) then
      Fail("Regression",
           row.evaluator + ": " + CellOf(p, row.a) + " -> " + CellOf(p, row.b) + " (delta "
           + (if row.delta.Some? then p.signed(row.delta.value) else "") + ") is beyond the tolerance " + p.fixed(opts.tolerance),
           RowNumbers(p, row, opts.alpha))
    else Pass
  }

  function RowCase(p: Prints, row: CompareRow, opts: CompareOpts): Case {
    Case(row.evaluator, RowOutcome(p, row, opts), Some(RowNumbers(p, row, opts.alpha) + RowNote(row, opts)))
  }

  function BoolText(b: bool): string { if b then "true" else "false" }

  function FromCompare(p: Prints, report: CompareReport, opts: CompareOpts): Suite {
    Suite("evald eval compare " + report.runA + " vs " + report.runB, "evald.eval.compare", NO_TIME,
          [Property("run_a", report.runA), Property("run_b", report.runB), Property("tolerance", p.fixed(opts.tolerance)),
           Property("significance", BoolText(opts.significance)), Property("alpha", p.alpha(opts.alpha)),
           Property("fail_on_regression", BoolText(opts.failOnRegression))],
          seq(|report.rows|, i requires 0 <= i < |report.rows| => RowCase(p, report.rows[i], opts)))
  }

  /** A command that could not run: one errored case. */
  function ErrorSuite(name: string, classname: string, message: string): Suite {
    Suite(name, classname, NO_TIME, [], [Case("run", Error(FirstLine(message), message), None)])
  }

  function FirstLine(s: string): string {
    if s == "" || s[0] == '\n' then "" else if s[0] == '\r' && |s| > 1 && s[1] == '\n' then "" else [s[0]] + FirstLine(s[1..])
  }

  // ----- The report says what the gate says -----

  predicate HasFail(suite: Suite) { exists i :: 0 <= i < |suite.cases| && suite.cases[i].outcome.Fail? }

  lemma {:induction false} FailuresCounted(cases: seq<Case>)
    ensures Failures(cases) > 0 <==> exists i :: 0 <= i < |cases| && cases[i].outcome.Fail?
  {
    if cases != [] {
      var front := cases[..|cases| - 1];
      FailuresCounted(front);
      if i :| 0 <= i < |front| && front[i].outcome.Fail? {
        assert cases[i].outcome.Fail?;
      }
    }
  }

  /** What makes an aggregate that scored nothing harmless; every aggregate of a run has it. */
  predicate UnscoredMeets(report: E.Report) {
    forall i :: 0 <= i < |report.aggregates| ==> report.aggregates[i].scored == 0 ==> report.aggregates[i].thresholdMet
  }

  lemma AggregatesMeetUnscored(name: string, outcomes: Outcomes, threshold: Option<real>)
    ensures var a := E.AggregateOf(name, outcomes, threshold); a.scored == 0 ==> a.thresholdMet
  {
  }

  lemma RunReportFailsIffGateFails(p: Prints, report: E.Report)
    requires UnscoredMeets(report)
    ensures HasFail(FromRun(p, report)) <==> !report.Passed()
  {
    hide RunCase;
    var cases := FromRun(p, report).cases;
    forall i | 0 <= i < |cases|
      ensures cases[i].outcome.Fail? <==> !report.aggregates[i].thresholdMet
    {
      RunCaseFails(p, report.aggregates[i]);
    }
  }

  lemma RunCaseFails(p: Prints, a: E.Aggregate)
    ensures RunCase(p, a).outcome.Fail? <==> a.scored != 0 && !a.thresholdMet
  {
    hide Decimal;
  }

  /** A row's difference is there exactly when both sides are. */
  predicate RowsAreWhole(report: CompareReport) {
    forall i :: 0 <= i < |report.rows| ==> (report.rows[i].delta.Some? <==> report.rows[i].a.Some? && report.rows[i].b.Some?)
  }

  lemma CompareReportFailsIffGateFails(p: Prints, report: CompareReport, opts: CompareOpts)
    requires RowsAreWhole(report)
    ensures HasFail(FromCompare(p, report, opts)) <==> GateFails(report, opts)
  {
    hide RowCase;
    var cases := FromCompare(p, report, opts).cases;
    forall i | 0 <= i < |cases|
      ensures cases[i].outcome.Fail? <==> RowGates(report.rows[i], opts)
    {
      RowCaseFails(p, report.rows[i], opts);
    }
    if GateFails(report, opts) {
      if opts.significance {
        var i :| 0 <= i < |report.rows| && report.rows[i].GatesInSignificanceMode(opts.tolerance);
        assert cases[i].outcome.Fail?;
      } else {
        var i :| 0 <= i < |report.rows| && report.rows[i].IsRegression(opts.tolerance);
        assert cases[i].outcome.Fail?;
      }
    }
  }

  lemma RowCaseFails(p: Prints, row: CompareRow, opts: CompareOpts)
    requires row.delta.Some? <==> row.a.Some? && row.b.Some?
    ensures RowCase(p, row, opts).outcome.Fail? <==> RowGates(row, opts)
  {
    hide RowNumbers, RowNote, CellOf;
  }

  lemma RowsOfAreWhole(names: seq<string>, a: Aggregates, b: Aggregates, runA: string, runB: string, alpha: real, welch: Welch)
    ensures RowsAreWhole(CompareReport(runA, runB, RowsOf(names, a, b, alpha, welch)))
  {
  }

  // ----- What each case says -----

  /** Where the cases are that are skipped. */
  function SkippedPlaces(suite: Suite): set<nat> {
    set i: nat | i < |suite.cases| && suite.cases[i].outcome.Skipped?
  }

  predicate HasPart(s: string, part: string) {
    exists i :: 0 <= i <= |s| && part <= s[i..]
  }

  /** What the case of an evaluator says: skipped, failed or passed, and of a failure the mean and the threshold. */
  predicate SaysOfRun(p: Prints, a: E.Aggregate, c: Case) {
    && c.name == a.name
    && (a.scored == 0 ==> c.outcome == Skipped("no items scored (every item was skipped)"))
    && (a.scored > 0 && a.thresholdMet ==> c.outcome == Pass)
    && (a.scored > 0 && !a.thresholdMet ==>
          && c.outcome.Fail? && c.outcome.kind == "ThresholdNotMet" && a.name <= c.outcome.message
          && HasPart(c.outcome.message, p.fixed(a.mean))
          && (a.threshold.Some? ==> HasPart(c.outcome.message, p.fixed(a.threshold.value))))
  }

  lemma PartOf(before: string, part: string, behind: string)
    ensures HasPart(before + part + behind, part)
  {
    var s := before + part + behind;
    assert s[|before|..] == part + behind;
    assert part <= s[|before|..];
  }

  lemma RunCaseSays(p: Prints, a: E.Aggregate)
    ensures SaysOfRun(p, a, RunCase(p, a))
  {
    hide Decimal, HasPart;
    var mean, threshold := p.fixed(a.mean), if a.threshold.Some? then p.fixed(a.threshold.value) else "none";
    var message := a.name + ": mean " + mean + " is below the threshold " + threshold;
    PartOf(a.name + ": mean ", mean, " is below the threshold " + threshold);
    assert a.name + ": mean " + mean + (" is below the threshold " + threshold) == message;
    PartOf(a.name + ": mean " + mean + " is below the threshold ", threshold, "");
    assert a.name + ": mean " + mean + " is below the threshold " + threshold + "" == message;
    assert a.name <= message;
  }

  /** A run's report has a case for each of its evaluators, in their order. */
  lemma RunReportSays(p: Prints, report: E.Report)
    ensures var suite := FromRun(p, report);
            && |suite.cases| == |report.aggregates|
            && (forall i :: 0 <= i < |suite.cases| ==> SaysOfRun(p, report.aggregates[i], suite.cases[i]))
            && SkippedPlaces(suite) == set i: nat | i < |report.aggregates| && report.aggregates[i].scored == 0
  {
    hide RunCase, HasPart;
    forall i | 0 <= i < |report.aggregates|
      ensures SaysOfRun(p, report.aggregates[i], RunCase(p, report.aggregates[i]))
    {
      RunCaseSays(p, report.aggregates[i]);
    }
  }

  /** What the case of a compared evaluator says: one in a single run is skipped, with that run. */
  predicate SaysOfRow(p: Prints, row: CompareRow, opts: CompareOpts, c: Case) {
    && c.name == row.evaluator
    && (row.a.None? && row.b.Some? ==> c.outcome == Skipped("evaluator only in run B"))
    && (row.a.Some? && row.b.None? ==> c.outcome == Skipped("evaluator only in run A"))
    && (row.a.Some? && row.b.Some? && !RowGates(row, opts) ==> c.outcome == Pass)
    && (row.a.Some? && row.b.Some? && RowGates(row, opts) ==>
          && c.outcome.Fail? && c.outcome.kind == "Regression" && row.evaluator <= c.outcome.message
          && HasPart(c.outcome.message, p.fixed(row.a.value) + " -> " + p.fixed(row.b.value)))
  }

  lemma RowCaseSays(p: Prints, row: CompareRow, opts: CompareOpts)
    ensures SaysOfRow(p, row, opts, RowCase(p, row, opts))
  {
    hide RowNumbers, RowNote, HasPart, RowGates;
    if row.a.Some? && row.b.Some? && RowGates(row, opts) {
      var c := RowCase(p, row, opts);
      assert c.outcome.Fail?;
      Moved(row.evaluator, p.fixed(row.a.value), p.fixed(row.b.value),
            if row.delta.Some? then p.signed(row.delta.value) else "", p.fixed(opts.tolerance));
    }
  }

  lemma Moved(name: string, a: string, b: string, delta: string, tolerance: string)
    ensures var message := name + ": " + a + " -> " + b + " (delta " + delta + ") is beyond the tolerance " + tolerance;
            name <= message && HasPart(message, a + " -> " + b)
  {
    hide HasPart;
    var head, tail := name + ": ", " (delta " + delta + ") is beyond the tolerance " + tolerance;
    PartOf(head, a + " -> " + b, tail);
    assert name + ": " + a + " -> " + b + " (delta " + delta + ") is beyond the tolerance " + tolerance
        == head + (a + " -> " + b) + tail;
  }

  /** A comparison's report has a case for each of its rows, in their order. */
  lemma CompareReportSays(p: Prints, report: CompareReport, opts: CompareOpts)
    ensures var suite := FromCompare(p, report, opts);
            && |suite.cases| == |report.rows|
            && (forall i :: 0 <= i < |suite.cases| ==> SaysOfRow(p, report.rows[i], opts, suite.cases[i]))
  {
    hide RowCase, SaysOfRow;
    forall i | 0 <= i < |report.rows|
      ensures SaysOfRow(p, report.rows[i], opts, RowCase(p, report.rows[i], opts))
    {
      RowCaseSays(p, report.rows[i], opts);
    }
  }

  // ----- Writing it -----

  datatype CommandError = CommandError(message: string)

  /** What the disk makes of a report: nothing, or the reason it could not be written. */
  type Disk = Suite -> Option<string>

  /** The outcome of writing the report of a command that ran or failed; without a path nothing is written. */
  function WriteAfter<T>(path: bool, result: Result<T, CommandError>, build: T -> Suite, name: string, classname: string,
                         time: Printed, disk: Disk): Option<CommandError>
  {
    if !path then None
    else
      var suite := match result
        case Ok(v) => build(v).(time := time)
        case Err(e) => ErrorSuite(name, classname, e.message).(time := time);
      match disk(suite)
      case None => None
      case Some(reason) => if result.Err? then None else Some(CommandError("writing --junit: " + reason))
  }

  /** What the command returns: the verdict, or why there is none. */
  function Command<T>(path: bool, result: Result<T, CommandError>, build: T -> Suite, passed: T -> bool, name: string,
                      classname: string, time: Printed, disk: Disk): Result<bool, CommandError>
  {
    match WriteAfter(path, result, build, name, classname, time, disk)
    case Some(e) => Err(e)
    case None =>
      match result
      case Err(e) => Err(e)
      case Ok(v) => Ok(passed(v))
  }

  /**
   * A report never changes a verdict and never hides a failure: the command passes only when it
   * passed, and then only with the report that was asked for written.
   */
  lemma ReportKeepsTheVerdict<T>(path: bool, result: Result<T, CommandError>, build: T -> Suite, passed: T -> bool,
                                 name: string, classname: string, time: Printed, disk: Disk)
    ensures var with := Command(path, result, build, passed, name, classname, time, disk);
            var without := Command(false, result, build, passed, name, classname, time, disk);
            && (with.Ok? ==> with == without)
            && (without.Err? ==> with == without)
            && (with.Ok? <==> result.Ok? && (!path || disk(build(result.value).(time := time)).None?))
  {
  }
}
