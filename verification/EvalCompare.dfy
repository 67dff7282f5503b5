/** Comparing two runs by their stored aggregates, and the gate on it (src/eval.rs). Welch's test is a parameter. */
module EvalCompare {
  import opened Wrappers
  import opened Orders
  import opened Scores
  import opened EvalReadBack

  datatype Signif = Signif(pTwoSided: real, ciLow: real, ciHigh: real)

  type Welch = (AggStats, AggStats, real) -> Option<Signif>

  datatype CompareRow = CompareRow(
    evaluator: string,
    a: Option<real>,
    b: Option<real>,
    delta: Option<real>,
    nA: Option<nat>,
    nB: Option<nat>,
    signif: Option<Signif>)
  {
    /** On both sides, and worse by more than the tolerance. */
    predicate IsRegression(tolerance: real) { delta.Some? && delta.value < -tolerance }

    predicate ProvenNoise() { signif.Some? && signif.value.ciHigh >= 0.0 }

    predicate GatesInSignificanceMode(tolerance: real) { IsRegression(tolerance) && !ProvenNoise() }

    /** Does the command's gate fail on this row? */
    predicate Gates(tolerance: real, significance: bool) {
      if significance then GatesInSignificanceMode(tolerance) else IsRegression(tolerance)
    }
  }

  datatype CompareReport = CompareReport(runA: string, runB: string, rows: seq<CompareRow>) {
    predicate HasRegression(tolerance: real) {
      exists i :: 0 <= i < |rows| && rows[i].IsRegression(tolerance)
    }

    predicate HasGatingSignificantRegression(tolerance: real) {
      exists i :: 0 <= i < |rows| && rows[i].GatesInSignificanceMode(tolerance)
    }
  }

  datatype CompareOpts = CompareOpts(failOnRegression: bool, tolerance: real, significance: bool, alpha: real)

  predicate GateFails(report: CompareReport, opts: CompareOpts) {
    opts.failOnRegression
    && if opts.significance then report.HasGatingSignificantRegression(opts.tolerance)
       else report.HasRegression(opts.tolerance)
  }

  type Aggregates = map<string, AggEntry>

  function Find(m: Aggregates, name: string): Option<AggEntry> {
    if name in m then Some(m[name]) else None
  }

  function StatsOf(e: Option<AggEntry>): Option<AggStats> {
    if e.Some? then e.value.stats else None
  }

  function RowOf(name: string, ea: Option<AggEntry>, eb: Option<AggEntry>, alpha: real, welch: Welch): CompareRow {
    var a := if ea.Some? then Some(ea.value.mean) else None;
    var b := if eb.Some? then Some(eb.value.mean) else None;
    var sa, sb := StatsOf(ea), StatsOf(eb);
    CompareRow(name, a, b,
               if a.Some? && b.Some? then Some(b.value - a.value) else None,
               if sa.Some? then Some(sa.value.n) else None,
               if sb.Some? then Some(sb.value.n) else None,
               if sa.Some? && sb.Some? then welch(sa.value, sb.value, alpha) else None)
  }

  function RowsOf(names: seq<string>, a: Aggregates, b: Aggregates, alpha: real, welch: Welch): seq<CompareRow> {
    seq(|names|, i requires 0 <= i < |names| => RowOf(names[i], Find(a, names[i]), Find(b, names[i]), alpha, welch))
  }

  datatype CompareError = NoAggregates(runId: string)

  lemma EachNameOnce(names: seq<string>, a: Aggregates, b: Aggregates, alpha: real, welch: Welch)
    requires Lists(names, a.Keys + b.Keys)
    ensures var rows := RowsOf(names, a, b, alpha, welch);
            && (forall name ::
                  name in a || name in b <==> exists i :: 0 <= i < |rows| && rows[i].evaluator == name)
            && forall i, j :: 0 <= i < j < |rows| ==> rows[i].evaluator != rows[j].evaluator
  {
    var rows := RowsOf(names, a, b, alpha, welch);
    forall name | name in a || name in b
      ensures exists i :: 0 <= i < |rows| && rows[i].evaluator == name
    {
      assert name in names;
      var i :| 0 <= i < |names| && names[i] == name;
      assert rows[i].evaluator == name;
    }
    forall i | 0 <= i < |rows|
      ensures rows[i].evaluator in a || rows[i].evaluator in b
    {
      assert names[i] in names;
    }
  }

  /** A row says what the two runs keep of its evaluator, and nothing of a run that does not have it. */
  predicate RowSays(row: CompareRow, a: Aggregates, b: Aggregates, alpha: real, welch: Welch) {
    var name := row.evaluator;
    && (name in a ==> row.a == Some(a[name].mean)) && (name !in a ==> row.a == None)
    && (name in b ==> row.b == Some(b[name].mean)) && (name !in b ==> row.b == None)
    && (if name in a && name in b then row.delta.Some? && a[name].mean + row.delta.value == b[name].mean else row.delta == None)
    && (name in a && a[name].stats.Some? ==> row.nA == Some(a[name].stats.value.n))
    && (name in b && b[name].stats.Some? ==> row.nB == Some(b[name].stats.value.n))
    && (name !in a || a[name].stats.None? ==> row.nA == None && row.signif == None)
    && (name !in b || b[name].stats.None? ==> row.nB == None && row.signif == None)
    && (name in a && name in b && a[name].stats.Some? && b[name].stats.Some? ==>
          row.signif == welch(a[name].stats.value, b[name].stats.value, alpha))
  }

  lemma RowsSay(names: seq<string>, a: Aggregates, b: Aggregates, alpha: real, welch: Welch)
    ensures forall i :: 0 <= i < |names| ==> RowSays(RowsOf(names, a, b, alpha, welch)[i], a, b, alpha, welch)
  {
  }

  /** One row for each evaluator of either run, in the order of names; a run without aggregates is an error. */
  method CompareRuns(store: ScoreStore, runA: string, runB: string, alpha: real, welch: Welch,
                     sorted: Order)
    returns (r: Result<CompareReport, CompareError>, ghost a: Aggregates, ghost b: Aggregates)
    requires store.Valid() && IsOrder(sorted)
    ensures ReadsBack(store.scores, runA, a) && ReadsBack(store.scores, runB, b)
    ensures r == if a == map[] then Err(NoAggregates(runA))
                 else if b == map[] then Err(NoAggregates(runB))
                 else Ok(CompareReport(runA, runB, RowsOf(sorted(a.Keys + b.Keys), a, b, alpha, welch)))
    ensures r.Ok? ==> forall name ::
              name in a || name in b <==> exists i :: 0 <= i < |r.value.rows| && r.value.rows[i].evaluator == name
    ensures r.Ok? ==> forall i, j :: 0 <= i < j < |r.value.rows| ==> r.value.rows[i].evaluator != r.value.rows[j].evaluator
    ensures r.Ok? ==> forall i :: 0 <= i < |r.value.rows| ==> RowSays(r.value.rows[i], a, b, alpha, welch)
  {
    hide RowOf, RowSays, IndexOf, ReadsBack;
    var aggA := RunAggregates(store, runA);
    var aggB := RunAggregates(store, runB);
    a, b := aggA, aggB;
    if aggA == map[] {
      return Err(NoAggregates(runA)), a, b;
    }
    if aggB == map[] {
      return Err(NoAggregates(runB)), a, b;
    }
    var names := sorted(aggA.Keys + aggB.Keys);
    var rows := RowsOf(names, aggA, aggB, alpha, welch);
    EachNameOnce(names, aggA, aggB, alpha, welch);
    RowsSay(names, aggA, aggB, alpha, welch);
    r := Ok(CompareReport(runA, runB, rows));
  }

  // ----- What the gate means -----

  /** The evaluator is in both runs, and its mean fell by more than the tolerance. */
  predicate Fell(a: Aggregates, b: Aggregates, name: string, tolerance: real) {
    name in a && name in b && b[name].mean - a[name].mean < -tolerance
  }

  /** Both sides kept statistics, the test ran on them, and its interval reaches zero. */
  predicate WithinNoise(a: Aggregates, b: Aggregates, name: string, alpha: real, welch: Welch)
    requires name in a && name in b
  {
    && a[name].stats.Some? && b[name].stats.Some?
    && var test := welch(a[name].stats.value, b[name].stats.value, alpha);
       test.Some? && test.value.ciHigh >= 0.0
  }

  /** It fell, and in the significance mode not within noise. */
  predicate FellForSure(a: Aggregates, b: Aggregates, name: string, opts: CompareOpts, welch: Welch) {
    Fell(a, b, name, opts.tolerance) && (opts.significance ==> !WithinNoise(a, b, name, opts.alpha, welch))
  }

  /**
   * The gate fails exactly when it is asked for and some evaluator of both runs fell by more than the
   * tolerance; in the significance mode one that is within noise is forgiven, and one that could not be
   * tested is not.
   */
  lemma GateFailsIff(names: seq<string>, a: Aggregates, b: Aggregates, runA: string, runB: string, opts: CompareOpts, welch: Welch)
    requires Lists(names, a.Keys + b.Keys)
    ensures GateFails(CompareReport(runA, runB, RowsOf(names, a, b, opts.alpha, welch)), opts) <==>
              opts.failOnRegression && exists name :: FellForSure(a, b, name, opts, welch)
  {
    var rows := RowsOf(names, a, b, opts.alpha, welch);
    forall i | 0 <= i < |names|
      ensures rows[i].Gates(opts.tolerance, opts.significance) <==>
                FellForSure(a, b, names[i], opts, welch)
    {
      RowGatesIff(names[i], a, b, opts, welch);
    }
    forall name | FellForSure(a, b, name, opts, welch)
      ensures exists i :: 0 <= i < |names| && names[i] == name
    {
      assert name in names;
    }
    AnyRowGates(CompareReport(runA, runB, rows), opts);
  }

  lemma RowGatesIff(name: string, a: Aggregates, b: Aggregates, opts: CompareOpts, welch: Welch)
    ensures RowOf(name, Find(a, name), Find(b, name), opts.alpha, welch).Gates(opts.tolerance, opts.significance) <==>
              FellForSure(a, b, name, opts, welch)
  {
  }

  lemma AnyRowGates(report: CompareReport, opts: CompareOpts)
    ensures GateFails(report, opts) <==>
              opts.failOnRegression && exists i :: 0 <= i < |report.rows| && report.rows[i].Gates(opts.tolerance, opts.significance)
  {
    if opts.significance {
      if i :| 0 <= i < |report.rows| && report.rows[i].GatesInSignificanceMode(opts.tolerance) {
        assert report.rows[i].Gates(opts.tolerance, opts.significance);
      }
    } else {
      if i :| 0 <= i < |report.rows| && report.rows[i].IsRegression(opts.tolerance) {
        assert report.rows[i].Gates(opts.tolerance, opts.significance);
      }
    }
  }

  /** With the runs swapped, the raw gate fails exactly on what rose by more than the tolerance. */
  lemma SwappedGate(names: seq<string>, a: Aggregates, b: Aggregates, runA: string, runB: string, opts: CompareOpts, welch: Welch)
    requires Lists(names, a.Keys + b.Keys) && opts.failOnRegression && !opts.significance
    ensures GateFails(CompareReport(runB, runA, RowsOf(names, b, a, opts.alpha, welch)), opts) <==>
              exists name :: name in a && name in b && b[name].mean - a[name].mean > opts.tolerance
  {
    hide RowsOf, GateFails;
    assert Lists(names, b.Keys + a.Keys);
    GateFailsIff(names, b, a, runB, runA, opts, welch);
    forall name | name in a && name in b && b[name].mean - a[name].mean > opts.tolerance
      ensures FellForSure(b, a, name, opts, welch)
    {
    }
  }

  /**
   * A run beside itself: no evaluator moved, and a gate that is asked for fails on it exactly for a negative
   * tolerance, unless the significance mode forgives every evaluator.
   */
  lemma SelfComparison(names: seq<string>, a: Aggregates, runId: string, opts: CompareOpts, welch: Welch)
    requires names != [] && Lists(names, a.Keys)
    ensures var report := CompareReport(runId, runId, RowsOf(names, a, a, opts.alpha, welch));
            && (forall i :: 0 <= i < |names| ==> report.rows[i].delta == Some(0.0))
            && (GateFails(report, opts) <==>
                  && opts.failOnRegression && opts.tolerance < 0.0
                  && (opts.significance ==> exists name :: name in a && !WithinNoise(a, a, name, opts.alpha, welch)))
  {
    hide WithinNoise, GateFails;
    var rows := RowsOf(names, a, a, opts.alpha, welch);
    forall i | 0 <= i < |names|
      ensures names[i] in a && rows[i].delta == Some(0.0)
    {
      assert names[i] in names;
    }
    assert a.Keys + a.Keys == a.Keys;
    GateFailsIff(names, a, a, runId, runId, opts, welch);
    var first := names[0];
    assert opts.tolerance < 0.0 && !opts.significance ==> FellForSure(a, a, first, opts, welch);
    if opts.tolerance < 0.0 && opts.significance {
      forall name | name in a && !WithinNoise(a, a, name, opts.alpha, welch)
        ensures FellForSure(a, a, name, opts, welch)
      {
      }
    }
  }
}
