/** The judge cache never shows, and what a run or a rerun costs (src/judge.rs). */
module JudgeRuns {
  import opened Wrappers
  import opened Dataset
  import opened JudgeCanon
  import opened JudgeCache

  /** One item as one judge sees it. */
  datatype Case = Case(spec: JudgeSpec, item: DatasetItem)

  /** Its judge is valid, so that it is run at all. */
  predicate CanRun(c: Case) { Validate(c.spec).None? }

  predicate IsAsked(env: Env, c: Case) { Asked(env.system, c.spec, c.item).Some? }

  function KeyOf(env: Env, c: Case): string { Key(env, c.spec, c.item) }

  function VerifyOf(env: Env, c: Case): nat { Verify(env, c.spec, c.item) }

  /** The verdict the backend's reply holds. */
  function Found(env: Env, c: Case): Option<Verdict> {
    match Asked(env.system, c.spec, c.item)
    case None => None
    case Some(question) =>
      match env.ask(question)
      case Err(_) => None
      case Ok(reply) => ParseScore(env, reply)
  }

  // ----- Without a cache -----

  function Fresh(env: Env, c: Case): Result<Option<ItemScore>, BackendError> {
    match Asked(env.system, c.spec, c.item)
    case None => Ok(None)
    case Some(question) =>
      match env.ask(question)
      case Err(e) => Err(e)
      case Ok(reply) =>
        match ParseScore(env, reply)
        case Some(v) => Ok(Some(Scored(c.spec, v)))
        case None => Ok(Some(UNPARSEABLE))
  }

  /** The scores of the first `n` items, up to the first failure. */
  function FreshRun(env: Env, spec: JudgeSpec, items: seq<DatasetItem>, n: nat): Result<Outcomes, RunError>
    requires n <= |items|
  {
    if n == 0 then Ok([])
    else
      match FreshRun(env, spec, items, n - 1)
      case Err(e) => Err(e)
      case Ok(out) =>
        match Fresh(env, Case(spec, items[n - 1]))
        case Err(e) => Err(Backend(e))
        case Ok(score) => Ok(out + [score])
  }

  // ----- The cache does not show -----

  /** The verdict scores the case as asking afresh would. */
  predicate Serves(env: Env, c: Case, v: Verdict) {
    Fresh(env, c) == Ok(Some(Scored(c.spec, v)))
  }

  /** No case is served a verdict that is not its own. */
  predicate Sound(env: Env, all: set<Case>, table: Table) {
    forall c :: c in all && CanRun(c) && IsAsked(env, c) ==>
      var hit := Hit(table, KeyOf(env, c), VerifyOf(env, c)); hit.Some? ==> Serves(env, c, hit.value)
  }

  /** Cases that share both hashes are scored alike. */
  predicate Agree(env: Env, all: set<Case>) {
    forall c, d :: c in all && d in all && CanRun(c) && CanRun(d) && IsAsked(env, d) && KeyOf(env, c) == KeyOf(env, d)
                   && VerifyOf(env, c) == VerifyOf(env, d) && Found(env, c).Some? ==>
      Serves(env, d, Found(env, c).value)
  }

  predicate Within(spec: JudgeSpec, items: seq<DatasetItem>, all: set<Case>) {
    forall i :: 0 <= i < |items| ==> Case(spec, items[i]) in all
  }

  lemma StepIsFresh(env: Env, all: set<Case>, spec: JudgeSpec, item: DatasetItem, st: State, readFails: bool, writeFails: bool)
    requires Agree(env, all) && Sound(env, all, st.table) && Case(spec, item) in all && Validate(spec).None? && st.failed.None?
    ensures var next := Step(env, spec, item, st, readFails, writeFails);
            && Sound(env, all, next.table)
            && match Fresh(env, Case(spec, item))
               case Ok(score) => next.failed.None? && next.out == st.out + [score]
               case Err(e) => next.failed == Some(e)
  {
    hide Asked, Key, Verify, ParseScore, Scored;
    var c := Case(spec, item);
    if Found(env, c).Some? {
      assert Serves(env, c, Found(env, c).value);
      PutKeepsSound(env, all, st.table, c);
    }
  }

  lemma PutKeepsSound(env: Env, all: set<Case>, table: Table, c: Case)
    requires Agree(env, all) && Sound(env, all, table) && c in all && CanRun(c) && Found(env, c).Some?
    ensures Sound(env, all, table[KeyOf(env, c) := CachedScore(Found(env, c).value, VerifyOf(env, c))])
  {
    hide Asked, Key, Verify, ParseScore, Fresh, Found, IsAsked, Scored, Serves;
  }

  /**
   * Whatever reads and writes of the cache fail, a run gives what asking afresh for every item would,
   * and leaves the cache sound for every case.
   */
  lemma {:induction false} CacheIsInvisible(env: Env, all: set<Case>, spec: JudgeSpec, items: seq<DatasetItem>, n: nat,
                                            table: Table, faults: Faults)
    requires Agree(env, all) && Sound(env, all, table) && Within(spec, items, all) && Validate(spec).None? && n <= |items|
    ensures Outcome(Run(env, spec, items, n, table, faults)) == FreshRun(env, spec, items, n)
    ensures Sound(env, all, Run(env, spec, items, n, table, faults).table)
    decreases n
  {
    hide Agree, Sound, Step, Fresh;
    if n > 0 {
      CacheIsInvisible(env, all, spec, items, n - 1, table, faults);
      var st := Run(env, spec, items, n - 1, table, faults);
      if st.failed.None? {
        StepIsFresh(env, all, spec, items[n - 1], st, faults.read(n - 1), faults.write(n - 1));
      } else {
        FailedStep(env, spec, items[n - 1], st, faults.read(n - 1), faults.write(n - 1));
      }
    }
  }

  // ----- What an item is scored -----

  /** What a reply comes to: its value brought into [0, 1], and its comment cut short. */
  predicate IsScoreOf(spec: JudgeSpec, reply: Verdict, s: ItemScore) {
    && (reply.value < 0.0 ==> s.value == 0.0) && (reply.value > 1.0 ==> s.value == 1.0)
    && (0.0 <= reply.value <= 1.0 ==> s.value == reply.value)
    && (s.passed <==> s.value >= spec.passThreshold)
    && (reply.comment.None? ==> s.comment.None?)
    && (reply.comment.Some? ==>
          s.comment.Some? && s.comment.value <= reply.comment.value
          && |s.comment.value| == if |reply.comment.value| <= 500 then |reply.comment.value| else 500)
  }

  /** The outcome of an item, from what the backend answers and what is read of it. */
  predicate IsOutcomeOf(env: Env, spec: JudgeSpec, item: DatasetItem, outcome: Option<ItemScore>) {
    match BuildPrompt(env.system, spec, item)
    case None => outcome == None
    case Some(prompt) =>
      match env.ask(Question(spec.provider, spec.model, prompt))
      case Err(_) => false
      case Ok(reply) =>
        match env.read(reply)
        case None => outcome == Some(ItemScore(0.0, false, Some("judge reply had no parseable score")))
        case Some(v) => outcome.Some? && IsScoreOf(spec, v, outcome.value)
  }

  lemma FreshIsOutcome(env: Env, spec: JudgeSpec, item: DatasetItem)
    ensures Fresh(env, Case(spec, item)).Ok? ==> IsOutcomeOf(env, spec, item, Fresh(env, Case(spec, item)).value)
  {
    hide BuildPrompt;
  }

  lemma {:induction false} FreshRunOutcomes(env: Env, spec: JudgeSpec, items: seq<DatasetItem>, n: nat)
    requires n <= |items| && FreshRun(env, spec, items, n).Ok?
    ensures |FreshRun(env, spec, items, n).value| == n
    ensures forall i :: 0 <= i < n ==> IsOutcomeOf(env, spec, items[i], FreshRun(env, spec, items, n).value[i])
  {
    hide IsOutcomeOf, Fresh;
    if n > 0 {
      FreshRunOutcomes(env, spec, items, n - 1);
      FreshIsOutcome(env, spec, items[n - 1]);
    }
  }

  /**
   * With a sound cache, whatever reads and writes of it fail, every item of a run is scored what its own reply
   * says: the value brought into [0, 1], passed exactly when that reaches the threshold, the comment cut to 500
   * characters, and a failed zero for a reply without a score.
   */
  lemma ItemsAreScoredAsReplied(env: Env, all: set<Case>, spec: JudgeSpec, items: seq<DatasetItem>, table: Table, faults: Faults)
    requires Agree(env, all) && Sound(env, all, table) && Within(spec, items, all) && Validate(spec).None?
    ensures var end := Run(env, spec, items, |items|, table, faults);
            end.failed.None? ==>
              |end.out| == |items| && forall i :: 0 <= i < |items| ==> IsOutcomeOf(env, spec, items[i], end.out[i])
  {
    hide Agree, Sound, Run, FreshRun, IsOutcomeOf, Validate;
    CacheIsInvisible(env, all, spec, items, |items|, table, faults);
    if FreshRun(env, spec, items, |items|).Ok? {
      FreshRunOutcomes(env, spec, items, |items|);
    }
  }

  lemma FailedStep(env: Env, spec: JudgeSpec, item: DatasetItem, st: State, readFails: bool, writeFails: bool)
    requires st.failed.Some?
    ensures Step(env, spec, item, st, readFails, writeFails) == st
  {
  }

  // ----- Exactly when -----

  datatype Job = Job(spec: JudgeSpec, items: seq<DatasetItem>, faults: Faults)

  /** The cache after the first `n` jobs, begun on an empty one; an invalid judge is refused and leaves it alone. */
  function TableAfter(env: Env, jobs: seq<Job>, n: nat): Table
    requires n <= |jobs|
  {
    if n == 0 then map[]
    else if Validate(jobs[n - 1].spec).Some? then TableAfter(env, jobs, n - 1)
    else JobEnd(env, jobs[n - 1], TableAfter(env, jobs, n - 1)).table
  }

  function JobEnd(env: Env, job: Job, table: Table): State {
    Run(env, job.spec, job.items, |job.items|, table, job.faults)
  }

  predicate JobsWithin(jobs: seq<Job>, all: set<Case>) {
    forall j :: 0 <= j < |jobs| ==> Within(jobs[j].spec, jobs[j].items, all)
  }

  /** However jobs over these cases follow one another, each that is not refused gives what asking afresh would. */
  ghost predicate Invisible(env: Env, all: set<Case>) {
    forall jobs: seq<Job>, j: nat :: JobsWithin(jobs, all) && j < |jobs| && Validate(jobs[j].spec).None? ==>
      Outcome(JobEnd(env, jobs[j], TableAfter(env, jobs, j))) == FreshRun(env, jobs[j].spec, jobs[j].items, |jobs[j].items|)
  }

  lemma EmptyIsSound(env: Env, all: set<Case>)
    ensures Sound(env, all, map[])
  {
  }

  lemma {:induction false} JobsStaySound(env: Env, all: set<Case>, jobs: seq<Job>, n: nat)
    requires Agree(env, all) && JobsWithin(jobs, all) && n <= |jobs|
    ensures Sound(env, all, TableAfter(env, jobs, n))
    decreases n
  {
    hide Agree, Sound, Run, Within, Validate;
    if n == 0 {
      EmptyIsSound(env, all);
    } else {
      JobsStaySound(env, all, jobs, n - 1);
      var job := jobs[n - 1];
      if Validate(job.spec).None? {
        CacheIsInvisible(env, all, job.spec, job.items, |job.items|, TableAfter(env, jobs, n - 1), job.faults);
      }
    }
  }

  /** The cache stays unseen exactly when cases that share both hashes are scored alike. */
  lemma InvisibleIff(env: Env, all: set<Case>)
    ensures Invisible(env, all) <==> Agree(env, all)
  {
    hide *;
    if Agree(env, all) {
      AgreeingHides(env, all);
    }
    if Invisible(env, all) {
      HidingAgrees(env, all);
    }
  }

  lemma AgreeingHides(env: Env, all: set<Case>)
    requires Agree(env, all)
    ensures Invisible(env, all)
  {
    hide Agree, Sound, Run, FreshRun, Outcome, Validate;
    forall jobs: seq<Job>, j: nat | JobsWithin(jobs, all) && j < |jobs| && Validate(jobs[j].spec).None?
      ensures Outcome(JobEnd(env, jobs[j], TableAfter(env, jobs, j)))
           == FreshRun(env, jobs[j].spec, jobs[j].items, |jobs[j].items|)
    {
      JobsStaySound(env, all, jobs, j);
      CacheIsInvisible(env, all, jobs[j].spec, jobs[j].items, |jobs[j].items|, TableAfter(env, jobs, j), jobs[j].faults);
    }
  }

  function NoFaults(): Faults { Faults(_ => false, _ => false) }

  function Single(c: Case): Job { Job(c.spec, [c.item], NoFaults()) }

  lemma FirstIsStored(env: Env, c: Case)
    requires Found(env, c).Some?
    ensures JobEnd(env, Single(c), map[]).table == map[KeyOf(env, c) := CachedScore(Found(env, c).value, VerifyOf(env, c))]
  {
    hide Asked, Key, Verify, ParseScore, Scored, Run;
    OneItem(env, Single(c), map[]);
  }

  lemma SecondHits(env: Env, d: Case, v: Verdict, table: Table)
    requires IsAsked(env, d) && Hit(table, KeyOf(env, d), VerifyOf(env, d)) == Some(v)
    ensures JobEnd(env, Single(d), table) == State(table, [Some(Scored(d.spec, v))], 0, None)
  {
    hide Asked, Key, Verify, ParseScore, Scored, Run, Hit;
    OneItem(env, Single(d), table);
    assert !NoFaults().read(0);
    assert State(table, [], 0, None).out + [Some(Scored(d.spec, v))] == [Some(Scored(d.spec, v))];
  }

  /** Scoring one case, then the other that shares its hashes, serves it the first one's verdict. */
  lemma SecondIsServedTheFirst(env: Env, c: Case, d: Case)
    requires CanRun(c) && CanRun(d) && IsAsked(env, d) && Found(env, c).Some?
    requires KeyOf(env, c) == KeyOf(env, d) && VerifyOf(env, c) == VerifyOf(env, d)
    ensures var table := TableAfter(env, [Single(c), Single(d)], 1);
            Outcome(JobEnd(env, Single(d), table)) == Ok([Some(Scored(d.spec, Found(env, c).value))])
    ensures FreshRun(env, d.spec, [d.item], 1) == (match Fresh(env, d) case Err(e) => Err(Backend(e)) case Ok(s) => Ok([s]))
  {
    hide Asked, KeyOf, VerifyOf, IsAsked, Found, Scored, Fresh, JobEnd;
    var jobs := [Single(c), Single(d)];
    assert TableAfter(env, jobs, 0) == map[];
    FirstIsStored(env, c);
    SecondHits(env, d, Found(env, c).value, TableAfter(env, jobs, 1));
    OneFresh(env, d);
  }

  lemma OneFresh(env: Env, d: Case)
    ensures FreshRun(env, d.spec, [d.item], 1) == (match Fresh(env, d) case Err(e) => Err(Backend(e)) case Ok(s) => Ok([s]))
  {
    hide Fresh;
    assert FreshRun(env, d.spec, [d.item], 0) == Ok([]);
    assert Case(d.spec, [d.item][0]) == d;
    match Fresh(env, d)
    case Err(_) =>
    case Ok(score) => assert [] + [score] == [score];
  }

  lemma OneItem(env: Env, job: Job, table: Table)
    requires |job.items| == 1
    ensures JobEnd(env, job, table)
         == Step(env, job.spec, job.items[0], State(table, [], 0, None), job.faults.read(0), job.faults.write(0))
  {
    hide Step;
    assert Run(env, job.spec, job.items, 0, table, job.faults) == State(table, [], 0, None);
  }

  lemma HidingAgrees(env: Env, all: set<Case>)
    requires Invisible(env, all)
    ensures Agree(env, all)
  {
    hide JobEnd, TableAfter, FreshRun, Found, Fresh, KeyOf, VerifyOf, IsAsked, Scored, Validate;
    forall c, d | c in all && d in all && CanRun(c) && CanRun(d) && IsAsked(env, d) && KeyOf(env, c) == KeyOf(env, d)
                  && VerifyOf(env, c) == VerifyOf(env, d) && Found(env, c).Some?
      ensures Serves(env, d, Found(env, c).value)
    {
      var jobs := [Single(c), Single(d)];
      SecondIsServedTheFirst(env, c, d);
      assert JobsWithin(jobs, all);
      assert Outcome(JobEnd(env, jobs[1], TableAfter(env, jobs, 1))) == FreshRun(env, d.spec, [d.item], 1);
    }
  }

  /** Different canonical strings of these cases never share both hashes. */
  predicate CollisionFree(env: Env, all: set<Case>) {
    forall c, d :: c in all && d in all && CanRun(c) && CanRun(d)
                   && KeyOf(env, c) == KeyOf(env, d) && VerifyOf(env, c) == VerifyOf(env, d) ==>
      Canon(c.spec, c.item) == Canon(d.spec, d.item)
  }

  lemma CollisionFreeAgrees(env: Env, all: set<Case>)
    requires CollisionFree(env, all)
    ensures Agree(env, all)
  {
    hide Asked, KeyOf, VerifyOf, Canon, ParseScore, Scored, Validate;
    forall c, d | c in all && d in all && CanRun(c) && CanRun(d) && IsAsked(env, d) && KeyOf(env, c) == KeyOf(env, d)
                  && VerifyOf(env, c) == VerifyOf(env, d) && Found(env, c).Some?
      ensures Serves(env, d, Found(env, c).value)
    {
      SameCanonSameQuestion(env.system, c.spec, c.item, d.spec, d.item);
    }
  }
}
