/**
 * Scoring a dataset through the judge cache (src/judge.rs). The backend is deterministic; it, the
 * hash and the reading of a reply are parameters, so collisions and junk replies are real.
 */
module JudgeCache {
  import opened Wrappers
  import opened Numerals
  import opened Dataset
  import opened JudgeCanon
  import C = Calibration

  datatype BackendError = BackendError(reason: string)

  datatype Verdict = Verdict(value: real, comment: Option<string>)

  datatype Env = Env(
    system: Wording,
    ask: Question -> Result<string, BackendError>,
    read: string -> Option<Verdict>,
    hash: string -> nat)

  const COMMENT_CHARS: nat := 500

  /** The score of a reply, clamped, when a finite one is found in it. */
  function ParseScore(env: Env, reply: string): (v: Option<Verdict>)
    ensures v.Some? ==> 0.0 <= v.value.value <= 1.0
  {
    match env.read(reply)
    case None => None
    case Some(v) =>
      Some(Verdict(C.Clamp(v.value, 0.0, 1.0),
                   if v.comment.Some? && |v.comment.value| > COMMENT_CHARS then Some(v.comment.value[..COMMENT_CHARS])
                   else v.comment))
  }

  datatype SpecError = BadThreshold | NoCriteria

  function Validate(spec: JudgeSpec): Option<SpecError> {
    if !(0.0 <= spec.passThreshold <= 1.0) then Some(BadThreshold)
    else if spec.rail.GEval? && Trim(spec.criteria.UnwrapOr("")) == "" then Some(NoCriteria)
    else None
  }

  const NO_SCORE := "judge reply had no parseable score"

  function Scored(spec: JudgeSpec, v: Verdict): ItemScore {
    ItemScore(v.value, v.value >= spec.passThreshold, v.comment)
  }

  const UNPARSEABLE := ItemScore(0.0, false, Some(NO_SCORE))

  // ----- The cache -----

  datatype CachedScore = CachedScore(verdict: Verdict, verify: nat)

  type Table = map<string, CachedScore>

  function Key(env: Env, spec: JudgeSpec, item: DatasetItem): string { Hex(env.hash(Canon(spec, item)), 16) }

  function Verify(env: Env, spec: JudgeSpec, item: DatasetItem): nat { env.hash("\U{2}" + Canon(spec, item)) }

  function Hit(table: Table, key: string, verify: nat): Option<Verdict> {
    if key in table && table[key].verify == verify then Some(table[key].verdict) else None
  }

  /** Which reads and writes of the cache fail, by the number of the item they are made for. */
  datatype Faults = Faults(read: nat -> bool, write: nat -> bool)

  ghost predicate NoReadFails(faults: Faults) { forall i :: !faults.read(i) }

  ghost predicate NoWriteFails(faults: Faults) { forall i :: !faults.write(i) }

  class JudgeCache {
    var table: Table

    constructor (table: Table)
      ensures this.table == table
    {
      this.table := table;
    }

    method Get(key: string, verify: nat, fails: bool) returns (v: Option<Verdict>)
      ensures v == if fails then None else Hit(table, key, verify)
    {
      if fails || key !in table {
        return None;
      }
      var cached := table[key];
      v := if cached.verify == verify then Some(cached.verdict) else None;
    }

    /** A write that fails is not reported. */
    method Put(key: string, cached: CachedScore, fails: bool)
      modifies this
      ensures table == if fails then old(table) else old(table)[key := cached]
    {
      if !fails {
        table := table[key := cached];
      }
    }
  }

  // ----- One run -----

  datatype State = State(table: Table, out: Outcomes, calls: nat, failed: Option<BackendError>)

  function Step(env: Env, spec: JudgeSpec, item: DatasetItem, st: State, readFails: bool, writeFails: bool): State {
    if st.failed.Some? then st
    else match Asked(env.system, spec, item)
      case None => st.(out := st.out + [None])
      case Some(question) =>
        var key, verify := Key(env, spec, item), Verify(env, spec, item);
        match if readFails then None else Hit(st.table, key, verify)
        case Some(v) => st.(out := st.out + [Some(Scored(spec, v))])
        case None =>
          match env.ask(question)
          case Err(e) => st.(calls := st.calls + 1, failed := Some(e))
          case Ok(reply) =>
            match ParseScore(env, reply)
            case Some(v) =>
              State(if writeFails then st.table else st.table[key := CachedScore(v, verify)],
                    st.out + [Some(Scored(spec, v))], st.calls + 1, None)
            case None => st.(out := st.out + [Some(UNPARSEABLE)], calls := st.calls + 1)
  }

  /** After the first `n` items. */
  function Run(env: Env, spec: JudgeSpec, items: seq<DatasetItem>, n: nat, table: Table, faults: Faults): State
    requires n <= |items|
  {
    if n == 0 then State(table, [], 0, None)
    else Step(env, spec, items[n - 1], Run(env, spec, items, n - 1, table, faults), faults.read(n - 1), faults.write(n - 1))
  }

  datatype RunError = Invalid(spec: SpecError) | Backend(error: BackendError)

  function Outcome(st: State): Result<Outcomes, RunError> {
    if st.failed.Some? then Err(Backend(st.failed.value)) else Ok(st.out)
  }

  /** Scores every item; `calls` counts what the backend was asked. */
  method ScoreItems(env: Env, spec: JudgeSpec, items: seq<DatasetItem>, cache: JudgeCache, faults: Faults)
    returns (r: Result<Outcomes, RunError>, calls: nat)
    modifies cache
    ensures Validate(spec).Some? ==> r == Err(Invalid(Validate(spec).value)) && calls == 0 && cache.table == old(cache.table)
    ensures Validate(spec).None? ==>
              var end := Run(env, spec, items, |items|, old(cache.table), faults);
              r == Outcome(end) && calls == end.calls && cache.table == end.table
  {
    hide Validate, Asked, Key, Verify, ParseScore;
    calls := 0;
    var invalid := Validate(spec);
    if invalid.Some? {
      return Err(Invalid(invalid.value)), 0;
    }
    var out := [];
    ghost var start := cache.table;
    for n := 0 to |items|
      invariant Run(env, spec, items, n, start, faults) == State(cache.table, out, calls, None)
    {
      var item := items[n];
      var asked := Asked(env.system, spec, item);
      if asked == None {
        out := out + [None];
        continue;
      }
      var key, verify := Key(env, spec, item), Verify(env, spec, item);
      var hit := cache.Get(key, verify, faults.read(n));
      if hit.Some? {
        out := out + [Some(Scored(spec, hit.value))];
        continue;
      }
      calls := calls + 1;
      var reply := env.ask(asked.value);
      if reply.Err? {
        assert Run(env, spec, items, n + 1, start, faults) == State(cache.table, out, calls, Some(reply.error));
        FailureStays(env, spec, items, n + 1, |items|, start, faults);
        return Err(Backend(reply.error)), calls;
      }
      var parsed := ParseScore(env, reply.value);
      if parsed.Some? {
        cache.Put(key, CachedScore(parsed.value, verify), faults.write(n));
        out := out + [Some(Scored(spec, parsed.value))];
      } else {
        out := out + [Some(UNPARSEABLE)];
      }
    }
    r := Ok(out);
  }

  lemma {:induction false} FailureStays(env: Env, spec: JudgeSpec, items: seq<DatasetItem>, m: nat, n: nat,
                                        table: Table, faults: Faults)
    requires m <= n <= |items| && Run(env, spec, items, m, table, faults).failed.Some?
    ensures Run(env, spec, items, n, table, faults) == Run(env, spec, items, m, table, faults)
    decreases n
  {
    hide Asked, Key, Verify, ParseScore, Hit;
    if m < n {
      FailureStays(env, spec, items, m, n - 1, table, faults);
    }
  }
}
