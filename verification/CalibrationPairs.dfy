/** Pairing a judge's scores with the human's on the same target (src/calibrate.rs). */
module CalibrationPairs {
  import opened Wrappers
  import opened Orders
  import opened Scores
  import Calibration

  /** Whose score of a target is meant. */
  datatype Rater = ByJudge(judge: string) | ByHuman(name: Option<string>) {
    predicate Rated(s: Score) {
      && !s.target.Run?
      && s.value.Some?
      && (match this
          case ByJudge(judge) => s.source == Eval && s.name == judge
          case ByHuman(name) => s.source == Human && (name == None || name == Some(s.name)))
    }
  }

  /** The newest score the rater gave the target, in a list that is newest first. */
  function Newest(all: seq<Score>, rater: Rater, key: string): Option<real> {
    if all == [] then None
    else if rater.Rated(all[0]) && all[0].target.Key() == key then all[0].value
    else Newest(all[1..], rater, key)
  }

  lemma {:induction false} NewestSoFar(all: seq<Score>, i: nat, rater: Rater, key: string)
    requires i < |all|
    ensures Newest(all[..i + 1], rater, key) ==
            if Newest(all[..i], rater, key).Some? then Newest(all[..i], rater, key)
            else if rater.Rated(all[i]) && all[i].target.Key() == key then all[i].value
            else None
    decreases i
  {
    if i > 0 {
      NewestSoFar(all[1..], i - 1, rater, key);
      assert all[..i + 1][1..] == all[1..][..i] && all[..i][1..] == all[1..][..i - 1];
    }
  }

  /** `found` holds exactly the newest score of each target the rater has scored. */
  ghost predicate HoldsNewest(found: map<string, real>, all: seq<Score>, rater: Rater) {
    forall key ::
      Newest(all, rater, key) == if key in found then Some(found[key]) else None
  }

  lemma HoldsNewestStep(found: map<string, real>, all: seq<Score>, i: nat, rater: Rater)
    requires i < |all| && HoldsNewest(found, all[..i], rater)
    ensures rater.Rated(all[i]) && all[i].target.Key() !in found ==>
              HoldsNewest(found[all[i].target.Key() := all[i].value.value], all[..i + 1], rater)
    ensures !rater.Rated(all[i]) || all[i].target.Key() in found ==> HoldsNewest(found, all[..i + 1], rater)
  {
    forall key {
      NewestSoFar(all, i, rater, key);
    }
  }

  lemma NothingFound(rater: Rater)
    ensures HoldsNewest(map[], [], rater)
  {
  }

  /** The pairs of some targets, in their order. */
  function PairsOf(keys: seq<string>, all: seq<Score>, judge: string, human: Option<string>): seq<Calibration.Pair> {
    if keys == [] then []
    else
      var last := keys[|keys| - 1];
      var j, h := Newest(all, ByJudge(judge), last), Newest(all, ByHuman(human), last);
      PairsOf(keys[..|keys| - 1], all, judge, human)
      + if j.Some? && h.Some? then [Calibration.Pair(j.value, h.value)] else []
  }

  /** The targets a rater has scored. */
  function Targets(all: seq<Score>, rater: Rater): set<string> {
    set i | 0 <= i < |all| && rater.Rated(all[i]) :: all[i].target.Key()
  }

  lemma {:induction false} TargetsHaveScores(all: seq<Score>, rater: Rater, key: string)
    ensures key in Targets(all, rater) <==> Newest(all, rater, key).Some?
  {
    if all != [] {
      TargetsHaveScores(all[1..], rater, key);
      if key in Targets(all[1..], rater) {
        var i :| 0 <= i < |all[1..]| && rater.Rated(all[1..][i]) && all[1..][i].target.Key() == key;
        assert all[i + 1] == all[1..][i];
      }
      if key in Targets(all, rater) {
        var i :| 0 <= i < |all| && rater.Rated(all[i]) && all[i].target.Key() == key;
        assert i > 0 ==> all[1..][i - 1] == all[i];
      }
    }
  }

  lemma JudgedAreFound(found: map<string, real>, all: seq<Score>, judge: string)
    requires HoldsNewest(found, all, ByJudge(judge))
    ensures found.Keys == Targets(all, ByJudge(judge))
  {
    hide Newest, Targets;
    forall key
      ensures key in found.Keys <==> key in Targets(all, ByJudge(judge))
    {
      TargetsHaveScores(all, ByJudge(judge), key);
    }
  }

  const USIZE_MAX: nat := 0xFFFF_FFFF_FFFF_FFFF

  /**
   * One pair per target that both have scored, made of the newest score of each in the store, in the order
   * of the targets the judge scored.
   */
  method CollectPairs(store: ScoreStore, judge: string, human: Option<string>, sorted: Order)
    returns (pairs: seq<Calibration.Pair>, ghost all: seq<Score>)
    requires store.Valid() && IsOrder(sorted)
    ensures Listed(store.scores, USIZE_MAX, all)
    ensures pairs == PairsOf(sorted(Targets(all, ByJudge(judge))), all, judge, human)
  {
    var listed := store.List(USIZE_MAX);
    all := listed;
    pairs := PairUp(listed, judge, human, sorted);
  }

  predicate Gives(s: Score, rater: Rater, key: string) { rater.Rated(s) && s.target.Key() == key }

  /** Of what the rater gave the target none is newer. */
  predicate NoneIsNewer(all: seq<Score>, rater: Rater, key: string, s: Score) {
    s in all && Gives(s, rater, key) && forall t :: t in all && Gives(t, rater, key) ==> t.ts <= s.ts
  }

  /** The score that is taken for the newest, in a list that is newest first, is none older than any other. */
  lemma {:induction false} NewestIsNewest(all: seq<Score>, rater: Rater, key: string)
    requires NewestFirst(all) && Newest(all, rater, key).Some?
    ensures exists s :: NoneIsNewer(all, rater, key, s) && s.value == Newest(all, rater, key)
  {
    if Gives(all[0], rater, key) {
      FirstIsNewest(all, rater, key);
    } else {
      NewestIsNewest(all[1..], rater, key);
      var s :| NoneIsNewer(all[1..], rater, key, s) && s.value == Newest(all[1..], rater, key);
      NotTheFirst(all, rater, key, s);
    }
  }

  lemma FirstIsNewest(all: seq<Score>, rater: Rater, key: string)
    requires all != [] && NewestFirst(all) && Gives(all[0], rater, key)
    ensures NoneIsNewer(all, rater, key, all[0])
  {
    hide Gives;
  }

  lemma NotTheFirst(all: seq<Score>, rater: Rater, key: string, s: Score)
    requires all != [] && !Gives(all[0], rater, key) && NoneIsNewer(all[1..], rater, key, s)
    ensures NoneIsNewer(all, rater, key, s)
  {
    hide Gives;
    assert all == [all[0]] + all[1..];
  }

  method PairUp(all: seq<Score>, judge: string, human: Option<string>, sorted: Order)
    returns (pairs: seq<Calibration.Pair>)
    requires IsOrder(sorted)
    ensures pairs == PairsOf(sorted(Targets(all, ByJudge(judge))), all, judge, human)
  {
    hide Newest, Targets;
    var byJudge: map<string, real>, byHuman: map<string, real> := map[], map[];
    NothingFound(ByJudge(judge));
    NothingFound(ByHuman(human));
    for i := 0 to |all|
      invariant HoldsNewest(byJudge, all[..i], ByJudge(judge))
      invariant HoldsNewest(byHuman, all[..i], ByHuman(human))
    {
      var s := all[i];
      HoldsNewestStep(byJudge, all, i, ByJudge(judge));
      HoldsNewestStep(byHuman, all, i, ByHuman(human));
      if s.target.Run? || s.value.None? {
        continue;
      }
      var key := s.target.Key();
      if s.source == Eval && s.name == judge {
        if key !in byJudge {
          byJudge := byJudge[key := s.value.value];
        }
      } else if s.source == Human && (human == None || human == Some(s.name)) {
        if key !in byHuman {
          byHuman := byHuman[key := s.value.value];
        }
      }
    }
    assert all[..|all|] == all;
    JudgedAreFound(byJudge, all, judge);
    pairs := Join(sorted(byJudge.Keys), byJudge, byHuman, all, judge, human);
  }

  /** The inner join, over the keys of the judge's map. */
  method Join(keys: seq<string>, byJudge: map<string, real>, byHuman: map<string, real>, ghost all: seq<Score>,
              ghost judge: string, ghost human: Option<string>)
    returns (pairs: seq<Calibration.Pair>)
    requires Lists(keys, byJudge.Keys)
    requires HoldsNewest(byJudge, all, ByJudge(judge)) && HoldsNewest(byHuman, all, ByHuman(human))
    ensures pairs == PairsOf(keys, all, judge, human)
  {
    hide Newest;
    pairs := [];
    for i := 0 to |keys|
      invariant pairs == PairsOf(keys[..i], all, judge, human)
    {
      assert keys[..i + 1][..i] == keys[..i];
      assert keys[i] in keys;
      if keys[i] in byHuman {
        pairs := pairs + [Calibration.Pair(byJudge[keys[i]], byHuman[keys[i]])];
      }
    }
    assert keys[..|keys|] == keys;
  }

  /** The pair is made of the newest scores of this target. */
  predicate PairOf(all: seq<Score>, judge: string, human: Option<string>, key: string, p: Calibration.Pair) {
    Newest(all, ByJudge(judge), key) == Some(p.judge) && Newest(all, ByHuman(human), key) == Some(p.human)
  }

  lemma {:induction false} PairsHold(keys: seq<string>, all: seq<Score>, judge: string, human: Option<string>, p: Calibration.Pair)
    ensures p in PairsOf(keys, all, judge, human) <==> exists key :: key in keys && PairOf(all, judge, human, key, p)
  {
    hide Newest;
    if keys != [] {
      var front, last := keys[..|keys| - 1], keys[|keys| - 1];
      PairsHold(front, all, judge, human, p);
      assert keys == front + [last];
      LastPair(keys, all, judge, human, p);
    }
  }

  lemma LastPair(keys: seq<string>, all: seq<Score>, judge: string, human: Option<string>, p: Calibration.Pair)
    requires keys != []
    ensures p in PairsOf(keys, all, judge, human) <==>
              p in PairsOf(keys[..|keys| - 1], all, judge, human) || PairOf(all, judge, human, keys[|keys| - 1], p)
  {
    hide Newest;
  }

  /** Those of some targets that both have scored. */
  function Both(keys: seq<string>, all: seq<Score>, judge: string, human: Option<string>): set<string> {
    set key | key in keys && key in Targets(all, ByJudge(judge)) && key in Targets(all, ByHuman(human))
  }

  lemma BothOfMore(keys: seq<string>, last: string, all: seq<Score>, judge: string, human: Option<string>)
    requires last !in keys
    ensures last !in Both(keys, all, judge, human)
    ensures Both(keys + [last], all, judge, human) == Both(keys, all, judge, human)
            + if last in Targets(all, ByJudge(judge)) && last in Targets(all, ByHuman(human)) then {last} else {}
  {
    hide Targets;
  }

  lemma {:induction false} PairsCount(keys: seq<string>, all: seq<Score>, judge: string, human: Option<string>)
    requires forall i, j :: 0 <= i < j < |keys| ==> keys[i] != keys[j]
    ensures |PairsOf(keys, all, judge, human)| == |Both(keys, all, judge, human)|
  {
    hide Newest, Targets, Both;
    if keys == [] {
      NothingOfBoth(all, judge, human);
    } else {
      var front, last := keys[..|keys| - 1], keys[|keys| - 1];
      PairsCount(front, all, judge, human);
      assert keys == front + [last];
      TargetsHaveScores(all, ByJudge(judge), last);
      TargetsHaveScores(all, ByHuman(human), last);
      BothOfMore(front, last, all, judge, human);
    }
  }

  lemma NothingOfBoth(all: seq<Score>, judge: string, human: Option<string>)
    ensures Both([], all, judge, human) == {}
  {
  }

  /** What is paired are the newest scores of a target both have rated, and each such target gives one pair. */
  lemma PairedIffBothRated(all: seq<Score>, judge: string, human: Option<string>, sorted: Order)
    requires IsOrder(sorted)
    ensures var pairs := PairsOf(sorted(Targets(all, ByJudge(judge))), all, judge, human);
            && |pairs| == |Targets(all, ByJudge(judge)) * Targets(all, ByHuman(human))|
            && forall p: Calibration.Pair :: p in pairs <==> exists key :: PairOf(all, judge, human, key, p)
  {
    hide Newest, Targets, PairsOf, PairOf;
    var judged, rated := Targets(all, ByJudge(judge)), Targets(all, ByHuman(human));
    var keys := sorted(judged);
    assert Lists(keys, judged);
    PairsCount(keys, all, judge, human);
    assert Both(keys, all, judge, human) == judged * rated;
    forall p: Calibration.Pair
      ensures p in PairsOf(keys, all, judge, human) <==> exists key :: PairOf(all, judge, human, key, p)
    {
      PairsHold(keys, all, judge, human, p);
      PairedIsJudged(all, judge, human, p);
    }
  }

  lemma PairedIsJudged(all: seq<Score>, judge: string, human: Option<string>, p: Calibration.Pair)
    ensures forall key :: PairOf(all, judge, human, key, p) ==> key in Targets(all, ByJudge(judge))
  {
    hide Newest, Targets;
    forall key | PairOf(all, judge, human, key, p)
      ensures key in Targets(all, ByJudge(judge))
    {
      TargetsHaveScores(all, ByJudge(judge), key);
    }
  }
}
