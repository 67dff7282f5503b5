/**
 * The score store (src/store/scores.rs): scores by id, and an index from targets to ids that upserts
 * keep in step.
 */
module Scores {
  import opened Wrappers

  datatype ScoreTarget = Trace(id: string) | Span(id: string) | Session(id: string) | Run(id: string) {
    function Key(): string {
      match this
      case Trace(id) => "trace:" + id
      case Span(id) => "span:" + id
      case Session(id) => "session:" + id
      case Run(id) => "run:" + id
    }
  }

  datatype AggStats = AggStats(n: nat, passCount: nat, mean: real, variance: real)

  datatype Source = Eval | Human | Api

  /** A score; the fields nothing here depends on are left out. */
  datatype Score = Score(
    id: string,
    target: ScoreTarget,
    name: string,
    value: Option<real>,
    source: Source,
    comment: Option<string>,
    configId: Option<string>,
    stats: Option<AggStats>,
    ts: nat)

  /** Index keys tell targets apart. */
  lemma KeysDiffer(a: ScoreTarget, b: ScoreTarget)
    requires a.Key() == b.Key()
    ensures a == b
  {
    Kind(a);
    Kind(b);
    assert a.Key()[|a.Key()| - |a.id|..] == a.id && b.Key()[|b.Key()| - |b.id|..] == b.id;
  }

  lemma Kind(t: ScoreTarget)
    ensures var key := t.Key();
            && |key| >= 4
            && match t
               case Trace(id) => key[0] == 't' && |key| == 6 + |id|
               case Span(id) => key[0] == 's' && key[1] == 'p' && |key| == 5 + |id|
               case Session(id) => key[0] == 's' && key[1] == 'e' && |key| == 8 + |id|
               case Run(id) => key[0] == 'r' && |key| == 4 + |id|
  {
  }

  type Table = map<string, Score>

  /** The table once a batch is upserted: for each id the last score of the batch, else what was there. */
  function Upserted(table: Table, batch: seq<Score>): Table {
    if batch == [] then table
    else var last := batch[|batch| - 1]; Upserted(table, batch[..|batch| - 1])[last.id := last]
  }

  lemma {:induction false} LastOneWins(table: Table, batch: seq<Score>, i: nat)
    requires i < |batch| && forall j :: i < j < |batch| ==> batch[j].id != batch[i].id
    ensures batch[i].id in Upserted(table, batch) && Upserted(table, batch)[batch[i].id] == batch[i]
    decreases |batch|
  {
    if i < |batch| - 1 {
      LastOneWins(table, batch[..|batch| - 1], i);
    }
  }

  /** Whatever a table holds after a batch is of the batch, or was there and is not overwritten. */
  lemma {:induction false} FromBatchOrBefore(table: Table, batch: seq<Score>, id: string)
    ensures id in Upserted(table, batch) ==>
              || (exists i :: 0 <= i < |batch| && batch[i] == Upserted(table, batch)[id] && batch[i].id == id)
              || (id in table && Upserted(table, batch)[id] == table[id] && forall i :: 0 <= i < |batch| ==> batch[i].id != id)
    ensures id in table ==> id in Upserted(table, batch)
    decreases |batch|
  {
    if batch != [] {
      var front, last := batch[..|batch| - 1], batch[|batch| - 1];
      FromBatchOrBefore(table, front, id);
      if id != last.id && id in Upserted(table, batch) {
        if i :| 0 <= i < |front| && front[i] == Upserted(table, front)[id] && front[i].id == id {
          assert batch[i] == front[i];
        }
      } else if id == last.id {
        assert batch[|batch| - 1] == Upserted(table, batch)[id];
      }
    }
  }

  predicate NewestFirst(scores: seq<Score>) {
    forall i, j :: 0 <= i < j < |scores| ==> scores[i].ts >= scores[j].ts
  }

  predicate DistinctIds(scores: seq<Score>) {
    forall i, j :: 0 <= i < j < |scores| ==> scores[i].id != scores[j].id
  }

  /** Behind the scores that are as new. */
  function Place(scores: seq<Score>, ts: nat): (p: nat)
    ensures p <= |scores| && (forall i :: 0 <= i < p ==> scores[i].ts >= ts) && (p < |scores| ==> scores[p].ts < ts)
  {
    if scores == [] || scores[0].ts < ts then 0 else 1 + Place(scores[1..], ts)
  }

  lemma Inserted(scores: seq<Score>, p: nat, s: Score)
    requires p == Place(scores, s.ts) && NewestFirst(scores) && DistinctIds(scores)
    requires forall t :: t in scores ==> t.id != s.id
    ensures var r := scores[..p] + [s] + scores[p..];
            NewestFirst(r) && DistinctIds(r) && forall t :: t in r <==> t in scores || t == s
  {
    hide Place;
    assert scores == scores[..p] + scores[p..];
  }

  datatype DbError = DbError

  /** The transaction fails, at the score of this number or at the commit behind the last. */
  predicate PutFails(batch: seq<Score>, failsAt: Option<nat>) {
    batch != [] && failsAt.Some? && failsAt.value <= |batch|
  }

  ghost predicate IndexOf(table: Table, index: set<(string, string)>) {
    && (forall id :: id in table ==> table[id].id == id)
    && forall key, id :: (key, id) in index <==> id in table && table[id].target.Key() == key
  }

  class ScoreStore {
    var scores: Table
    var byTarget: set<(string, string)>

    /** The index lists a score under its own target and nowhere else. */
    ghost predicate Valid()
      reads this
    {
      IndexOf(scores, byTarget)
    }

    constructor ()
      ensures Valid() && scores == map[]
    {
      scores, byTarget := map[], {};
    }

    /**
     * One transaction: it may fail at any score, or at its commit, and then nothing of it stays.
     * A batch without scores opens none.
     */
    method PutBatch(batch: seq<Score>, failsAt: Option<nat>) returns (r: Result<(), DbError>)
      requires Valid()
      modifies this
      ensures Valid() && (r.Err? <==> PutFails(batch, failsAt))
      ensures scores == if r.Ok? then Upserted(old(scores), batch) else old(scores)
      ensures r.Err? ==> byTarget == old(byTarget)
    {
      if batch == [] {
        return Ok(());
      }
      var table, index := scores, byTarget;
      assert batch[..0] == [] && batch[..|batch|] == batch;
      for i := 0 to |batch|
        invariant IndexOf(table, index) && table == Upserted(scores, batch[..i])
        invariant failsAt.Some? ==> failsAt.value >= i
      {
        if failsAt == Some(i) {
          return Err(DbError);
        }
        var score := batch[i];
        var newKey := score.target.Key();
        if score.id in table {
          var oldKey := table[score.id].target.Key();
          if oldKey != newKey {
            index := index - {(oldKey, score.id)};
          }
        }
        assert batch[..i + 1][..i] == batch[..i];
        table := table[score.id := score];
        index := index + {(newKey, score.id)};
      }
      if failsAt == Some(|batch|) {
        return Err(DbError);
      }
      scores, byTarget := table, index;
      r := Ok(());
    }

    /** The scores of some ids, newest first. */
    method NewestOf(ids: set<string>) returns (out: seq<Score>)
      requires Valid() && ids <= scores.Keys
      ensures NewestFirst(out) && DistinctIds(out)
      ensures forall s :: s in out <==> s.id in ids && scores[s.id] == s
    {
      var left := ids;
      out := [];
      while left != {}
        invariant left <= ids && NewestFirst(out) && DistinctIds(out)
        invariant forall s :: s in out <==> s.id in ids - left && scores[s.id] == s
        decreases left
      {
        var id :| id in left;
        var p := Place(out, scores[id].ts);
        Inserted(out, p, scores[id]);
        out := out[..p] + [scores[id]] + out[p..];
        left := left - {id};
      }
    }

    /** Every score of a target once, newest first. */
    method ForTarget(target: ScoreTarget) returns (out: seq<Score>)
      requires Valid()
      ensures NewestFirst(out)
      ensures DistinctIds(out)
      ensures forall s :: s in out <==> s.id in scores && scores[s.id] == s && s.target == target
    {
      var key := target.Key();
      var ids := set entry | entry in byTarget && entry.0 == key :: entry.1;
      assert forall id :: id in ids <==> (key, id) in byTarget;
      out := NewestOf(ids);
      forall s
        ensures s in out <==> s.id in scores && scores[s.id] == s && s.target == target
      {
        if s.id in scores && scores[s.id] == s && s.target == target {
          assert (key, s.id) in byTarget;
        }
        if s in out {
          assert (key, s.id) in byTarget;
          KeysDiffer(s.target, target);
        }
      }
    }

    /** The newest scores of all targets, at most `limit` of them. */
    method List(limit: nat) returns (out: seq<Score>)
      requires Valid()
      ensures Listed(scores, limit, out)
    {
      var all := NewestOf(scores.Keys);
      AllAreThere(scores, all);
      out := if |all| > limit then all[..limit] else all;
      CutIsListed(scores, limit, all);
    }
  }

  /** Newest first, each once, no more than asked for, and none left out that is newer than one that is not. */
  ghost predicate Listed(table: Table, limit: nat, out: seq<Score>) {
    && NewestFirst(out) && DistinctIds(out) && |out| == (if |table| > limit then limit else |table|)
    && (forall s :: s in out ==> s.id in table && table[s.id] == s)
    && forall id :: id in table && table[id] !in out ==> forall s :: s in out ==> s.ts >= table[id].ts
  }

  lemma {:induction false} DistinctCount(scores: seq<Score>, ids: set<string>)
    requires DistinctIds(scores) && forall id :: id in ids <==> exists s :: s in scores && s.id == id
    ensures |scores| == |ids|
    decreases |scores|
  {
    if scores == [] {
      assert ids == {};
    } else {
      var front, last := scores[..|scores| - 1], scores[|scores| - 1];
      assert scores == front + [last];
      assert last.id in ids;
      forall id
        ensures id in ids - {last.id} <==> exists s :: s in front && s.id == id
      {
        if s :| s in front && s.id == id {
          assert s in scores;
        }
      }
      DistinctCount(front, ids - {last.id});
    }
  }

  lemma AllAreThere(table: Table, all: seq<Score>)
    requires DistinctIds(all) && (forall id :: id in table ==> table[id].id == id)
    requires forall s :: s in all <==> s.id in table.Keys && table[s.id] == s
    ensures |all| == |table|
  {
    forall id
      ensures id in table.Keys <==> exists s :: s in all && s.id == id
    {
      if id in table {
        assert table[id] in all;
      }
    }
    DistinctCount(all, table.Keys);
  }

  lemma CutIsListed(table: Table, limit: nat, all: seq<Score>)
    requires NewestFirst(all) && DistinctIds(all) && |all| == |table|
    requires forall s :: s in all <==> s.id in table && table[s.id] == s
    requires forall id :: id in table ==> table[id].id == id
    ensures Listed(table, limit, if |all| > limit then all[..limit] else all)
  {
    if |all| > limit {
      CutKeepsNewer(all, limit);
      forall id | id in table
        ensures table[id] in all
      {
      }
    } else {
      forall id | id in table
        ensures table[id] in all
      {
      }
    }
  }

  lemma CutKeepsNewer(all: seq<Score>, limit: nat)
    requires NewestFirst(all) && limit <= |all|
    ensures forall s, t :: s in all[..limit] && t in all && t !in all[..limit] ==> s.ts >= t.ts
  {
    var out := all[..limit];
    assert forall k :: 0 <= k < limit ==> out[k] == all[k];
    forall s, t | s in out && t in all && t !in out
      ensures s.ts >= t.ts
    {
      var j :| 0 <= j < |out| && out[j] == s;
      var i :| 0 <= i < |all| && all[i] == t;
      assert all[j] == s;
    }
  }
}
