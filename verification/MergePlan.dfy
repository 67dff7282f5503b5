/** How the blocks of a directory are grouped for merging, and which groups get one name (src/store/merge.rs). */
module MergePlan {

  /** A block as the planner sees it: its rows, and the log segments it came from. */
  datatype Candidate = Candidate(rel: string, rows: nat, lo: nat, hi: nat)

  type Chunk = seq<Candidate>

  function RowsOf(chunk: Chunk): nat {
    if chunk == [] then 0 else RowsOf(chunk[..|chunk| - 1]) + chunk[|chunk| - 1].rows
  }

  function Flat(chunks: seq<Chunk>): Chunk {
    if chunks == [] then [] else Flat(chunks[..|chunks| - 1]) + chunks[|chunks| - 1]
  }

  /** In the order of the first segment. */
  predicate Sorted(cands: Chunk) {
    forall i, j :: 0 <= i < j < |cands| ==> cands[i].lo <= cands[j].lo
  }

  /** A chunk of more than one block stays within the cap. */
  predicate WithinCap(chunk: Chunk, cap: nat) {
    chunk != [] && (|chunk| > 1 ==> RowsOf(chunk) <= cap)
  }

  /** The next chunk was begun because its first block did not fit. */
  predicate IsFull(chunk: Chunk, next: Chunk, cap: nat) {
    next != [] ==> RowsOf(chunk) + next[0].rows > cap
  }

  /** All blocks, in their order, in chunks within the cap and no smaller than they must be. */
  predicate IsPlan(cands: Chunk, cap: nat, chunks: seq<Chunk>) {
    && Flat(chunks) == cands
    && (forall k :: 0 <= k < |chunks| ==> WithinCap(chunks[k], cap))
    && forall k :: 0 < k < |chunks| ==> IsFull(chunks[k - 1], chunks[k], cap)
  }

  lemma RowsOfMore(chunk: Chunk, c: Candidate)
    ensures RowsOf(chunk + [c]) == RowsOf(chunk) + c.rows
  {
    assert (chunk + [c])[..|chunk|] == chunk;
  }

  lemma FlatMore(chunks: seq<Chunk>, chunk: Chunk)
    ensures Flat(chunks + [chunk]) == Flat(chunks) + chunk
  {
    assert (chunks + [chunk])[..|chunks|] == chunks;
  }

  /** The chunks closed so far, and the one being filled. */
  ghost predicate Planned(out: seq<Chunk>, current: Chunk, done: Chunk, cap: nat) {
    && Flat(out) + current == done && (done != [] ==> current != [])
    && (out != [] ==> current != [] && IsFull(out[|out| - 1], current, cap))
    && (current != [] ==> WithinCap(current, cap))
    && (forall k :: 0 <= k < |out| ==> WithinCap(out[k], cap))
    && forall k :: 0 < k < |out| ==> IsFull(out[k - 1], out[k], cap)
  }

  lemma Fits(out: seq<Chunk>, current: Chunk, done: Chunk, cap: nat, c: Candidate)
    requires Planned(out, current, done, cap) && (current != [] ==> RowsOf(current) + c.rows <= cap)
    ensures Planned(out, current + [c], done + [c], cap)
  {
    hide Flat, RowsOf;
    RowsOfMore(current, c);
    assert Flat(out) + (current + [c]) == done + [c];
  }

  lemma DoesNotFit(out: seq<Chunk>, current: Chunk, done: Chunk, cap: nat, c: Candidate)
    requires Planned(out, current, done, cap) && current != [] && RowsOf(current) + c.rows > cap
    ensures Planned(out + [current], [c], done + [c], cap)
  {
    hide Flat, RowsOf;
    FlatMore(out, current);
  }

  lemma AllPlanned(out: seq<Chunk>, current: Chunk, cands: Chunk, cap: nat)
    requires Planned(out, current, cands, cap)
    ensures IsPlan(cands, cap, if current != [] then out + [current] else out)
  {
    hide RowsOf, Flat;
    FlatMore(out, current);
  }

  /** The greedy loop, over blocks that are sorted already; a cap of zero counts as one. */
  method Chunks(cands: Chunk, maxSpans: nat) returns (out: seq<Chunk>)
    ensures IsPlan(cands, if maxSpans == 0 then 1 else maxSpans, out)
  {
    hide RowsOf, Flat, Planned, IsPlan;
    var cap := if maxSpans == 0 then 1 else maxSpans;
    out := [];
    var current: Chunk, rows := [], 0;
    NothingPlanned(cap);
    assert cands[..0] == [] && cands[..|cands|] == cands;
    for i := 0 to |cands|
      invariant Planned(out, current, cands[..i], cap) && rows == RowsOf(current)
    {
      var c := cands[i];
      assert cands[..i + 1] == cands[..i] + [c];
      RowsOfMore(current, c);
      if current != [] && rows + c.rows > cap {
        DoesNotFit(out, current, cands[..i], cap, c);
        out := out + [current];
        current, rows := [], 0;
        RowsOfMore(current, c);
        assert current + [c] == [c];
      } else {
        Fits(out, current, cands[..i], cap, c);
      }
      rows := rows + c.rows;
      current := current + [c];
    }
    AllPlanned(out, current, cands, cap);
    if current != [] {
      out := out + [current];
    }
  }

  lemma NothingPlanned(cap: nat)
    ensures Planned([], [], [], cap) && RowsOf([]) == 0
  {
  }

  // ----- Names -----

  function Lowest(chunk: Chunk): nat
    requires chunk != []
  {
    if |chunk| == 1 then chunk[0].lo
    else var low := Lowest(chunk[..|chunk| - 1]); if chunk[|chunk| - 1].lo < low then chunk[|chunk| - 1].lo else low
  }

  function Highest(chunk: Chunk): nat
    requires chunk != []
  {
    if |chunk| == 1 then chunk[0].hi
    else var high := Highest(chunk[..|chunk| - 1]); if chunk[|chunk| - 1].hi > high then chunk[|chunk| - 1].hi else high
  }

  /** Within one directory a merged block is told apart by this alone. */
  predicate SameName(a: Chunk, b: Chunk)
    requires a != [] && b != []
  {
    Lowest(a) == Lowest(b) && Highest(a) == Highest(b)
  }

  lemma {:induction false} LowestIsFirst(chunk: Chunk)
    requires chunk != [] && Sorted(chunk)
    ensures Lowest(chunk) == chunk[0].lo
  {
    if |chunk| > 1 {
      LowestIsFirst(chunk[..|chunk| - 1]);
    }
  }

  lemma {:induction false} HighestIsMax(chunk: Chunk)
    requires chunk != []
    ensures forall i :: 0 <= i < |chunk| ==> chunk[i].hi <= Highest(chunk)
    ensures exists i :: 0 <= i < |chunk| && chunk[i].hi == Highest(chunk)
  {
    assert |chunk| == 1 ==> chunk[0].hi == Highest(chunk);
    if |chunk| > 1 {
      var front := chunk[..|chunk| - 1];
      HighestIsMax(front);
      var i :| 0 <= i < |front| && front[i].hi == Highest(front);
      assert chunk[i] == front[i];
      assert forall j :: 0 <= j < |front| ==> front[j] == chunk[j];
      assert Highest(chunk) == chunk[i].hi || Highest(chunk) == chunk[|chunk| - 1].hi;
    }
  }

  /** Where a chunk begins in the list. */
  function Start(chunks: seq<Chunk>, k: nat): nat
    requires k <= |chunks|
  {
    |Flat(chunks[..k])|
  }

  lemma {:induction false} FlatSplits(chunks: seq<Chunk>, k: nat)
    requires k <= |chunks|
    ensures Flat(chunks[..k]) <= Flat(chunks)
    decreases |chunks|
  {
    if k == |chunks| {
      assert chunks[..k] == chunks;
    } else {
      var front := chunks[..|chunks| - 1];
      FlatSplits(front, k);
      assert front[..k] == chunks[..k];
    }
  }

  /** A chunk is a stretch of the list, and stretches follow one another. */
  lemma ChunkIsStretch(chunks: seq<Chunk>, k: nat)
    requires k < |chunks|
    ensures Start(chunks, k + 1) == Start(chunks, k) + |chunks[k]| <= |Flat(chunks)|
    ensures Flat(chunks)[Start(chunks, k)..Start(chunks, k + 1)] == chunks[k]
  {
    hide Flat;
    FlatSplits(chunks, k + 1);
    assert chunks[..k + 1] == chunks[..k] + [chunks[k]];
    FlatMore(chunks[..k], chunks[k]);
    var all, head := Flat(chunks), Flat(chunks[..k + 1]);
    assert all[..|head|] == head;
  }

  lemma {:induction false} StartsAscend(chunks: seq<Chunk>, k: nat, l: nat)
    requires k <= l <= |chunks|
    ensures Start(chunks, k) <= Start(chunks, l)
    decreases l
  {
    hide Flat;
    if k < l {
      StartsAscend(chunks, k, l - 1);
      ChunkIsStretch(chunks, l - 1);
    }
  }

  /** Every block came of one flush. */
  predicate Flushes(cands: Chunk) {
    forall i :: 0 <= i < |cands| ==> cands[i].lo == cands[i].hi
  }

  /** The two stretches, and what lies between, are of one segment. */
  predicate OneSegment(cands: Chunk, from: nat, to: nat)
    requires from < to <= |cands|
  {
    forall i :: from <= i < to ==> cands[i].lo == cands[from].lo
  }

  lemma StretchNames(cands: Chunk, a: nat, b: nat, c: nat, d: nat)
    requires Sorted(cands) && Flushes(cands) && a < b <= c < d <= |cands|
    ensures SameName(cands[a..b], cands[c..d]) <==> OneSegment(cands, a, d)
  {
    var x, y := cands[a..b], cands[c..d];
    assert Sorted(x) && Sorted(y);
    LowestIsFirst(x);
    LowestIsFirst(y);
    HighestIsLast(cands, a, b);
    HighestIsLast(cands, c, d);
  }

  lemma HighestIsLast(cands: Chunk, a: nat, b: nat)
    requires Sorted(cands) && Flushes(cands) && a < b <= |cands|
    ensures Highest(cands[a..b]) == cands[b - 1].lo
  {
    hide Highest;
    var x := cands[a..b];
    HighestIsMax(x);
    var i :| 0 <= i < |x| && x[i].hi == Highest(x);
    assert x[i] == cands[a + i] && x[|x| - 1] == cands[b - 1];
    assert cands[a + i].lo <= cands[b - 1].lo;
  }

  /**
   * Of a plan over the blocks of flushes, two chunks get one name exactly when all blocks from the first of
   * the one to the last of the other are of one segment: that is, when the blocks one segment left in the
   * directory do not fit under the cap together.
   */
  lemma SameNameIff(cands: Chunk, cap: nat, chunks: seq<Chunk>, k: nat, l: nat)
    requires Sorted(cands) && Flushes(cands) && IsPlan(cands, cap, chunks) && k < l < |chunks|
    ensures Start(chunks, k) < Start(chunks, l + 1) <= |cands|
    ensures SameName(chunks[k], chunks[l]) <==> OneSegment(cands, Start(chunks, k), Start(chunks, l + 1))
    ensures SameName(chunks[k], chunks[l]) ==> RowsOf(cands[Start(chunks, k)..Start(chunks, l + 1)]) > cap
  {
    hide Flat, RowsOf, Lowest, Highest, SameName, OneSegment;
    ChunkIsStretch(chunks, k);
    ChunkIsStretch(chunks, l);
    StartsAscend(chunks, k + 1, l);
    StretchNames(cands, Start(chunks, k), Start(chunks, k + 1), Start(chunks, l), Start(chunks, l + 1));
    OverTheCap(cands, cap, chunks, k, l);
  }

  /** What two chunks of a plan span does not fit under the cap. */
  lemma OverTheCap(cands: Chunk, cap: nat, chunks: seq<Chunk>, k: nat, l: nat)
    requires IsPlan(cands, cap, chunks) && k < l < |chunks|
    ensures Start(chunks, k) <= Start(chunks, l + 1) <= |cands|
    ensures RowsOf(cands[Start(chunks, k)..Start(chunks, l + 1)]) > cap
  {
    hide Flat, RowsOf;
    ChunkIsStretch(chunks, k);
    ChunkIsStretch(chunks, k + 1);
    ChunkIsStretch(chunks, l);
    StartsAscend(chunks, k + 2, l + 1);
    assert IsFull(chunks[k], chunks[k + 1], cap) by {
      assert chunks[k + 1 - 1] == chunks[k];
    }
    var from, mid, to := Start(chunks, k), Start(chunks, k + 1), Start(chunks, l + 1);
    var next := chunks[k + 1][0];
    assert next == cands[mid] by {
      assert cands[mid..Start(chunks, k + 2)][0] == cands[mid];
    }
    RowsOfMore(chunks[k], next);
    var rest := cands[mid + 1..to];
    assert cands[from..to] == (chunks[k] + [next]) + rest;
    RowsOfJoin(chunks[k] + [next], rest);
  }

  lemma {:induction false} RowsOfJoin(a: Chunk, b: Chunk)
    ensures RowsOf(a + b) == RowsOf(a) + RowsOf(b)
  {
    if b == [] {
      assert a + b == a;
    } else {
      assert (a + b)[..|a + b| - 1] == a + b[..|b| - 1];
      RowsOfJoin(a, b[..|b| - 1]);
    }
  }

  /** So a directory in which every segment left at most one block, as an hour's is, has no two chunks of one name. */
  lemma HoursNeverCollide(cands: Chunk, cap: nat, chunks: seq<Chunk>, k: nat, l: nat)
    requires Sorted(cands) && Flushes(cands) && IsPlan(cands, cap, chunks) && k < l < |chunks|
    requires forall i, j :: 0 <= i < j < |cands| ==> cands[i].lo != cands[j].lo
    ensures !SameName(chunks[k], chunks[l])
  {
    hide Flat, RowsOf, Lowest, Highest, SameName;
    SameNameIff(cands, cap, chunks, k, l);
    ChunkIsStretch(chunks, k);
    ChunkIsStretch(chunks, l);
    StartsAscend(chunks, k + 1, l);
    var from, to := Start(chunks, k), Start(chunks, l + 1);
    assert from < to - 1 && cands[from].lo != cands[to - 1].lo;
  }
}
