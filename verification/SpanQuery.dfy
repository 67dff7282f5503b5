/** The query of the store (src/store/mod.rs): memory first, then the blocks of the index, listed again once. */
module SpanQuery {
  import opened Wrappers
  import opened Durability
  import opened DurabilityProof
  import opened RecentSpans

  // ----- What is asked for -----

  function Matching(matches: Span -> bool, xs: seq<Span>): seq<Span> {
    if xs == [] then []
    else Matching(matches, xs[..|xs| - 1]) + if matches(xs[|xs| - 1]) then [xs[|xs| - 1]] else []
  }

  lemma {:induction false} MatchingJoin(matches: Span -> bool, a: seq<Span>, b: seq<Span>)
    ensures Matching(matches, a + b) == Matching(matches, a) + Matching(matches, b)
  {
    if b == [] {
      assert a + b == a;
    } else {
      var front, last := b[..|b| - 1], b[|b| - 1];
      assert (a + b)[..|a + b| - 1] == a + front && (a + b)[|a + b| - 1] == last;
      MatchingJoin(matches, a, front);
    }
  }

  /** First copies, but none of a key that was seen. */
  function CopiesBesides(seen: set<string>, xs: seq<Span>): seq<Span> {
    if xs == [] then []
    else
      var front, last := xs[..|xs| - 1], xs[|xs| - 1];
      CopiesBesides(seen, front) + if last.key in seen || last.key in Keys(front) then [] else [last]
  }

  lemma {:induction false} FirstCopiesJoin(a: seq<Span>, b: seq<Span>)
    ensures FirstCopies(a + b) == FirstCopies(a) + CopiesBesides(Keys(a), b)
  {
    hide Keys;
    if b == [] {
      assert a + b == a;
    } else {
      var front, last := b[..|b| - 1], b[|b| - 1];
      assert (a + b)[..|a + b| - 1] == a + front && (a + b)[|a + b| - 1] == last;
      FirstCopiesJoin(a, front);
      KeysJoin(a, front);
    }
  }

  lemma {:induction false} NothingSeen(xs: seq<Span>)
    ensures CopiesBesides({}, xs) == FirstCopies(xs)
  {
    if xs != [] {
      NothingSeen(xs[..|xs| - 1]);
    }
  }

  /** All rows, or the newest few of them. */
  function Best(start: Starts, xs: seq<Span>, limit: nat): seq<Span> {
    if limit == USIZE_MAX then Ranked(start, xs) else Top(start, xs, limit)
  }

  lemma BestSuffice(start: Starts, a: seq<Span>, b: seq<Span>, limit: nat)
    ensures Best(start, a + Best(start, b, limit), limit) == Best(start, a + b, limit)
  {
    hide Top, Ranked;
    if limit == USIZE_MAX {
      RankedBehind(start, a, b);
    } else {
      HalvesSuffice(start, a, b, limit);
    }
  }

  // ----- The bounded selection -----

  /** Greater means it loses first: the older, and of two equally old the later. */
  datatype Loser = Loser(start: nat, seqno: nat, item: Span)

  predicate Beats(a: Loser, b: Loser) {
    a.start > b.start || (a.start == b.start && a.seqno < b.seqno)
  }

  function Items(heap: seq<Loser>): seq<Span> {
    seq(|heap|, i requires 0 <= i < |heap| => heap[i].item)
  }

  /** A heap, in the order of its elements, of some rows. */
  ghost predicate HeapOf(start: Starts, heap: seq<Loser>, seqno: nat, rows: seq<Span>) {
    && (forall i :: 0 <= i < |heap| ==> heap[i].start == start(heap[i].item) && heap[i].seqno < seqno)
    && (forall i, j :: 0 <= i < j < |heap| ==> Beats(heap[i], heap[j]))
    && Items(heap) == rows
  }

  lemma Inserted(start: Starts, heap: seq<Loser>, seqno: nat, rows: seq<Span>, x: Span, i: nat)
    requires HeapOf(start, heap, seqno, rows) && i <= |heap|
    requires forall k :: 0 <= k < i ==> heap[k].start >= start(x)
    requires forall k :: i <= k < |heap| ==> heap[k].start < start(x)
    ensures HeapOf(start, heap[..i] + [Loser(start(x), seqno, x)] + heap[i..], seqno + 1, Placed(start, rows, x))
  {
    hide Placed;
    var heap' := heap[..i] + [Loser(start(x), seqno, x)] + heap[i..];
    assert rows == rows[..i] + rows[i..];
    PlacedAt(start, rows[..i], rows[i..], x);
    assert Items(heap') == rows[..i] + [x] + rows[i..];
  }

  lemma CutHeap(start: Starts, heap: seq<Loser>, seqno: nat, rows: seq<Span>, n: nat)
    requires HeapOf(start, heap, seqno, rows) && n <= |rows|
    ensures n <= |heap| == |rows| && HeapOf(start, heap[..n], seqno, rows[..n])
  {
    assert Items(heap[..n]) == Items(heap)[..n];
  }

  /** Where an element goes among those of a heap. */
  method PlaceIn(heap: seq<Loser>, l: Loser) returns (i: nat)
    requires forall i, j :: 0 <= i < j < |heap| ==> Beats(heap[i], heap[j])
    requires forall i :: 0 <= i < |heap| ==> heap[i].seqno < l.seqno
    ensures i <= |heap|
    ensures forall k :: 0 <= k < i ==> heap[k].start >= l.start
    ensures forall k :: i <= k < |heap| ==> heap[k].start < l.start
  {
    i := |heap|;
    while i > 0 && Beats(l, heap[i - 1])
      invariant 0 <= i <= |heap|
      invariant forall k :: i <= k < |heap| ==> heap[k].start < l.start
    {
      i := i - 1;
    }
  }

  /** Holds no more than `limit`. */
  class TopN {
    const limit: nat
    const start: Starts
    var heap: seq<Loser>
    var seqno: nat
    ghost var pushed: seq<Span>

    ghost predicate Valid()
      reads this
    {
      HeapOf(start, heap, seqno, Top(start, pushed, limit))
    }

    constructor (start: Starts, limit: nat)
      ensures Valid() && pushed == [] && this.start == start && this.limit == limit
    {
      this.start, this.limit, heap, seqno, pushed := start, limit, [], 0, [];
    }

    method Push(x: Span)
      requires Valid()
      modifies this
      ensures Valid() && pushed == old(pushed) + [x] && |heap| <= limit
    {
      hide Top, Placed, Items, Ranked;
      var l := Loser(start(x), seqno, x);
      var i := PlaceIn(heap, l);
      Inserted(start, heap, seqno, Top(start, pushed, limit), x, i);
      TopOfOneMore(start, pushed, x, limit);
      heap := heap[..i] + [l] + heap[i..];
      seqno := seqno + 1;
      ghost var placed := Placed(start, Top(start, pushed, limit), x);
      CutHeap(start, heap, seqno, placed, Min(limit, |pushed| + 1));
      if |heap| > limit {
        heap := heap[..|heap| - 1];
      } else {
        assert heap[..|heap|] == heap;
      }
      pushed := pushed + [x];
    }

    method IntoVec() returns (rows: seq<Span>)
      requires Valid()
      ensures rows == Top(start, pushed, limit)
    {
      rows := Items(heap);
    }
  }

  /** Bounded, or everything to be sorted at the end. */
  class Rows {
    const limit: nat
    const start: Starts
    const top: TopN?
    var all: seq<Span>

    ghost predicate Valid()
      reads this, top
    {
      && (top == null <==> limit == USIZE_MAX)
      && (top != null ==> top.Valid() && top.limit == limit && top.start == start)
    }

    ghost function Pushed(): seq<Span>
      reads this, top
    {
      if top == null then all else top.pushed
    }

    constructor (start: Starts, limit: nat)
      ensures Valid() && Pushed() == [] && this.start == start && this.limit == limit
      ensures top != null ==> fresh(top)
    {
      this.start, this.limit, all := start, limit, [];
      if limit == USIZE_MAX {
        top := null;
      } else {
        top := new TopN(start, limit);
      }
    }

    method Push(x: Span)
      requires Valid()
      modifies this, top
      ensures Valid() && Pushed() == old(Pushed()) + [x]
    {
      if top != null {
        top.Push(x);
      } else {
        all := all + [x];
      }
    }

    method IntoVec() returns (rows: seq<Span>)
      requires Valid()
      ensures rows == Best(start, Pushed(), limit)
    {
      if top != null {
        rows := top.IntoVec();
      } else {
        rows := Ranked(start, all);
      }
    }
  }

  // ----- Reading -----

  datatype ReadError = NotFound | Other

  /** How reading one block goes. */
  type BlockRead = Result<seq<Span>, ReadError>

  /** The spans of all blocks, or the first error. */
  function ColdOf(blocks: seq<BlockRead>): Result<seq<Span>, ReadError> {
    if blocks == [] then Ok([])
    else match ColdOf(blocks[..|blocks| - 1])
      case Err(e) => Err(e)
      case Ok(spans) =>
        match blocks[|blocks| - 1]
        case Err(e) => Err(e)
        case Ok(more) => Ok(spans + more)
  }

  lemma {:induction false} FirstErrorStays(blocks: seq<BlockRead>, i: nat)
    requires i <= |blocks| && ColdOf(blocks[..i]).Err?
    ensures ColdOf(blocks) == ColdOf(blocks[..i])
  {
    if i == |blocks| {
      assert blocks[..i] == blocks;
    } else {
      assert blocks[..|blocks| - 1][..i] == blocks[..i];
      FirstErrorStays(blocks[..|blocks| - 1], i);
    }
  }

  /** Only a block that is gone at the first listing is forgiven. */
  function Cold(first: seq<BlockRead>, second: seq<BlockRead>): Result<seq<Span>, ReadError> {
    if ColdOf(first) == Err(NotFound) then ColdOf(second) else ColdOf(first)
  }

  /** Collect everything, keep the first copy of each, rank it, and cut it off. */
  function Answer(start: Starts, matches: Span -> bool, limit: nat, hot: seq<Span>, cold: seq<Span>): seq<Span> {
    if limit == 0 then [] else Best(start, FirstCopies(Matching(matches, hot + cold)), limit)
  }

  /** One listing: a block that cannot be read ends it. */
  method ReadListed(start: Starts, matches: Span -> bool, limit: nat, hotSeen: set<string>, blocks: seq<BlockRead>)
    returns (error: Option<ReadError>, rows: Rows)
    ensures ColdOf(blocks).Err? ==> error == Some(ColdOf(blocks).error)
    ensures ColdOf(blocks).Ok? ==>
              error == None && rows.Valid() && rows.limit == limit && rows.start == start
              && rows.Pushed() == CopiesBesides(hotSeen, Matching(matches, ColdOf(blocks).value))
  {
    hide Matching, CopiesBesides, Keys;
    rows := new Rows(start, limit);
    var coldSeen: set<string> := {};
    ghost var cold: seq<Span> := [];
    NothingYet(matches, hotSeen);
    for i := 0 to |blocks|
      invariant ColdOf(blocks[..i]) == Ok(cold)
      invariant rows.Valid() && rows.limit == limit && rows.start == start && fresh(rows) && (rows.top != null ==> fresh(rows.top))
      invariant rows.Pushed() == CopiesBesides(hotSeen, Matching(matches, cold))
      invariant coldSeen == Keys(Matching(matches, cold)) - hotSeen
    {
      assert blocks[..i + 1][..i] == blocks[..i];
      if blocks[i].Err? {
        FirstErrorStays(blocks, i + 1);
        return Some(blocks[i].error), rows;
      }
      coldSeen := ReadBlock(matches, hotSeen, coldSeen, blocks[i].value, rows, cold);
      cold := cold + blocks[i].value;
    }
    assert blocks[..|blocks|] == blocks;
    error := None;
  }

  lemma NothingYet(matches: Span -> bool, seen: set<string>)
    ensures Matching(matches, []) == [] && CopiesBesides(seen, []) == [] && Keys([]) == {}
  {
  }

  lemma OneMore(matches: Span -> bool, seen: set<string>, xs: seq<Span>, x: Span)
    ensures var before := Matching(matches, xs);
            && Matching(matches, xs + [x]) == (if matches(x) then before + [x] else before)
            && CopiesBesides(seen, before + [x]) ==
               (if x.key in seen || x.key in Keys(before) then CopiesBesides(seen, before) else CopiesBesides(seen, before) + [x])
            && Keys(before + [x]) == Keys(before) + {x.key}
  {
    var before := Matching(matches, xs);
    assert (xs + [x])[..|xs|] == xs && (before + [x])[..|before|] == before;
    KeysJoin(before, [x]);
    OneSpan(x);
  }

  method ReadBlock(matches: Span -> bool, hotSeen: set<string>, coldSeen: set<string>, spans: seq<Span>, rows: Rows,
                   ghost cold: seq<Span>)
    returns (seen: set<string>)
    requires rows.Valid() && rows.Pushed() == CopiesBesides(hotSeen, Matching(matches, cold))
    requires coldSeen == Keys(Matching(matches, cold)) - hotSeen
    modifies rows, rows.top
    ensures rows.Valid() && rows.Pushed() == CopiesBesides(hotSeen, Matching(matches, cold + spans))
    ensures seen == Keys(Matching(matches, cold + spans)) - hotSeen
  {
    hide Matching, CopiesBesides, Keys;
    seen := coldSeen;
    assert cold + spans[..0] == cold;
    for i := 0 to |spans|
      invariant rows.Valid() && rows.Pushed() == CopiesBesides(hotSeen, Matching(matches, cold + spans[..i]))
      invariant seen == Keys(Matching(matches, cold + spans[..i])) - hotSeen
    {
      var s := spans[i];
      assert cold + spans[..i + 1] == cold + spans[..i] + [s];
      OneMore(matches, hotSeen, cold + spans[..i], s);
      if !matches(s) {
        continue;
      }
      if s.key !in hotSeen && s.key !in seen {
        seen := seen + {s.key};
        rows.Push(s);
      }
    }
    assert spans[..|spans|] == spans;
  }

  method ReadHot(start: Starts, matches: Span -> bool, limit: nat, hot: seq<Span>)
    returns (rows: Rows, hotSeen: set<string>)
    ensures rows.Valid() && rows.limit == limit && rows.start == start && fresh(rows) && (rows.top != null ==> fresh(rows.top))
    ensures rows.Pushed() == FirstCopies(Matching(matches, hot)) && hotSeen == Keys(Matching(matches, hot))
  {
    hide Matching, CopiesBesides, Keys, FirstCopies;
    rows := new Rows(start, limit);
    NothingYet(matches, {});
    assert hot[..0] == [];
    hotSeen := {};
    for i := 0 to |hot|
      invariant rows.Valid() && rows.limit == limit && rows.start == start && fresh(rows) && (rows.top != null ==> fresh(rows.top))
      invariant rows.Pushed() == CopiesBesides({}, Matching(matches, hot[..i]))
      invariant hotSeen == Keys(Matching(matches, hot[..i]))
    {
      var s := hot[i];
      assert hot[..i + 1] == hot[..i] + [s];
      OneMore(matches, {}, hot[..i], s);
      if matches(s) && s.key !in hotSeen {
        hotSeen := hotSeen + {s.key};
        rows.Push(s);
      }
    }
    assert hot[..|hot|] == hot;
    NothingSeen(Matching(matches, hot));
  }

  /** Blocks are listed once more when one of them is gone. */
  method ReadCold(start: Starts, matches: Span -> bool, limit: nat, hotSeen: set<string>,
                  first: seq<BlockRead>, second: seq<BlockRead>)
    returns (error: Option<ReadError>, rows: Rows)
    ensures Cold(first, second).Err? ==> error == Some(Cold(first, second).error)
    ensures Cold(first, second).Ok? ==>
              error == None && rows.Valid() && rows.limit == limit && rows.start == start
              && rows.Pushed() == CopiesBesides(hotSeen, Matching(matches, Cold(first, second).value))
  {
    hide Best, CopiesBesides, Matching, ColdOf;
    error, rows := ReadListed(start, matches, limit, hotSeen, first);
    if error == Some(NotFound) {
      error, rows := ReadListed(start, matches, limit, hotSeen, second);
    }
  }

  method PushAll(rows: Rows, late: seq<Span>)
    requires rows.Valid()
    modifies rows, rows.top
    ensures rows.Valid() && rows.Pushed() == old(rows.Pushed()) + late
  {
    ghost var early := rows.Pushed();
    for i := 0 to |late|
      invariant rows.Valid() && rows.Pushed() == early + late[..i]
    {
      rows.Push(late[i]);
      assert early + late[..i] + [late[i]] == early + late[..i + 1];
    }
    assert late[..|late|] == late;
  }

  /** Two selections, one behind the other, select what one over everything does. */
  lemma AnswerFromParts(start: Starts, matches: Span -> bool, limit: nat, hot: seq<Span>, cold: seq<Span>)
    requires limit > 0
    ensures var early := FirstCopies(Matching(matches, hot));
            var late := CopiesBesides(Keys(Matching(matches, hot)), Matching(matches, cold));
            Best(start, early + Best(start, late, limit), limit) == Answer(start, matches, limit, hot, cold)
  {
    hide Best, FirstCopies, CopiesBesides, Matching, Keys;
    var found, more := Matching(matches, hot), Matching(matches, cold);
    BestSuffice(start, FirstCopies(found), CopiesBesides(Keys(found), more), limit);
    FirstCopiesJoin(found, more);
    MatchingJoin(matches, hot, cold);
  }

  // ----- What an answer is -----

  /** Asking for fewer rows gives the first of them. */
  lemma FewerRowsAreAPrefix(start: Starts, matches: Span -> bool, few: nat, many: nat, hot: seq<Span>, cold: seq<Span>)
    requires few <= many <= USIZE_MAX
    ensures var fewer, more := Answer(start, matches, few, hot, cold), Answer(start, matches, many, hot, cold);
            fewer <= more && (few < USIZE_MAX ==> |fewer| == Min(few, |more|))
  {
    hide Ranked, FirstCopies, Matching;
    RankedLength(start, FirstCopies(Matching(matches, hot + cold)));
  }

  lemma {:induction false} MatchingHolds(matches: Span -> bool, xs: seq<Span>)
    ensures SpansOf(Matching(matches, xs)) == set x | x in SpansOf(xs) && matches(x)
  {
    hide SpansOf;
    if xs == [] {
      OneSpan(Span("", 0));
    } else {
      var front, last := xs[..|xs| - 1], xs[|xs| - 1];
      MatchingHolds(matches, front);
      OneSpan(last);
      KeysJoin(front, [last]);
      KeysJoin(Matching(matches, front), [last]);
      assert xs == front + [last] && Matching(matches, front) + [] == Matching(matches, front);
    }
  }

  lemma {:induction false} DistinctOnce(xs: seq<Span>, x: Span)
    requires DistinctKeys(xs)
    ensures multiset(xs)[x] <= 1
  {
    if xs != [] {
      var front, last := xs[..|xs| - 1], xs[|xs| - 1];
      DistinctOnce(front, x);
      assert xs == front + [last];
      assert last !in front;
    }
  }

  lemma TwiceIn(ys: seq<Span>, i: nat, j: nat)
    requires i < j < |ys| && ys[i] == ys[j]
    ensures multiset(ys)[ys[i]] >= 2
  {
    assert ys == ys[..j] + ys[j..];
    assert ys[..j][i] == ys[i] && ys[j..][0] == ys[j];
    assert ys[i] in multiset(ys[..j]) && ys[i] in multiset(ys[j..]);
  }

  lemma StillDistinct(xs: seq<Span>, ys: seq<Span>)
    requires multiset(xs) == multiset(ys) && DistinctKeys(xs)
    ensures DistinctKeys(ys)
  {
    forall i, j | 0 <= i < j < |ys|
      ensures ys[i].key != ys[j].key
    {
      DistinctOnce(xs, ys[i]);
      if ys[i] == ys[j] {
        TwiceIn(ys, i, j);
      } else {
        assert ys[i] in multiset(xs) && ys[j] in multiset(xs);
        var k :| 0 <= k < |xs| && xs[k] == ys[i];
        var l :| 0 <= l < |xs| && xs[l] == ys[j];
        assert k != l;
      }
    }
  }

  lemma SameSpans(xs: seq<Span>, ys: seq<Span>)
    requires multiset(xs) == multiset(ys)
    ensures SpansOf(xs) == SpansOf(ys) && Keys(xs) == Keys(ys) && (DistinctKeys(xs) ==> DistinctKeys(ys))
  {
    hide Keys, DistinctKeys;
    forall x
      ensures x in SpansOf(xs) <==> x in SpansOf(ys)
    {
      assert x in SpansOf(xs) <==> x in multiset(xs);
      assert x in SpansOf(ys) <==> x in multiset(ys);
    }
    forall key
      ensures key in Keys(xs) <==> key in Keys(ys)
    {
      KeyOfSpan(xs, key);
      KeyOfSpan(ys, key);
    }
    if DistinctKeys(xs) {
      StillDistinct(xs, ys);
    }
  }

  /**
   * Everything that matches is in an unbounded answer, once, and what memory holds is answered from
   * memory; so an answer has no duplicate and drops nothing but what is older than all it holds.
   */
  lemma AnswerHolds(start: Starts, matches: Span -> bool, hot: seq<Span>, cold: seq<Span>)
    ensures var answer := Answer(start, matches, USIZE_MAX, hot, cold);
            && Descending(start, answer) && DistinctKeys(answer)
            && Keys(answer) == Keys(Matching(matches, hot + cold))
            && SpansOf(FirstCopies(Matching(matches, hot))) <= SpansOf(answer) <= SpansOf(Matching(matches, hot + cold))
  {
    hide Ranked, FirstCopies, Matching, Descending, Keys, SpansOf, DistinctKeys, CopiesBesides;
    var found, more := Matching(matches, hot), Matching(matches, cold);
    var firsts := FirstCopies(Matching(matches, hot + cold));
    RankedIsStable(start, firsts);
    RankedPermutes(start, firsts);
    FirstCopiesKeep(Matching(matches, hot + cold));
    SameSpans(firsts, Ranked(start, firsts));
    MatchingJoin(matches, hot, cold);
    FirstCopiesJoin(found, more);
    KeysJoin(FirstCopies(found), CopiesBesides(Keys(found), more));
  }

  // ----- What a query answers, from the blocks themselves -----

  /** The block at `i` is the first that cannot be read, for this reason. */
  predicate FirstUnreadable(blocks: seq<BlockRead>, i: nat, e: ReadError) {
    i < |blocks| && blocks[i] == Err(e) && AllRead(blocks[..i])
  }

  predicate AllRead(blocks: seq<BlockRead>) {
    forall i :: 0 <= i < |blocks| ==> blocks[i].Ok?
  }

  predicate InBlocks(blocks: seq<BlockRead>, x: Span) {
    exists i :: 0 <= i < |blocks| && blocks[i].Ok? && x in blocks[i].value
  }

  predicate IsHeld(hot: seq<Span>, blocks: seq<BlockRead>, x: Span) {
    x in hot || InBlocks(blocks, x)
  }

  /** A copy of what memory or the blocks hold, and none that a copy in memory goes before. */
  ghost predicate IsCopy(matches: Span -> bool, hot: seq<Span>, blocks: seq<BlockRead>, x: Span) {
    && matches(x) && IsHeld(hot, blocks, x)
    && (x in hot || forall y :: y in hot && matches(y) ==> y.key != x.key)
  }

  /**
   * The rows answer the query: newest first, no key twice, each a copy of what matches; all keys that match,
   * or as many rows as were asked for, with none left out that is newer than one of them.
   */
  ghost predicate Answers(start: Starts, matches: Span -> bool, limit: nat, hot: seq<Span>, blocks: seq<BlockRead>,
                          rows: seq<Span>)
  {
    && Descending(start, rows) && DistinctKeys(rows)
    && (limit != USIZE_MAX ==> |rows| <= limit)
    && (forall x :: x in rows ==> IsCopy(matches, hot, blocks, x))
    && forall x :: matches(x) && IsHeld(hot, blocks, x) ==>
         || x.key in Keys(rows)
         || (limit != USIZE_MAX && |rows| == limit && LosesTo(start, matches, hot, blocks, rows, x.key))
  }

  /** All rows are at least as new as a copy of the key. */
  ghost predicate LosesTo(start: Starts, matches: Span -> bool, hot: seq<Span>, blocks: seq<BlockRead>, rows: seq<Span>,
                          key: string)
  {
    exists y: Span :: y.key == key && IsCopy(matches, hot, blocks, y) && forall x :: x in rows ==> start(x) >= start(y)
  }

  lemma {:induction false} ColdStops(blocks: seq<BlockRead>, i: nat, e: ReadError)
    requires FirstUnreadable(blocks, i, e)
    ensures ColdOf(blocks) == Err(e)
  {
    ColdReads(blocks[..i]);
    assert blocks[..i + 1][..i] == blocks[..i];
    FirstErrorStays(blocks, i + 1);
  }

  lemma {:induction false} ColdReads(blocks: seq<BlockRead>)
    requires AllRead(blocks)
    ensures ColdOf(blocks).Ok? && forall x :: x in ColdOf(blocks).value <==> InBlocks(blocks, x)
  {
    if blocks != [] {
      ColdReads(blocks[..|blocks| - 1]);
      OneMoreBlock(blocks);
    }
  }

  lemma OneMoreBlock(blocks: seq<BlockRead>)
    requires blocks != []
    ensures var last := blocks[|blocks| - 1];
            forall x :: InBlocks(blocks, x) <==> InBlocks(blocks[..|blocks| - 1], x) || (last.Ok? && x in last.value)
  {
    var n := |blocks| - 1;
    forall x
      ensures InBlocks(blocks, x) <==> InBlocks(blocks[..n], x) || (blocks[n].Ok? && x in blocks[n].value)
    {
      if InBlocks(blocks[..n], x) {
        var i :| 0 <= i < n && blocks[..n][i].Ok? && x in blocks[..n][i].value;
        assert blocks[i].Ok? && x in blocks[i].value;
      }
      if InBlocks(blocks, x) {
        var i :| 0 <= i < |blocks| && blocks[i].Ok? && x in blocks[i].value;
        assert i < n ==> blocks[..n][i].Ok? && x in blocks[..n][i].value;
      }
    }
  }

  /** First copies come from memory when it holds one. */
  lemma {:induction false} FirstCopyIsCopy(matches: Span -> bool, hot: seq<Span>, blocks: seq<BlockRead>, cold: seq<Span>)
    requires forall x :: x in cold ==> InBlocks(blocks, x)
    ensures forall x :: x in FirstCopies(Matching(matches, hot + cold)) ==> IsCopy(matches, hot, blocks, x)
    decreases |cold|
  {
    hide FirstCopies, Matching, Keys, InBlocks;
    if cold == [] {
      assert hot + cold == hot;
      FirstCopiesMatch(matches, hot);
    } else {
      var front, last := cold[..|cold| - 1], cold[|cold| - 1];
      FirstCopyIsCopy(matches, hot, blocks, front);
      assert last in cold && cold == front + [last] && hot + cold == hot + front + [last];
      CopyBehind(matches, hot, front, last);
    }
  }

  lemma FirstCopiesMatch(matches: Span -> bool, xs: seq<Span>)
    ensures forall x :: x in FirstCopies(Matching(matches, xs)) ==> x in xs && matches(x)
  {
    hide FirstCopies, Matching, Keys, DistinctKeys;
    FirstCopiesKeep(Matching(matches, xs));
    MatchingHolds(matches, xs);
    forall x | x in FirstCopies(Matching(matches, xs))
      ensures x in xs && matches(x)
    {
      assert x in SpansOf(FirstCopies(Matching(matches, xs)));
      assert x in SpansOf(xs);
    }
  }

  lemma CopyBehind(matches: Span -> bool, hot: seq<Span>, front: seq<Span>, last: Span)
    ensures forall x :: x in FirstCopies(Matching(matches, hot + front + [last])) ==>
              || x in FirstCopies(Matching(matches, hot + front))
              || (x == last && matches(x) && forall y :: y in hot && matches(y) ==> y.key != x.key)
  {
    hide Keys;
    var before := Matching(matches, hot + front);
    assert (hot + front + [last])[..|hot + front|] == hot + front;
    assert (before + [last])[..|before|] == before;
    forall y | y in hot && matches(y)
      ensures y.key in Keys(before)
    {
      assert y in hot + front;
      MatchingKeys(matches, hot + front, y);
    }
    if matches(last) {
      assert Matching(matches, hot + front + [last]) == before + [last];
      assert FirstCopies(before + [last]) == FirstCopies(before) + if last.key in Keys(before) then [] else [last];
    } else {
      assert Matching(matches, hot + front + [last]) == before + [] == before;
    }
  }

  lemma MatchingKeys(matches: Span -> bool, xs: seq<Span>, y: Span)
    requires y in xs && matches(y)
    ensures y.key in Keys(Matching(matches, xs))
  {
    hide Matching, Keys;
    MatchingHolds(matches, xs);
    assert y in SpansOf(xs);
    KeyOfSpan(Matching(matches, xs), y.key);
  }

  /** What is left out is a first copy, and no newer than what is kept. */
  lemma LeftOut(start: Starts, xs: seq<Span>, limit: nat, key: string)
    requires key in Keys(xs) && key !in Keys(Top(start, xs, limit))
    ensures |Top(start, xs, limit)| == limit
    ensures exists y :: y in xs && y.key == key && forall x :: x in Top(start, xs, limit) ==> start(x) >= start(y)
  {
    hide Ranked, Keys;
    NewestAreKept(start, xs, limit);
    RankedLength(start, xs);
    KeyOfSpan(xs, key);
    var y :| y in SpansOf(xs) && y.key == key;
    assert y in multiset(xs);
    if y in Top(start, xs, limit) {
      assert y in SpansOf(Top(start, xs, limit));
      KeyOfSpan(Top(start, xs, limit), key);
    }
    assert y in Rest(start, xs, limit);
    RestIsShort(start, xs, limit);
  }

  lemma RestIsShort(start: Starts, xs: seq<Span>, limit: nat)
    requires Rest(start, xs, limit) != []
    ensures |Top(start, xs, limit)| == limit
  {
    hide Ranked;
    RankedLength(start, xs);
  }

  lemma BestOrder(start: Starts, xs: seq<Span>, limit: nat)
    requires DistinctKeys(xs)
    ensures var rows := Best(start, xs, limit);
            && Descending(start, rows) && DistinctKeys(rows) && (limit != USIZE_MAX ==> |rows| <= limit)
            && (forall x :: x in rows ==> x in xs)
            && (limit == USIZE_MAX ==> Keys(rows) == Keys(xs))
  {
    hide Ranked, Keys;
    RankedIsStable(start, xs);
    RankedPermutes(start, xs);
    SameSpans(xs, Ranked(start, xs));
    var ranked, rows := Ranked(start, xs), Best(start, xs, limit);
    assert rows == ranked || exists m :: 0 <= m <= |ranked| && rows == ranked[..m];
    forall x | x in rows
      ensures x in xs
    {
      assert x in ranked;
      assert x in multiset(ranked);
    }
  }

  lemma AnswerAnswers(start: Starts, matches: Span -> bool, limit: nat, hot: seq<Span>, blocks: seq<BlockRead>)
    requires limit > 0 && AllRead(blocks)
    ensures ColdOf(blocks).Ok?
    ensures Answers(start, matches, limit, hot, blocks, Answer(start, matches, limit, hot, ColdOf(blocks).value))
  {
    hide FirstCopies, Matching, Keys, DistinctKeys, Descending, ColdOf, AllRead, InBlocks, Top, Ranked, IsCopy, SpansOf, IsHeld;
    ColdReads(blocks);
    var cold := ColdOf(blocks).value;
    var firsts := FirstCopies(Matching(matches, hot + cold));
    FirstCopiesKeep(Matching(matches, hot + cold));
    FirstCopyIsCopy(matches, hot, blocks, cold);
    BestOrder(start, firsts, limit);
    forall x | matches(x) && IsHeld(hot, blocks, x)
      ensures
        || x.key in Keys(Best(start, firsts, limit))
        || (limit != USIZE_MAX && |Best(start, firsts, limit)| == limit
            && LosesTo(start, matches, hot, blocks, Best(start, firsts, limit), x.key))
    {
      HeldIsFound(matches, hot, blocks, cold, x);
      if limit != USIZE_MAX && x.key !in Keys(Top(start, firsts, limit)) {
        LeftOut(start, firsts, limit, x.key);
      }
    }
  }

  lemma HeldIsFound(matches: Span -> bool, hot: seq<Span>, blocks: seq<BlockRead>, cold: seq<Span>, x: Span)
    requires forall y :: y in cold <==> InBlocks(blocks, y)
    requires matches(x) && IsHeld(hot, blocks, x)
    ensures x.key in Keys(FirstCopies(Matching(matches, hot + cold)))
  {
    hide FirstCopies, Matching, Keys, InBlocks;
    assert x in hot + cold;
    MatchingKeys(matches, hot + cold, x);
    FirstCopiesKeep(Matching(matches, hot + cold));
  }

  // ----- The query -----

  /**
   * The rows of collecting everything and sorting it, from two bounded selections. `first` and `second`
   * say how reading the blocks goes at the first listing and, if that is needed, at the second: what was
   * listed is listed again once, when the first block that cannot be read is gone.
   */
  method Query(start: Starts, matches: Span -> bool, limit: nat, hot: seq<Span>,
               first: seq<BlockRead>, second: seq<BlockRead>)
    returns (result: Result<seq<Span>, ReadError>)
    ensures limit == 0 ==> result == Ok([])
    ensures limit > 0 && AllRead(first) ==> result.Ok? && Answers(start, matches, limit, hot, first, result.value)
    ensures limit > 0 && (exists i :: FirstUnreadable(first, i, NotFound)) && AllRead(second) ==>
              result.Ok? && Answers(start, matches, limit, hot, second, result.value)
    ensures limit > 0 ==> forall i, e :: FirstUnreadable(first, i, e) && e != NotFound ==> result == Err(e)
    ensures limit > 0 && (exists i :: FirstUnreadable(first, i, NotFound)) ==>
              forall i, e :: FirstUnreadable(second, i, e) ==> result == Err(e)
    ensures limit > 0 && Cold(first, second).Err? ==> result == Err(Cold(first, second).error)
    ensures limit > 0 && Cold(first, second).Ok? ==>
              result == Ok(Answer(start, matches, limit, hot, Cold(first, second).value))
  {
    hide Best, FirstCopies, CopiesBesides, Matching, Keys, Answer, Answers, ColdOf, AllRead, FirstUnreadable;
    if limit == 0 {
      return Ok([]);
    }
    var rows, hotSeen := ReadHot(start, matches, limit, hot);
    var error, cold := ReadCold(start, matches, limit, hotSeen, first, second);
    ColdSettled(start, matches, limit, hot, first);
    ColdSettled(start, matches, limit, hot, second);
    if error.Some? {
      return Err(error.value);
    }
    AnswerFromParts(start, matches, limit, hot, Cold(first, second).value);
    var late := cold.IntoVec();
    PushAll(rows, late);
    var answer := rows.IntoVec();
    result := Ok(answer);
  }

  lemma ColdSettled(start: Starts, matches: Span -> bool, limit: nat, hot: seq<Span>, blocks: seq<BlockRead>)
    requires limit > 0
    ensures AllRead(blocks) ==>
              ColdOf(blocks).Ok? && Answers(start, matches, limit, hot, blocks, Answer(start, matches, limit, hot, ColdOf(blocks).value))
    ensures forall i, e :: FirstUnreadable(blocks, i, e) ==> ColdOf(blocks) == Err(e)
  {
    hide *;
    if AllRead(blocks) {
      AnswerAnswers(start, matches, limit, hot, blocks);
    }
    forall i, e | FirstUnreadable(blocks, i, e)
      ensures ColdOf(blocks) == Err(e)
    {
      ColdStops(blocks, i, e);
    }
  }
}
