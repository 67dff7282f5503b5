/**
 * Reading the newest spans (src/store/mod.rs): a bounded selection over memory and blocks, read apart, that
 * gives the very rows of collecting everything, sorting it and cutting it off.
 */
module RecentSpans {
  import opened Durability

  type Starts = Span -> nat

  const USIZE_MAX: nat := 0xFFFF_FFFF_FFFF_FFFF

  // ----- Newest first, ties as they came -----

  /** Behind everything that is at least as new. */
  function Placed(start: Starts, ranked: seq<Span>, x: Span): seq<Span> {
    if ranked == [] || start(ranked[|ranked| - 1]) >= start(x) then ranked + [x]
    else Placed(start, ranked[..|ranked| - 1], x) + [ranked[|ranked| - 1]]
  }

  function Ranked(start: Starts, xs: seq<Span>): seq<Span> {
    if xs == [] then [] else Placed(start, Ranked(start, xs[..|xs| - 1]), xs[|xs| - 1])
  }

  predicate Descending(start: Starts, xs: seq<Span>) {
    forall i, j :: 0 <= i < j < |xs| ==> start(xs[i]) >= start(xs[j])
  }

  /** The spans of one start, in their order. */
  function Of(start: Starts, xs: seq<Span>, t: nat): seq<Span> {
    if xs == [] then []
    else Of(start, xs[..|xs| - 1], t) + if start(xs[|xs| - 1]) == t then [xs[|xs| - 1]] else []
  }

  /** The same spans of each start, in the same order. */
  ghost predicate SameOfEach(start: Starts, xs: seq<Span>, ys: seq<Span>) {
    forall t :: Of(start, xs, t) == Of(start, ys, t)
  }

  lemma {:induction false} OfJoin(start: Starts, a: seq<Span>, b: seq<Span>, t: nat)
    ensures Of(start, a + b, t) == Of(start, a, t) + Of(start, b, t)
  {
    if b == [] {
      assert a + b == a;
    } else {
      var front, last := b[..|b| - 1], b[|b| - 1];
      assert (a + b)[..|a + b| - 1] == a + front && (a + b)[|a + b| - 1] == last;
      OfJoin(start, a, front, t);
    }
  }

  lemma {:induction false} OfNone(start: Starts, xs: seq<Span>, t: nat)
    requires forall i :: 0 <= i < |xs| ==> start(xs[i]) != t
    ensures Of(start, xs, t) == []
  {
    if xs != [] {
      OfNone(start, xs[..|xs| - 1], t);
    }
  }

  /** Where a span is placed. */
  lemma {:induction false} PlacedAt(start: Starts, a: seq<Span>, b: seq<Span>, x: Span)
    requires forall i :: 0 <= i < |a| ==> start(a[i]) >= start(x)
    requires forall i :: 0 <= i < |b| ==> start(b[i]) < start(x)
    ensures Placed(start, a + b, x) == a + [x] + b
  {
    var all := a + b;
    if b == [] {
      assert all == a;
    } else {
      assert all[..|all| - 1] == a + b[..|b| - 1] && all[|all| - 1] == b[|b| - 1];
      PlacedAt(start, a, b[..|b| - 1], x);
    }
  }

  /** How a descending list falls apart at a start: what is at least as new, and the rest. */
  function Cut(start: Starts, xs: seq<Span>, t: nat): (k: nat)
    requires Descending(start, xs)
    ensures k <= |xs|
    ensures forall i :: 0 <= i < k ==> start(xs[i]) >= t
    ensures forall i :: k <= i < |xs| ==> start(xs[i]) < t
  {
    if xs == [] then 0
    else if start(xs[|xs| - 1]) >= t then |xs|
    else Cut(start, xs[..|xs| - 1], t)
  }

  lemma PlacedSplit(start: Starts, xs: seq<Span>, x: Span)
    requires Descending(start, xs)
    ensures var k := Cut(start, xs, start(x)); Placed(start, xs, x) == xs[..k] + [x] + xs[k..]
    ensures Descending(start, Placed(start, xs, x))
  {
    hide Placed, Cut, Descending;
    var k := Cut(start, xs, start(x));
    assert xs[..k] + xs[k..] == xs;
    PlacedAt(start, xs[..k], xs[k..], x);
    DescendingJoin(start, xs, k, x);
  }

  lemma DescendingJoin(start: Starts, xs: seq<Span>, k: nat, x: Span)
    requires Descending(start, xs) && k <= |xs|
    requires forall i :: 0 <= i < k ==> start(xs[i]) >= start(x)
    requires forall i :: k <= i < |xs| ==> start(xs[i]) < start(x)
    ensures Descending(start, xs[..k] + [x] + xs[k..])
  {
  }

  /** The ranking: newest first, and the spans of each start as they came. */
  lemma {:induction false} RankedIsStable(start: Starts, xs: seq<Span>)
    ensures |Ranked(start, xs)| == |xs| && Descending(start, Ranked(start, xs))
    ensures SameOfEach(start, Ranked(start, xs), xs)
  {
    hide Placed, Of, Descending;
    if xs == [] {
      RankedNothing(start);
    } else {
      var front, x := xs[..|xs| - 1], xs[|xs| - 1];
      RankedIsStable(start, front);
      var ranked := Ranked(start, front);
      PlacedSplit(start, ranked, x);
      assert xs == front + [x];
      forall t
        ensures Of(start, Ranked(start, xs), t) == Of(start, xs, t)
      {
        PlacedKeepsOf(start, ranked, x, t);
        OfJoin(start, front, [x], t);
      }
    }
  }

  lemma RankedNothing(start: Starts)
    ensures Ranked(start, []) == [] && Descending(start, [])
  {
  }

  lemma PlacedKeepsOf(start: Starts, ranked: seq<Span>, x: Span, t: nat)
    requires Descending(start, ranked)
    ensures Of(start, Placed(start, ranked, x), t) == Of(start, ranked, t) + Of(start, [x], t)
  {
    hide Placed, Of;
    var k := Cut(start, ranked, start(x));
    var a, b := ranked[..k], ranked[k..];
    PlacedSplit(start, ranked, x);
    assert a + b == ranked;
    OfJoin(start, a, b, t);
    OfJoin(start, a + [x], b, t);
    OfJoin(start, a, [x], t);
    OfAlone(start, x, t);
    if t == start(x) {
      OfNone(start, b, t);
    }
  }

  lemma OfAlone(start: Starts, x: Span, t: nat)
    ensures Of(start, [x], t) == if start(x) == t then [x] else []
  {
  }

  /** There is one such list. */
  lemma {:induction false} StableIsUnique(start: Starts, xs: seq<Span>, ys: seq<Span>)
    requires Descending(start, xs) && Descending(start, ys)
    requires SameOfEach(start, xs, ys)
    ensures xs == ys
    decreases |xs|
  {
    hide Of, Descending;
    BothEmpty(start, xs, ys);
    if xs != [] {
      SameLast(start, xs, ys);
      SameFront(start, xs, ys);
      DescendingFront(start, xs);
      DescendingFront(start, ys);
      StableIsUnique(start, Front(xs), Front(ys));
    }
  }

  function Front(xs: seq<Span>): seq<Span>
    requires xs != []
  {
    xs[..|xs| - 1]
  }

  ghost predicate NoneOfAny(start: Starts, xs: seq<Span>) {
    forall t :: Of(start, xs, t) == []
  }

  lemma NothingIffNone(start: Starts, xs: seq<Span>)
    ensures xs == [] <==> NoneOfAny(start, xs)
  {
    if xs != [] {
      LastOf(start, xs);
    }
  }

  lemma BothEmpty(start: Starts, xs: seq<Span>, ys: seq<Span>)
    requires SameOfEach(start, xs, ys)
    ensures xs == [] <==> ys == []
  {
    hide Of;
    NothingIffNone(start, xs);
    NothingIffNone(start, ys);
    assert NoneOfAny(start, xs) <==> NoneOfAny(start, ys);
  }

  lemma DescendingFront(start: Starts, xs: seq<Span>)
    requires xs != [] && Descending(start, xs)
    ensures Descending(start, Front(xs))
  {
  }

  lemma LastOf(start: Starts, xs: seq<Span>)
    requires xs != []
    ensures var x := xs[|xs| - 1]; Of(start, xs, start(x)) == Of(start, Front(xs), start(x)) + [x]
    ensures forall t :: t != start(xs[|xs| - 1]) ==> Of(start, xs, t) == Of(start, Front(xs), t)
  {
  }

  /** The oldest of a descending list is its last, and the last of that start. */
  lemma SameLast(start: Starts, xs: seq<Span>, ys: seq<Span>)
    requires xs != [] && ys != [] && Descending(start, xs) && Descending(start, ys)
    requires SameOfEach(start, xs, ys)
    ensures xs[|xs| - 1] == ys[|ys| - 1]
  {
    hide Of;
    var x, y := xs[|xs| - 1], ys[|ys| - 1];
    LastOf(start, xs);
    LastOf(start, ys);
    if start(x) < start(y) {
      OfNone(start, ys, start(x));
    } else if start(y) < start(x) {
      OfNone(start, xs, start(y));
    }
    var n := |Of(start, xs, start(x))|;
    assert x == Of(start, xs, start(x))[n - 1] == y;
  }

  lemma SameFront(start: Starts, xs: seq<Span>, ys: seq<Span>)
    requires xs != [] && ys != [] && SameOfEach(start, xs, ys) && xs[|xs| - 1] == ys[|ys| - 1]
    ensures SameOfEach(start, Front(xs), Front(ys))
  {
    hide Of;
    LastOf(start, xs);
    LastOf(start, ys);
    forall t
      ensures Of(start, Front(xs), t) == Of(start, Front(ys), t)
    {
      if t == start(xs[|xs| - 1]) {
        var n := |Of(start, xs, t)|;
        assert Of(start, xs, t)[..n - 1] == Of(start, Front(xs), t);
        assert Of(start, ys, t)[..n - 1] == Of(start, Front(ys), t);
      }
    }
  }

  /** The ranking is what any stable sort by start, newest first, gives. */
  lemma RankedIffStable(start: Starts, xs: seq<Span>, ys: seq<Span>)
    ensures ys == Ranked(start, xs) <==> Descending(start, ys) && SameOfEach(start, ys, xs)
  {
    hide Ranked, Of, Descending;
    RankedIsStable(start, xs);
    if Descending(start, ys) && SameOfEach(start, ys, xs) {
      StableIsUnique(start, ys, Ranked(start, xs));
    }
  }

  // ----- The newest few -----

  function Min(x: nat, y: nat): nat { if x <= y then x else y }

  /** The first `n` of the ranking. */
  function Top(start: Starts, xs: seq<Span>, n: nat): seq<Span> {
    RankedLength(start, xs);
    Ranked(start, xs)[..Min(n, |xs|)]
  }

  lemma RankedLength(start: Starts, xs: seq<Span>)
    ensures |Ranked(start, xs)| == |xs|
  {
    RankedIsStable(start, xs);
  }

  /** Beginnings of a list in which one span was placed. */
  lemma PlacedInside(ranked: seq<Span>, x: Span, k: nat, m: nat, cut: nat)
    requires k <= m <= |ranked| && cut <= m + 1
    ensures (ranked[..k] + [x] + ranked[k..])[..cut] == (ranked[..k] + [x] + ranked[k..m])[..cut]
  {
  }

  lemma PlacedBehind(ranked: seq<Span>, x: Span, k: nat, m: nat)
    requires m < k <= |ranked|
    ensures (ranked[..k] + [x] + ranked[k..])[..m] == (ranked[..m] + [x] + [])[..m]
  {
  }

  /** What falls out of the newest few never comes back: one more span can be placed among them alone. */
  lemma TopOfOneMore(start: Starts, xs: seq<Span>, x: Span, n: nat)
    ensures var placed := Placed(start, Top(start, xs, n), x);
            |placed| == Min(n, |xs|) + 1 && Top(start, xs + [x], n) == placed[..Min(n, |xs| + 1)]
  {
    hide Placed, Descending, Cut;
    RankedIsStable(start, xs);
    RankedLength(start, xs + [x]);
    var ranked, m := Ranked(start, xs), Min(n, |xs|);
    assert (xs + [x])[..|xs|] == xs;
    RankedAppends(start, xs, x);
    PlacedSplit(start, ranked, x);
    var k := Cut(start, ranked, start(x));
    var whole, cut := ranked[..k] + [x] + ranked[k..], Min(n, |xs| + 1);
    assert Top(start, xs + [x], n) == whole[..cut];
    if k <= m {
      assert ranked[..m] == ranked[..k] + ranked[k..m];
      PlacedAt(start, ranked[..k], ranked[k..m], x);
      PlacedInside(ranked, x, k, m, cut);
    } else {
      assert ranked[..m] == ranked[..m] + [];
      PlacedAt(start, ranked[..m], [], x);
      PlacedBehind(ranked, x, k, m);
    }
  }

  lemma RankedAppends(start: Starts, xs: seq<Span>, x: Span)
    ensures Ranked(start, xs + [x]) == Placed(start, Ranked(start, xs), x)
  {
    hide Placed;
    assert (xs + [x])[..|xs|] == xs;
  }

  /** What comes later may as well come ranked. */
  lemma RankedBehind(start: Starts, a: seq<Span>, b: seq<Span>)
    ensures Ranked(start, a + Ranked(start, b)) == Ranked(start, a + b)
  {
    hide Ranked, Of, Descending;
    var c := Ranked(start, b);
    RankedIsStable(start, b);
    RankedIsStable(start, a + b);
    RankedIsStable(start, a + c);
    forall t
      ensures Of(start, a + c, t) == Of(start, a + b, t)
    {
      OfJoin(start, a, b, t);
      OfJoin(start, a, c, t);
    }
    StableIsUnique(start, Ranked(start, a + c), Ranked(start, a + b));
  }

  /** How many are at least as new. */
  function AtLeast(start: Starts, xs: seq<Span>, t: nat): nat {
    if xs == [] then 0 else AtLeast(start, xs[..|xs| - 1], t) + if start(xs[|xs| - 1]) >= t then 1 else 0
  }

  lemma {:induction false} AtLeastJoin(start: Starts, a: seq<Span>, b: seq<Span>, t: nat)
    ensures AtLeast(start, a + b, t) == AtLeast(start, a, t) + AtLeast(start, b, t)
  {
    if b == [] {
      assert a + b == a;
    } else {
      var front, last := b[..|b| - 1], b[|b| - 1];
      assert (a + b)[..|a + b| - 1] == a + front && (a + b)[|a + b| - 1] == last;
      AtLeastJoin(start, a, front, t);
    }
  }

  lemma {:induction false} AllAtLeast(start: Starts, xs: seq<Span>, t: nat)
    ensures (forall i :: 0 <= i < |xs| ==> start(xs[i]) >= t) ==> AtLeast(start, xs, t) == |xs|
    ensures (forall i :: 0 <= i < |xs| ==> start(xs[i]) < t) ==> AtLeast(start, xs, t) == 0
  {
    if xs != [] {
      AllAtLeast(start, xs[..|xs| - 1], t);
    }
  }

  lemma CutIsAtLeast(start: Starts, xs: seq<Span>, t: nat)
    requires Descending(start, xs)
    ensures Cut(start, xs, t) == AtLeast(start, xs, t)
  {
    hide Cut, AtLeast, Descending;
    var k := Cut(start, xs, t);
    assert xs == xs[..k] + xs[k..];
    AtLeastJoin(start, xs[..k], xs[k..], t);
    AllAtLeast(start, xs[..k], t);
    AllAtLeast(start, xs[k..], t);
  }

  lemma {:induction false} RankedAtLeast(start: Starts, xs: seq<Span>, t: nat)
    ensures AtLeast(start, Ranked(start, xs), t) == AtLeast(start, xs, t)
  {
    hide AtLeast, Placed, Descending;
    if xs == [] {
    } else {
      var front, x := xs[..|xs| - 1], xs[|xs| - 1];
      RankedAtLeast(start, front, t);
      var ranked := Ranked(start, front);
      RankedIsStable(start, front);
      PlacedSplit(start, ranked, x);
      var k := Cut(start, ranked, start(x));
      assert ranked == ranked[..k] + ranked[k..] && xs == front + [x];
      AtLeastJoin(start, ranked[..k], ranked[k..], t);
      AtLeastJoin(start, ranked[..k] + [x], ranked[k..], t);
      AtLeastJoin(start, ranked[..k], [x], t);
      AtLeastJoin(start, front, [x], t);
    }
  }

  /** With as many ahead of it that are at least as new, a span does not make it. */
  lemma TooManyAhead(start: Starts, xs: seq<Span>, x: Span, n: nat)
    requires AtLeast(start, xs, start(x)) >= n && |xs| >= n
    ensures Top(start, xs + [x], n) == Top(start, xs, n)
  {
    hide Placed, Descending, Cut, AtLeast;
    RankedIsStable(start, xs);
    RankedAtLeast(start, xs, start(x));
    CutIsAtLeast(start, Ranked(start, xs), start(x));
    RankedAppends(start, xs, x);
    PlacedSplit(start, Ranked(start, xs), x);
    RankedLength(start, xs + [x]);
  }

  lemma {:induction false} CutBehind(start: Starts, a: seq<Span>, c: seq<Span>, n: nat)
    requires Descending(start, c)
    ensures Top(start, a + c[..Min(n, |c|)], n) == Top(start, a + c, n)
  {
    hide Top, AtLeast;
    if |c| <= n {
      assert c[..|c|] == c;
    } else {
      var front, x := c[..|c| - 1], c[|c| - 1];
      CutBehind(start, a, front, n);
      assert front[..n] == c[..n] && a + c == a + front + [x];
      AtLeastJoin(start, a, front, start(x));
      AllAtLeast(start, front, start(x));
      TooManyAhead(start, a + front, x, n);
    }
  }

  /** Of what comes later, its own newest few are enough. */
  lemma HalvesSuffice(start: Starts, a: seq<Span>, b: seq<Span>, n: nat)
    ensures Top(start, a + Top(start, b, n), n) == Top(start, a + b, n)
  {
    hide Ranked, Descending;
    RankedIsStable(start, b);
    RankedBehind(start, a, b);
    CutBehind(start, a, Ranked(start, b), n);
  }

  /** What does not make it. */
  function Rest(start: Starts, xs: seq<Span>, n: nat): seq<Span> {
    RankedLength(start, xs);
    Ranked(start, xs)[Min(n, |xs|)..]
  }

  lemma {:induction false} RankedPermutes(start: Starts, xs: seq<Span>)
    ensures multiset(Ranked(start, xs)) == multiset(xs)
  {
    hide Placed, Descending;
    if xs == [] {
    } else {
      var front, x := xs[..|xs| - 1], xs[|xs| - 1];
      RankedPermutes(start, front);
      RankedIsStable(start, front);
      PlacedSplit(start, Ranked(start, front), x);
      var k := Cut(start, Ranked(start, front), start(x));
      assert Ranked(start, front) == Ranked(start, front)[..k] + Ranked(start, front)[k..];
      assert xs == front + [x];
    }
  }

  /** Every span is kept or left out, and none that is left out is newer than one that is kept. */
  lemma NewestAreKept(start: Starts, xs: seq<Span>, n: nat)
    ensures multiset(Top(start, xs, n)) + multiset(Rest(start, xs, n)) == multiset(xs)
    ensures forall x, y :: x in Top(start, xs, n) && y in Rest(start, xs, n) ==> start(x) >= start(y)
  {
    hide Ranked, Descending;
    RankedIsStable(start, xs);
    RankedPermutes(start, xs);
    var top, rest := Top(start, xs, n), Rest(start, xs, n);
    assert top + rest == Ranked(start, xs);
    assert multiset(top + rest) == multiset(top) + multiset(rest);
    NewerAhead(start, top, rest);
  }

  lemma NewerAhead(start: Starts, top: seq<Span>, rest: seq<Span>)
    requires Descending(start, top + rest)
    ensures forall x, y :: x in top && y in rest ==> start(x) >= start(y)
  {
    forall x, y | x in top && y in rest
      ensures start(x) >= start(y)
    {
      var i :| 0 <= i < |top| && top[i] == x;
      var j :| 0 <= j < |rest| && rest[j] == y;
      assert (top + rest)[i] == x && (top + rest)[|top| + j] == y;
    }
  }
}
