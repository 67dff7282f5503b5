/** The edit distance behind the `levenshtein` evaluator (src/eval.rs). */
module EditDistance {

  function Min(x: nat, y: nat): nat { if x <= y then x else y }

  function Max(x: nat, y: nat): nat { if x <= y then y else x }

  /** Everything but the last character. */
  function Init(s: string): string
    requires s != []
  {
    s[..|s| - 1]
  }

  function Last(s: string): char
    requires s != []
  {
    s[|s| - 1]
  }

  function Cost(c: char, d: char): nat { if c == d then 0 else 1 }

  /** The recursive edit distance. */
  function Dist(a: string, b: string): nat
    decreases |a| + |b|
  {
    if a == [] then |b|
    else if b == [] then |a|
    else Min(Min(Dist(Init(a), b) + 1, Dist(a, Init(b)) + 1), Dist(Init(a), Init(b)) + Cost(Last(a), Last(b)))
  }

  // ----- The two-row dynamic program -----

  /** The first `n` cells of row `i` of the table. */
  ghost predicate IsRow(row: seq<nat>, n: nat, a: string, i: nat, b: string)
    requires n <= |row| && n <= |b| + 1 && i <= |a|
  {
    forall j :: 0 <= j < n ==> row[j] == Dist(a[..i], b[..j])
  }

  lemma FirstRow(row: seq<nat>, a: string, b: string)
    requires |row| == |b| + 1 && forall j :: 0 <= j < |row| ==> row[j] == j
    ensures IsRow(row, |row|, a, 0, b)
  {
  }

  lemma FirstCell(row: seq<nat>, a: string, i: nat, b: string)
    requires i <= |a| && 0 < |row| && row[0] == i
    ensures IsRow(row, 1, a, i, b)
  {
  }

  /** A cell comes from three neighbours: above, to the left, and diagonal. */
  lemma NextCell(prev: seq<nat>, cur: seq<nat>, cell: nat, a: string, i: nat, b: string, j: nat)
    requires 0 < i <= |a| && 0 < j <= |b| && |prev| == |cur| == |b| + 1
    requires IsRow(prev, |b| + 1, a, i - 1, b) && IsRow(cur, j, a, i, b)
    requires cell == Min(Min(prev[j] + 1, cur[j - 1] + 1), prev[j - 1] + Cost(a[i - 1], b[j - 1]))
    ensures IsRow(cur[j := cell], j + 1, a, i, b)
  {
    var x, y := a[..i], b[..j];
    assert Init(x) == a[..i - 1] && Last(x) == a[i - 1];
    assert Init(y) == b[..j - 1] && Last(y) == b[j - 1];
    assert cell == Dist(x, y);
  }

  method Levenshtein(a: string, b: string) returns (d: nat)
    ensures d == Dist(a, b)
  {
    var prev := new nat[|b| + 1](j => j);
    var cur := new nat[|b| + 1](_ => 0);
    FirstRow(prev[..], a, b);
    for i := 1 to |a| + 1
      invariant prev.Length == cur.Length == |b| + 1 && prev != cur
      invariant fresh(prev) && fresh(cur)
      invariant IsRow(prev[..], |b| + 1, a, i - 1, b)
    {
      cur[0] := i;
      FirstCell(cur[..], a, i, b);
      for j := 1 to |b| + 1
        invariant IsRow(prev[..], |b| + 1, a, i - 1, b)
        invariant IsRow(cur[..], j, a, i, b)
      {
        var cost := if a[i - 1] != b[j - 1] then 1 else 0;
        var cell := Min(Min(prev[j] + 1, cur[j - 1] + 1), prev[j - 1] + cost);
        NextCell(prev[..], cur[..], cell, a, i, b, j);
        ghost var row := cur[..];
        cur[j] := cell;
        assert cur[..] == row[j := cell];
      }
      prev, cur := cur, prev;
    }
    assert a[..|a|] == a && b[..|b|] == b;
    d := prev[|b|];
  }

  // ----- A metric -----

  lemma {:induction false} DistSymmetric(a: string, b: string)
    ensures Dist(a, b) == Dist(b, a)
    decreases |a| + |b|
  {
    if a != [] && b != [] {
      DistSymmetric(Init(a), b);
      DistSymmetric(a, Init(b));
      DistSymmetric(Init(a), Init(b));
    }
  }

  /** The distance lies between the difference of the lengths and the larger length. */
  lemma {:induction false} DistBounds(a: string, b: string)
    ensures |a| <= |b| + Dist(a, b) && |b| <= |a| + Dist(a, b)
    ensures Dist(a, b) <= Max(|a|, |b|)
    decreases |a| + |b|
  {
    if a != [] && b != [] {
      DistBounds(Init(a), b);
      DistBounds(a, Init(b));
      DistBounds(Init(a), Init(b));
    }
  }

  lemma {:induction false} DistZeroIffEqual(a: string, b: string)
    ensures Dist(a, b) == 0 <==> a == b
    decreases |a| + |b|
  {
    if a != [] && b != [] {
      DistZeroIffEqual(Init(a), Init(b));
      assert a == Init(a) + [Last(a)] && b == Init(b) + [Last(b)];
    }
  }

  lemma {:induction false} TriangleInequality(a: string, b: string, c: string)
    ensures Dist(a, c) <= Dist(a, b) + Dist(b, c)
    decreases |a| + |b| + |c|
  {
    if a == [] || b == [] || c == [] {
      DistBounds(a, b);
      DistBounds(b, c);
      DistBounds(a, c);
    } else {
      TriangleInequality(Init(a), b, c);
      TriangleInequality(a, b, Init(c));
      TriangleInequality(a, Init(b), c);
      TriangleInequality(a, Init(b), Init(c));
      TriangleInequality(Init(a), Init(b), c);
      TriangleInequality(Init(a), Init(b), Init(c));
    }
  }

  // ----- Scripts of single edits -----

  datatype Edit =
    | Insert(at: nat, c: char)
    | Delete(at: nat)
    | Substitute(at: nat, c: char)

  predicate Fits(e: Edit, s: string) {
    match e
    case Insert(at, _) => at <= |s|
    case Delete(at) => at < |s|
    case Substitute(at, _) => at < |s|
  }

  function Apply(e: Edit, s: string): string
    requires Fits(e, s)
  {
    match e
    case Insert(at, c) => s[..at] + [c] + s[at..]
    case Delete(at) => s[..at] + s[at + 1..]
    case Substitute(at, c) => s[..at] + [c] + s[at + 1..]
  }

  /** `script`, applied in order from `a`, always fits and ends at `b`. */
  predicate Turns(a: string, script: seq<Edit>, b: string)
    decreases |script|
  {
    if script == [] then a == b
    else Fits(script[0], a) && Turns(Apply(script[0], a), script[1..], b)
  }

  lemma {:induction false} SharedSuffix(a: string, b: string, s: string)
    ensures Dist(a + s, b + s) <= Dist(a, b)
    decreases |s|
  {
    if s == [] {
      assert a + s == a && b + s == b;
    } else {
      assert Init(a + s) == a + Init(s) && Init(b + s) == b + Init(s);
      SharedSuffix(a, b, Init(s));
    }
  }

  lemma OneMoreChar(p: string, c: char)
    ensures Dist(p, p + [c]) <= 1 && Dist(p + [c], p) <= 1
  {
    DistZeroIffEqual(p, p);
    assert Init(p + [c]) == p;
  }

  lemma OtherLastChar(p: string, c: char, d: char)
    ensures Dist(p + [c], p + [d]) <= 1
  {
    DistZeroIffEqual(p, p);
    assert Init(p + [c]) == p && Init(p + [d]) == p;
  }

  lemma OneEdit(e: Edit, s: string)
    requires Fits(e, s)
    ensures Dist(s, Apply(e, s)) <= 1
  {
    hide Dist;
    var p := s[..e.at];
    match e
    case Insert(at, c) =>
      assert s == p + s[at..];
      OneMoreChar(p, c);
      SharedSuffix(p, p + [c], s[at..]);
    case Delete(at) =>
      assert s == p + [s[at]] + s[at + 1..];
      OneMoreChar(p, s[at]);
      SharedSuffix(p + [s[at]], p, s[at + 1..]);
    case Substitute(at, c) =>
      assert s == p + [s[at]] + s[at + 1..];
      OtherLastChar(p, s[at], c);
      SharedSuffix(p + [s[at]], p + [c], s[at + 1..]);
  }

  /** No script is shorter than the distance. */
  lemma {:induction false} NoShorterScript(a: string, script: seq<Edit>, b: string)
    requires Turns(a, script, b)
    ensures Dist(a, b) <= |script|
    decreases |script|
  {
    hide Dist;
    if script == [] {
      DistZeroIffEqual(a, b);
    } else {
      var next := Apply(script[0], a);
      OneEdit(script[0], a);
      NoShorterScript(next, script[1..], b);
      TriangleInequality(a, next, b);
    }
  }

  lemma {:induction false} TurnsThen(a: string, first: seq<Edit>, b: string, second: seq<Edit>, c: string)
    requires Turns(a, first, b) && Turns(b, second, c)
    ensures Turns(a, first + second, c)
    decreases |first|
  {
    hide Apply, Fits;
    if first == [] {
      assert first + second == second;
    } else {
      TurnsThen(Apply(first[0], a), first[1..], b, second, c);
      assert (first + second)[1..] == first[1..] + second;
    }
  }

  lemma ApplyUnderSuffix(e: Edit, a: string, s: string)
    requires Fits(e, a)
    ensures Fits(e, a + s) && Apply(e, a + s) == Apply(e, a) + s
  {
    assert (a + s)[..e.at] == a[..e.at];
    assert (a + s)[e.at..] == a[e.at..] + s;
    if !e.Insert? {
      assert (a + s)[e.at + 1..] == a[e.at + 1..] + s;
    }
  }

  lemma {:induction false} TurnsUnderSuffix(a: string, script: seq<Edit>, b: string, s: string)
    requires Turns(a, script, b)
    ensures Turns(a + s, script, b + s)
    decreases |script|
  {
    if script != [] {
      ApplyUnderSuffix(script[0], a, s);
      TurnsUnderSuffix(Apply(script[0], a), script[1..], b, s);
    }
  }

  lemma TurnsFirst(a: string, e: Edit, next: string, rest: seq<Edit>, b: string)
    requires Fits(e, a) && Apply(e, a) == next && Turns(next, rest, b)
    ensures Turns(a, [e] + rest, b)
  {
    assert ([e] + rest)[1..] == rest;
  }

  /** Where a distance comes from, without unfolding it. */
  lemma DistCases(a: string, b: string)
    ensures b == [] ==> Dist(a, b) == |a|
    ensures a == [] ==> Dist(a, b) == |b|
    ensures a != [] && b != [] ==>
              || Dist(a, b) == Dist(Init(a), b) + 1
              || Dist(a, b) == Dist(a, Init(b)) + 1
              || Dist(a, b) == Dist(Init(a), Init(b)) + Cost(Last(a), Last(b))
  {
  }

  /** A script as long as the distance. */
  lemma {:induction false} ShortestScript(a: string, b: string) returns (script: seq<Edit>)
    ensures Turns(a, script, b) && |script| == Dist(a, b)
    decreases |a| + |b|
  {
    hide Dist;
    DistCases(a, b);
    if a == [] && b == [] {
      script := [];
    } else if a != [] && (b == [] || Dist(a, b) == Dist(Init(a), b) + 1) {
      var rest := ShortestScript(Init(a), b);
      DistCases(Init(a), b);
      TurnsFirst(a, Delete(|a| - 1), Init(a), rest, b);
      script := [Delete(|a| - 1)] + rest;
    } else if a == [] || Dist(a, b) == Dist(a, Init(b)) + 1 {
      var rest := ShortestScript(a, Init(b));
      DistCases(a, Init(b));
      var add := Insert(|b| - 1, Last(b));
      TurnsFirst(Init(b), add, b, [], b);
      TurnsThen(a, rest, Init(b), [add], b);
      script := rest + [add];
    } else {
      var rest := ShortestScript(Init(a), Init(b));
      script := ShortestByDiagonal(a, b, rest);
    }
  }

  lemma ShortestByDiagonal(a: string, b: string, rest: seq<Edit>) returns (script: seq<Edit>)
    requires a != [] && b != [] && Turns(Init(a), rest, Init(b))
    ensures Turns(a, script, b) && |script| == |rest| + Cost(Last(a), Last(b))
  {
    hide Turns;
    TurnsUnderSuffix(Init(a), rest, Init(b), [Last(b)]);
    assert Init(b) + [Last(b)] == b;
    if Last(a) == Last(b) {
      assert Init(a) + [Last(b)] == a;
      script := rest;
    } else {
      var change := Substitute(|a| - 1, Last(b));
      script := [change] + rest;
      assert Turns(a, script, b) by {
        TurnsFirst(a, change, Init(a) + [Last(b)], rest, b);
      }
    }
  }

  /** The distance is the length of a shortest script. */
  lemma DistIsShortestScript(a: string, b: string, n: nat)
    ensures n == Dist(a, b) <==>
            (exists script :: Turns(a, script, b) && |script| == n) &&
            (forall script :: Turns(a, script, b) ==> n <= |script|)
  {
    hide *;
    var best := ShortestScript(a, b);
    forall script | Turns(a, script, b)
      ensures Dist(a, b) <= |script|
    {
      NoShorterScript(a, script, b);
    }
  }

  // ----- Similarity -----

  /** `r` is one minus the share `d / max`, said without the division. */
  ghost predicate IsComplement(r: real, d: nat, max: nat) {
    (1.0 - r) * max as real == d as real
  }

  lemma ComplementOfShare(d: nat, max: nat, r: real)
    requires d <= max && 0 < max && r == 1.0 - d as real / max as real
    ensures 0.0 <= r <= 1.0
    ensures r == 1.0 <==> d == 0
    ensures IsComplement(r, d, max)
  {
    var q, m := 1.0 - r, max as real;
    assert q * m == d as real;
    assert q < 0.0 ==> q * m < 0.0;
    assert q > 1.0 ==> (q - 1.0) * m > 0.0;
  }

  method LevenshteinSimilarity(a: string, b: string) returns (r: real)
    ensures 0.0 <= r <= 1.0
    ensures r == 1.0 <==> a == b
    ensures IsComplement(r, Dist(a, b), Max(|a|, |b|))
  {
    var max := Max(|a|, |b|);
    if max == 0 {
      return 1.0;
    }
    var d := Levenshtein(a, b);
    r := 1.0 - d as real / max as real;
    assert d <= max by { DistBounds(a, b); }
    assert d == 0 <==> a == b by { DistZeroIffEqual(a, b); }
    ComplementOfShare(d, max, r);
  }
}
