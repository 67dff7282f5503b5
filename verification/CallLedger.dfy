/**
 * The ledger of recently stored calls (src/calls.rs): a bounded first-in first-out set of call
 * keys, consulted before a batch of spans is appended and updated after.
 */
module CallLedger {
  import opened Wrappers

  /** A span, as far as the ledger reads it; `body` stands for the rest. */
  datatype Span = Span(name: string, anchor: Option<string>, callKey: Option<string>, body: nat) {
    /** The key the span carries: an anchor counts before a droppable key. */
    function Carries(): Option<string> {
      if anchor.Some? then anchor else callKey
    }

    predicate Droppable() { anchor.None? && callKey.Some? }

    predicate IsClaudeCode() { "claude_code." <= name }
  }

  predicate MayCarryKeys(spans: seq<Span>) {
    exists i :: 0 <= i < |spans| && spans[i].IsClaudeCode()
  }

  predicate Distinct(keys: seq<string>) {
    forall i, j :: 0 <= i < j < |keys| ==> keys[i] != keys[j]
  }

  function Elements(keys: seq<string>): set<string> {
    set k | k in keys
  }

  // ----- Filtering a batch -----

  datatype Filtered = Filtered(kept: seq<Span>, keys: seq<string>, dropped: nat)

  function FilterOne(recent: set<string>, f: Filtered, s: Span): Filtered {
    if s.anchor.Some? then
      Filtered(f.kept + [s], if s.anchor.value in f.keys then f.keys else f.keys + [s.anchor.value], f.dropped)
    else if s.callKey.None? then
      f.(kept := f.kept + [s])
    else if s.callKey.value in recent || s.callKey.value in f.keys then
      f.(dropped := f.dropped + 1)
    else
      Filtered(f.kept + [s], f.keys + [s.callKey.value], f.dropped)
  }

  function FilterAll(recent: set<string>, spans: seq<Span>): Filtered {
    if spans == [] then Filtered([], [], 0)
    else FilterOne(recent, FilterAll(recent, spans[..|spans| - 1]), spans[|spans| - 1])
  }

  /** A span is kept unless it is a droppable copy of a remembered call, or of one earlier in the batch. */
  predicate Keeps(recent: set<string>, spans: seq<Span>, i: nat)
    requires i < |spans|
  {
    spans[i].Droppable() ==>
      && spans[i].callKey.value !in recent
      && forall j :: 0 <= j < i ==> spans[j].Carries() != spans[i].callKey
  }

  /** The spans kept, in order. */
  function Kept(recent: set<string>, spans: seq<Span>, n: nat): seq<Span>
    requires n <= |spans|
  {
    if n == 0 then []
    else Kept(recent, spans, n - 1) + if Keeps(recent, spans, n - 1) then [spans[n - 1]] else []
  }

  /** Is `key` carried by one of the spans? */
  predicate CarriedBy(key: string, spans: seq<Span>) {
    exists i :: 0 <= i < |spans| && spans[i].Carries() == Some(key)
  }

  lemma CarriedByMore(spans: seq<Span>, s: Span)
    ensures forall key :: CarriedBy(key, spans + [s]) <==> CarriedBy(key, spans) || s.Carries() == Some(key)
  {
    var more := spans + [s];
    forall key
      ensures CarriedBy(key, more) <==> CarriedBy(key, spans) || s.Carries() == Some(key)
    {
      if CarriedBy(key, spans) {
        var i :| 0 <= i < |spans| && spans[i].Carries() == Some(key);
        assert more[i] == spans[i];
      }
      assert more[|spans|] == s;
    }
  }

  /** The keys noted are those the kept spans carry, each once, and a key left out is remembered. */
  lemma {:induction false} FilterKeys(recent: set<string>, spans: seq<Span>)
    ensures var f := FilterAll(recent, spans);
            && Distinct(f.keys)
            && (forall key :: key in f.keys <==> CarriedBy(key, f.kept))
            && (forall key :: CarriedBy(key, spans) ==> key in f.keys || key in recent)
            && (forall key :: CarriedBy(key, f.kept) ==> CarriedBy(key, spans))
    decreases |spans|
  {
    if spans != [] {
      var rest, s := spans[..|spans| - 1], spans[|spans| - 1];
      assert spans == rest + [s];
      FilterKeys(recent, rest);
      var f := FilterAll(recent, rest);
      CarriedByMore(rest, s);
      CarriedByMore(f.kept, s);
    }
  }

  lemma {:induction false} KeptOfPrefix(recent: set<string>, spans: seq<Span>, m: nat, n: nat)
    requires n <= m <= |spans|
    ensures Kept(recent, spans[..m], n) == Kept(recent, spans, n)
  {
    if n > 0 {
      KeptOfPrefix(recent, spans, m, n - 1);
      assert Keeps(recent, spans[..m], n - 1) == Keeps(recent, spans, n - 1);
    }
  }

  lemma LastFiltered(recent: set<string>, spans: seq<Span>)
    requires spans != []
    ensures FilterAll(recent, spans) == FilterOne(recent, FilterAll(recent, spans[..|spans| - 1]), spans[|spans| - 1])
  {
  }

  lemma KeptIffKept(recent: set<string>, spans: seq<Span>, n: nat)
    requires n < |spans|
    ensures Keeps(recent, spans, n) <==>
            (spans[n].Droppable() ==>
               spans[n].callKey.value !in recent && spans[n].callKey.value !in FilterAll(recent, spans[..n]).keys)
  {
    var s, f := spans[n], FilterAll(recent, spans[..n]);
    FilterKeys(recent, spans[..n]);
    hide FilterAll;
    if s.Droppable() && s.callKey.value !in recent {
      assert CarriedBy(s.callKey.value, spans[..n]) <==> !Keeps(recent, spans, n);
    }
  }

  /** Exactly the spans that `Keeps` says, in their order; the rest are counted. */
  lemma {:induction false} FilterKeepsExactly(recent: set<string>, spans: seq<Span>)
    ensures FilterAll(recent, spans).kept == Kept(recent, spans, |spans|)
    ensures |FilterAll(recent, spans).kept| + FilterAll(recent, spans).dropped == |spans|
    decreases |spans|
  {
    if spans != [] {
      var n := |spans| - 1;
      var rest, s := spans[..n], spans[n];
      FilterKeepsExactly(recent, rest);
      KeptOfPrefix(recent, spans, n, n);
      KeptIffKept(recent, spans, n);
      hide Keeps, FilterAll;
      assert FilterAll(recent, spans) == FilterOne(recent, FilterAll(recent, rest), s) by {
        LastFiltered(recent, spans);
      }
    }
  }

  // ----- Remembering keys -----

  function AddKey(order: seq<string>, key: string): seq<string> {
    if key in order then order else order + [key]
  }

  function AddKeys(order: seq<string>, keys: seq<string>): seq<string>
    decreases |keys|
  {
    if keys == [] then order else AddKeys(AddKey(order, keys[0]), keys[1..])
  }

  /** The newest `capacity` of them. */
  function Newest(order: seq<string>, capacity: nat): seq<string> {
    if |order| > capacity then order[|order| - capacity..] else order
  }

  function RememberAll(order: seq<string>, keys: seq<string>, capacity: nat): seq<string> {
    Newest(AddKeys(order, keys), capacity)
  }

  lemma AddKeyAppends(order: seq<string>, key: string)
    requires Distinct(order)
    ensures order <= AddKey(order, key) && Distinct(AddKey(order, key))
    ensures forall k :: k in AddKey(order, key) <==> k in order || k == key
  {
  }

  /** Adding keys appends the new ones and leaves what was there alone. */
  lemma {:induction false} AddKeysAppends(order: seq<string>, keys: seq<string>)
    requires Distinct(order)
    ensures order <= AddKeys(order, keys) && Distinct(AddKeys(order, keys))
    ensures forall k :: k in AddKeys(order, keys) <==> k in order || k in keys
    decreases |keys|
  {
    if keys != [] {
      AddKeyAppends(order, keys[0]);
      hide Distinct, AddKey;
      AddKeysAppends(AddKey(order, keys[0]), keys[1..]);
      assert keys == [keys[0]] + keys[1..];
    }
  }

  lemma DistinctTail(order: seq<string>)
    requires Distinct(order) && order != []
    ensures Distinct(order[1..]) && Elements(order[1..]) == Elements(order) - {order[0]}
  {
    assert order == [order[0]] + order[1..];
  }

  // ----- The ledger -----

  class Ledger {
    const capacity: nat
    var recent: set<string>
    var order: seq<string>
    var dropped: nat

    /** The set and the queue hold the same distinct keys, at most `capacity` of them. */
    ghost predicate Valid()
      reads this
    {
      && capacity >= 1
      && Distinct(order)
      && recent == Elements(order)
      && |order| <= capacity
    }

    constructor (capacity: nat)
      ensures Valid() && order == [] && dropped == 0
      ensures this.capacity == if capacity == 0 then 1 else capacity
    {
      this.capacity := if capacity == 0 then 1 else capacity;
      recent, order, dropped := {}, [], 0;
    }

    /** Drops the spans whose call is remembered or already in the batch; hands back the keys to remember. */
    method Filter(spans: seq<Span>) returns (kept: seq<Span>, keys: seq<string>)
      requires Valid()
      modifies this`dropped
      ensures Valid()
      ensures kept == FilterAll(Elements(order), spans).kept
      ensures keys == FilterAll(Elements(order), spans).keys
      ensures dropped == old(dropped) + |spans| - |kept|
    {
      kept, keys := [], [];
      var inBatch: set<string> := {};
      var missed := 0;
      for i := 0 to |spans|
        invariant Filtered(kept, keys, missed) == FilterAll(recent, spans[..i])
        invariant inBatch == Elements(keys)
      {
        var s := spans[i];
        assert spans[..i + 1][..i] == spans[..i];
        if s.anchor.Some? {
          if s.anchor.value !in inBatch {
            inBatch := inBatch + {s.anchor.value};
            keys := keys + [s.anchor.value];
          }
          kept := kept + [s];
        } else if s.callKey.None? {
          kept := kept + [s];
        } else if s.callKey.value in recent || s.callKey.value in inBatch {
          missed := missed + 1;
        } else {
          inBatch := inBatch + {s.callKey.value};
          keys := keys + [s.callKey.value];
          kept := kept + [s];
        }
      }
      assert spans[..|spans|] == spans;
      FilterKeepsExactly(recent, spans);
      if missed > 0 {
        dropped := dropped + missed;
      }
    }

    /** Remembers keys whose spans are durable; the oldest past capacity are forgotten. */
    method Remember(keys: seq<string>)
      requires Valid()
      modifies this`recent, this`order
      ensures Valid()
      ensures order == RememberAll(old(order), keys, capacity)
    {
      if keys == [] {
        return;
      }
      for i := 0 to |keys|
        invariant Distinct(order) && recent == Elements(order)
        invariant AddKeys(order, keys[i..]) == AddKeys(old(order), keys)
      {
        AddKeyAppends(order, keys[i]);
        if keys[i] !in recent {
          recent := recent + {keys[i]};
          order := order + [keys[i]];
        }
        assert keys[i..][1..] == keys[i + 1..];
      }
      while |order| > capacity
        invariant Distinct(order) && recent == Elements(order)
        invariant Newest(order, capacity) == RememberAll(old(order), keys, capacity)
      {
        DistinctTail(order);
        recent := recent - {order[0]};
        order := order[1..];
      }
    }
  }
}
