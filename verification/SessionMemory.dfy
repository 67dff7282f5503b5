/**
 * What a log dialect remembers about each session (src/logs.rs, `Recall`): a map that lives for
 * one export request, over a bounded map of the sessions most recently seen on this node.
 */
module SessionMemory {
  import opened Wrappers

  /** Sessions remembered across requests before the oldest is forgotten. */
  const RECALL_CAPACITY: nat := 4096

  /** The node-wide layer: its entries, and their keys oldest first. */
  datatype Memory<T> = Memory(recent: map<string, T>, order: seq<string>)

  predicate Distinct(order: seq<string>) {
    forall i, j :: 0 <= i < j < |order| ==> order[i] != order[j]
  }

  /** The queue lists the entries, each once, and there are at most `capacity`. */
  ghost predicate IsMemory<T>(m: Memory<T>, capacity: nat) {
    Distinct(m.order) && (forall s :: s in m.order <==> s in m.recent) && |m.order| <= capacity
  }

  function Recalled<T>(m: Memory<T>, local: map<string, T>, session: string): Option<T> {
    if session in local then Some(local[session])
    else if session == "" then None
    else if session in m.recent then Some(m.recent[session])
    else None
  }

  /** An entry is stored; a new one may push out the oldest. */
  function Store<T>(m: Memory<T>, session: string, value: T, capacity: nat): Memory<T> {
    var recent := m.recent[session := value];
    if session in m.recent then Memory(recent, m.order)
    else
      var order := m.order + [session];
      if |order| > capacity then Memory(recent - {order[0]}, order[1..]) else Memory(recent, order)
  }

  class Recall<T> {
    const capacity: nat
    const initial: T
    var recent: map<string, T>
    var order: seq<string>

    ghost function State(): Memory<T>
      reads this
    {
      Memory(recent, order)
    }

    ghost predicate Valid()
      reads this
    {
      capacity >= 1 && IsMemory(State(), capacity)
    }

    constructor (capacity: nat, initial: T)
      requires capacity >= 1
      ensures Valid() && State() == Memory(map[], [])
      ensures this.capacity == capacity && this.initial == initial
    {
      this.capacity, this.initial := capacity, initial;
      recent, order := map[], [];
    }

    /** This request's copy, else this node's; a record without a session is remembered in its request only. */
    method Get(local: map<string, T>, session: string) returns (r: Option<T>)
      ensures r == Recalled(State(), local, session)
    {
      if session in local {
        return Some(local[session]);
      }
      if session == "" {
        return None;
      }
      return if session in recent then Some(recent[session]) else None;
    }

    /** Changes what is remembered, in this request and on this node. */
    method Update(local: map<string, T>, session: string, f: T -> T) returns (local': map<string, T>)
      requires Valid()
      modifies this
      ensures Valid()
      ensures var value := f(Recalled(old(State()), local, session).UnwrapOr(initial));
              && local' == local[session := value]
              && State() == if session == "" then old(State()) else Store(old(State()), session, value, capacity)
    {
      if session == "" {
        return local["" := f(if "" in local then local[""] else initial)];
      }
      var entry := if session in local then local[session]
        else if session in recent then recent[session] else initial;
      var value := f(entry);
      local' := local[session := value];
      var known := session in recent;
      recent := recent[session := value];
      if !known {
        order := order + [session];
        ghost var all := order;
        while |order| > capacity
          invariant order == all || (|all| == capacity + 1 && order == all[1..])
          invariant recent == if order == all then old(recent)[session := value]
                              else old(recent)[session := value] - {all[0]}
          decreases |order|
        {
          var oldest := order[0];
          order := order[1..];
          recent := recent - {oldest};
        }
        StoreKeepsMemory(old(State()), session, value, capacity);
      }
    }
  }

  lemma StoreKeepsMemory<T>(m: Memory<T>, session: string, value: T, capacity: nat)
    requires IsMemory(m, capacity) && capacity >= 1
    ensures IsMemory(Store(m, session, value, capacity), capacity)
  {
    if session !in m.recent {
      var order := m.order + [session];
      assert Distinct(order);
      assert order == [order[0]] + order[1..];
      forall s
        ensures s in order[1..] <==> s in m.recent[session := value] - {order[0]}
      {
        assert s in order <==> s == order[0] || s in order[1..];
        assert s in order <==> s in m.order || s == session;
      }
    }
  }

  // ----- A dialect, and what it should make of a stream -----

  /** What a record becomes, and what is remembered afterwards when that changes. */
  datatype Reaction<+T, +O> = Reaction(out: O, remembers: Option<T>)

  /**
   * How a dialect reads a record, given what it remembers of the record's session. A record that
   * is not the dialect's has no session, and nothing is remembered of it.
   */
  datatype Dialect<!R, !T, !O> = Dialect(session: R -> Option<string>, initial: T, react: (R, T) -> Reaction<T, O>)

  /** What a session has come to after a stream of records: no request and no capacity in sight. */
  function After<R, T, O>(d: Dialect<R, T, O>, records: seq<R>, session: string): T {
    if records == [] then d.initial
    else
      var before := After(d, records[..|records| - 1], session);
      var last := records[|records| - 1];
      if d.session(last) != Some(session) then before else d.react(last, before).remembers.UnwrapOr(before)
  }

  /** What is known of a record's session when it comes after `records`. */
  function Known<R, T, O>(d: Dialect<R, T, O>, records: seq<R>, r: R): T {
    match d.session(r)
    case None => d.initial
    case Some(session) => After(d, records, session)
  }

  /** What each record of a stream becomes. */
  function Outputs<R, T, O>(d: Dialect<R, T, O>, records: seq<R>): seq<O> {
    if records == [] then []
    else
      var before, last := records[..|records| - 1], records[|records| - 1];
      Outputs(d, before) + [d.react(last, Known(d, before, last)).out]
  }

  /** What the two layers make of one record. */
  function Handle<R, T, O>(d: Dialect<R, T, O>, m: Memory<T>, local: map<string, T>, r: R, capacity: nat)
    : (Memory<T>, map<string, T>, O)
  {
    match d.session(r)
    case None => (m, local, d.react(r, d.initial).out)
    case Some(session) =>
      var reaction := d.react(r, Recalled(m, local, session).UnwrapOr(d.initial));
      match reaction.remembers
      case None => (m, local, reaction.out)
      case Some(value) =>
        (if session == "" then m else Store(m, session, value, capacity), local[session := value], reaction.out)
  }

  /** One export request, mapped in order. */
  function HandleRequest<R, T, O>(d: Dialect<R, T, O>, m: Memory<T>, local: map<string, T>, request: seq<R>,
                                  capacity: nat): (Memory<T>, map<string, T>, seq<O>)
  {
    if request == [] then (m, local, [])
    else
      var (m', local', outs) := HandleRequest(d, m, local, request[..|request| - 1], capacity);
      var (m'', local'', out) := Handle(d, m', local', request[|request| - 1], capacity);
      (m'', local'', outs + [out])
  }

  /** Export requests, one after another, each with a request layer of its own. */
  function HandleAll<R, T, O>(d: Dialect<R, T, O>, m: Memory<T>, requests: seq<seq<R>>, capacity: nat)
    : (Memory<T>, seq<O>)
  {
    if requests == [] then (m, [])
    else
      var (m', outs) := HandleAll(d, m, requests[..|requests| - 1], capacity);
      var (m'', _, more) := HandleRequest(d, m', map[], requests[|requests| - 1], capacity);
      (m'', outs + more)
  }

  lemma HandleAllLast<R, T, O>(d: Dialect<R, T, O>, m: Memory<T>, requests: seq<seq<R>>, last: seq<R>, capacity: nat)
    ensures var (m', outs) := HandleAll(d, m, requests, capacity);
            var (m'', _, more) := HandleRequest(d, m', map[], last, capacity);
            HandleAll(d, m, requests + [last], capacity) == (m'', outs + more)
  {
    assert (requests + [last])[..|requests|] == requests;
  }

  function Concat<R>(requests: seq<seq<R>>): seq<R> {
    if requests == [] then [] else Concat(requests[..|requests| - 1]) + requests[|requests| - 1]
  }

  /** Every record the dialect reads belongs to one of the sessions. */
  predicate Within<R, T, O>(d: Dialect<R, T, O>, records: seq<R>, sessions: set<string>) {
    forall i :: 0 <= i < |records| && d.session(records[i]).Some? ==> d.session(records[i]).value in sessions
  }

  /** Both layers agree with the stream handled so far. */
  ghost predicate Agrees<R, T, O>(d: Dialect<R, T, O>, m: Memory<T>, local: map<string, T>, records: seq<R>,
                                  sessions: set<string>, capacity: nat)
  {
    && IsMemory(m, capacity)
    && (forall s :: s in m.order ==> s in sessions)
    && (forall s :: s in local ==> local[s] == After(d, records, s))
    && (forall s :: s != "" ==> After(d, records, s) == if s in m.recent then m.recent[s] else d.initial)
  }

  lemma QueueFits(order: seq<string>, sessions: set<string>)
    requires Distinct(order) && forall s :: s in order ==> s in sessions
    ensures |order| <= |sessions|
    decreases |order|
  {
    if order != [] {
      var last := order[|order| - 1];
      var rest := order[..|order| - 1];
      assert forall s :: s in rest ==> s in sessions - {last};
      QueueFits(rest, sessions - {last});
    }
  }

  lemma AfterOneMore<R, T, O>(d: Dialect<R, T, O>, records: seq<R>, r: R)
    ensures forall s :: After(d, records + [r], s) ==
              if d.session(r) != Some(s) then After(d, records, s)
              else d.react(r, After(d, records, s)).remembers.UnwrapOr(After(d, records, s))
  {
    assert (records + [r])[..|records|] == records;
  }

  lemma OutputsOneMore<R, T, O>(d: Dialect<R, T, O>, records: seq<R>, r: R)
    ensures Outputs(d, records + [r]) == Outputs(d, records) + [d.react(r, Known(d, records, r)).out]
  {
    assert (records + [r])[..|records|] == records;
  }

  /** With room for every session, storing pushes nothing out. */
  lemma StoreFits<T>(m: Memory<T>, session: string, value: T, sessions: set<string>, capacity: nat)
    requires IsMemory(m, capacity) && (forall s :: s in m.order ==> s in sessions)
    requires session in sessions && |sessions| <= capacity
    ensures var m' := Store(m, session, value, capacity);
            && IsMemory(m', capacity) && m'.recent == m.recent[session := value]
            && (forall s :: s in m'.order ==> s in sessions)
  {
    if session !in m.recent {
      var order := m.order + [session];
      assert Distinct(order);
      QueueFits(order, sessions);
    }
  }

  lemma HandleAgrees<R, T, O>(d: Dialect<R, T, O>, m: Memory<T>, local: map<string, T>, records: seq<R>, r: R,
                              sessions: set<string>, capacity: nat)
    requires Agrees(d, m, local, records, sessions, capacity)
    requires Within(d, [r], sessions) && "" !in sessions && |sessions| <= capacity
    ensures var (m', local', out) := Handle(d, m, local, r, capacity);
            && Agrees(d, m', local', records + [r], sessions, capacity)
            && out == d.react(r, Known(d, records, r)).out
  {
    AfterOneMore(d, records, r);
    assert d.session([r][0]) == d.session(r);
    hide After, IsMemory;
    match d.session(r)
    case None =>
    case Some(session) =>
      var known := After(d, records, session);
      assert Recalled(m, local, session).UnwrapOr(d.initial) == known;
      match d.react(r, known).remembers
      case None =>
      case Some(value) => StoreFits(m, session, value, sessions, capacity);
  }

  lemma {:induction false} RequestAgrees<R, T, O>(d: Dialect<R, T, O>, m: Memory<T>, records: seq<R>,
                                                  request: seq<R>, sessions: set<string>, capacity: nat)
    requires Agrees(d, m, map[], records, sessions, capacity)
    requires Within(d, request, sessions) && "" !in sessions && |sessions| <= capacity
    ensures var (m', local', outs) := HandleRequest(d, m, map[], request, capacity);
            && Agrees(d, m', local', records + request, sessions, capacity)
            && Outputs(d, records + request) == Outputs(d, records) + outs
    decreases |request|
  {
    hide Agrees, Outputs, Handle;
    if request == [] {
      assert records + request == records;
    } else {
      var front, r := request[..|request| - 1], request[|request| - 1];
      RequestAgrees(d, m, records, front, sessions, capacity);
      var (m', local', outs) := HandleRequest(d, m, map[], front, capacity);
      HandleAgrees(d, m', local', records + front, r, sessions, capacity);
      OutputsOneMore(d, records + front, r);
      assert records + request == records + front + [r];
    }
  }

  lemma {:induction false} AllAgree<R, T, O>(d: Dialect<R, T, O>, requests: seq<seq<R>>, sessions: set<string>,
                                             capacity: nat)
    requires Within(d, Concat(requests), sessions) && "" !in sessions && |sessions| <= capacity
    ensures var (m, outs) := HandleAll(d, Memory(map[], []), requests, capacity);
            && Agrees(d, m, map[], Concat(requests), sessions, capacity)
            && outs == Outputs(d, Concat(requests))
    decreases |requests|
  {
    if requests != [] {
      var front, last := requests[..|requests| - 1], requests[|requests| - 1];
      var before := Concat(front);
      assert Concat(requests) == before + last;
      assert Within(d, before, sessions) && Within(d, last, sessions) by {
        assert forall i :: 0 <= i < |before| ==> before[i] == Concat(requests)[i];
        assert forall i :: 0 <= i < |last| ==> last[i] == Concat(requests)[|before| + i];
      }
      AllAgree(d, front, sessions, capacity);
      var (m, _) := HandleAll(d, Memory(map[], []), front, capacity);
      RequestAgrees(d, m, before, last, sessions, capacity);
    }
  }

  /**
   * However a stream is split into export requests, the records become the same: what they
   * would become with one map from session to state, and no request layer and no bound.
   */
  lemma SplittingChangesNothing<R, T, O>(d: Dialect<R, T, O>, requests: seq<seq<R>>, sessions: set<string>,
                                         capacity: nat)
    requires Within(d, Concat(requests), sessions) && "" !in sessions && |sessions| <= capacity
    ensures HandleAll(d, Memory(map[], []), requests, capacity).1 == Outputs(d, Concat(requests))
  {
    AllAgree(d, requests, sessions, capacity);
  }

  // ----- What every run keeps, evictions included -----

  ghost predicate AllEntries<T>(m: map<string, T>, inv: T -> bool) {
    forall s :: s in m ==> inv(m[s])
  }

  ghost predicate All<O>(outs: seq<O>, good: O -> bool) {
    forall i :: 0 <= i < |outs| ==> good(outs[i])
  }

  /** A reaction keeps `inv` of what is remembered, and what it makes is `good`. */
  ghost predicate Keeps<R(!new), T(!new), O>(d: Dialect<R, T, O>, inv: T -> bool, good: O -> bool) {
    && inv(d.initial)
    && (forall r, t :: inv(t) ==>
          good(d.react(r, t).out) && (d.react(r, t).remembers.Some? ==> inv(d.react(r, t).remembers.value)))
  }

  lemma {:induction false} RequestKeeps<R(!new), T(!new), O>(d: Dialect<R, T, O>, m: Memory<T>, request: seq<R>,
                                                             capacity: nat, inv: T -> bool, good: O -> bool)
    requires Keeps(d, inv, good) && AllEntries(m.recent, inv)
    ensures var (m', local', outs) := HandleRequest(d, m, map[], request, capacity);
            AllEntries(m'.recent, inv) && AllEntries(local', inv) && All(outs, good)
    decreases |request|
  {
    if request != [] {
      RequestKeeps(d, m, request[..|request| - 1], capacity, inv, good);
    }
  }

  lemma {:induction false} RunKeeps<R(!new), T(!new), O>(d: Dialect<R, T, O>, requests: seq<seq<R>>, capacity: nat,
                                                         inv: T -> bool, good: O -> bool)
    requires Keeps(d, inv, good)
    ensures var (m, outs) := HandleAll(d, Memory(map[], []), requests, capacity);
            AllEntries(m.recent, inv) && All(outs, good)
    decreases |requests|
  {
    if requests != [] {
      var front := requests[..|requests| - 1];
      RunKeeps(d, front, capacity, inv, good);
      RequestKeeps(d, HandleAll(d, Memory(map[], []), front, capacity).0, requests[|requests| - 1], capacity, inv, good);
    }
  }
}
