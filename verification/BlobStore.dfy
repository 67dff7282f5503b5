/** The content-addressed store of oversized payloads (src/blob.rs), with its hash left arbitrary. */
module BlobStore {
  import opened Wrappers
  import opened Numerals
  import opened Otlp

  const PREFIX := "evald-blob:"

  /** The blob directory: file names to contents. */
  type Files = map<string, Bytes>

  /** One more than the largest probe number: they are counted in 32 bits. */
  const PROBES: nat := 0x1_0000_0000

  type Hash = Bytes -> nat

  /** Length and 64-bit hash, both as sixteen hex digits. */
  function KeyFor(hash: Hash, bytes: Bytes): (key: string)
    ensures |key| == 32 && forall i :: 0 <= i < |key| ==> IsHexDigit(key[i])
  {
    Hex(|bytes|, 16) + Hex(hash(bytes), 16)
  }

  /** Payloads of different sizes are never given the same name, nor payloads of different hashes. */
  lemma NamesTellSizes(hash: Hash, a: Bytes, b: Bytes)
    requires |a| < Pow16(16) && |b| < Pow16(16) && hash(a) < Pow16(16) && hash(b) < Pow16(16)
    ensures KeyFor(hash, a) == KeyFor(hash, b) <==> |a| == |b| && hash(a) == hash(b)
  {
    hide Hex, Pow16;
    if KeyFor(hash, a) == KeyFor(hash, b) {
      assert KeyFor(hash, a)[..16] == Hex(|a|, 16) && KeyFor(hash, a)[16..] == Hex(hash(a), 16);
      assert KeyFor(hash, b)[..16] == Hex(|b|, 16) && KeyFor(hash, b)[16..] == Hex(hash(b), 16);
      HexSettles(|a|, |b|, 16);
      HexSettles(hash(a), hash(b), 16);
    }
  }

  function Probe(base: string, n: nat): string {
    if n == 0 then base else base + "-" + Decimal(n)
  }

  lemma ProbesDiffer(base: string, m: nat, n: nat)
    requires Probe(base, m) == Probe(base, n)
    ensures m == n
  {
    DecimalReads(m);
    DecimalReads(n);
    if m > 0 && n > 0 {
      assert Probe(base, m)[|base| + 1..] == Decimal(m);
      assert Probe(base, n)[|base| + 1..] == Decimal(n);
    }
  }

  predicate IsSafeKey(key: string) {
    key != "" && |key| <= 64 && forall i :: 0 <= i < |key| ==> IsHexDigit(key[i]) || key[i] == '-'
  }

  lemma ProbesAreSafe(hash: Hash, bytes: Bytes, n: nat)
    requires n < PROBES
    ensures IsSafeKey(Probe(KeyFor(hash, bytes), n))
  {
    hide Decimal, ValueOf, Hex, KeyFor;
    DecimalReads(n);
    assert n < Pow10(10) by { assert Pow10(10) == 10_000_000_000; }
    DecimalLength(n, 10);
  }

  // ----- Putting -----

  /** The first `n` probes of `bytes` are taken by other payloads. */
  predicate TakenBefore(files: Files, bytes: Bytes, base: string, n: nat) {
    forall m :: 0 <= m < n ==> Probe(base, m) in files && files[Probe(base, m)] != bytes
  }

  /** Where `bytes` is, or goes: the first probe that is free or already holds it. */
  predicate IsSlot(files: Files, bytes: Bytes, base: string, n: nat) {
    TakenBefore(files, bytes, base, n) && (Probe(base, n) in files ==> files[Probe(base, n)] == bytes)
  }

  /** Probes are distinct names, so no more of them are taken than there are files. */
  lemma {:induction false} ProbesFit(names: set<string>, base: string, n: nat)
    requires forall m :: 0 <= m < n ==> Probe(base, m) in names
    ensures n <= |names|
    decreases n
  {
    if n > 0 {
      var last := Probe(base, n - 1);
      forall m | 0 <= m < n - 1
        ensures Probe(base, m) in names - {last}
      {
        if Probe(base, m) == last {
          ProbesDiffer(base, m, n - 1);
        }
      }
      ProbesFit(names - {last}, base, n - 1);
    }
  }

  lemma TakenFit(files: Files, bytes: Bytes, base: string, n: nat)
    requires TakenBefore(files, bytes, base, n)
    ensures n <= |files|
  {
    ProbesFit(files.Keys, base, n);
  }

  function SlotFrom(files: Files, bytes: Bytes, base: string, n: nat): (slot: nat)
    requires TakenBefore(files, bytes, base, n)
    ensures IsSlot(files, bytes, base, slot)
    decreases |files| + 1 - n
  {
    TakenFit(files, bytes, base, n);
    if Probe(base, n) in files && files[Probe(base, n)] != bytes then
      TakenFit(files, bytes, base, n + 1);
      SlotFrom(files, bytes, base, n + 1)
    else n
  }

  function SlotOf(files: Files, bytes: Bytes, base: string): (slot: nat)
    ensures IsSlot(files, bytes, base, slot) && slot <= |files|
  {
    var slot := SlotFrom(files, bytes, base, 0);
    TakenFit(files, bytes, base, slot);
    slot
  }

  lemma SlotsAgree(files: Files, bytes: Bytes, base: string, m: nat, n: nat)
    requires IsSlot(files, bytes, base, m) && IsSlot(files, bytes, base, n)
    ensures m == n
  {
  }

  /** The probe counter reaches the slot of `bytes` without passing its 32 bits. */
  predicate InReach(files: Files, hash: Hash, bytes: Bytes) {
    SlotOf(files, bytes, KeyFor(hash, bytes)) < PROBES
  }

  lemma FewFilesReach(files: Files, hash: Hash, bytes: Bytes)
    requires |files| < PROBES
    ensures InReach(files, hash, bytes)
  {
    hide KeyFor;
  }

  function KeyOf(files: Files, hash: Hash, bytes: Bytes): string {
    var base := KeyFor(hash, bytes);
    Probe(base, SlotOf(files, bytes, base))
  }

  function Stored(files: Files, hash: Hash, bytes: Bytes): Files {
    files[KeyOf(files, hash, bytes) := bytes]
  }

  /** Which files the disk fails to read or write. */
  datatype Disk = Disk(readFails: string -> bool, writeFails: string -> bool)

  datatype IoError = IoError

  ghost predicate Works(disk: Disk) {
    forall name :: !disk.readFails(name) && !disk.writeFails(name)
  }

  /** The key of a reference, or the key itself. */
  function KeyIn(keyOrRef: string): string {
    if PREFIX <= keyOrRef then keyOrRef[|PREFIX|..] else keyOrRef
  }

  function Resolved(files: Files, keyOrRef: string): Option<Bytes> {
    var key := KeyIn(keyOrRef);
    if IsSafeKey(key) && key in files then Some(files[key]) else None
  }

  class Store {
    const hash: Hash
    var files: Files

    constructor (hash: Hash, files: Files)
      ensures this.hash == hash && this.files == files
    {
      this.hash, this.files := hash, files;
    }

    /** Stores `bytes` unless they are there, and hands back the reference; a failed put leaves the files alone. */
    method Put(bytes: Bytes, disk: Disk) returns (r: Result<string, IoError>)
      requires InReach(files, hash, bytes)
      modifies this
      ensures r.Ok? ==> r.value == PREFIX + KeyOf(old(files), hash, bytes)
      ensures files == if r.Ok? then Stored(old(files), hash, bytes) else old(files)
      ensures Works(disk) ==> r.Ok?
    {
      hide SlotOf, KeyFor, Decimal;
      var base := KeyFor(hash, bytes);
      var key, n := base, 0;
      while true
        invariant key == Probe(base, n) && files == old(files)
        invariant TakenBefore(files, bytes, base, n) && n <= |files|
        decreases |files| - n
      {
        if disk.readFails(key) {
          return Err(IoError);
        } else if key !in files {
          if disk.writeFails(key) {
            return Err(IoError);
          }
          SlotsAgree(files, bytes, base, n, SlotOf(files, bytes, base));
          files := files[key := bytes];
          break;
        } else if files[key] == bytes {
          SlotsAgree(files, bytes, base, n, SlotOf(files, bytes, base));
          assert files == files[key := bytes];
          break;
        }
        n := n + 1;
        TakenFit(files, bytes, base, n);
        key := base + "-" + Decimal(n);
      }
      r := Ok(PREFIX + key);
    }

    /** A name that is not safe is never read, so that no failing disk shows either. */
    method Get(keyOrRef: string, disk: Disk) returns (r: Result<Option<Bytes>, IoError>)
      ensures r.Ok? ==> r.value == Resolved(files, keyOrRef)
      ensures r.Err? <==> IsSafeKey(KeyIn(keyOrRef)) && disk.readFails(KeyIn(keyOrRef))
    {
      var key := KeyIn(keyOrRef);
      if !IsSafeKey(key) {
        return Ok(None);
      }
      if disk.readFails(key) {
        return Err(IoError);
      }
      return Ok(if key in files then Some(files[key]) else None);
    }
  }

  // ----- Any sequence of puts -----

  predicate Grows(before: Files, after: Files) {
    forall key :: key in before ==> key in after && after[key] == before[key]
  }

  /** Storing never touches another file. */
  lemma StoringGrows(files: Files, hash: Hash, bytes: Bytes)
    ensures Grows(files, Stored(files, hash, bytes)) && |Stored(files, hash, bytes)| <= |files| + 1
  {
  }

  /** Once stored, bytes keep their name however the directory grows. */
  lemma KeyIsStable(files: Files, hash: Hash, bytes: Bytes, later: Files)
    requires Grows(Stored(files, hash, bytes), later)
    ensures KeyOf(later, hash, bytes) == KeyOf(files, hash, bytes)
    ensures KeyOf(later, hash, bytes) in later && later[KeyOf(later, hash, bytes)] == bytes
  {
    var base := KeyFor(hash, bytes);
    var n := SlotOf(files, bytes, base);
    forall m | 0 <= m < n
      ensures Probe(base, m) in later && later[Probe(base, m)] != bytes
    {
      if Probe(base, m) == Probe(base, n) {
        ProbesDiffer(base, m, n);
      }
    }
    SlotsAgree(later, bytes, base, n, SlotOf(later, bytes, base));
  }

  lemma ReferenceResolves(files: Files, hash: Hash, bytes: Bytes, later: Files)
    requires InReach(files, hash, bytes) && Grows(Stored(files, hash, bytes), later)
    ensures Resolved(later, PREFIX + KeyOf(files, hash, bytes)) == Some(bytes)
    ensures IsSafeKey(KeyOf(files, hash, bytes))
  {
    var key := KeyOf(files, hash, bytes);
    KeyIsStable(files, hash, bytes, later);
    ProbesAreSafe(hash, bytes, SlotOf(files, bytes, KeyFor(hash, bytes)));
    assert (PREFIX + key)[|PREFIX|..] == key;
  }

  /** The directory after the first `n` of some payloads were put in order. */
  function AfterPuts(files: Files, hash: Hash, payloads: seq<Bytes>, n: nat): Files
    requires n <= |payloads|
  {
    if n == 0 then files else Stored(AfterPuts(files, hash, payloads, n - 1), hash, payloads[n - 1])
  }

  /** The reference the `i`th put hands back. */
  function RefOf(files: Files, hash: Hash, payloads: seq<Bytes>, i: nat): string
    requires i < |payloads|
  {
    PREFIX + KeyOf(AfterPuts(files, hash, payloads, i), hash, payloads[i])
  }

  lemma {:induction false} PutsGrow(files: Files, hash: Hash, payloads: seq<Bytes>, m: nat, n: nat)
    requires m <= n <= |payloads|
    ensures Grows(AfterPuts(files, hash, payloads, m), AfterPuts(files, hash, payloads, n))
    ensures |AfterPuts(files, hash, payloads, n)| <= |AfterPuts(files, hash, payloads, m)| + (n - m)
    decreases n
  {
    hide Stored;
    if m < n {
      PutsGrow(files, hash, payloads, m, n - 1);
      StoringGrows(AfterPuts(files, hash, payloads, n - 1), hash, payloads[n - 1]);
    }
  }

  /**
   * For any hash and any directory: every reference handed back is safe and goes on resolving to
   * exactly its payload, and two puts hand back one reference exactly when they put the same bytes.
   */
  lemma PutsAreFaithful(files: Files, hash: Hash, payloads: seq<Bytes>, i: nat, j: nat)
    requires |files| + |payloads| < PROBES && i < |payloads| && j < |payloads|
    ensures var ref := RefOf(files, hash, payloads, i);
            && PREFIX <= ref && IsSafeKey(ref[|PREFIX|..])
            && (forall n :: i < n <= |payloads| ==> Resolved(AfterPuts(files, hash, payloads, n), ref) == Some(payloads[i]))
            && (ref == RefOf(files, hash, payloads, j) <==> payloads[i] == payloads[j])
  {
    PutResolves(files, hash, payloads, i);
    PutResolves(files, hash, payloads, j);
    hide Stored, KeyOf, Resolved, IsSafeKey, Grows;
    if payloads[i] == payloads[j] {
      if i < j {
        SameBytesSameReference(files, hash, payloads, i, j);
      } else if j < i {
        SameBytesSameReference(files, hash, payloads, j, i);
      }
    } else {
      var all := AfterPuts(files, hash, payloads, |payloads|);
      assert Resolved(all, RefOf(files, hash, payloads, i)) == Some(payloads[i]);
      assert Resolved(all, RefOf(files, hash, payloads, j)) == Some(payloads[j]);
    }
  }

  lemma SameBytesSameReference(files: Files, hash: Hash, payloads: seq<Bytes>, i: nat, j: nat)
    requires i < j < |payloads| && payloads[i] == payloads[j]
    ensures RefOf(files, hash, payloads, i) == RefOf(files, hash, payloads, j)
  {
    hide KeyOf, Grows, Stored, AfterPuts;
    var first, second := AfterPuts(files, hash, payloads, i), AfterPuts(files, hash, payloads, j);
    OnePut(files, hash, payloads, i);
    PutsGrow(files, hash, payloads, i + 1, j);
    KeyIsStable(first, hash, payloads[i], second);
  }

  lemma OnePut(files: Files, hash: Hash, payloads: seq<Bytes>, i: nat)
    requires i < |payloads|
    ensures AfterPuts(files, hash, payloads, i + 1) == Stored(AfterPuts(files, hash, payloads, i), hash, payloads[i])
  {
    hide Stored;
  }

  lemma PutResolves(files: Files, hash: Hash, payloads: seq<Bytes>, i: nat)
    requires |files| + |payloads| < PROBES && i < |payloads|
    ensures var ref := RefOf(files, hash, payloads, i);
            && PREFIX <= ref && IsSafeKey(ref[|PREFIX|..])
            && (forall n :: i < n <= |payloads| ==> Resolved(AfterPuts(files, hash, payloads, n), ref) == Some(payloads[i]))
  {
    hide *;
    var before := AfterPuts(files, hash, payloads, i);
    NoPuts(files, hash, payloads);
    PutsGrow(files, hash, payloads, 0, i);
    OnePut(files, hash, payloads, i);
    RefIsSafe(files, hash, payloads, i);
    forall n | i < n <= |payloads|
      ensures Resolved(AfterPuts(files, hash, payloads, n), RefOf(files, hash, payloads, i)) == Some(payloads[i])
    {
      PutsGrow(files, hash, payloads, i + 1, n);
      FewFilesReach(before, hash, payloads[i]);
      ReferenceResolves(before, hash, payloads[i], AfterPuts(files, hash, payloads, n));
      RefIs(files, hash, payloads, i);
    }
  }

  lemma NoPuts(files: Files, hash: Hash, payloads: seq<Bytes>)
    ensures AfterPuts(files, hash, payloads, 0) == files
  {
  }

  lemma RefIs(files: Files, hash: Hash, payloads: seq<Bytes>, i: nat)
    requires i < |payloads|
    ensures RefOf(files, hash, payloads, i) == PREFIX + KeyOf(AfterPuts(files, hash, payloads, i), hash, payloads[i])
  {
    hide KeyOf, AfterPuts;
  }

  lemma RefIsSafe(files: Files, hash: Hash, payloads: seq<Bytes>, i: nat)
    requires i < |payloads| && |AfterPuts(files, hash, payloads, i)| < PROBES
    ensures var ref := RefOf(files, hash, payloads, i); PREFIX <= ref && IsSafeKey(ref[|PREFIX|..])
  {
    hide AfterPuts, SlotOf, Probe, KeyFor, IsSafeKey;
    var before := AfterPuts(files, hash, payloads, i);
    var key := KeyOf(before, hash, payloads[i]);
    ProbesAreSafe(hash, payloads[i], SlotOf(before, payloads[i], KeyFor(hash, payloads[i])));
    assert (PREFIX + key)[|PREFIX|..] == key;
  }
}
