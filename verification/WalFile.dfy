/** Segment files of the write-ahead log (src/store/wal.rs): framed records, and what is read of a torn file. */
module WalFile {
  import opened Wrappers
  import opened Otlp

  const HEADER: nat := 8
  const FRAME_LIMIT: nat := 0x1_0000_0000

  /** How a span is spelled, how it is read, and the checksum; none is modelled further. */
  datatype Format<!Span> = Format(spell: Span -> Bytes, read: Bytes -> Option<Span>, crc: Bytes -> nat)

  ghost predicate IsFormat<Span(!new)>(f: Format<Span>) {
    && (forall s :: f.read(f.spell(s)) == Some(s))
    && forall bytes :: f.crc(bytes) < FRAME_LIMIT
  }

  /** Four bytes, the lowest first. */
  function Le32(n: nat): (b: Bytes)
    requires n < FRAME_LIMIT
    ensures |b| == 4
  {
    [n % 256, n / 256 % 256, n / 65536 % 256, n / 16777216]
  }

  function ReadLe32(b: Bytes): nat
    requires |b| == 4
  {
    var b0: int, b1: int, b2: int, b3: int := b[0], b[1], b[2], b[3];
    b0 + 256 * b1 + 65536 * b2 + 16777216 * b3
  }

  lemma Le32Reads(n: nat)
    requires n < FRAME_LIMIT
    ensures ReadLe32(Le32(n)) == n
  {
    var a, b, c := n / 256, n / 65536, n / 16777216;
    assert b == a / 256 && c == b / 256;
    assert n == 256 * a + n % 256 && a == 256 * b + a % 256 && b == 256 * c + b % 256;
  }

  predicate Fits<Span>(f: Format<Span>, s: Span) { |f.spell(s)| < FRAME_LIMIT }

  predicate AllFit<Span>(f: Format<Span>, spans: seq<Span>) {
    forall i :: 0 <= i < |spans| ==> Fits(f, spans[i])
  }

  ghost function Frame<Span(!new)>(f: Format<Span>, s: Span): Bytes
    requires IsFormat(f) && Fits(f, s)
  {
    Le32(|f.spell(s)|) + Le32(f.crc(f.spell(s))) + f.spell(s)
  }

  /** Four bytes spell the number, the lowest first. */
  predicate Spells(a: int, b: int, c: int, d: int, n: nat) {
    n == a + 0x100 * b + 0x1_0000 * c + 0x100_0000 * d
  }

  /** On disk a record is the length of its payload and its checksum, four bytes each and the lowest first, and the payload. */
  lemma FrameLayout<Span(!new)>(f: Format<Span>, s: Span)
    requires IsFormat(f) && Fits(f, s)
    ensures var frame, payload := Frame(f, s), f.spell(s);
            && |frame| == 8 + |payload| && frame[8..] == payload
            && Spells(frame[0], frame[1], frame[2], frame[3], |payload|) && Spells(frame[4], frame[5], frame[6], frame[7], f.crc(payload))
  {
    hide Le32;
    var size, check := Le32(|f.spell(s)|), Le32(f.crc(f.spell(s)));
    Le32Reads(|f.spell(s)|);
    Le32Reads(f.crc(f.spell(s)));
    var frame := Frame(f, s);
    assert frame[..4] == size && frame[4..8] == check;
  }

  /** The bytes of some records. */
  ghost function Encoded<Span(!new)>(f: Format<Span>, spans: seq<Span>): Bytes
    requires IsFormat(f) && AllFit(f, spans)
  {
    if spans == [] then [] else Frame(f, spans[0]) + Encoded(f, spans[1..])
  }

  // ----- Reading -----

  datatype Decoded<Span> = Decoded(spans: seq<Span>, good: nat)

  /** The first record of some bytes, and where it ends; nothing when it is incomplete or corrupt. */
  function FirstRecord<Span>(f: Format<Span>, data: Bytes): (r: Option<(Span, nat)>)
    ensures r.Some? ==> HEADER <= r.value.1 <= |data|
  {
    if |data| < HEADER then None
    else
      var end := HEADER + ReadLe32(data[..4]);
      if end > |data| then None
      else
        var payload := data[HEADER..end];
        if f.crc(payload) != ReadLe32(data[4..8]) then None
        else match f.read(payload)
          case None => None
          case Some(s) => Some((s, end))
  }

  /** Records up to the first that is incomplete or corrupt. */
  function Decode<Span>(f: Format<Span>, data: Bytes): (d: Decoded<Span>)
    ensures d.good <= |data|
    decreases |data|
  {
    match FirstRecord(f, data)
    case None => Decoded([], 0)
    case Some((s, end)) =>
      var rest := Decode(f, data[end..]);
      Decoded([s] + rest.spans, end + rest.good)
  }

  /** The loop over a cursor. */
  method DecodeRecords<Span>(f: Format<Span>, data: Bytes) returns (spans: seq<Span>, cursor: nat)
    ensures Decoded(spans, cursor) == Decode(f, data)
  {
    hide ReadLe32, Decode, FirstRecord;
    spans, cursor := [], 0;
    assert data[0..] == data;
    while cursor + HEADER <= |data|
      invariant cursor <= |data|
      invariant Decode(f, data) == Before(spans, cursor, Decode(f, data[cursor..]))
      decreases |data| - cursor
    {
      var start := cursor + HEADER;
      var length := ReadLe32(data[cursor..cursor + 4]);
      HeaderAt(f, data, cursor);
      if start + length > |data| {
        return;
      }
      var payload := data[start..start + length];
      if f.crc(payload) != ReadLe32(data[cursor + 4..cursor + 8]) {
        return;
      }
      var s := f.read(payload);
      if s == None {
        return;
      }
      BeforeTwice(spans, cursor, s.value, HEADER + length, Decode(f, data[start + length..]));
      spans := spans + [s.value];
      cursor := start + length;
    }
    TooShort(f, data[cursor..], spans, cursor);
  }

  /** What was read before some bytes, and what is read of them. */
  function Before<Span>(spans: seq<Span>, cursor: nat, rest: Decoded<Span>): Decoded<Span> {
    Decoded(spans + rest.spans, cursor + rest.good)
  }

  lemma BeforeTwice<Span>(spans: seq<Span>, cursor: nat, s: Span, end: nat, rest: Decoded<Span>)
    ensures Before(spans, cursor, Before([s], end, rest)) == Before(spans + [s], cursor + end, rest)
    ensures Before(spans, cursor, Decoded([], 0)) == Decoded(spans, cursor)
  {
    assert spans + ([s] + rest.spans) == spans + [s] + rest.spans;
    assert spans + [] == spans;
  }

  lemma TooShort<Span>(f: Format<Span>, data: Bytes, spans: seq<Span>, cursor: nat)
    requires |data| < HEADER
    ensures Before(spans, cursor, Decode(f, data)) == Decoded(spans, cursor)
  {
    assert spans + [] == spans;
  }

  /** What the code at a cursor decides, and what `Decode` does behind it. */
  lemma HeaderAt<Span>(f: Format<Span>, data: Bytes, cursor: nat)
    requires cursor + HEADER <= |data|
    ensures var length := ReadLe32(data[cursor..cursor + 4]);
            var start := cursor + HEADER;
            var here := Decode(f, data[cursor..]);
            if start + length > |data| then Stops(here)
            else
              var payload := data[start..start + length];
              if f.crc(payload) != ReadLe32(data[cursor + 4..cursor + 8]) then Stops(here)
              else match f.read(payload)
                case None => Stops(here)
                case Some(s) => here == Before([s], HEADER + length, Decode(f, data[start + length..]))
  {
    hide ReadLe32;
    var rest := data[cursor..];
    var length := ReadLe32(data[cursor..cursor + 4]);
    assert rest[..4] == data[cursor..cursor + 4] && rest[4..8] == data[cursor + 4..cursor + 8];
    if cursor + HEADER + length <= |data| {
      assert rest[HEADER..HEADER + length] == data[cursor + HEADER..cursor + HEADER + length];
      assert rest[HEADER + length..] == data[cursor + HEADER + length..];
    }
  }

  /** Nothing more is read. */
  predicate Stops<Span(==)>(d: Decoded<Span>) { d == Decoded([], 0) }

  // ----- What was written is read, whatever follows -----

  lemma FrameIsRead<Span(!new)>(f: Format<Span>, s: Span, tail: Bytes)
    requires IsFormat(f) && Fits(f, s)
    ensures FirstRecord(f, Frame(f, s) + tail) == Some((s, |Frame(f, s)|))
    ensures (Frame(f, s) + tail)[|Frame(f, s)|..] == tail
  {
    hide Le32, ReadLe32;
    var payload := f.spell(s);
    var data := Frame(f, s) + tail;
    Le32Reads(|payload|);
    Le32Reads(f.crc(payload));
    assert data == Le32(|payload|) + Le32(f.crc(payload)) + payload + tail;
    assert data[..4] == Le32(|payload|) && data[4..8] == Le32(f.crc(payload));
    assert data[HEADER..HEADER + |payload|] == payload;
  }

  /** Records that were written whole are read whatever bytes follow them. */
  lemma {:induction false} WrittenIsRead<Span(!new)>(f: Format<Span>, spans: seq<Span>, tail: Bytes)
    requires IsFormat(f) && AllFit(f, spans)
    ensures var rest := Decode(f, tail);
            Decode(f, Encoded(f, spans) + tail) == Decoded(spans + rest.spans, |Encoded(f, spans)| + rest.good)
  {
    hide Frame, FirstRecord;
    if spans == [] {
      assert Encoded(f, spans) + tail == tail && spans + Decode(f, tail).spans == Decode(f, tail).spans;
    } else {
      var more := Encoded(f, spans[1..]) + tail;
      assert Encoded(f, spans) + tail == Frame(f, spans[0]) + more;
      FrameIsRead(f, spans[0], more);
      WrittenIsRead(f, spans[1..], tail);
      assert spans == [spans[0]] + spans[1..];
      assert [spans[0]] + (spans[1..] + Decode(f, tail).spans) == spans + Decode(f, tail).spans;
    }
  }

  /** A record cut short is not read. */
  lemma TornIsNotRead<Span(!new)>(f: Format<Span>, s: Span, cut: nat)
    requires IsFormat(f) && Fits(f, s) && cut < |Frame(f, s)|
    ensures FirstRecord(f, Frame(f, s)[..cut]) == None
  {
    hide Le32, ReadLe32;
    Le32Reads(|f.spell(s)|);
    if cut >= HEADER {
      assert Frame(f, s)[..cut][..4] == Le32(|f.spell(s)|);
    }
  }

  /** How many whole records the first `cut` bytes hold. */
  ghost function WholeRecords<Span(!new)>(f: Format<Span>, spans: seq<Span>, cut: nat): (k: nat)
    requires IsFormat(f) && AllFit(f, spans)
    ensures k <= |spans|
  {
    if spans == [] || cut < |Frame(f, spans[0])| then 0
    else 1 + WholeRecords(f, spans[1..], cut - |Frame(f, spans[0])|)
  }

  /** A file cut anywhere reads as the records that are whole, and the rest is what recovery cuts off. */
  lemma {:induction false} CutAnywhere<Span(!new)>(f: Format<Span>, spans: seq<Span>, cut: nat)
    requires IsFormat(f) && AllFit(f, spans) && cut <= |Encoded(f, spans)|
    ensures var k := WholeRecords(f, spans, cut);
            && Decode(f, Encoded(f, spans)[..cut]) == Decoded(spans[..k], |Encoded(f, spans[..k])|)
            && Encoded(f, spans[..k]) <= Encoded(f, spans)
  {
    hide Frame, FirstRecord, Decode, IsFormat;
    var k := WholeRecords(f, spans, cut);
    if spans == [] {
      NothingIsRead(f);
      assert Encoded(f, spans)[..cut] == [] && spans[..k] == [];
    } else if cut < |Frame(f, spans[0])| {
      TornReadsNothing(f, spans[0], cut);
      assert Encoded(f, spans)[..cut] == Frame(f, spans[0])[..cut];
      assert spans[..k] == [] && Encoded(f, spans[..k]) == [];
    } else {
      var first, rest := Frame(f, spans[0]), spans[1..];
      CutAnywhere(f, rest, cut - |first|);
      CutBehindFirst(f, spans, cut, k);
    }
  }

  lemma TornReadsNothing<Span(!new)>(f: Format<Span>, s: Span, cut: nat)
    requires IsFormat(f) && Fits(f, s) && cut < |Frame(f, s)|
    ensures Decode(f, Frame(f, s)[..cut]) == Decoded([], 0)
  {
    hide Frame, FirstRecord, IsFormat;
    TornIsNotRead(f, s, cut);
  }

  lemma ReadBehindFrame<Span(!new)>(f: Format<Span>, s: Span, tail: Bytes)
    requires IsFormat(f) && Fits(f, s)
    ensures var rest := Decode(f, tail);
            Decode(f, Frame(f, s) + tail) == Decoded([s] + rest.spans, |Frame(f, s)| + rest.good)
  {
    hide Frame, FirstRecord, IsFormat;
    FrameIsRead(f, s, tail);
  }

  lemma CutBehindFirst<Span(!new)>(f: Format<Span>, spans: seq<Span>, cut: nat, k: nat)
    requires IsFormat(f) && AllFit(f, spans) && cut <= |Encoded(f, spans)| && spans != [] && 0 < k <= |spans|
    requires var first, rest := Frame(f, spans[0]), spans[1..];
             && |first| <= cut
             && Decode(f, Encoded(f, rest)[..cut - |first|]) == Decoded(rest[..k - 1], |Encoded(f, rest[..k - 1])|)
             && Encoded(f, rest[..k - 1]) <= Encoded(f, rest)
    ensures Decode(f, Encoded(f, spans)[..cut]) == Decoded(spans[..k], |Encoded(f, spans[..k])|)
    ensures Encoded(f, spans[..k]) <= Encoded(f, spans)
  {
    hide Frame, FirstRecord, IsFormat, Decode;
    var first, rest := Frame(f, spans[0]), spans[1..];
    var tail := Encoded(f, rest)[..cut - |first|];
    assert Encoded(f, spans)[..cut] == first + tail;
    ReadBehindFrame(f, spans[0], tail);
    assert spans[..k] == [spans[0]] + rest[..k - 1] && spans[..k][1..] == rest[..k - 1];
  }

  lemma NothingIsRead<Span>(f: Format<Span>)
    ensures Decode(f, []) == Decoded([], 0)
  {
  }

  /** What is cut off does not change what is read. */
  lemma {:induction false} TruncatedReadsTheSame<Span>(f: Format<Span>, data: Bytes)
    ensures Decode(f, data[..Decode(f, data).good]) == Decode(f, data)
    decreases |data|
  {
    hide FirstRecord;
    var good := Decode(f, data).good;
    match FirstRecord(f, data)
    case None =>
      NothingIsRead(f);
      assert data[..good] == [];
    case Some((s, end)) =>
      TruncatedReadsTheSame(f, data[end..]);
      FirstRecordOfCut(f, data, good);
      assert data[..good][end..] == data[end..][..good - end];
  }

  lemma FirstRecordOfCut<Span>(f: Format<Span>, data: Bytes, good: nat)
    requires FirstRecord(f, data).Some? && FirstRecord(f, data).value.1 <= good <= |data|
    ensures FirstRecord(f, data[..good]) == FirstRecord(f, data)
  {
    hide ReadLe32;
    var cut, end := data[..good], FirstRecord(f, data).value.1;
    assert cut[..4] == data[..4] && cut[4..8] == data[4..8] && cut[HEADER..end] == data[HEADER..end];
  }

  /** The bytes a reader takes for a record here have the checksum they should, and read as a span. */
  predicate Resumes<Span>(f: Format<Span>, data: Bytes) {
    && |data| >= HEADER
    && HEADER + ReadLe32(data[..4]) <= |data|
    && var p := data[HEADER..HEADER + ReadLe32(data[..4])];
       f.crc(p) == ReadLe32(data[4..8]) && f.read(p).Some?
  }

  /**
   * A write that failed after any part of a record, its header included, hides everything written behind
   * it, exactly unless the bytes behind make a record of it that passes its checksum.
   */
  lemma BehindTornWriteIsLost<Span(!new)>(f: Format<Span>, before: seq<Span>, torn: Span, cut: nat, behind: Bytes)
    requires IsFormat(f) && AllFit(f, before) && Fits(f, torn) && cut < |Frame(f, torn)|
    ensures var tail := Frame(f, torn)[..cut] + behind;
            Decode(f, Encoded(f, before) + tail).spans == before <==> !Resumes(f, tail)
  {
    hide Decode, Encoded, Frame, FirstRecord, IsFormat, Resumes;
    var tail := Frame(f, torn)[..cut] + behind;
    WrittenIsRead(f, before, tail);
    ResumesIff(f, tail);
    assert before + [] == before;
  }

  lemma ResumesIff<Span>(f: Format<Span>, data: Bytes)
    ensures Resumes(f, data) <==> Decode(f, data).spans != []
  {
    hide ReadLe32;
  }

  /**
   * What such a record would be: behind a cut past the length it has the length of the torn one, behind a
   * cut past the header its checksum too, so that only another payload of that length with that checksum,
   * or the very bytes that are missing, bring reading back.
   */
  lemma TornHeaderRules<Span(!new)>(f: Format<Span>, torn: Span, cut: nat, behind: Bytes)
    requires IsFormat(f) && Fits(f, torn) && 4 <= cut < |Frame(f, torn)| && Resumes(f, Frame(f, torn)[..cut] + behind)
    ensures var n, data := |f.spell(torn)|, Frame(f, torn)[..cut] + behind;
            && HEADER + n <= |data| && f.crc(data[HEADER..HEADER + n]) == ReadLe32(data[4..8])
            && (cut >= HEADER ==>
                  && f.crc(data[HEADER..HEADER + n]) == f.crc(f.spell(torn))
                  && (data[HEADER..HEADER + n] == f.spell(torn) <==> Frame(f, torn)[cut..] <= behind))
  {
    hide Le32, ReadLe32;
    var frame, payload := Frame(f, torn), f.spell(torn);
    var data := frame[..cut] + behind;
    Le32Reads(|payload|);
    Le32Reads(f.crc(payload));
    assert data[..4] == Le32(|payload|);
    if cut >= HEADER {
      assert data[4..8] == Le32(f.crc(payload)) && frame[HEADER..] == payload;
      if data[HEADER..|frame|] == payload {
        Completed(frame, cut, behind);
      }
      if frame[cut..] <= behind {
        assert behind[..|frame| - cut] == frame[cut..];
        assert data[..|frame|] == frame[..cut] + behind[..|frame| - cut] == frame;
        assert data[HEADER..|frame|] == data[..|frame|][HEADER..];
      }
    }
  }

  lemma Completed(frame: Bytes, cut: nat, behind: Bytes)
    requires HEADER <= cut <= |frame| <= cut + |behind|
    requires (frame[..cut] + behind)[HEADER..|frame|] == frame[HEADER..]
    ensures frame[cut..] <= behind
  {
    var data := frame[..cut] + behind;
    forall i | cut <= i < |frame|
      ensures behind[i - cut] == frame[i]
    {
      assert data[HEADER..|frame|][i - HEADER] == data[i] && frame[HEADER..][i - HEADER] == frame[i];
    }
  }

  // ----- The file -----

  function Min(x: nat, y: nat): nat { if x <= y then x else y }

  method SpellOut<Span(!new)>(f: Format<Span>, batch: seq<Span>) returns (buf: Option<Bytes>)
    requires IsFormat(f)
    ensures buf == if AllFit(f, batch) then Some(Encoded(f, batch)) else None
  {
    hide Le32, Encoded;
    var out: Bytes := [];
    EncodedNothing(f);
    assert batch[..0] == [] && batch[..|batch|] == batch;
    for i := 0 to |batch|
      invariant AllFit(f, batch[..i]) && out == Encoded(f, batch[..i])
    {
      var payload := f.spell(batch[i]);
      if |payload| >= FRAME_LIMIT {
        assert !Fits(f, batch[i]);
        return None;
      }
      EncodedAppends(f, batch[..i], batch[i]);
      assert batch[..i + 1] == batch[..i] + [batch[i]];
      out := out + (Le32(|payload|) + Le32(f.crc(payload)) + payload);
    }
    buf := Some(out);
  }

  lemma EncodedNothing<Span(!new)>(f: Format<Span>)
    requires IsFormat(f)
    ensures Encoded(f, []) == []
  {
  }

  lemma NothingSpelled<Span(!new)>(f: Format<Span>)
    requires IsFormat(f)
    ensures AllFit(f, []) && Encoded(f, []) == []
  {
  }

  datatype WriteError = TooLarge | Disk

  /** A segment and what is on the disk of it; `left` says how much of a write got there before it failed. */
  class Segment<Span(!new)> {
    const format: Format<Span>
    var bytes: Bytes
    var count: nat

    constructor (format: Format<Span>)
      ensures this.format == format && bytes == [] && count == 0
    {
      this.format, bytes, count := format, [], 0;
    }

    /** A batch is spelled out whole before any of it is written. */
    method AppendNosync(batch: seq<Span>, left: Option<nat>) returns (r: Result<(), WriteError>)
      requires IsFormat(format)
      modifies this
      ensures !AllFit(format, batch) ==> r == Err(TooLarge) && bytes == old(bytes) && count == old(count)
      ensures batch == [] ==> r == Ok(()) && bytes == old(bytes) && count == old(count)
      ensures AllFit(format, batch) && left == None ==>
                r == Ok(()) && bytes == old(bytes) + Encoded(format, batch) && count == old(count) + |batch|
      ensures batch != [] && AllFit(format, batch) && left.Some? ==>
                r == Err(Disk) && bytes == old(bytes) + Encoded(format, batch)[..Min(left.value, |Encoded(format, batch)|)]
                && count == old(count)
    {
      hide IsFormat, Encoded, AllFit;
      if batch == [] {
        NothingSpelled(format);
        return Ok(());
      }
      var buf := SpellOut(format, batch);
      if buf == None {
        return Err(TooLarge);
      }
      if left == None {
        bytes := bytes + buf.value;
        count := count + |batch|;
        return Ok(());
      }
      bytes := bytes + buf.value[..Min(left.value, |buf.value|)];
      r := Err(Disk);
    }

    /** Reading a segment back also cuts off what does not read. */
    method Read() returns (spans: seq<Span>)
      modifies this`bytes
      ensures Decode(format, old(bytes)).spans == spans
      ensures bytes == old(bytes)[..Decode(format, old(bytes)).good] && Decode(format, bytes).spans == spans
    {
      var good;
      spans, good := DecodeRecords(format, bytes);
      TruncatedReadsTheSame(format, bytes);
      if good < |bytes| {
        bytes := bytes[..good];
      } else {
        assert bytes[..good] == bytes;
      }
    }
  }

  lemma {:induction false} EncodedAppends<Span(!new)>(f: Format<Span>, spans: seq<Span>, s: Span)
    requires IsFormat(f) && AllFit(f, spans) && Fits(f, s)
    ensures AllFit(f, spans + [s]) && Encoded(f, spans + [s]) == Encoded(f, spans) + Frame(f, s)
  {
    hide Frame, IsFormat;
    if spans == [] {
      assert [s][1..] == [];
      assert Encoded(f, [s]) == Frame(f, s) + Encoded(f, []);
    } else {
      EncodedAppends(f, spans[1..], s);
      assert (spans + [s])[1..] == spans[1..] + [s];
    }
  }
}
