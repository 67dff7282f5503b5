/** What a stored span is told apart by (src/store/mod.rs): its two ids, decoded when they are canonical. */
module SpanKey {
  import opened Wrappers
  import opened Numerals
  import opened Otlp

  datatype Key = Canonical(bytes: Bytes) | Other(traceId: string, spanId: string)

  function Nibble(c: char): (n: Option<nat>)
    ensures n.Some? ==> n.value < 16
  {
    if '0' <= c <= '9' then Some(c as nat - '0' as nat)
    else if 'a' <= c <= 'f' then Some(c as nat - 'a' as nat + 10)
    else None
  }

  /** Two characters for each byte, the high one first. */
  predicate IsHexOf(s: string, n: nat) {
    |s| == 2 * n && forall i :: 0 <= i < |s| ==> Nibble(s[i]).Some?
  }

  function ByteAt(s: string, i: nat): Byte
    requires 2 * i + 1 < |s| && Nibble(s[2 * i]).Some? && Nibble(s[2 * i + 1]).Some?
  {
    16 * Nibble(s[2 * i]).value + Nibble(s[2 * i + 1]).value
  }

  function Decoded(s: string, n: nat): Option<Bytes> {
    if IsHexOf(s, n) then Some(seq(n, i requires 0 <= i < n && IsHexOf(s, n) => ByteAt(s, i))) else None
  }

  /** Exactly `n` bytes from lower-case hex digits, or nothing. */
  method DecodeHex(s: string, n: nat) returns (out: Option<Bytes>)
    ensures out == Decoded(s, n)
  {
    if |s| != 2 * n {
      return None;
    }
    var bytes: Bytes := [];
    for i := 0 to n
      invariant |bytes| == i && forall k :: 0 <= k < 2 * i ==> Nibble(s[k]).Some?
      invariant forall k :: 0 <= k < i ==> bytes[k] == ByteAt(s, k)
    {
      var high := Nibble(s[2 * i]);
      var low := Nibble(s[2 * i + 1]);
      if high == None || low == None {
        return None;
      }
      bytes := bytes + [16 * high.value + low.value];
    }
    assert bytes == Decoded(s, n).value;
    out := Some(bytes);
  }

  lemma NibblesDiffer(c: char, d: char)
    requires Nibble(c).Some? && Nibble(c) == Nibble(d)
    ensures c == d
  {
  }

  lemma SplitByte(a: nat, b: nat, c: nat, d: nat)
    requires a < 16 && b < 16 && c < 16 && d < 16 && 16 * a + b == 16 * c + d
    ensures a == c && b == d
  {
  }

  /** Decoding loses nothing. */
  lemma DecodedSettles(s: string, t: string, n: nat)
    requires Decoded(s, n).Some? && Decoded(s, n) == Decoded(t, n)
    ensures s == t
  {
    hide Nibble;
    forall i | 0 <= i < n
      ensures s[2 * i] == t[2 * i] && s[2 * i + 1] == t[2 * i + 1]
    {
      assert Decoded(s, n).value[i] == Decoded(t, n).value[i];
      SplitByte(Nibble(s[2 * i]).value, Nibble(s[2 * i + 1]).value, Nibble(t[2 * i]).value, Nibble(t[2 * i + 1]).value);
      NibblesDiffer(s[2 * i], t[2 * i]);
      NibblesDiffer(s[2 * i + 1], t[2 * i + 1]);
    }
    forall k | 0 <= k < |s|
      ensures s[k] == t[k]
    {
      assert k == 2 * (k / 2) || k == 2 * (k / 2) + 1;
    }
  }

  /** Ids as they are stored decode to the bytes they came as. */
  lemma {:induction false} EncodedDecodes(b: Bytes)
    ensures Decoded(EncodeHex(b), |b|) == Some(b)
  {
    hide Nibble, Hex, EncodeHex, IsHexOf;
    if b == [] {
      NothingDecodes();
    } else {
      EncodedDecodes(b[1..]);
      OneByte(b[0]);
      EncodedFirst(b);
      var s, rest := EncodeHex(b), EncodeHex(b[1..]);
      EachNibble(s, |b|);
      EachNibble(rest, |b| - 1);
      forall i | 0 <= i < |b|
        ensures ByteAt(s, i) == b[i]
      {
        if i > 0 {
          var k := i - 1;
          assert s[2 * k + 2] == rest[2 * k] && s[2 * k + 1 + 2] == rest[2 * k + 1];
          assert Decoded(rest, |b| - 1).value[k] == b[1..][k];
        }
      }
      assert Decoded(s, |b|).value == b;
    }
  }

  lemma NothingDecodes()
    ensures Decoded(EncodeHex([]), 0) == Some([])
  {
    assert Decoded(EncodeHex([]), 0).value == [];
  }

  lemma EachNibble(s: string, n: nat)
    requires IsHexOf(s, n)
    ensures |s| == 2 * n && forall i :: 0 <= i < |s| ==> Nibble(s[i]).Some?
  {
  }

  lemma DigitIsNibble(d: nat)
    requires d < 16
    ensures Nibble(HexDigitOf(d)) == Some(d)
  {
  }

  lemma OneByte(b: Byte)
    ensures var s := Hex(b, 2);
            && Nibble(s[0]).Some? && Nibble(s[1]).Some? && 16 * Nibble(s[0]).value + Nibble(s[1]).value == b
  {
    hide Nibble, HexDigitOf;
    var n: nat := b;
    DigitIsNibble(n / 16);
    DigitIsNibble(n % 16);
    assert Hex(n / 16, 1) == Hex(n / 16 / 16, 0) + [HexDigitOf(n / 16 % 16)];
    assert Hex(n, 2) == [HexDigitOf(n / 16), HexDigitOf(n % 16)];
  }

  lemma EncodedFirst(b: Bytes)
    requires b != [] && IsHexOf(EncodeHex(b[1..]), |b| - 1) && Nibble(Hex(b[0], 2)[0]).Some? && Nibble(Hex(b[0], 2)[1]).Some?
    ensures var s, rest := EncodeHex(b), EncodeHex(b[1..]);
            && |s| == 2 * |b| && s[0] == Hex(b[0], 2)[0] && s[1] == Hex(b[0], 2)[1] && IsHexOf(s, |b|)
            && forall k :: 0 <= k < |rest| ==> s[k + 2] == rest[k]
  {
    hide Nibble, Hex, EncodeHex;
    EncodedStep(b);
    TwoMore(Hex(b[0], 2), EncodeHex(b[1..]), |b| - 1);
  }

  lemma EncodedStep(b: Bytes)
    requires b != []
    ensures EncodeHex(b) == Hex(b[0], 2) + EncodeHex(b[1..])
  {
    hide Hex;
  }

  lemma TwoMore(first: string, rest: string, n: nat)
    requires |first| == 2 && Nibble(first[0]).Some? && Nibble(first[1]).Some? && IsHexOf(rest, n)
    ensures IsHexOf(first + rest, n + 1)
  {
    hide Nibble;
  }

  function KeyOf(traceId: string, spanId: string): Key {
    match (Decoded(traceId, 16), Decoded(spanId, 8))
    case (Some(t), Some(s)) => Canonical(t + s)
    case _ => Other(traceId, spanId)
  }

  /** Two spans share a key exactly when both ids are the same, so no span is taken for another. */
  lemma KeysNameSpans(traceId: string, spanId: string, traceId': string, spanId': string)
    ensures KeyOf(traceId, spanId) == KeyOf(traceId', spanId') <==> traceId == traceId' && spanId == spanId'
  {
    hide IsHexOf, ByteAt;
    var k, k' := KeyOf(traceId, spanId), KeyOf(traceId', spanId');
    if k == k' && k.Canonical? {
      var t, s := Decoded(traceId, 16).value, Decoded(spanId, 8).value;
      var t', s' := Decoded(traceId', 16).value, Decoded(spanId', 8).value;
      assert (t + s)[..16] == t && (t' + s')[..16] == t' && (t + s)[16..] == s && (t' + s')[16..] == s';
      DecodedSettles(traceId, traceId', 16);
      DecodedSettles(spanId, spanId', 8);
    }
  }
}
