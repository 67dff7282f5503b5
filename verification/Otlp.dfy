/** OTLP log records and their attributes, as the log dialects read them (src/normalize.rs, src/logs.rs). */
module Otlp {
  import opened Wrappers
  import opened Numerals

  type Byte = b: int | 0 <= b < 256
  type Bytes = seq<Byte>

  const U64_MAX: nat := 0xFFFF_FFFF_FFFF_FFFF

  /** `Double` keeps how Rust prints it, and its value when it is a whole number that is not negative. */
  datatype Value =
    | Str(s: string)
    | Int(i: int)
    | Bool(b: bool)
    | Double(text: string, whole: Option<nat>)
    | Compound

  datatype KeyValue = KeyValue(key: string, value: Option<Value>)

  type Attributes = seq<KeyValue>

  function Lookup(a: Attributes, key: string): Option<Value> {
    if a == [] then None else if a[0].key == key then a[0].value else Lookup(a[1..], key)
  }

  function Printed(i: int): string {
    if i < 0 then "-" + Decimal(-i) else Decimal(i)
  }

  /** A scalar attribute as a string. */
  function AttrStr(a: Attributes, key: string): Option<string> {
    match Lookup(a, key)
    case Some(Str(s)) => Some(s)
    case Some(Int(i)) => Some(Printed(i))
    case Some(Bool(b)) => Some(if b then "true" else "false")
    case Some(Double(text, _)) => Some(text)
    case _ => None
  }

  function ParseU64(s: string): Option<nat> {
    var digits := if "+" <= s then s[1..] else s;
    if digits != [] && AllDigits(digits) && ValueOf(digits) <= U64_MAX then Some(ValueOf(digits)) else None
  }

  function AttrU64(a: Attributes, key: string): Option<nat> {
    match Lookup(a, key)
    case Some(Int(i)) => if i >= 0 then Some(i) else None
    case Some(Double(_, whole)) => whole
    case Some(Str(s)) => ParseU64(s)
    case _ => None
  }

  predicate HasKey(a: Attributes, key: string) {
    exists i :: 0 <= i < |a| && a[i].key == key
  }

  /** A count as a signed attribute, cast as it is. */
  function AsI64(n: nat): int {
    var low := n % (U64_MAX + 1);
    if low <= U64_MAX / 2 then low else low - U64_MAX - 1
  }

  /** An attribute is added unless the record already has its key. */
  function Add(a: Attributes, key: string, value: Value): Attributes {
    if HasKey(a, key) then a else a + [KeyValue(key, Some(value))]
  }

  function AddIf(a: Attributes, key: string, value: Option<string>): Attributes {
    match value
    case None => a
    case Some(s) => Add(a, key, Str(s))
  }

  datatype LogRecord = LogRecord(
    time: nat,
    observed: nat,
    traceId: Bytes,
    spanId: Bytes,
    attributes: Attributes,
    eventName: string,
    body: Option<Value>)

  /** The resource and scope a record arrived under. */
  datatype Context = Context(serviceName: Option<string>, scopeName: Option<string>)

  /** One record of an export request. */
  datatype Entry = Entry(ctx: Context, rec: LogRecord)

  function NonEmpty(s: Option<string>): Option<string> {
    if s == Some("") then None else s
  }

  /** The `event.name` attribute, else the field, else a string body. */
  function EventName(rec: LogRecord): Option<string> {
    var named := NonEmpty(AttrStr(rec.attributes, "event.name"));
    if named.Some? then named
    else if rec.eventName != "" then Some(rec.eventName)
    else match rec.body
      case Some(Str(s)) => NonEmpty(Some(s))
      case _ => None
  }

  function RecordTime(rec: LogRecord): nat {
    if rec.time > 0 then rec.time else rec.observed
  }

  /** An id of the right length that is not all zero. */
  predicate IsSet(id: Bytes, length: nat) {
    |id| == length && exists i :: 0 <= i < |id| && id[i] != 0
  }

  function TraceOf(rec: LogRecord): Option<Bytes> {
    if IsSet(rec.traceId, 16) then Some(rec.traceId) else None
  }

  function SpanOf(rec: LogRecord): Option<Bytes> {
    if IsSet(rec.spanId, 8) then Some(rec.spanId) else None
  }

  function EncodeHex(b: Bytes): string {
    if b == [] then [] else Hex(b[0], 2) + EncodeHex(b[1..])
  }

  /** The span a mapped record becomes, before normalisation; `error` is an error status. */
  datatype SpanDraft = SpanDraft(
    traceId: Bytes,
    spanId: Bytes,
    parent: Bytes,
    name: string,
    start: nat,
    end: nat,
    error: Option<string>,
    attributes: Attributes)

  datatype Mapping = Made(span: SpanDraft) | Folded | NotMine

  // ----- How attributes are read -----

  /** The first attribute of a key is its value. */
  lemma {:induction false} LookupIsFirst(a: Attributes, key: string)
    ensures forall i :: 0 <= i < |a| && a[i].key == key && (forall j :: 0 <= j < i ==> a[j].key != key) ==> Lookup(a, key) == a[i].value
    ensures (forall i :: 0 <= i < |a| ==> a[i].key != key) ==> Lookup(a, key) == None
  {
    if a != [] && a[0].key != key {
      var rest := a[1..];
      LookupIsFirst(rest, key);
      forall i | 0 <= i < |a| && a[i].key == key && (forall j :: 0 <= j < i ==> a[j].key != key)
        ensures Lookup(a, key) == a[i].value
      {
        assert rest[i - 1] == a[i];
      }
    }
  }

  /** A text is read from a string as it is, and from a number as it is printed. */
  lemma TextIsRead(a: Attributes, key: string, s: string, n: int)
    ensures Lookup(a, key) == Some(Str(s)) ==> AttrStr(a, key) == Some(s)
    ensures Lookup(a, key) == Some(Int(n)) && n >= 0 ==> AttrStr(a, key) == Some(Decimal(n))
    ensures Lookup(a, key) == Some(Int(n)) && n < 0 ==> AttrStr(a, key) == Some("-" + Decimal(-n))
    ensures Lookup(a, key) == Some(Bool(true)) ==> AttrStr(a, key) == Some("true")
    ensures Lookup(a, key) == Some(Bool(false)) ==> AttrStr(a, key) == Some("false")
    ensures Lookup(a, key) == None || Lookup(a, key) == Some(Compound) ==> AttrStr(a, key) == None
  {
    hide Lookup, Decimal;
  }

  /** A count is read from a number that is not negative, and from its numeral. */
  lemma CountIsRead(a: Attributes, key: string, n: int)
    ensures Lookup(a, key) == Some(Int(n)) ==> AttrU64(a, key) == if n >= 0 then Some(n) else None
    ensures 0 <= n <= U64_MAX && (Lookup(a, key) == Some(Str(Decimal(n))) || Lookup(a, key) == Some(Str("+" + Decimal(n)))) ==>
              AttrU64(a, key) == Some(n)
    ensures n > U64_MAX && Lookup(a, key) == Some(Str(Decimal(n))) ==> AttrU64(a, key) == None
    ensures Lookup(a, key) == None ==> AttrU64(a, key) == None
  {
    hide Lookup;
    if n >= 0 {
      DecimalReads(n);
      assert Decimal(n)[0] != '+';
      assert ("+" + Decimal(n))[1..] == Decimal(n);
    }
  }

  /** A count keeps its low 64 bits, read as a signed number. */
  lemma AsI64Is(n: nat)
    ensures -0x8000_0000_0000_0000 <= AsI64(n) < 0x8000_0000_0000_0000
    ensures (n - AsI64(n)) % 0x1_0000_0000_0000_0000 == 0
  {
    var low := n % (U64_MAX + 1);
    assert n == (U64_MAX + 1) * (n / (U64_MAX + 1)) + low;
  }

  /** A record's event is its `event.name`, else its own name, else its text; none of them blank. */
  lemma EventIsNamed(rec: LogRecord, name: string)
    ensures EventName(rec) == Some(name) ==> name != ""
    ensures name != "" && AttrStr(rec.attributes, "event.name") == Some(name) ==> EventName(rec) == Some(name)
    ensures AttrStr(rec.attributes, "event.name") in {None, Some("")} ==>
              (rec.eventName != "" ==> EventName(rec) == Some(rec.eventName))
              && (rec.eventName == "" && name != "" ==> (EventName(rec) == Some(name) <==> rec.body == Some(Str(name))))
  {
    hide AttrStr;
  }

  /** An id is there when it has its length and is not all zero. */
  lemma ContextIs(rec: LogRecord, id: Bytes)
    ensures TraceOf(rec) == Some(id) <==> rec.traceId == id && |id| == 16 && id != ZEROES + ZEROES
    ensures SpanOf(rec) == Some(id) <==> rec.spanId == id && |id| == 8 && id != ZEROES
  {
    if |id| == 8 && !IsSet(id, 8) {
      assert id == ZEROES;
    }
    if |id| == 16 && !IsSet(id, 16) {
      assert id == ZEROES + ZEROES;
    }
  }

  const ZEROES: Bytes := [0, 0, 0, 0, 0, 0, 0, 0]

  /** A record's time is when it happened, or when it was seen if that is not known. */
  lemma TimeIs(rec: LogRecord)
    ensures rec.time != 0 ==> RecordTime(rec) == rec.time
    ensures rec.time == 0 ==> RecordTime(rec) == rec.observed
  {
  }
}
