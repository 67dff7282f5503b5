/**
 * Moving oversized payloads of a span into the blob store (src/blob.rs), and putting them back
 * when a dataset is made of stored spans (src/dataset.rs).
 */
module Offload {
  import opened Wrappers
  import opened Orders
  import opened Otlp
  import opened BlobStore

  const INPUT_KEY := "evald.blob.input"
  const OUTPUT_KEY := "evald.blob.output"
  const OWN_KEYS := "evald.blob."
  const PREVIEW_CHARS: nat := 256

  /** An attribute: a string, the note an offloaded field leaves, or anything else. */
  datatype Attribute = Text(s: string) | BlobNote(ref: string, bytes: nat, preview: string) | Other(id: nat)

  type Attributes = map<string, Attribute>

  function At(a: Attributes, key: string): Option<Attribute> {
    if key in a then Some(a[key]) else None
  }

  datatype Span = Span(input: Option<string>, output: Option<string>, attributes: Attributes)

  /**
   * UTF-8, the hash of the store, and the order a sorted map is walked in. None of them is
   * modelled further.
   */
  datatype Env = Env(
    encode: string -> Bytes,
    decode: Bytes -> Option<string>,
    hash: Hash,
    sorted: Order)

  ghost predicate IsUtf8(env: Env) {
    forall bytes, s :: env.decode(bytes) == Some(s) <==> bytes == env.encode(s)
  }

  ghost predicate Walks(env: Env) {
    IsOrder(env.sorted)
  }

  function Size(env: Env, s: string): nat { |env.encode(s)| }

  /** The reference a payload is given, and the files once it is stored. */
  function RefTo(env: Env, files: Files, s: string): string {
    PREFIX + KeyOf(files, env.hash, env.encode(s))
  }

  function Put(env: Env, files: Files, s: string): Files {
    Stored(files, env.hash, env.encode(s))
  }

  // ----- One field -----

  /** A cap of zero moves nothing. */
  predicate FieldMoves(env: Env, field: Option<string>, cap: nat) {
    cap > 0 && field.Some? && Size(env, field.value) > cap
  }

  function Preview(s: string): string {
    if |s| <= PREVIEW_CHARS then s else s[..PREVIEW_CHARS]
  }

  function FieldAfter(env: Env, files: Files, field: Option<string>, cap: nat): Option<string> {
    if FieldMoves(env, field, cap) then Some(RefTo(env, files, field.value)) else field
  }

  function FilesAfterField(env: Env, files: Files, field: Option<string>, cap: nat): Files {
    if FieldMoves(env, field, cap) then Put(env, files, field.value) else files
  }

  function AttributesAfterField(env: Env, files: Files, field: Option<string>, a: Attributes, key: string, cap: nat)
    : Attributes
  {
    if FieldMoves(env, field, cap)
    then a[key := BlobNote(RefTo(env, files, field.value), Size(env, field.value), Preview(field.value))]
    else a
  }

  // ----- The attributes -----

  predicate ValueMoves(env: Env, key: string, value: Attribute, cap: nat) {
    cap > 0 && !(OWN_KEYS <= key) && value.Text? && Size(env, value.s) > cap && !(PREFIX <= value.s)
  }

  predicate AttributeMoves(env: Env, a: Attributes, key: string, cap: nat) {
    key in a && ValueMoves(env, key, a[key], cap)
  }

  /** The keys whose string moves. */
  function Oversized(env: Env, a: Attributes, cap: nat): set<string> {
    set key | key in a && AttributeMoves(env, a, key, cap)
  }

  /** The files, and the attributes, once the first `n` keys are dealt with. */
  function FilesAfterKeys(env: Env, files: Files, a: Attributes, keys: seq<string>, n: nat, cap: nat): Files
    requires n <= |keys|
  {
    if n == 0 then files
    else
      var before := FilesAfterKeys(env, files, a, keys, n - 1, cap);
      if AttributeMoves(env, a, keys[n - 1], cap) then Put(env, before, a[keys[n - 1]].s) else before
  }

  function AfterKeys(env: Env, files: Files, a: Attributes, keys: seq<string>, n: nat, cap: nat): Attributes
    requires n <= |keys|
  {
    if n == 0 then a
    else
      var before := AfterKeys(env, files, a, keys, n - 1, cap);
      if AttributeMoves(env, a, keys[n - 1], cap)
      then before[keys[n - 1] := Text(RefTo(env, FilesAfterKeys(env, files, a, keys, n - 1, cap), a[keys[n - 1]].s))]
      else before
  }

  function MovedKeys(env: Env, a: Attributes, keys: seq<string>, n: nat, cap: nat): nat
    requires n <= |keys|
  {
    if n == 0 then 0
    else MovedKeys(env, a, keys, n - 1, cap) + if AttributeMoves(env, a, keys[n - 1], cap) then 1 else 0
  }

  // ----- One span, and all of them -----

  datatype Step = Step(files: Files, span: Span, count: nat)

  function One(moved: bool): nat { if moved then 1 else 0 }

  /** What the attributes are once the input and the output are dealt with. */
  function AfterFields(env: Env, files: Files, span: Span, cap: nat): Attributes {
    AttributesAfterField(env, FilesAfterField(env, files, span.input, cap), span.output,
                         AttributesAfterField(env, files, span.input, span.attributes, INPUT_KEY, cap), OUTPUT_KEY, cap)
  }

  function FilesAfterFields(env: Env, files: Files, span: Span, cap: nat): Files {
    FilesAfterField(env, FilesAfterField(env, files, span.input, cap), span.output, cap)
  }

  /** A span with every write succeeding: its input, then its output, then its attributes. */
  function OffloadSpan(env: Env, files: Files, span: Span, cap: nat): Step {
    var files1 := FilesAfterField(env, files, span.input, cap);
    var files2, a2 := FilesAfterFields(env, files, span, cap), AfterFields(env, files, span, cap);
    var keys := env.sorted(a2.Keys);
    Step(FilesAfterKeys(env, files2, a2, keys, |keys|, cap),
         Span(FieldAfter(env, files, span.input, cap), FieldAfter(env, files1, span.output, cap),
              AfterKeys(env, files2, a2, keys, |keys|, cap)),
         One(FieldMoves(env, span.input, cap)) + One(FieldMoves(env, span.output, cap))
         + MovedKeys(env, a2, keys, |keys|, cap))
  }

  /** The directory, and the count, once the first `n` spans are dealt with; and what becomes of span `i`. */
  function FilesAfterSpans(env: Env, files: Files, spans: seq<Span>, n: nat, cap: nat): Files
    requires n <= |spans|
  {
    if n == 0 then files
    else OffloadSpan(env, FilesAfterSpans(env, files, spans, n - 1, cap), spans[n - 1], cap).files
  }

  function SpanAfter(env: Env, files: Files, spans: seq<Span>, i: nat, cap: nat): Span
    requires i < |spans|
  {
    OffloadSpan(env, FilesAfterSpans(env, files, spans, i, cap), spans[i], cap).span
  }

  function CountAfter(env: Env, files: Files, spans: seq<Span>, n: nat, cap: nat): nat
    requires n <= |spans|
  {
    if n == 0 then 0
    else
      CountAfter(env, files, spans, n - 1, cap)
      + OffloadSpan(env, FilesAfterSpans(env, files, spans, n - 1, cap), spans[n - 1], cap).count
  }

  /** A reference is replaced by what it resolves to; one that resolves to nothing clears the field. */
  function Resolve(env: Env, files: Files, field: Option<string>): Option<string> {
    match field
    case None => None
    case Some(v) =>
      if !(PREFIX <= v) then field
      else match Resolved(files, v)
        case None => None
        case Some(bytes) => env.decode(bytes)
  }

  // ----- Nothing is lost -----

  lemma GrowsTwice(a: Files, b: Files, c: Files)
    requires Grows(a, b) && Grows(b, c)
    ensures Grows(a, c)
  {
  }

  lemma PutGrows(env: Env, files: Files, s: string)
    ensures Grows(files, Put(env, files, s)) && |Put(env, files, s)| <= |files| + 1
  {
    StoringGrows(files, env.hash, env.encode(s));
  }

  lemma {:induction false} KeysGrow(env: Env, files: Files, a: Attributes, keys: seq<string>, m: nat, n: nat, cap: nat)
    requires m <= n <= |keys|
    ensures Grows(FilesAfterKeys(env, files, a, keys, m, cap), FilesAfterKeys(env, files, a, keys, n, cap))
    ensures |FilesAfterKeys(env, files, a, keys, n, cap)| <= |FilesAfterKeys(env, files, a, keys, m, cap)| + (n - m)
    decreases n
  {
    hide Put;
    if m < n {
      KeysGrow(env, files, a, keys, m, n - 1, cap);
      var before := FilesAfterKeys(env, files, a, keys, n - 1, cap);
      if AttributeMoves(env, a, keys[n - 1], cap) {
        PutGrows(env, before, a[keys[n - 1]].s);
      }
    }
  }

  /** No stored payload is the text of its own reference: the hash would have to be guessed right. */
  ghost predicate NoSelfReference(env: Env, files: Files) {
    forall key :: key in files ==> files[key] != env.encode(PREFIX + key)
  }

  /** The inline payload starts like a reference, so it is read as one. */
  predicate Masquerades(env: Env, field: Option<string>, cap: nat) {
    field.Some? && PREFIX <= field.value && !FieldMoves(env, field, cap)
  }

  /** A moved field resolves to what it was in any later directory. */
  lemma MovedFieldComesBack(env: Env, files: Files, field: Option<string>, cap: nat, later: Files)
    requires IsUtf8(env) && |files| < PROBES
    requires Grows(FilesAfterField(env, files, field, cap), later) && FieldMoves(env, field, cap)
    ensures Resolve(env, later, FieldAfter(env, files, field, cap)) == field
    ensures PREFIX <= RefTo(env, files, field.value)
    ensures Resolved(later, RefTo(env, files, field.value)) == Some(env.encode(field.value))
  {
    ReferenceResolves(files, env.hash, env.encode(field.value), later);
    hide KeyOf, Stored, Resolved, IsSafeKey;
    assert PREFIX <= RefTo(env, files, field.value);
  }

  /** Offloading and resolving restores a field exactly unless it stayed inline and starts like a reference. */
  lemma FieldComesBackIff(env: Env, files: Files, field: Option<string>, cap: nat, later: Files)
    requires IsUtf8(env) && |files| < PROBES
    requires Grows(FilesAfterField(env, files, field, cap), later)
    ensures !Masquerades(env, field, cap) ==> Resolve(env, later, FieldAfter(env, files, field, cap)) == field
    ensures NoSelfReference(env, later) && Masquerades(env, field, cap) ==>
              Resolve(env, later, FieldAfter(env, files, field, cap)) != field
  {
    if FieldMoves(env, field, cap) {
      MovedFieldComesBack(env, files, field, cap, later);
    } else if Masquerades(env, field, cap) {
      var key := field.value[|PREFIX|..];
      assert field.value == PREFIX + key;
    }
  }

  // ----- One span -----

  lemma FieldGrows(env: Env, files: Files, field: Option<string>, cap: nat)
    ensures Grows(files, FilesAfterField(env, files, field, cap))
    ensures |FilesAfterField(env, files, field, cap)| <= |files| + 1
  {
    if FieldMoves(env, field, cap) {
      PutGrows(env, files, field.value);
    }
  }

  /** A bound on the puts a span can cause. */
  function PutsOf(span: Span): nat { |span.attributes| + 4 }

  lemma {:induction false} SameKeys(keys: seq<string>, all: set<string>)
    requires Lists(keys, all)
    ensures |keys| == |all|
  {
    if keys == [] {
      assert all == {};
    } else {
      var rest := keys[..|keys| - 1];
      assert keys == rest + [keys[|keys| - 1]];
      SameKeys(rest, all - {keys[|keys| - 1]});
    }
  }

  /** Dealing with the fields can only add or replace the two notes. */
  lemma FieldsAddNotes(env: Env, files: Files, span: Span, cap: nat)
    ensures var a2 := AfterFields(env, files, span, cap);
            && |a2| <= |span.attributes| + 2
            && Oversized(env, a2, cap) == Oversized(env, span.attributes, cap)
            && forall key :: key != INPUT_KEY && key != OUTPUT_KEY ==>
                 (key in a2 <==> key in span.attributes) && (key in a2 ==> a2[key] == span.attributes[key])
  {
    hide FieldMoves, RefTo, Size, Preview, AttributesAfterField, FilesAfterField, Oversized, AttributeMoves;
    var files1 := FilesAfterField(env, files, span.input, cap);
    var a1 := AttributesAfterField(env, files, span.input, span.attributes, INPUT_KEY, cap);
    NoteAdded(env, files, span.input, span.attributes, INPUT_KEY, cap);
    NoteAdded(env, files1, span.output, a1, OUTPUT_KEY, cap);
    NotesStay(env, span.attributes, AfterFields(env, files, span, cap), cap);
  }

  lemma NotesStay(env: Env, a: Attributes, a': Attributes, cap: nat)
    requires forall key :: key != INPUT_KEY && key != OUTPUT_KEY ==>
               (key in a' <==> key in a) && (key in a' ==> a'[key] == a[key])
    ensures Oversized(env, a', cap) == Oversized(env, a, cap)
  {
    assert INPUT_KEY[..|OWN_KEYS|] == OWN_KEYS && OUTPUT_KEY[..|OWN_KEYS|] == OWN_KEYS;
    forall key
      ensures key in Oversized(env, a', cap) <==> key in Oversized(env, a, cap)
    {
    }
  }

  lemma NoteAdded(env: Env, files: Files, field: Option<string>, a: Attributes, note: string, cap: nat)
    ensures var after := AttributesAfterField(env, files, field, a, note, cap);
            && |after| <= |a| + 1
            && forall key :: key != note ==> (key in after <==> key in a) && (key in a ==> after[key] == a[key])
  {
    hide RefTo, Size, Preview;
    var after := AttributesAfterField(env, files, field, a, note, cap);
    Subset(after.Keys, a.Keys + {note});
  }

  lemma {:induction false} Subset(a: set<string>, b: set<string>)
    requires a <= b
    ensures |a| <= |b|
  {
    assert b == a + (b - a);
  }

  lemma FirstKeys(env: Env, files: Files, a: Attributes, keys: seq<string>, cap: nat)
    ensures FilesAfterKeys(env, files, a, keys, 0, cap) == files
  {
  }

  lemma SpanGrows(env: Env, files: Files, span: Span, cap: nat)
    requires Walks(env)
    ensures var after := OffloadSpan(env, files, span, cap).files;
            && Grows(FilesAfterField(env, files, span.input, cap), after)
            && Grows(FilesAfterFields(env, files, span, cap), after)
            && Grows(files, after) && |after| <= |files| + PutsOf(span)
            && |FilesAfterField(env, files, span.input, cap)| <= |files| + 1
            && |FilesAfterFields(env, files, span, cap)| <= |files| + 2
  {
    hide FilesAfterField, FilesAfterKeys, Put, Grows, AfterFields, AfterKeys;
    var files1 := FilesAfterField(env, files, span.input, cap);
    var files2 := FilesAfterField(env, files1, span.output, cap);
    var a2 := AfterFields(env, files, span, cap);
    var keys := env.sorted(a2.Keys);
    FieldGrows(env, files, span.input, cap);
    FieldGrows(env, files1, span.output, cap);
    KeysGrow(env, files2, a2, keys, 0, |keys|, cap);
    SameKeys(keys, a2.Keys);
    FieldsAddNotes(env, files, span, cap);
    var after := OffloadSpan(env, files, span, cap).files;
    FirstKeys(env, files2, a2, keys, cap);
    GrowsTwice(files1, files2, after);
    GrowsTwice(files, files1, after);
  }

  /** What the first `n` keys leave of the attributes: no key comes or goes, and only a moved one changes. */
  lemma {:induction false} KeysKeep(env: Env, files: Files, a: Attributes, keys: seq<string>, n: nat, cap: nat, key: string)
    requires n <= |keys| && Lists(keys, a.Keys)
    ensures !AttributeMoves(env, a, key, cap) ==> At(AfterKeys(env, files, a, keys, n, cap), key) == At(a, key)
    decreases n
  {
    if n > 0 {
      hide Put, RefTo, AttributeMoves, FilesAfterKeys, Lists;
      KeysKeep(env, files, a, keys, n - 1, cap, key);
    }
  }

  lemma KeysDiffer(keys: seq<string>, all: set<string>, n: nat)
    requires n < |keys| && Lists(keys, all)
    ensures keys[n] in all && keys[n] !in keys[..n] && forall i :: 0 <= i < n ==> keys[i] != keys[n]
  {
  }

  /** One step of the walk, seen from any key. */
  lemma KeyStep(env: Env, files: Files, a: Attributes, keys: seq<string>, n: nat, cap: nat)
    requires n < |keys|
    ensures forall key :: key != keys[n] ==>
              At(AfterKeys(env, files, a, keys, n + 1, cap), key) == At(AfterKeys(env, files, a, keys, n, cap), key)
    ensures forall s :: AttributeMoves(env, a, keys[n], cap) && At(a, keys[n]) == Some(Text(s)) ==>
              At(AfterKeys(env, files, a, keys, n + 1, cap), keys[n])
              == Some(Text(RefTo(env, FilesAfterKeys(env, files, a, keys, n, cap), s)))
  {
    hide FilesAfterKeys, ValueMoves, RefTo;
  }

  /** Where the directory stood when a key was dealt with, and the reference it got. */
  lemma {:induction false} KeyMoves(env: Env, files: Files, a: Attributes, keys: seq<string>, i: nat, n: nat, cap: nat,
                                    s: string)
    requires i < n <= |keys| && Lists(keys, a.Keys) && AttributeMoves(env, a, keys[i], cap)
    requires At(a, keys[i]) == Some(Text(s))
    ensures At(AfterKeys(env, files, a, keys, n, cap), keys[i])
         == Some(Text(RefTo(env, FilesAfterKeys(env, files, a, keys, i, cap), s)))
    decreases n
  {
    hide *;
    KeyStep(env, files, a, keys, n - 1, cap);
    KeysDiffer(keys, a.Keys, n - 1);
    if i < n - 1 {
      KeyMoves(env, files, a, keys, i, n - 1, cap, s);
    }
  }

  /** A string longer than the cap in bytes, neither under a key of the pass nor a reference already. */
  predicate IsOversized(env: Env, key: string, value: Attribute, cap: nat) {
    && value.Text? && cap > 0 && |env.encode(value.s)| > cap
    && !("evald.blob." <= key) && !("evald-blob:" <= value.s)
  }

  lemma MovesIff(env: Env, a: Attributes, key: string, cap: nat)
    ensures AttributeMoves(env, a, key, cap) <==> key in a && IsOversized(env, key, a[key], cap)
  {
  }

  /**
   * An attribute that is not the note of an offloaded field is either left as it was or, exactly when
   * it is an oversized string, replaced by a reference to its text.
   */
  lemma AttributeComesBack(env: Env, files: Files, span: Span, cap: nat, key: string, later: Files)
    requires Walks(env) && |files| + PutsOf(span) < PROBES
    requires Grows(OffloadSpan(env, files, span, cap).files, later)
    requires key in span.attributes && key != INPUT_KEY && key != OUTPUT_KEY
    ensures var after := OffloadSpan(env, files, span, cap).span.attributes;
            && key in after
            && if IsOversized(env, key, span.attributes[key], cap)
               then && after[key].Text? && PREFIX <= after[key].s
                    && Resolved(later, after[key].s) == Some(env.encode(span.attributes[key].s))
               else after[key] == span.attributes[key]
  {
    var files2, a2 := FilesAfterFields(env, files, span, cap), AfterFields(env, files, span, cap);
    var keys := env.sorted(a2.Keys);
    SpanGrows(env, files, span, cap);
    FieldsAddNotes(env, files, span, cap);
    SameKeys(keys, a2.Keys);
    MovesIff(env, a2, key, cap);
    hide Put, RefTo, AfterKeys, FilesAfterKeys, AfterFields, Resolved, Grows, IsOversized;
    if AttributeMoves(env, a2, key, cap) {
      var i :| 0 <= i < |keys| && keys[i] == key;
      AttributeResolves(env, files2, a2, keys, i, cap, later, a2[key].s);
    } else {
      KeysKeep(env, files2, a2, keys, |keys|, cap, key);
    }
  }

  lemma AttributeResolves(env: Env, files: Files, a: Attributes, keys: seq<string>, i: nat, cap: nat, later: Files,
                          s: string)
    requires i < |keys| && Lists(keys, a.Keys) && AttributeMoves(env, a, keys[i], cap)
    requires At(a, keys[i]) == Some(Text(s))
    requires |files| + |keys| < PROBES && Grows(FilesAfterKeys(env, files, a, keys, |keys|, cap), later)
    ensures var ref := RefTo(env, FilesAfterKeys(env, files, a, keys, i, cap), s);
            && At(AfterKeys(env, files, a, keys, |keys|, cap), keys[i]) == Some(Text(ref))
            && PREFIX <= ref && Resolved(later, ref) == Some(env.encode(s))
  {
    hide *;
    var before := FilesAfterKeys(env, files, a, keys, i, cap);
    var next := FilesAfterKeys(env, files, a, keys, i + 1, cap);
    FirstKeys(env, files, a, keys, cap);
    NextKey(env, files, a, keys, i, cap, s);
    KeyMoves(env, files, a, keys, i, |keys|, cap, s);
    KeysGrow(env, files, a, keys, 0, i, cap);
    KeysGrow(env, files, a, keys, i + 1, |keys|, cap);
    GrowsTwice(next, FilesAfterKeys(env, files, a, keys, |keys|, cap), later);
    PutTextResolves(env, before, s, later);
  }

  lemma NextKey(env: Env, files: Files, a: Attributes, keys: seq<string>, i: nat, cap: nat, s: string)
    requires i < |keys| && AttributeMoves(env, a, keys[i], cap) && At(a, keys[i]) == Some(Text(s))
    ensures FilesAfterKeys(env, files, a, keys, i + 1, cap) == Put(env, FilesAfterKeys(env, files, a, keys, i, cap), s)
  {
    hide Put, ValueMoves;
  }

  lemma PutTextResolves(env: Env, files: Files, s: string, later: Files)
    requires |files| < PROBES && Grows(Put(env, files, s), later)
    ensures PREFIX <= RefTo(env, files, s) && Resolved(later, RefTo(env, files, s)) == Some(env.encode(s))
  {
    ReferenceResolves(files, env.hash, env.encode(s), later);
    hide KeyOf, Stored, Resolved, IsSafeKey;
  }

  function AsAttribute(field: Option<string>): Option<Attribute> {
    if field.Some? then Some(Text(field.value)) else None
  }

  /** A raw attribute that repeats an offloaded text ends with the very reference that text was given. */
  lemma CopiesShareTheReference(env: Env, files: Files, span: Span, cap: nat, key: string, text: string)
    requires Walks(env) && !(OWN_KEYS <= key) && !(PREFIX <= text) && Size(env, text) > cap
    requires At(span.attributes, key) == Some(Text(text))
    ensures var after := OffloadSpan(env, files, span, cap).span;
            && (span.input == Some(text) ==> At(after.attributes, key) == AsAttribute(after.input))
            && (span.output == Some(text) ==> At(after.attributes, key) == AsAttribute(after.output))
  {
    if cap == 0 {
      NothingMoves(env, files, span);
    } else {
      SharedReference(env, files, span, cap, key, text);
    }
  }

  /** With a cap of zero a span is left as it is. */
  lemma NothingMoves(env: Env, files: Files, span: Span)
    ensures OffloadSpan(env, files, span, 0) == Step(files, span, 0)
  {
    hide ValueMoves;
    var keys := env.sorted(span.attributes.Keys);
    NoKeyMoves(env, files, span.attributes, keys, |keys|);
  }

  lemma {:induction false} NoKeyMoves(env: Env, files: Files, a: Attributes, keys: seq<string>, n: nat)
    requires n <= |keys|
    ensures AfterKeys(env, files, a, keys, n, 0) == a && FilesAfterKeys(env, files, a, keys, n, 0) == files
    ensures MovedKeys(env, a, keys, n, 0) == 0
  {
    if n > 0 {
      NoKeyMoves(env, files, a, keys, n - 1);
    }
  }

  lemma SharedReference(env: Env, files: Files, span: Span, cap: nat, key: string, text: string)
    requires Walks(env) && !(OWN_KEYS <= key) && !(PREFIX <= text) && Size(env, text) > cap > 0
    requires At(span.attributes, key) == Some(Text(text))
    ensures var after := OffloadSpan(env, files, span, cap).span;
            && (span.input == Some(text) ==> At(after.attributes, key) == AsAttribute(after.input))
            && (span.output == Some(text) ==> At(after.attributes, key) == AsAttribute(after.output))
  {
    var files1, files2 := FilesAfterField(env, files, span.input, cap), FilesAfterFields(env, files, span, cap);
    var a2 := AfterFields(env, files, span, cap);
    var keys := env.sorted(a2.Keys);
    FieldsAddNotes(env, files, span, cap);
    assert key in Oversized(env, span.attributes, cap);
    assert At(a2, key) == Some(Text(text)) && AttributeMoves(env, a2, key, cap);
    assert Lists(keys, a2.Keys);
    var i :| 0 <= i < |keys| && keys[i] == key;
    var before := FilesAfterKeys(env, files2, a2, keys, i, cap);
    hide AttributeMoves, Lists, Put, RefTo, AfterKeys, FilesAfterKeys, AfterFields, Oversized, Grows;
    KeyMoves(env, files2, a2, keys, i, |keys|, cap, text);
    KeysGrow(env, files2, a2, keys, 0, i, cap);
    FieldGrows(env, files1, span.output, cap);
    GrowsTwice(files1, files2, before);
    if span.input == Some(text) {
      TextKeepsItsReference(env, files, text, before);
    }
    if span.output == Some(text) {
      TextKeepsItsReference(env, files1, text, before);
    }
  }

  lemma TextKeepsItsReference(env: Env, files: Files, s: string, later: Files)
    requires Grows(Put(env, files, s), later)
    ensures RefTo(env, later, s) == RefTo(env, files, s)
  {
    KeyIsStable(files, env.hash, env.encode(s), later);
    hide KeyOf, Stored;
  }

  /** The first `n` keys that move. */
  function MovedSet(env: Env, a: Attributes, keys: seq<string>, n: nat, cap: nat): set<string>
    requires n <= |keys|
  {
    set key | key in keys[..n] && AttributeMoves(env, a, key, cap)
  }

  lemma MovedSetStep(env: Env, a: Attributes, keys: seq<string>, n: nat, cap: nat)
    requires n < |keys| && keys[n] !in keys[..n]
    ensures MovedSet(env, a, keys, n + 1, cap)
         == MovedSet(env, a, keys, n, cap) + if AttributeMoves(env, a, keys[n], cap) then {keys[n]} else {}
    ensures keys[n] !in MovedSet(env, a, keys, n, cap)
  {
    hide AttributeMoves;
    assert keys[..n + 1] == keys[..n] + [keys[n]];
  }

  lemma {:induction false} MovedKeysCount(env: Env, a: Attributes, keys: seq<string>, n: nat, cap: nat)
    requires n <= |keys| && Lists(keys, a.Keys)
    ensures MovedKeys(env, a, keys, n, cap) == |MovedSet(env, a, keys, n, cap)|
    decreases n
  {
    hide AttributeMoves, Lists, MovedSet;
    if n == 0 {
      NoneMoved(env, a, keys, cap);
    } else {
      MovedKeysCount(env, a, keys, n - 1, cap);
      KeysDiffer(keys, a.Keys, n - 1);
      MovedSetStep(env, a, keys, n - 1, cap);
    }
  }

  lemma NoneMoved(env: Env, a: Attributes, keys: seq<string>, cap: nat)
    ensures MovedSet(env, a, keys, 0, cap) == {}
  {
  }

  /** The count of a span: its oversized fields, and the oversized attributes it came with. */
  lemma OffloadCounts(env: Env, files: Files, span: Span, cap: nat)
    requires Walks(env)
    ensures OffloadSpan(env, files, span, cap).count
         == One(FieldMoves(env, span.input, cap)) + One(FieldMoves(env, span.output, cap))
            + |Oversized(env, span.attributes, cap)|
  {
    hide AfterFields, AttributeMoves, AfterKeys, FilesAfterKeys, FilesAfterFields, FieldMoves, Lists, MovedSet, Oversized;
    var a2 := AfterFields(env, files, span, cap);
    var keys := env.sorted(a2.Keys);
    FieldsAddNotes(env, files, span, cap);
    MovedKeysCount(env, a2, keys, |keys|, cap);
    AllMoved(env, a2, keys, cap);
  }

  lemma AllMoved(env: Env, a: Attributes, keys: seq<string>, cap: nat)
    requires Lists(keys, a.Keys)
    ensures MovedSet(env, a, keys, |keys|, cap) == Oversized(env, a, cap)
  {
    hide ValueMoves;
    assert keys[..|keys|] == keys;
  }

  // ----- All spans -----

  function AllPuts(spans: seq<Span>, n: nat): nat
    requires n <= |spans|
  {
    if n == 0 then 0 else AllPuts(spans, n - 1) + PutsOf(spans[n - 1])
  }

  lemma {:induction false} SpansGrow(env: Env, files: Files, spans: seq<Span>, m: nat, n: nat, cap: nat)
    requires Walks(env) && m <= n <= |spans|
    ensures Grows(FilesAfterSpans(env, files, spans, m, cap), FilesAfterSpans(env, files, spans, n, cap))
    ensures |FilesAfterSpans(env, files, spans, n, cap)| + AllPuts(spans, m)
         <= |FilesAfterSpans(env, files, spans, m, cap)| + AllPuts(spans, n)
    decreases n
  {
    hide OffloadSpan, PutsOf;
    if m < n {
      SpansGrow(env, files, spans, m, n - 1, cap);
      SpanGrows(env, FilesAfterSpans(env, files, spans, n - 1, cap), spans[n - 1], cap);
    }
  }

  lemma {:induction false} PutsAdd(spans: seq<Span>, m: nat, n: nat)
    requires m <= n <= |spans|
    ensures AllPuts(spans, m) <= AllPuts(spans, n)
    ensures m < n ==> AllPuts(spans, m) + PutsOf(spans[m]) <= AllPuts(spans, n)
    decreases n
  {
    hide PutsOf;
    if m < n {
      PutsAdd(spans, m, n - 1);
    }
  }

  /** One attribute resolves to the text of another. */
  predicate TextResolves(env: Env, files: Files, after: Attribute, before: Attribute) {
    before.Text? && after.Text? && Resolve(env, files, Some(after.s)) == Some(before.s)
  }

  /** What resolving gives back: a field unless it masquerades as a reference, and every oversized attribute. */
  predicate Restored(env: Env, files: Files, cap: nat, before: Span, after: Span) {
    && (!Masquerades(env, before.input, cap) ==> Resolve(env, files, after.input) == before.input)
    && (!Masquerades(env, before.output, cap) ==> Resolve(env, files, after.output) == before.output)
    && forall key :: key in Oversized(env, before.attributes, cap) ==>
         key in after.attributes && TextResolves(env, files, after.attributes[key], before.attributes[key])
  }

  /** What it does not give back. */
  predicate Lost(env: Env, files: Files, cap: nat, before: Span, after: Span) {
    && (Masquerades(env, before.input, cap) ==> Resolve(env, files, after.input) != before.input)
    && (Masquerades(env, before.output, cap) ==> Resolve(env, files, after.output) != before.output)
  }

  /**
   * Offloading spans and then resolving them, in the directory it ends with or any later one, gives
   * back every input and output but those that stayed inline and start like a reference; and those it
   * does not give back, unless a stored payload is the text of its own reference.
   */
  lemma OffloadThenResolve(env: Env, files: Files, spans: seq<Span>, cap: nat, i: nat, later: Files)
    requires IsUtf8(env) && Walks(env) && |files| + AllPuts(spans, |spans|) < PROBES
    requires Grows(FilesAfterSpans(env, files, spans, |spans|, cap), later) && i < |spans|
    ensures Restored(env, later, cap, spans[i], SpanAfter(env, files, spans, i, cap))
    ensures NoSelfReference(env, later) ==> Lost(env, later, cap, spans[i], SpanAfter(env, files, spans, i, cap))
  {
    hide *;
    var before, span := FilesAfterSpans(env, files, spans, i, cap), spans[i];
    var one := OffloadSpan(env, before, span, cap);
    BeforeSpans(env, files, spans, cap);
    NextSpan(env, files, spans, i, cap);
    SpansGrow(env, files, spans, 0, i, cap);
    SpansGrow(env, files, spans, i + 1, |spans|, cap);
    PutsAdd(spans, i, |spans|);
    GrowsTwice(one.files, FilesAfterSpans(env, files, spans, |spans|, cap), later);
    SpanComesBack(env, before, span, cap, later);
  }

  lemma BeforeSpans(env: Env, files: Files, spans: seq<Span>, cap: nat)
    ensures AllPuts(spans, 0) == 0 && FilesAfterSpans(env, files, spans, 0, cap) == files
  {
  }

  lemma NextSpan(env: Env, files: Files, spans: seq<Span>, n: nat, cap: nat)
    requires n < |spans|
    ensures var one := OffloadSpan(env, FilesAfterSpans(env, files, spans, n, cap), spans[n], cap);
            FilesAfterSpans(env, files, spans, n + 1, cap) == one.files && SpanAfter(env, files, spans, n, cap) == one.span
  {
  }

  lemma SpanComesBack(env: Env, files: Files, span: Span, cap: nat, later: Files)
    requires IsUtf8(env) && Walks(env) && |files| + PutsOf(span) < PROBES
    requires Grows(OffloadSpan(env, files, span, cap).files, later)
    ensures Restored(env, later, cap, span, OffloadSpan(env, files, span, cap).span)
    ensures NoSelfReference(env, later) ==> Lost(env, later, cap, span, OffloadSpan(env, files, span, cap).span)
  {
    hide AfterFields, AfterKeys, MovedKeys, Put, RefTo, Masquerades, Resolved, NoSelfReference, Grows, Walks;
    var one := OffloadSpan(env, files, span, cap);
    var files1, files2 := FilesAfterField(env, files, span.input, cap), FilesAfterFields(env, files, span, cap);
    SpanGrows(env, files, span, cap);
    GrowsTwice(files1, one.files, later);
    GrowsTwice(files2, one.files, later);
    FieldComesBackIff(env, files, span.input, cap, later);
    FieldComesBackIff(env, files1, span.output, cap, later);
    forall key | key in Oversized(env, span.attributes, cap)
      ensures At(one.span.attributes, key).Some?
      ensures TextResolves(env, later, one.span.attributes[key], span.attributes[key])
    {
      OwnKeys();
      AttributeComesBack(env, files, span, cap, key, later);
    }
  }

  lemma OwnKeys()
    ensures OWN_KEYS <= INPUT_KEY && OWN_KEYS <= OUTPUT_KEY
  {
    assert INPUT_KEY[..|OWN_KEYS|] == OWN_KEYS && OUTPUT_KEY[..|OWN_KEYS|] == OWN_KEYS;
  }

  // ----- The note a moved field leaves -----

  predicate IsPreview(s: string, preview: string) {
    preview <= s && |preview| == if |s| > 256 then 256 else |s|
  }

  /** What is left of a field and under its key: both as they were, or the reference, and a note of what it stands for. */
  predicate LeavesNote(env: Env, field: Option<string>, cap: nat, before: Option<Attribute>, after: Option<string>, note: Option<Attribute>) {
    if field.Some? && cap > 0 && |env.encode(field.value)| > cap then
      && after.Some? && note.Some? && note.value.BlobNote? && note.value.ref == after.value
      && note.value.bytes == |env.encode(field.value)| && IsPreview(field.value, note.value.preview)
    else after == field && note == before
  }

  lemma FieldLeavesNote(env: Env, files: Files, field: Option<string>, a: Attributes, key: string, cap: nat)
    ensures LeavesNote(env, field, cap, At(a, key), FieldAfter(env, files, field, cap),
                       At(AttributesAfterField(env, files, field, a, key, cap), key))
  {
    hide RefTo;
  }

  /** An offloaded input or output leaves a note under its own key: its reference, its size and how it begins. */
  lemma FieldsLeaveNotes(env: Env, files: Files, span: Span, cap: nat)
    requires Walks(env)
    ensures var after := OffloadSpan(env, files, span, cap).span;
            && LeavesNote(env, span.input, cap, At(span.attributes, INPUT_KEY), after.input, At(after.attributes, INPUT_KEY))
            && LeavesNote(env, span.output, cap, At(span.attributes, OUTPUT_KEY), after.output, At(after.attributes, OUTPUT_KEY))
  {
    hide RefTo, LeavesNote, FieldAfter, AttributesAfterField, FilesAfterField, AfterKeys, FilesAfterKeys, AttributeMoves;
    OwnKeys();
    var files1 := FilesAfterField(env, files, span.input, cap);
    var a1 := AttributesAfterField(env, files, span.input, span.attributes, INPUT_KEY, cap);
    var a2 := AfterFields(env, files, span, cap);
    FieldLeavesNote(env, files, span.input, span.attributes, INPUT_KEY, cap);
    FieldLeavesNote(env, files1, span.output, a1, OUTPUT_KEY, cap);
    NoteAdded(env, files, span.input, span.attributes, INPUT_KEY, cap);
    NoteAdded(env, files1, span.output, a1, OUTPUT_KEY, cap);
    OwnKeyStays(env, a2, INPUT_KEY, cap);
    OwnKeyStays(env, a2, OUTPUT_KEY, cap);
    var keys := env.sorted(a2.Keys);
    WalksLists(env, a2.Keys);
    KeysKeep(env, FilesAfterFields(env, files, span, cap), a2, keys, |keys|, cap, INPUT_KEY);
    KeysKeep(env, FilesAfterFields(env, files, span, cap), a2, keys, |keys|, cap, OUTPUT_KEY);
  }

  lemma OwnKeyStays(env: Env, a: Attributes, key: string, cap: nat)
    requires OWN_KEYS <= key
    ensures !AttributeMoves(env, a, key, cap)
  {
  }

  // ----- In place, with a disk that may fail -----

  /** Puts a text, in the terms of this module. */
  method PutText(env: Env, store: Store, s: string, disk: Disk) returns (r: Result<string, IoError>)
    requires store.hash == env.hash && |store.files| < PROBES
    modifies store
    ensures r.Ok? ==> r.value == RefTo(env, old(store.files), s)
    ensures store.files == if r.Ok? then Put(env, old(store.files), s) else old(store.files)
    ensures Works(disk) ==> r.Ok?
  {
    r := store.Put(env.encode(s), disk);
  }

  /** A field and its note after the put was made, or was not. */
  ghost predicate FieldDealtWith(env: Env, start: Files, field: Option<string>, a: Attributes, key: string, cap: nat,
                                 moved: nat, files: Files, field': Option<string>, a': Attributes)
  {
    if moved == 1
    then && FieldMoves(env, field, cap)
         && files == FilesAfterField(env, start, field, cap)
         && field' == FieldAfter(env, start, field, cap)
         && a' == AttributesAfterField(env, start, field, a, key, cap)
    else moved == 0 && files == start && field' == field && a' == a
  }

  method OffloadField(env: Env, store: Store, field: Option<string>, a: Attributes, key: string, cap: nat, disk: Disk)
    returns (field': Option<string>, a': Attributes, moved: nat)
    requires store.hash == env.hash && |store.files| < PROBES && cap > 0
    modifies store
    ensures FieldDealtWith(env, old(store.files), field, a, key, cap, moved, store.files, field', a')
    ensures Works(disk) ==> moved == One(FieldMoves(env, field, cap))
  {
    field', a', moved := field, a, 0;
    if field == None {
      return;
    }
    if |env.encode(field.value)| <= cap {
      return;
    }
    var put := PutText(env, store, field.value, disk);
    if put.Ok? {
      a' := a[key := BlobNote(put.value, |env.encode(field.value)|, Preview(field.value))];
      field' := Some(put.value);
      moved := 1;
    }
  }

  /** What a failing disk still guarantees of one attribute: left alone, or a reference to its text. */
  predicate AttributeKept(env: Env, files: Files, before: Attribute, after: Attribute) {
    || after == before
    || (&& before.Text? && after.Text? && PREFIX <= after.s
        && Resolved(files, after.s) == Some(env.encode(before.s)))
  }

  /** The directory, the attributes and the count once the first `n` keys are dealt with and nothing failed. */
  ghost predicate AttributesDealtWith(env: Env, start: Files, a: Attributes, keys: seq<string>, n: nat, cap: nat,
                                      moved: nat, files: Files, a': Attributes)
    requires n <= |keys|
  {
    && a' == AfterKeys(env, start, a, keys, n, cap)
    && files == FilesAfterKeys(env, start, a, keys, n, cap)
    && moved == MovedKeys(env, a, keys, n, cap)
  }

  /** The keys from the `n`th on are untouched, and every attribute is kept. */
  ghost predicate AttributesKept(env: Env, start: Files, a: Attributes, keys: seq<string>, n: nat, files: Files, a': Attributes) {
    && Grows(start, files) && |files| <= |start| + n && a'.Keys == a.Keys
    && (forall j :: n <= j < |keys| && keys[j] in a ==> a'[keys[j]] == a[keys[j]])
    && forall key :: key in a ==> AttributeKept(env, files, a[key], a'[key])
  }

  lemma NoKeyDealtWith(env: Env, files: Files, a: Attributes, keys: seq<string>, cap: nat)
    requires Lists(keys, a.Keys)
    ensures AttributesDealtWith(env, files, a, keys, 0, cap, 0, files, a)
    ensures AttributesKept(env, files, a, keys, 0, files, a)
    ensures |keys| == |a|
  {
    SameKeys(keys, a.Keys);
  }

  lemma KeyStays(env: Env, start: Files, a: Attributes, keys: seq<string>, n: nat, files: Files, a': Attributes)
    requires n < |keys| && Lists(keys, a.Keys) && AttributesKept(env, start, a, keys, n, files, a')
    ensures AttributesKept(env, start, a, keys, n + 1, files, a')
    ensures keys[n] in a && keys[n] in a' && a'[keys[n]] == a[keys[n]] && |files| <= |start| + n
  {
    hide AttributeKept;
  }

  lemma PutTextIsKept(env: Env, files: Files, s: string)
    requires |files| < PROBES
    ensures AttributeKept(env, Put(env, files, s), Text(s), Text(RefTo(env, files, s)))
  {
    PutTextResolves(env, files, s, Put(env, files, s));
    hide Put, RefTo, Resolved;
  }

  lemma AttributeStaysKept(env: Env, files: Files, later: Files, before: Attribute, after: Attribute)
    requires AttributeKept(env, files, before, after) && Grows(files, later)
    ensures AttributeKept(env, later, before, after)
  {
  }

  /** Putting one more attribute keeps them all. */
  lemma KeyIsKept(env: Env, start: Files, a: Attributes, keys: seq<string>, n: nat, cap: nat, files: Files, a': Attributes)
    requires |files| < PROBES && n < |keys| && AttributesKept(env, start, a, keys, n, files, a')
    requires Lists(keys, a.Keys) && ValueMoves(env, keys[n], a[keys[n]], cap)
    ensures var s := a[keys[n]].s;
            AttributesKept(env, start, a, keys, n + 1, Put(env, files, s), a'[keys[n] := Text(RefTo(env, files, s))])
  {
    var s := a[keys[n]].s;
    var later, ref := Put(env, files, s), RefTo(env, files, s);
    PutGrows(env, files, s);
    GrowsTwice(start, files, later);
    PutTextIsKept(env, files, s);
    hide Put, RefTo, Grows, ValueMoves;
    forall key | key in a
      ensures AttributeKept(env, later, a[key], a'[keys[n] := Text(ref)][key])
    {
      if key != keys[n] {
        AttributeStaysKept(env, files, later, a[key], a'[key]);
      }
    }
    hide AttributeKept;
  }

  lemma KeyDealtWith(env: Env, start: Files, a: Attributes, keys: seq<string>, n: nat, cap: nat,
                     moved: nat, files: Files, a': Attributes)
    requires n < |keys| && AttributesDealtWith(env, start, a, keys, n, cap, moved, files, a')
    requires keys[n] in a
    ensures if ValueMoves(env, keys[n], a[keys[n]], cap)
            then AttributesDealtWith(env, start, a, keys, n + 1, cap, moved + 1, Put(env, files, a[keys[n]].s),
                                     a'[keys[n] := Text(RefTo(env, files, a[keys[n]].s))])
            else AttributesDealtWith(env, start, a, keys, n + 1, cap, moved, files, a')
  {
    hide Put, RefTo;
  }

  /** The loop's body, on one entry of the map. */
  method OffloadAttribute(env: Env, store: Store, key: string, value: Attribute, cap: nat, disk: Disk)
    returns (value': Attribute, moved: nat)
    requires store.hash == env.hash && |store.files| < PROBES && cap > 0
    modifies store
    ensures moved == 1 ==>
              && ValueMoves(env, key, value, cap) && value' == Text(RefTo(env, old(store.files), value.s))
              && store.files == Put(env, old(store.files), value.s)
    ensures moved != 1 ==> moved == 0 && value' == value && store.files == old(store.files)
    ensures Works(disk) ==> moved == if ValueMoves(env, key, value, cap) then 1 else 0
  {
    hide RefTo, Put, Works;
    value', moved := value, 0;
    if OWN_KEYS <= key {
      return;
    }
    if value.Text? && |env.encode(value.s)| > cap && !(PREFIX <= value.s) {
      var put := PutText(env, store, value.s, disk);
      if put.Ok? {
        value', moved := Text(put.value), 1;
      }
    }
  }

  method OffloadRawAttributes(env: Env, store: Store, a: Attributes, cap: nat, disk: Disk)
    returns (a': Attributes, moved: nat)
    requires Walks(env) && store.hash == env.hash && |store.files| + |a| < PROBES && cap > 0
    modifies store
    ensures var keys := env.sorted(a.Keys);
            && (Works(disk) ==> AttributesDealtWith(env, old(store.files), a, keys, |keys|, cap, moved, store.files, a'))
            && |keys| == |a| && AttributesKept(env, old(store.files), a, keys, |keys|, store.files, a')
  {
    hide *;
    a', moved := a, 0;
    var keys := env.sorted(a.Keys);
    ghost var start := store.files;
    WalksLists(env, a.Keys);
    NoKeyDealtWith(env, start, a, keys, cap);
    for n := 0 to |keys|
      invariant AttributesKept(env, start, a, keys, n, store.files, a')
      invariant Works(disk) ==> AttributesDealtWith(env, start, a, keys, n, cap, moved, store.files, a')
    {
      var key := keys[n];
      ghost var files := store.files;
      KeyStays(env, start, a, keys, n, files, a');
      var value, one := OffloadAttribute(env, store, key, a'[key], cap, disk);
      if Works(disk) {
        KeyDealtWith(env, start, a, keys, n, cap, moved, files, a');
      }
      if one == 1 {
        KeyIsKept(env, start, a, keys, n, cap, files, a');
      }
      assert a'[key := a'[key]] == a';
      a' := a'[key := value];
      moved := moved + one;
    }
  }

  lemma WalksLists(env: Env, all: set<string>)
    requires Walks(env)
    ensures Lists(env.sorted(all), all)
  {
  }

  /** What a failing disk still guarantees of a field: left alone, or a reference to it. */
  predicate FieldKept(env: Env, files: Files, before: Option<string>, after: Option<string>) {
    after == before || (before.Some? && Resolve(env, files, after) == before)
  }

  ghost predicate SpanKept(env: Env, files: Files, before: Span, after: Span) {
    && FieldKept(env, files, before.input, after.input) && FieldKept(env, files, before.output, after.output)
    && forall key :: key in before.attributes && key != INPUT_KEY && key != OUTPUT_KEY ==>
         key in after.attributes && AttributeKept(env, files, before.attributes[key], after.attributes[key])
  }

  lemma SpanStaysKept(env: Env, files: Files, later: Files, before: Span, after: Span)
    requires SpanKept(env, files, before, after) && Grows(files, later)
    ensures SpanKept(env, later, before, after)
  {
  }

  lemma FieldStaysKept(env: Env, start: Files, field: Option<string>, a: Attributes, key: string, cap: nat,
                       moved: nat, files: Files, field': Option<string>, a': Attributes, later: Files)
    requires IsUtf8(env) && |start| < PROBES && Grows(files, later)
    requires FieldDealtWith(env, start, field, a, key, cap, moved, files, field', a')
    ensures FieldKept(env, later, field, field')
  {
    if moved == 1 {
      MovedFieldComesBack(env, start, field, cap, later);
    }
  }

  lemma FieldAddsNote(env: Env, start: Files, field: Option<string>, a: Attributes, key: string, cap: nat,
                      moved: nat, files: Files, field': Option<string>, a': Attributes)
    requires FieldDealtWith(env, start, field, a, key, cap, moved, files, field', a')
    ensures Grows(start, files) && |files| <= |start| + 1 && |a'| <= |a| + 1
    ensures forall other :: other != key && other in a ==> other in a' && a'[other] == a[other]
    ensures moved == One(FieldMoves(env, field, cap)) ==>
              && files == FilesAfterField(env, start, field, cap) && field' == FieldAfter(env, start, field, cap)
              && a' == AttributesAfterField(env, start, field, a, key, cap)
  {
    FieldGrows(env, start, field, cap);
    NoteAdded(env, start, field, a, key, cap);
    hide RefTo, Put, Size, Preview;
  }

  lemma RawAttributesKept(env: Env, start: Files, a: Attributes, keys: seq<string>, files: Files, a': Attributes)
    requires |keys| == |a| && AttributesKept(env, start, a, keys, |keys|, files, a')
    ensures Grows(start, files) && |files| <= |start| + |a| && a'.Keys == a.Keys
    ensures forall key :: key in a ==> AttributeKept(env, files, a[key], a'[key])
  {
  }

  lemma PartsMakeTheSpan(env: Env, start: Files, span: Span, cap: nat, files1: Files, a1: Attributes,
                         output: Option<string>, a2: Attributes, files2: Files, moved: nat, files: Files, a3: Attributes)
    requires files1 == FilesAfterField(env, start, span.input, cap)
    requires a1 == AttributesAfterField(env, start, span.input, span.attributes, INPUT_KEY, cap)
    requires files2 == FilesAfterField(env, files1, span.output, cap)
    requires output == FieldAfter(env, files1, span.output, cap)
    requires a2 == AttributesAfterField(env, files1, span.output, a1, OUTPUT_KEY, cap)
    requires var keys := env.sorted(a2.Keys); AttributesDealtWith(env, files2, a2, keys, |keys|, cap, moved, files, a3)
    ensures OffloadSpan(env, start, span, cap)
         == Step(files, Span(FieldAfter(env, start, span.input, cap), output, a3),
                 One(FieldMoves(env, span.input, cap)) + One(FieldMoves(env, span.output, cap)) + moved)
  {
    hide AttributesAfterField, FilesAfterField, FieldAfter, FieldMoves, AfterKeys, FilesAfterKeys, MovedKeys;
  }

  lemma PartsKeepTheSpan(env: Env, span: Span, a1: Attributes, a2: Attributes, files: Files, after: Span)
    requires FieldKept(env, files, span.input, after.input) && FieldKept(env, files, span.output, after.output)
    requires forall key :: key != INPUT_KEY && key in span.attributes ==> key in a1 && a1[key] == span.attributes[key]
    requires forall key :: key != OUTPUT_KEY && key in a1 ==> key in a2 && a2[key] == a1[key]
    requires after.attributes.Keys == a2.Keys
    requires forall key :: key in a2 ==> AttributeKept(env, files, a2[key], after.attributes[key])
    ensures SpanKept(env, files, span, after)
  {
    hide FieldKept, AttributeKept;
  }

  lemma PutsCover(span: Span)
    ensures PutsOf(span) == |span.attributes| + 4
  {
  }

  /** One span, in place of the loop's body. */
  method OffloadOne(env: Env, span: Span, store: Store, cap: nat, disk: Disk) returns (after: Span, moved: nat)
    requires IsUtf8(env) && Walks(env) && store.hash == env.hash && |store.files| + PutsOf(span) < PROBES && cap > 0
    modifies store
    ensures Works(disk) ==> Step(store.files, after, moved) == OffloadSpan(env, old(store.files), span, cap)
    ensures Grows(old(store.files), store.files) && |store.files| <= |old(store.files)| + PutsOf(span)
    ensures SpanKept(env, store.files, span, after)
  {
    hide *;
    PutsCover(span);
    ghost var files0 := store.files;
    var input, a1, moved1 := OffloadField(env, store, span.input, span.attributes, INPUT_KEY, cap, disk);
    ghost var files1 := store.files;
    FieldAddsNote(env, files0, span.input, span.attributes, INPUT_KEY, cap, moved1, files1, input, a1);
    var output, a2, moved2 := OffloadField(env, store, span.output, a1, OUTPUT_KEY, cap, disk);
    ghost var files2 := store.files;
    FieldAddsNote(env, files1, span.output, a1, OUTPUT_KEY, cap, moved2, files2, output, a2);
    var a3, moved3 := OffloadRawAttributes(env, store, a2, cap, disk);
    RawAttributesKept(env, files2, a2, env.sorted(a2.Keys), store.files, a3);
    GrowsTwice(files1, files2, store.files);
    GrowsTwice(files0, files1, store.files);
    after, moved := Span(input, output, a3), moved1 + moved2 + moved3;
    FieldStaysKept(env, files0, span.input, span.attributes, INPUT_KEY, cap, moved1, files1, input, a1, store.files);
    FieldStaysKept(env, files1, span.output, a1, OUTPUT_KEY, cap, moved2, files2, output, a2, store.files);
    PartsKeepTheSpan(env, span, a1, a2, store.files, after);
    if Works(disk) {
      PartsMakeTheSpan(env, files0, span, cap, files1, a1, output, a2, files2, moved3, store.files, a3);
    }
  }

  /** The directory, the spans and the count once the first `n` spans are dealt with and nothing failed. */
  ghost predicate Offloaded(env: Env, start: Files, was: seq<Span>, cap: nat, n: nat, files: Files, now: seq<Span>, count: nat)
    requires n <= |was|
  {
    && files == FilesAfterSpans(env, start, was, n, cap) && count == CountAfter(env, start, was, n, cap)
    && |now| == |was| && forall i :: 0 <= i < n ==> now[i] == SpanAfter(env, start, was, i, cap)
  }

  lemma OffloadedNext(env: Env, start: Files, was: seq<Span>, cap: nat, n: nat, files: Files, now: seq<Span>, count: nat,
                      one: Step)
    requires n < |was| && Offloaded(env, start, was, cap, n, files, now, count)
    requires one == OffloadSpan(env, files, was[n], cap)
    ensures Offloaded(env, start, was, cap, n + 1, one.files, now[n := one.span], count + one.count)
  {
    hide OffloadSpan;
  }

  /** The first `n` spans are kept, the others untouched, and no more was put than they can cause. */
  ghost predicate AllKept(env: Env, start: Files, was: seq<Span>, n: nat, files: Files, now: seq<Span>)
    requires n <= |was|
  {
    && Grows(start, files) && |files| <= |start| + AllPuts(was, n)
    && |now| == |was| && (forall i :: n <= i < |was| ==> now[i] == was[i])
    && forall i :: 0 <= i < n ==> SpanKept(env, files, was[i], now[i])
  }

  lemma NothingDealtWith(env: Env, start: Files, was: seq<Span>, cap: nat)
    ensures AllKept(env, start, was, 0, start, was) && Offloaded(env, start, was, cap, 0, start, was, 0)
  {
  }

  lemma RoomForOneMore(env: Env, start: Files, was: seq<Span>, n: nat, files: Files, now: seq<Span>)
    requires n < |was| && AllKept(env, start, was, n, files, now)
    ensures |files| + PutsOf(was[n]) <= |start| + AllPuts(was, |was|) && now[n] == was[n]
  {
    PutsAdd(was, n, |was|);
  }

  lemma AllKeptNext(env: Env, start: Files, was: seq<Span>, n: nat, files: Files, now: seq<Span>, later: Files, span: Span)
    requires n < |was| && AllKept(env, start, was, n, files, now)
    requires Grows(files, later) && |later| <= |files| + PutsOf(was[n]) && SpanKept(env, later, was[n], span)
    ensures AllKept(env, start, was, n + 1, later, now[n := span])
  {
    GrowsTwice(start, files, later);
    hide Grows, SpanKept, PutsOf;
    forall i | 0 <= i < n
      ensures SpanKept(env, later, was[i], now[i])
    {
      SpanStaysKept(env, files, later, was[i], now[i]);
    }
  }

  lemma {:induction false} NoSpanMoves(env: Env, files: Files, spans: seq<Span>, n: nat)
    requires n <= |spans|
    ensures Offloaded(env, files, spans, 0, n, files, spans, 0)
  {
    hide OffloadSpan;
    if n > 0 {
      NoSpanMoves(env, files, spans, n - 1);
      NothingMoves(env, files, spans[n - 1]);
    }
  }

  /**
   * The whole pass. With a disk that works it is the function above; with one that fails, each field
   * and attribute is left inline or is a reference to what it was.
   */
  method OffloadLargePayloads(env: Env, spans: array<Span>, store: Store, cap: nat, disk: Disk) returns (offloaded: nat)
    requires IsUtf8(env) && Walks(env) && store.hash == env.hash
    requires |store.files| + AllPuts(spans[..], spans.Length) < PROBES
    modifies spans, store
    ensures cap == 0 ==> offloaded == 0 && spans[..] == old(spans[..]) && store.files == old(store.files)
    ensures Works(disk) ==>
              Offloaded(env, old(store.files), old(spans[..]), cap, spans.Length, store.files, spans[..], offloaded)
    ensures cap > 0 ==> AllKept(env, old(store.files), old(spans[..]), spans.Length, store.files, spans[..])
  {
    hide *;
    if cap == 0 {
      NoSpanMoves(env, store.files, spans[..], spans.Length);
      return 0;
    }
    offloaded := 0;
    ghost var start, was := store.files, spans[..];
    NothingDealtWith(env, start, was, cap);
    for n := 0 to spans.Length
      invariant AllKept(env, start, was, n, store.files, spans[..])
      invariant Works(disk) ==> Offloaded(env, start, was, cap, n, store.files, spans[..], offloaded)
    {
      ghost var files, now, count := store.files, spans[..], offloaded;
      RoomForOneMore(env, start, was, n, files, now);
      var after, moved := OffloadOne(env, spans[n], store, cap, disk);
      AllKeptNext(env, start, was, n, files, now, store.files, after);
      if Works(disk) {
        OffloadedNext(env, start, was, cap, n, files, now, count, Step(store.files, after, moved));
      }
      spans[n] := after;
      offloaded := offloaded + moved;
      assert spans[..] == now[n := after];
    }
  }
}
