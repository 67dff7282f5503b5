/** The two passes that make OTLP-JSON readable by the generated deserializer (src/ingest.rs). */
module OtlpJson {
  import opened Wrappers
  import opened Numerals

  /** A JSON value; numbers that are not integers are kept as they are spelled. */
  datatype Json =
    | Null
    | Bool(b: bool)
    | Int(n: int)
    | Float(spelled: string)
    | Str(s: string)
    | Arr(items: seq<Json>)
    | Obj(fields: map<string, Json>)

  predicate IsEmpty(j: Json) { j.Obj? && j.fields == map[] }

  // ----- Integers spelled as strings -----

  const I64_MIN: int := -0x8000_0000_0000_0000
  const I64_MAX: int := 0x7FFF_FFFF_FFFF_FFFF

  function ParseI64(s: string): (n: Option<int>)
    ensures n.Some? ==> I64_MIN <= n.value <= I64_MAX
  {
    var negative := s != "" && s[0] == '-';
    var digits := if s != "" && (s[0] == '-' || s[0] == '+') then s[1..] else s;
    if digits == "" || !AllDigits(digits) then None
    else
      var size: int := ValueOf(digits);
      var n := if negative then -size else size;
      if I64_MIN <= n <= I64_MAX then Some(n) else None
  }

  predicate IsIntKey(key: string) { key == "intValue" || key == "asInt" }

  /** The value under a key, an integer spelled as a string made a number. */
  function Unquoted(key: string, val: Json): Json {
    if IsIntKey(key) && val.Str? && ParseI64(val.s).Some? then Int(ParseI64(val.s).value) else val
  }

  function Coerced(j: Json): Json {
    match j
    case Obj(fields) => Obj(map key | key in fields :: Unquoted(key, Coerced(fields[key])))
    case Arr(items) => Arr(CoercedItems(items))
    case _ => j
  }

  function CoercedItems(items: seq<Json>): (r: seq<Json>)
    ensures |r| == |items|
    ensures forall i :: 0 <= i < |items| ==> r[i] == Coerced(items[i])
  {
    if items == [] then []
    else CoercedItems(items[..|items| - 1]) + [Coerced(items[|items| - 1])]
  }

  // ----- Values that say nothing -----

  /** A field stays, unless it is the empty `value` of an object with a `key`. */
  predicate Stays(fields: map<string, Json>, key: string) {
    !(key == "value" && "key" in fields && "value" in fields && IsEmpty(fields["value"]))
  }

  /** Is this the array of an array value or key-value list, whose empty elements go? */
  predicate IsSwept(key: string, val: Json) { key == "values" && val.Arr? }

  function Dropped(j: Json): Json {
    match j
    case Obj(fields) =>
      Obj(map key | key in fields && Stays(fields, key) ::
            if IsSwept(key, fields[key]) then Arr(DroppedItems(fields[key].items, true)) else Dropped(fields[key]))
    case Arr(items) => Arr(DroppedItems(items, false))
    case _ => j
  }

  /** The elements of an array, without the empty objects when it is swept. */
  function DroppedItems(items: seq<Json>, swept: bool): seq<Json> {
    if items == [] then []
    else
      DroppedItems(items[..|items| - 1], swept)
      + if swept && IsEmpty(items[|items| - 1]) then [] else [Dropped(items[|items| - 1])]
  }

  // ----- What is left -----

  /** No integer under an integer key is still spelled as a string. */
  predicate IntsAreNumbers(j: Json) {
    match j
    case Obj(fields) =>
      forall key :: key in fields ==> IntsAreNumbers(fields[key]) && Unquoted(key, fields[key]) == fields[key]
    case Arr(items) => forall i :: 0 <= i < |items| ==> IntsAreNumbers(items[i])
    case _ => true
  }

  /** No `key` object anywhere has an empty `value`, and no `values` array anywhere an empty element. */
  predicate SaysSomething(j: Json) {
    match j
    case Obj(fields) =>
      && ("key" in fields && "value" in fields ==> !IsEmpty(fields["value"]))
      && forall key :: key in fields ==> SaysSomething(fields[key])
                                         && (IsSwept(key, fields[key]) ==> NoneEmpty(fields[key].items))
    case Arr(items) => forall i :: 0 <= i < |items| ==> SaysSomething(items[i])
    case _ => true
  }

  predicate NoneEmpty(items: seq<Json>) {
    forall i :: 0 <= i < |items| ==> !IsEmpty(items[i])
  }

  // ----- Coercion -----

  /** Coercing changes the kind of nothing but a string, and empties nothing. */
  lemma CoercedShape(j: Json)
    ensures j.Arr? <==> Coerced(j).Arr?
    ensures j.Obj? <==> Coerced(j).Obj?
    ensures IsEmpty(Coerced(j)) <==> IsEmpty(j)
    ensures j.Str? ==> Coerced(j) == j
    ensures Coerced(j).Str? ==> Coerced(j) == j
  {
    if j.Obj? && j.fields != map[] {
      var key :| key in j.fields;
      assert key in Coerced(j).fields;
    }
  }

  lemma UnquotedTwice(key: string, val: Json)
    ensures Unquoted(key, Unquoted(key, val)) == Unquoted(key, val)
  {
  }

  /** Everything that could be coerced is. */
  lemma {:induction false} CoercedIsDone(j: Json)
    ensures IntsAreNumbers(Coerced(j))
    decreases j
  {
    hide ParseI64, IsIntKey;
    match j
    case Obj(fields) =>
      forall key | key in fields
        ensures IntsAreNumbers(Unquoted(key, Coerced(fields[key])))
        ensures Unquoted(key, Unquoted(key, Coerced(fields[key]))) == Unquoted(key, Coerced(fields[key]))
      {
        CoercedIsDone(fields[key]);
        UnquotedTwice(key, Coerced(fields[key]));
      }
    case Arr(items) =>
      forall i | 0 <= i < |items|
        ensures IntsAreNumbers(Coerced(items[i]))
      {
        CoercedIsDone(items[i]);
      }
    case _ =>
  }

  /** A value is left alone exactly when there is nothing to coerce. */
  lemma {:induction false} CoercedFixesIff(j: Json)
    ensures Coerced(j) == j <==> IntsAreNumbers(j)
    decreases j
  {
    hide ParseI64, IsIntKey;
    if Coerced(j) == j {
      CoercedIsDone(j);
    }
    match j
    case Obj(fields) =>
      forall key | key in fields
        ensures IntsAreNumbers(fields[key]) ==> Coerced(fields[key]) == fields[key]
      {
        CoercedFixesIff(fields[key]);
      }
      if IntsAreNumbers(j) {
        assert Coerced(j).fields == fields;
      }
    case Arr(items) =>
      forall i | 0 <= i < |items|
        ensures IntsAreNumbers(items[i]) ==> Coerced(items[i]) == items[i]
      {
        CoercedFixesIff(items[i]);
      }
      if IntsAreNumbers(j) {
        assert CoercedItems(items) == items;
      }
    case _ =>
  }

  lemma CoerceIsIdempotent(j: Json)
    ensures Coerced(Coerced(j)) == Coerced(j)
  {
    CoercedIsDone(j);
    CoercedFixesIff(Coerced(j));
  }

  /** The string spells the integer: digits, before them a minus where it is negative, or a plus that could be left out. */
  ghost predicate Spells(s: string, n: int) {
    exists d: string :: d != "" && AllDigits(d)
                        && ((n == ValueOf(d) && (s == d || s == "+" + d)) || (n + ValueOf(d) == 0 && s == "-" + d))
  }

  predicate InI64(n: int) { -0x8000_0000_0000_0000 <= n < 0x8000_0000_0000_0000 }

  /** As numbers are printed, and with a plus. */
  lemma PrintedIsSpelled(n: int)
    requires n >= 0
    ensures Spells(Decimal(n), n) && Spells("+" + Decimal(n), n) && Spells("-" + Decimal(n), -n)
  {
    DecimalReads(n);
  }

  lemma ParseSpelled(s: string, n: int)
    ensures ParseI64(s) == Some(n) <==> Spells(s, n) && InI64(n)
  {
    if ParseI64(s) == Some(n) {
      var d := if s[0] == '-' || s[0] == '+' then s[1..] else s;
      assert s == d || s == "+" + d || s == "-" + d;
    }
    if Spells(s, n) {
      var d :| d != "" && AllDigits(d) && ((n == ValueOf(d) && (s == d || s == "+" + d)) || (n + ValueOf(d) == 0 && s == "-" + d));
      assert s == d || s[1..] == d;
      assert IsDigit(d[0]);
    }
  }

  /**
   * What becomes of an object: under `intValue` and `asInt` a string that spells an integer of 64 bits becomes
   * that number, every other string stays, and whatever is no string is coerced in its turn.
   */
  lemma CoercedObject(fields: map<string, Json>, key: string)
    requires key in fields
    ensures var after := Coerced(Obj(fields));
            && after.Obj? && after.fields.Keys == fields.Keys
            && (fields[key].Str? ==>
                  && (forall n :: (key == "intValue" || key == "asInt") && Spells(fields[key].s, n) && InI64(n) ==>
                        after.fields[key] == Int(n))
                  && ((key != "intValue" && key != "asInt") || (forall n :: Spells(fields[key].s, n) ==> !InI64(n)) ==>
                        after.fields[key] == fields[key]))
            && (!fields[key].Str? ==> after.fields[key] == Coerced(fields[key]))
  {
    hide ParseI64, Spells;
    CoercedShape(fields[key]);
    if fields[key].Str? {
      var s := fields[key].s;
      forall n {
        ParseSpelled(s, n);
      }
      if ParseI64(s).Some? {
        assert Spells(s, ParseI64(s).value);
      }
    }
  }

  /** Arrays are coerced element by element, and scalars stay. */
  lemma CoercedOther(j: Json)
    requires !j.Obj?
    ensures j.Arr? ==> Coerced(j).Arr? && |Coerced(j).items| == |j.items|
                       && forall i :: 0 <= i < |j.items| ==> Coerced(j).items[i] == Coerced(j.items[i])
    ensures !j.Arr? ==> Coerced(j) == j
  {
  }

  // ----- Dropping -----

  /** The elements that are not empty, in their order. */
  function Filled(items: seq<Json>): seq<Json> {
    if items == [] then [] else (if items[0] == Obj(map[]) then [] else [items[0]]) + Filled(items[1..])
  }

  lemma FilledFirst(first: Json, rest: seq<Json>)
    ensures Filled([first] + rest) == (if first == Obj(map[]) then [] else [first]) + Filled(rest)
  {
    assert ([first] + rest)[1..] == rest;
  }

  lemma {:induction false} FilledMore(items: seq<Json>, last: Json)
    ensures Filled(items + [last]) == Filled(items) + if last == Obj(map[]) then [] else [last]
    decreases items, 1
  {
    if items == [] {
      FilledFirst(last, []);
      assert [last] + [] == items + [last] && Filled([]) == [];
    } else {
      FilledIsMore(items, last);
    }
  }

  lemma {:induction false} FilledIsMore(items: seq<Json>, last: Json)
    requires items != []
    ensures Filled(items + [last]) == Filled(items) + if last == Obj(map[]) then [] else [last]
    decreases items, 0
  {
    hide *;
    FilledMore(items[1..], last);
    FilledFirst(items[0], items[1..] + [last]);
    FilledFirst(items[0], items[1..]);
    assert items == [items[0]] + items[1..];
    assert items + [last] == [items[0]] + (items[1..] + [last]);
  }

  lemma {:induction false} SweptAreFilled(items: seq<Json>)
    ensures |DroppedItems(items, true)| == |Filled(items)|
    ensures forall i :: 0 <= i < |Filled(items)| ==> DroppedItems(items, true)[i] == Dropped(Filled(items)[i])
  {
    hide Dropped;
    if items != [] {
      var front, last := items[..|items| - 1], items[|items| - 1];
      SweptAreFilled(front);
      FilledMore(front, last);
      assert items == front + [last];
    }
  }

  /**
   * Exactly what goes: of an object with a `key` its empty `value`, and of the array under `values` its empty
   * elements; all else stays and is dealt with in its turn.
   */
  lemma DroppedObject(fields: map<string, Json>, key: string)
    ensures var after := Dropped(Obj(fields));
            && after.Obj?
            && (key in after.fields <==>
                  key in fields && !(key == "value" && "key" in fields && fields["value"] == Obj(map[])))
            && (key in after.fields && key == "values" && fields[key].Arr? ==>
                  && after.fields[key].Arr? && |after.fields[key].items| == |Filled(fields[key].items)|
                  && forall i :: 0 <= i < |Filled(fields[key].items)| ==>
                       after.fields[key].items[i] == Dropped(Filled(fields[key].items)[i]))
            && (key in after.fields && !(key == "values" && fields[key].Arr?) ==> after.fields[key] == Dropped(fields[key]))
  {
    hide Dropped, DroppedItems;
    DroppedFields(fields, key);
    if key in fields && fields[key].Arr? {
      SweptAreFilled(fields[key].items);
    }
  }

  lemma DroppedFields(fields: map<string, Json>, key: string)
    ensures var after := Dropped(Obj(fields));
            && after.Obj? && (key in after.fields <==> key in fields && Stays(fields, key))
            && (key in after.fields && IsSwept(key, fields[key]) ==> after.fields[key] == Arr(DroppedItems(fields[key].items, true)))
            && (key in after.fields && !IsSwept(key, fields[key]) ==> after.fields[key] == Dropped(fields[key]))
  {
  }

  /** Dropping changes the kind of nothing, and empties nothing that was not empty. */
  lemma DroppedShape(j: Json)
    ensures j.Arr? <==> Dropped(j).Arr?
    ensures j.Obj? <==> Dropped(j).Obj?
    ensures !j.Arr? && !j.Obj? ==> Dropped(j) == j
    ensures IsEmpty(Dropped(j)) <==> IsEmpty(j)
  {
    if j.Obj? && j.fields != map[] {
      var key :| key in j.fields;
      assert Stays(j.fields, "key");
      if Stays(j.fields, key) {
        assert key in Dropped(j).fields;
      } else {
        assert "key" in Dropped(j).fields;
      }
    }
  }

  lemma {:induction false} DroppedItemsAre(items: seq<Json>, swept: bool)
    ensures forall x :: x in DroppedItems(items, swept) ==>
              exists i :: 0 <= i < |items| && x == Dropped(items[i]) && (swept ==> !IsEmpty(items[i]))
    ensures !swept ==> |DroppedItems(items, swept)| == |items|
                       && forall i :: 0 <= i < |items| ==> DroppedItems(items, swept)[i] == Dropped(items[i])
  {
    hide Dropped, IsEmpty;
    if items != [] {
      DroppedItemsAre(items[..|items| - 1], swept);
    }
  }

  /** Nothing that says nothing is left, at any depth. */
  lemma {:induction false} DroppedSaysSomething(j: Json)
    ensures SaysSomething(Dropped(j))
    decreases j
  {
    match j
    case Obj(fields) =>
      var kept := Dropped(j).fields;
      forall key | key in kept
        ensures SaysSomething(kept[key]) && (IsSwept(key, kept[key]) ==> NoneEmpty(kept[key].items))
      {
        FieldSaysSomething(j, key);
      }
      ValueSaysSomething(fields);
    case Arr(items) =>
      ItemsSaySomething(items, false);
    case _ =>
  }

  lemma ValueSaysSomething(fields: map<string, Json>)
    ensures var kept := Dropped(Obj(fields)).fields; "key" in kept && "value" in kept ==> !IsEmpty(kept["value"])
  {
    var kept := Dropped(Obj(fields)).fields;
    if "key" in kept && "value" in kept {
      DroppedShape(fields["value"]);
      assert !IsSwept("value", fields["value"]);
    }
  }

  lemma {:induction false} FieldSaysSomething(j: Json, key: string)
    requires j.Obj? && key in Dropped(j).fields
    ensures var val := Dropped(j).fields[key];
            SaysSomething(val) && (IsSwept(key, val) ==> NoneEmpty(val.items))
    decreases j, 0
  {
    var val := j.fields[key];
    if IsSwept(key, val) {
      ItemsSaySomething(val.items, true);
    } else {
      DroppedSaysSomething(val);
      DroppedShape(val);
    }
  }

  lemma {:induction false} ItemsSaySomething(items: seq<Json>, swept: bool)
    ensures forall x :: x in DroppedItems(items, swept) ==> SaysSomething(x)
    ensures swept ==> NoneEmpty(DroppedItems(items, swept))
    decreases items
  {
    hide DroppedItems, Dropped, SaysSomething;
    DroppedItemsAre(items, swept);
    forall i | 0 <= i < |items|
      ensures SaysSomething(Dropped(items[i])) && (IsEmpty(Dropped(items[i])) <==> IsEmpty(items[i]))
    {
      DroppedSaysSomething(items[i]);
      DroppedShape(items[i]);
    }
    forall k | 0 <= k < |DroppedItems(items, swept)|
      ensures swept ==> !IsEmpty(DroppedItems(items, swept)[k])
    {
      assert DroppedItems(items, swept)[k] in DroppedItems(items, swept);
    }
  }

  /** A value is left alone exactly when all of it says something. */
  lemma {:induction false} DroppedFixesIff(j: Json)
    ensures Dropped(j) == j <==> SaysSomething(j)
    decreases j, 1
  {
    if Dropped(j) == j {
      DroppedSaysSomething(j);
    } else if SaysSomething(j) {
      SayingIsKept(j);
    }
  }

  lemma {:induction false} SayingIsKept(j: Json)
    requires SaysSomething(j)
    ensures Dropped(j) == j
    decreases j
  {
    match j
    case Obj(fields) =>
      forall key | key in fields
        ensures Stays(fields, key)
        ensures (if IsSwept(key, fields[key]) then Arr(DroppedItems(fields[key].items, true)) else Dropped(fields[key])) == fields[key]
      {
        SayingFieldIsKept(j, key);
      }
      assert Dropped(j).fields == fields;
    case Arr(items) =>
      SayingItemsAreKept(items, false);
    case _ =>
  }

  lemma {:induction false} SayingFieldIsKept(j: Json, key: string)
    requires j.Obj? && SaysSomething(j) && key in j.fields
    ensures Stays(j.fields, key)
    ensures (if IsSwept(key, j.fields[key]) then Arr(DroppedItems(j.fields[key].items, true)) else Dropped(j.fields[key])) == j.fields[key]
    decreases j, 0
  {
    var val := j.fields[key];
    if IsSwept(key, val) {
      SayingItemsAreKept(val.items, true);
    } else {
      SayingIsKept(val);
    }
  }

  lemma {:induction false} SayingItemsAreKept(items: seq<Json>, swept: bool)
    requires (forall i :: 0 <= i < |items| ==> SaysSomething(items[i])) && (swept ==> NoneEmpty(items))
    ensures DroppedItems(items, swept) == items
    decreases items
  {
    hide Dropped, SaysSomething;
    if items != [] {
      SayingItemsAreKept(items[..|items| - 1], swept);
      SayingIsKept(items[|items| - 1]);
    }
  }

  lemma DropIsIdempotent(j: Json)
    ensures Dropped(Dropped(j)) == Dropped(j)
  {
    DroppedSaysSomething(j);
    DroppedFixesIff(Dropped(j));
  }

  // ----- Together -----

  lemma DropUnquoted(key: string, val: Json)
    ensures Dropped(Unquoted(key, val)) == Unquoted(key, Dropped(val))
  {
    hide ParseI64, IsIntKey;
    DroppedShape(val);
  }

  lemma KeysAreNotInts()
    ensures !IsIntKey("key") && !IsIntKey("value") && !IsIntKey("values")
  {
    assert |"intValue"| == 8 && |"asInt"| == 5 && |"values"| == 6;
  }

  /** The two passes can run in either order. */
  lemma {:induction false} PassesCommute(j: Json)
    ensures Dropped(Coerced(j)) == Coerced(Dropped(j))
    decreases j
  {
    match j
    case Obj(fields) =>
      var one, two := Dropped(Coerced(j)).fields, Coerced(Dropped(j)).fields;
      forall key
        ensures key in one <==> key in two
        ensures key in one ==> one[key] == two[key]
      {
        SameKeysStay(fields, key);
        if key in one {
          FieldsCommute(j, key);
        }
      }
      assert one == two;
    case Arr(items) =>
      ItemsCommute(items, false);
    case _ =>
  }

  lemma SameKeysStay(fields: map<string, Json>, key: string)
    ensures Stays(Coerced(Obj(fields)).fields, key) <==> Stays(fields, key)
  {
    KeysAreNotInts();
    if "value" in fields {
      CoercedShape(fields["value"]);
    }
  }

  lemma {:induction false} FieldsCommute(j: Json, key: string)
    requires j.Obj? && key in j.fields && Stays(j.fields, key) && Stays(Coerced(j).fields, key)
    ensures Dropped(Coerced(j)).fields[key] == Coerced(Dropped(j)).fields[key]
    decreases j, 0
  {
    hide ParseI64, IsIntKey, DroppedItems, CoercedItems, IsEmpty;
    KeysAreNotInts();
    var val := j.fields[key];
    CoercedShape(val);
    if IsSwept(key, val) {
      ItemsCommute(val.items, true);
    } else {
      PassesCommute(val);
      DropUnquoted(key, Coerced(val));
    }
  }

  lemma {:induction false} ItemsCommute(items: seq<Json>, swept: bool)
    ensures DroppedItems(CoercedItems(items), swept) == CoercedItems(DroppedItems(items, swept))
    decreases items
  {
    hide Dropped, Coerced;
    if items != [] {
      var front, last := items[..|items| - 1], items[|items| - 1];
      ItemsCommute(front, swept);
      PassesCommute(last);
      CoercedShape(last);
      assert CoercedItems(items)[..|items| - 1] == CoercedItems(front);
      if !(swept && IsEmpty(last)) {
        CoercedAppends(DroppedItems(front, swept), Dropped(last));
      } else {
        assert DroppedItems(items, swept) == DroppedItems(front, swept);
      }
    }
  }

  lemma CoercedAppends(items: seq<Json>, item: Json)
    ensures CoercedItems(items + [item]) == CoercedItems(items) + [Coerced(item)]
  {
    hide Coerced;
    assert (items + [item])[..|items|] == items;
  }

  /** What reaches the deserializer has its integers as numbers and no value that says nothing, and stays so. */
  lemma DecodedIsReady(j: Json)
    ensures var decoded := Dropped(Coerced(j));
            && IntsAreNumbers(decoded) && SaysSomething(decoded)
            && Dropped(decoded) == decoded && Coerced(decoded) == decoded
            && (decoded == j <==> IntsAreNumbers(j) && SaysSomething(j))
  {
    hide *;
    PassesCommute(j);
    DroppedSaysSomething(Coerced(j));
    CoercedIsDone(Dropped(j));
    DroppedFixesIff(Dropped(Coerced(j)));
    CoercedFixesIff(Dropped(Coerced(j)));
    CoercedFixesIff(j);
    DroppedFixesIff(j);
  }

  // ----- The passes as they run -----

  /** Rewrites the entries of objects and the elements of arrays where they stand. */
  method CoerceInts(value: Json) returns (r: Json)
    ensures r == Coerced(value)
    decreases value
  {
    hide ParseI64, IsIntKey;
    match value
    case Obj(fields) =>
      var entries, left := fields, fields.Keys;
      while left != {}
        invariant left <= fields.Keys && entries.Keys == fields.Keys
        invariant forall key :: key in left ==> entries[key] == fields[key]
        invariant forall key :: key in fields && key !in left ==> entries[key] == Unquoted(key, Coerced(fields[key]))
        decreases left
      {
        var key :| key in left;
        CoercedShape(fields[key]);
        var val := entries[key];
        if IsIntKey(key) && val.Str? && ParseI64(val.s).Some? {
          val := Int(ParseI64(val.s).value);
        } else {
          val := CoerceInts(val);
        }
        entries := entries[key := val];
        left := left - {key};
      }
      r := Obj(entries);
      assert entries == Coerced(value).fields;
    case Arr(items) =>
      var done := items;
      for i := 0 to |items|
        invariant |done| == |items|
        invariant forall k :: 0 <= k < i ==> done[k] == Coerced(items[k])
        invariant forall k :: i <= k < |items| ==> done[k] == items[k]
      {
        var item := CoerceInts(done[i]);
        done := done[i := item];
      }
      assert done == CoercedItems(items);
      r := Arr(done);
    case _ =>
      r := value;
  }

  /** Keeps the elements of an array that say something, in place of the closure's `retain`. */
  method Retain(items: seq<Json>) returns (kept: seq<Json>)
    ensures forall x :: x in kept ==> x in items
    ensures AllDropped(kept) == DroppedItems(items, true)
  {
    hide Dropped;
    kept := [];
    assert items[..0] == [] && items[..|items|] == items;
    for i := 0 to |items|
      invariant forall x :: x in kept ==> x in items
      invariant AllDropped(kept) == DroppedItems(items[..i], true)
    {
      assert items[..i + 1][..i] == items[..i];
      if !IsEmpty(items[i]) {
        assert (kept + [items[i]])[..|kept|] == kept;
        kept := kept + [items[i]];
      }
    }
  }

  function AllDropped(items: seq<Json>): seq<Json> { DroppedItems(items, false) }

  lemma DroppedIs(fields: map<string, Json>, entries: map<string, Json>)
    requires forall key :: key in entries <==> key in fields && Stays(fields, key)
    requires forall key :: key in entries ==>
               entries[key] == (if IsSwept(key, fields[key]) then Arr(DroppedItems(fields[key].items, true))
                                else Dropped(fields[key]))
    ensures Dropped(Obj(fields)) == Obj(entries)
  {
    hide DroppedItems, IsEmpty, Stays;
    assert Dropped(Obj(fields)).fields == entries;
  }

  lemma DroppedFlat(j: Json)
    requires !j.Obj?
    ensures Dropped(j) == if j.Arr? then Arr(AllDropped(j.items)) else j
  {
  }

  method DropEmptyAnyValues(value: Json) returns (r: Json)
    ensures r == Dropped(value)
    decreases value, 1
  {
    hide DroppedItems, IsEmpty, Dropped;
    match value
    case Obj(fields) =>
      var entries := fields;
      if "key" in entries && "value" in entries && IsEmpty(entries["value"]) {
        entries := entries - {"value"};
      }
      assert forall key :: key in entries <==> key in fields && Stays(fields, key);
      ghost var start := entries;
      var left := entries.Keys;
      while left != {}
        invariant left <= start.Keys && entries.Keys == start.Keys
        invariant forall key :: key in left ==> entries[key] == fields[key]
        invariant forall key :: key in start && key !in left ==>
                    entries[key] == (if IsSwept(key, fields[key]) then Arr(DroppedItems(fields[key].items, true))
                                     else Dropped(fields[key]))
        decreases left
      {
        var key :| key in left;
        var val := entries[key];
        var after;
        if key == "values" && val.Arr? {
          var kept := Retain(val.items);
          after := DropElements(val, kept);
        } else {
          after := DropEmptyAnyValues(val);
        }
        entries := entries[key := after];
        left := left - {key};
      }
      DroppedIs(fields, entries);
      r := Obj(entries);
    case Arr(items) =>
      DroppedFlat(value);
      r := DropElements(value, items);
    case _ =>
      DroppedFlat(value);
      r := value;
  }

  /** The pass over the elements an array has left. */
  method DropElements(val: Json, kept: seq<Json>) returns (r: Json)
    requires val.Arr? && forall x :: x in kept ==> x in val.items
    ensures r == Arr(AllDropped(kept))
    decreases val, 0
  {
    DroppedItemsAre(kept, false);
    var done := kept;
    for i := 0 to |kept|
      invariant |done| == |kept|
      invariant forall k :: 0 <= k < i ==> done[k] == Dropped(kept[k])
      invariant forall k :: i <= k < |kept| ==> done[k] == kept[k]
    {
      assert kept[i] in val.items;
      var item := DropEmptyAnyValues(done[i]);
      done := done[i := item];
    }
    assert done == DroppedItems(kept, false);
    r := Arr(done);
  }

  /** Both passes, as a body is decoded. */
  method Prepare(body: Json) returns (value: Json)
    ensures value == Dropped(Coerced(body))
  {
    value := CoerceInts(body);
    value := DropEmptyAnyValues(value);
  }
}
