/** The protocol calls of Thrift as tokens, values as trees, and skipping. */
module Thrift {
  import opened Domain

  datatype Type = BOOL | BYTE | I16 | I32 | I64 | DOUBLE | STRING | STRUCT | LIST | SET | MAP

  datatype Token =
    | StructBegin | StructEnd | FieldBegin(ty: Type, id: int) | FieldEnd | FieldStop
    | Whole(wholeType: Type, n: int) | Double(d: real) | Text(s: string)
    | ItemsBegin(itemsType: Type, elem: Type, size: nat) | ItemsEnd
    | MapBegin(keyType: Type, valueType: Type, size: nat) | MapEnd
    | MessageEnd

  datatype Value =
    | VWhole(wholeType: Type, n: int)
    | VDouble(d: real)
    | VText(s: string)
    | VStruct(fields: seq<Field>)
    | VItems(itemsType: Type, elem: Type, items: seq<Value>)
    | VMap(keyType: Type, valueType: Type, entries: seq<Entry>)

  datatype Field = Field(id: int, value: Value)

  datatype Entry = Entry(key: Value, val: Value)

  predicate IsWhole(ty: Type) {
    ty == BOOL || ty == BYTE || ty == I16 || ty == I32 || ty == I64
  }

  function TypeOf(v: Value): Type {
    match v
    case VWhole(ty, _) => ty
    case VDouble(_) => DOUBLE
    case VText(_) => STRING
    case VStruct(_) => STRUCT
    case VItems(ty, _, _) => ty
    case VMap(_, _, _) => MAP
  }

  /** Elements have the types their container announces. */
  predicate WellTyped(v: Value) {
    match v
    case VWhole(ty, _) => IsWhole(ty)
    case VStruct(fields) => forall f :: f in fields ==> WellTyped(f.value)
    case VItems(ty, elem, items) =>
      (ty == LIST || ty == SET) && forall x :: x in items ==> TypeOf(x) == elem && WellTyped(x)
    case VMap(k, w, entries) =>
      forall e :: e in entries ==> TypeOf(e.key) == k && TypeOf(e.val) == w && WellTyped(e.key) && WellTyped(e.val)
    case _ => true
  }

  /** The value nests at most `depth` deep; a scalar is one deep. */
  predicate Shallow(v: Value, depth: nat)
    decreases depth, 0
  {
    depth > 0 &&
    match v
    case VStruct(fields) => FieldsShallow(fields, depth - 1)
    case VItems(_, _, items) => ItemsShallow(items, depth - 1)
    case VMap(_, _, entries) => EntriesShallow(entries, depth - 1)
    case _ => true
  }

  predicate FieldsShallow(fields: seq<Field>, depth: nat)
    decreases depth, 1
  {
    forall f :: f in fields ==> Shallow(f.value, depth)
  }

  predicate ItemsShallow(items: seq<Value>, depth: nat)
    decreases depth, 1
  {
    forall x :: x in items ==> Shallow(x, depth)
  }

  predicate EntriesShallow(entries: seq<Entry>, depth: nat)
    decreases depth, 1
  {
    forall e :: e in entries ==> Shallow(e.key, depth) && Shallow(e.val, depth)
  }

  // ---------- Encoding ----------

  function Encode(v: Value): seq<Token>
    decreases v
  {
    match v
    case VWhole(ty, n) => [Whole(ty, n)]
    case VDouble(d) => [Double(d)]
    case VText(s) => [Text(s)]
    case VStruct(fields) => [StructBegin] + EncodeFields(fields) + [FieldStop, StructEnd]
    case VItems(ty, elem, items) => [ItemsBegin(ty, elem, |items|)] + EncodeItems(items) + [ItemsEnd]
    case VMap(k, w, entries) => [MapBegin(k, w, |entries|)] + EncodeEntries(entries) + [MapEnd]
  }

  function EncodeField(f: Field): seq<Token>
    decreases f
  {
    [FieldBegin(TypeOf(f.value), f.id)] + Encode(f.value) + [FieldEnd]
  }

  function EncodeFields(fields: seq<Field>): seq<Token>
    decreases fields
  {
    if fields == [] then [] else EncodeField(fields[0]) + EncodeFields(fields[1..])
  }

  function EncodeItems(items: seq<Value>): seq<Token>
    decreases items
  {
    if items == [] then [] else Encode(items[0]) + EncodeItems(items[1..])
  }

  function EncodeEntry(e: Entry): seq<Token>
    decreases e
  {
    Encode(e.key) + Encode(e.val)
  }

  function EncodeEntries(entries: seq<Entry>): seq<Token>
    decreases entries
  {
    if entries == [] then [] else EncodeEntry(entries[0]) + EncodeEntries(entries[1..])
  }

  // ---------- Skipping ----------

  /** Read one given token. */
  function Expect(ts: Option<seq<Token>>, tok: Token): (r: Option<seq<Token>>)
    ensures r.Some? ==> ts.Some? && |r.value| < |ts.value|
  {
    if ts.Some? && ts.value != [] && ts.value[0] == tok then Some(ts.value[1..]) else None
  }

  function SkipScalar(ts: seq<Token>, ty: Type): (r: Option<seq<Token>>)
    ensures r.Some? ==> |r.value| < |ts|
  {
    if ts == [] then None
    else if (ty == DOUBLE && ts[0].Double?) || (ty == STRING && ts[0].Text?)
         || (IsWhole(ty) && ts[0].Whole? && ts[0].wholeType == ty)
    then Some(ts[1..])
    else None
  }

  /** What is left after skipping one value of type `ty`, nested at most `depth` deep. */
  function Skip(ts: seq<Token>, ty: Type, depth: nat): (r: Option<seq<Token>>)
    ensures r.Some? ==> |r.value| < |ts|
    decreases |ts|, 0
  {
    if depth == 0 || ts == [] then None
    else if ty == STRUCT then (if ts[0].StructBegin? then SkipFields(ts[1..], depth - 1) else None)
    else if ty == MAP then
      (if ts[0].MapBegin?
       then Expect(SkipEntries(ts[1..], ts[0].keyType, ts[0].valueType, ts[0].size, depth - 1), MapEnd)
       else None)
    else if ty == LIST || ty == SET then
      (if ts[0].ItemsBegin? && ts[0].itemsType == ty
       then Expect(SkipItems(ts[1..], ts[0].elem, ts[0].size, depth - 1), ItemsEnd)
       else None)
    else SkipScalar(ts, ty)
  }

  function SkipFields(ts: seq<Token>, depth: nat): (r: Option<seq<Token>>)
    ensures r.Some? ==> |r.value| < |ts|
    decreases |ts|, 1
  {
    if ts == [] then None
    else if ts[0].FieldStop? then Expect(Some(ts[1..]), StructEnd)
    else if ts[0].FieldBegin? then
      var r := Expect(Skip(ts[1..], ts[0].ty, depth), FieldEnd);
      if r.None? then None else SkipFields(r.value, depth)
    else None
  }

  function SkipItems(ts: seq<Token>, elem: Type, n: nat, depth: nat): (r: Option<seq<Token>>)
    ensures r.Some? ==> |r.value| <= |ts|
    decreases |ts|, 1
  {
    if n == 0 then Some(ts)
    else
      var r := Skip(ts, elem, depth);
      if r.None? then None else SkipItems(r.value, elem, n - 1, depth)
  }

  function SkipEntries(ts: seq<Token>, k: Type, w: Type, n: nat, depth: nat): (r: Option<seq<Token>>)
    ensures r.Some? ==> |r.value| <= |ts|
    decreases |ts|, 1
  {
    if n == 0 then Some(ts)
    else
      var r := Skip(ts, k, depth);
      if r.None? then None
      else
        var r' := Skip(r.value, w, depth);
        if r'.None? then None else SkipEntries(r'.value, k, w, n - 1, depth)
  }

  lemma Tail(tok: Token, rest: seq<Token>)
    ensures ([tok] + rest)[1..] == rest
  {
  }

  lemma Regroup(a: seq<Token>, b: seq<Token>, c: seq<Token>)
    ensures (a + b) + c == a + (b + c)
  {
  }

  const Stop: seq<Token> := [FieldStop, StructEnd]

  lemma StopThen(rest: seq<Token>)
    ensures Stop + rest == [FieldStop] + ([StructEnd] + rest)
    ensures (Stop + rest)[1..] == [StructEnd] + rest && ([StructEnd] + rest)[1..] == rest
  {
  }

  /** A field in front of `rest`, taken apart. */
  lemma FieldThen(f: Field, rest: seq<Token>)
    ensures var ts := EncodeField(f) + rest;
            && ts != [] && ts[0] == FieldBegin(TypeOf(f.value), f.id)
            && ts[1..] == Encode(f.value) + ([FieldEnd] + rest)
            && ([FieldEnd] + rest)[1..] == rest
  {
  }

  /** Containers likewise. */
  lemma StructThen(fields: seq<Field>, rest: seq<Token>)
    ensures var ts := Encode(VStruct(fields)) + rest;
            ts != [] && ts[0] == StructBegin && ts[1..] == EncodeFields(fields) + (Stop + rest)
  {
    var inner := EncodeFields(fields) + (Stop + rest);
    assert Encode(VStruct(fields)) + rest == [StructBegin] + inner;
    Tail(StructBegin, inner);
  }

  lemma ItemsThen(v: Value, rest: seq<Token>)
    requires v.VItems?
    ensures var ts := Encode(v) + rest;
            && ts != [] && ts[0] == ItemsBegin(v.itemsType, v.elem, |v.items|)
            && ts[1..] == EncodeItems(v.items) + ([ItemsEnd] + rest)
  {
    var inner := EncodeItems(v.items) + ([ItemsEnd] + rest);
    assert Encode(v) + rest == [ItemsBegin(v.itemsType, v.elem, |v.items|)] + inner;
    Tail(ItemsBegin(v.itemsType, v.elem, |v.items|), inner);
  }

  lemma MapThen(k: Type, w: Type, entries: seq<Entry>, rest: seq<Token>)
    ensures Encode(VMap(k, w, entries)) + rest ==
            [MapBegin(k, w, |entries|)] + (EncodeEntries(entries) + ([MapEnd] + rest))
  {
    Regroup([MapBegin(k, w, |entries|)] + EncodeEntries(entries), [MapEnd], rest);
    Regroup([MapBegin(k, w, |entries|)], EncodeEntries(entries), [MapEnd] + rest);
  }

  lemma {:induction false} FieldsShallowNext(fields: seq<Field>, depth: nat)
    requires fields != []
    ensures FieldsShallow(fields, depth) <==> Shallow(fields[0].value, depth) && FieldsShallow(fields[1..], depth)
  {
    assert fields == [fields[0]] + fields[1..];
  }

  lemma {:induction false} ItemsShallowNext(items: seq<Value>, depth: nat)
    requires items != []
    ensures ItemsShallow(items, depth) <==> Shallow(items[0], depth) && ItemsShallow(items[1..], depth)
  {
    assert items == [items[0]] + items[1..];
  }

  lemma {:induction false} EntriesShallowNext(entries: seq<Entry>, depth: nat)
    requires entries != []
    ensures EntriesShallow(entries, depth) <==>
            Shallow(entries[0].key, depth) && Shallow(entries[0].val, depth) && EntriesShallow(entries[1..], depth)
  {
    assert entries == [entries[0]] + entries[1..];
  }

  /** How deep the protocol library's own skip goes. */
  const SkipDepth: nat := 64

  /** A value the reader can skip. */
  predicate Skippable(v: Value) {
    WellTyped(v) && Shallow(v, 64)
  }

  function SomeIf(ok: bool, rest: seq<Token>): Option<seq<Token>> {
    if ok then Some(rest) else None
  }

  /** Skipping undoes encoding: it consumes exactly one well-typed value, or fails exactly when the value is
      nested too deep. */
  lemma {:induction false} SkipEncoded(v: Value, rest: seq<Token>, depth: nat)
    requires WellTyped(v)
    ensures Skip(Encode(v) + rest, TypeOf(v), depth) == SomeIf(Shallow(v, depth), rest)
    decreases v, 1
  {
    if depth > 0 {
      match v
      case VStruct(fields) => SkipEncodedStruct(v, rest, depth);
      case VItems(_, _, _) => SkipEncodedSequence(v, rest, depth);
      case VMap(_, _, _) => SkipEncodedMap(v, rest, depth);
      case _ => Tail(Encode(v)[0], rest);
    }
  }

  lemma {:induction false} SkipEncodedStruct(v: Value, rest: seq<Token>, depth: nat)
    requires v.VStruct? && WellTyped(v) && depth > 0
    ensures Skip(Encode(v) + rest, STRUCT, depth) == SomeIf(Shallow(v, depth), rest)
    decreases v, 0
  {
    StructThen(v.fields, rest);
    SkipEncodedFields(v.fields, rest, depth - 1);
  }

  lemma {:induction false} SkipEncodedSequence(v: Value, rest: seq<Token>, depth: nat)
    requires v.VItems? && WellTyped(v) && depth > 0
    ensures Skip(Encode(v) + rest, v.itemsType, depth) == SomeIf(Shallow(v, depth), rest)
    decreases v, 0
  {
    ItemsThen(v, rest);
    SkipEncodedItems(v.items, v.elem, [ItemsEnd] + rest, depth - 1);
    Tail(ItemsEnd, rest);
  }

  lemma {:induction false} SkipMap(first: Token, inner: seq<Token>, rest: seq<Token>, depth: nat, ok: bool)
    requires first.MapBegin? && depth > 0
    requires SkipEntries(inner, first.keyType, first.valueType, first.size, depth - 1) == SomeIf(ok, [MapEnd] + rest)
    ensures Skip([first] + inner, MAP, depth) == SomeIf(ok, rest)
  {
    Tail(first, inner);
    Tail(MapEnd, rest);
  }

  lemma {:induction false} SkipEncodedMap(v: Value, rest: seq<Token>, depth: nat)
    requires v.VMap? && WellTyped(v) && depth > 0
    ensures Skip(Encode(v) + rest, MAP, depth) == SomeIf(Shallow(v, depth), rest)
    decreases v, 0
  {
    var first, inner := MapBegin(v.keyType, v.valueType, |v.entries|), EncodeEntries(v.entries) + ([MapEnd] + rest);
    SkipEncodedEntries(v.entries, v.keyType, v.valueType, [MapEnd] + rest, depth - 1);
    SkipMap(first, inner, rest, depth, EntriesShallow(v.entries, depth - 1));
    MapThen(v.keyType, v.valueType, v.entries, rest);
  }

  /** The same for the body of a field, up to and including its end. */
  lemma {:induction false} SkipEncodedField(f: Field, rest: seq<Token>, depth: nat)
    requires WellTyped(f.value)
    ensures Expect(Skip(Encode(f.value) + ([FieldEnd] + rest), TypeOf(f.value), depth), FieldEnd) ==
            SomeIf(Shallow(f.value, depth), rest)
    decreases f
  {
    SkipEncoded(f.value, [FieldEnd] + rest, depth);
    Tail(FieldEnd, rest);
  }

  lemma {:induction false} SkipEncodedFields(fields: seq<Field>, rest: seq<Token>, depth: nat)
    requires forall f :: f in fields ==> WellTyped(f.value)
    ensures SkipFields(EncodeFields(fields) + (Stop + rest), depth) ==
            SomeIf(FieldsShallow(fields, depth), rest)
    decreases fields
  {
    StopThen(rest);
    if fields == [] {
      assert EncodeFields(fields) + (Stop + rest) == Stop + rest;
    } else {
      var f, tail := fields[0], EncodeFields(fields[1..]) + (Stop + rest);
      assert f in fields;
      FieldsShallowNext(fields, depth);
      assert EncodeFields(fields) + (Stop + rest) == EncodeField(f) + tail;
      FieldThen(f, tail);
      SkipEncodedField(f, tail, depth);
      SkipEncodedFields(fields[1..], rest, depth);
    }
  }

  lemma {:induction false} SkipEncodedItems(items: seq<Value>, elem: Type, rest: seq<Token>, depth: nat)
    requires forall x :: x in items ==> TypeOf(x) == elem && WellTyped(x)
    ensures SkipItems(EncodeItems(items) + rest, elem, |items|, depth) ==
            SomeIf(ItemsShallow(items, depth), rest)
    decreases items
  {
    if items == [] {
      assert EncodeItems(items) + rest == rest;
    } else {
      var tail := EncodeItems(items[1..]) + rest;
      assert items[0] in items;
      ItemsShallowNext(items, depth);
      SkipEncoded(items[0], tail, depth);
      Regroup(Encode(items[0]), EncodeItems(items[1..]), rest);
      SkipEncodedItems(items[1..], elem, rest, depth);
    }
  }

  lemma {:induction false} SkipEncodedEntry(e: Entry, rest: seq<Token>, depth: nat)
    requires WellTyped(e.key) && WellTyped(e.val)
    ensures var r := Skip(EncodeEntry(e) + rest, TypeOf(e.key), depth);
            && (r.Some? <==> Shallow(e.key, depth))
            && (r.Some? ==> Skip(r.value, TypeOf(e.val), depth) == SomeIf(Shallow(e.val, depth), rest))
    decreases e
  {
    SkipEncoded(e.key, Encode(e.val) + rest, depth);
    SkipEncoded(e.val, rest, depth);
    assert EncodeEntry(e) + rest == Encode(e.key) + (Encode(e.val) + rest);
  }

  lemma {:induction false} SkipEncodedEntries(entries: seq<Entry>, k: Type, w: Type, rest: seq<Token>, depth: nat)
    requires forall e :: e in entries ==>
               TypeOf(e.key) == k && TypeOf(e.val) == w && WellTyped(e.key) && WellTyped(e.val)
    ensures SkipEntries(EncodeEntries(entries) + rest, k, w, |entries|, depth) ==
            SomeIf(EntriesShallow(entries, depth), rest)
    decreases entries
  {
    if entries == [] {
      assert EncodeEntries(entries) + rest == rest;
    } else {
      var tail := EncodeEntries(entries[1..]) + rest;
      assert entries[0] in entries;
      EntriesShallowNext(entries, depth);
      SkipEncodedEntry(entries[0], tail, depth);
      Regroup(EncodeEntry(entries[0]), EncodeEntries(entries[1..]), rest);
      SkipEncodedEntries(entries[1..], k, w, rest, depth);
    }
  }
}
