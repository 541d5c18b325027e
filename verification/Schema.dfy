/** The JSON schemas the server publishes for the arguments of its tools
    (services/rust-mcp/src/actions.rs, `schema_for` and `tool`), read by the rules of JSON Schema
    Validation 2020-12, against what the server accepts (services/rust-mcp/src/server.rs, `validate`). */
module Schemas {
  import opened Prelude
  import opened Translate

  // ------------------------------------------------------------------------ schemas

  datatype Type = NullType | BooleanType | IntegerType | NumberType | StringType | ArrayType | ObjectType

  datatype Schema = Schema(
    types: seq<Type>,
    values: Option<seq<Json>>,         // `enum`
    minLength: nat,
    maxLength: Option<nat>,
    visible: bool,                     // the pattern that admits neither C0 controls nor DEL
    minimum: Option<real>,
    maximum: Option<real>,
    minItems: nat,
    maxItems: Option<nat>,
    uniqueItems: bool,
    items: Option<Schema>,
    properties: seq<(string, Schema)>,
    required: seq<string>,
    closed: bool                       // `additionalProperties` is false
  )

  /** A schema that asks for nothing but a type. */
  function Typed(types: seq<Type>): Schema {
    Schema(types, None, 0, None, false, None, None, 0, None, false, None, [], [], false)
  }

  function Ranged(types: seq<Type>, least: real, most: Option<real>): Schema {
    Typed(types).(minimum := Some(least), maximum := most)
  }

  function Bound(max: Option<int>): Option<real> {
    match max case None => None case Some(n) => Some(n as real)
  }

  function Texts(values: seq<string>): (r: seq<Json>)
    ensures |r| == |values| && forall i :: 0 <= i < |r| ==> r[i] == Text(values[i])
  {
    seq(|values|, i requires 0 <= i < |values| => Text(values[i]))
  }

  function IntegerIn(low: int, high: int): Schema {
    Ranged([IntegerType], low as real, Some(high as real))
  }

  /** The members of a MIDI message and their bounds. */
  const MIDI_FIELDS: seq<(string, int, int)> :=
    [("type", 1, 3), ("channel", 1, 16), ("param1", 0, 127), ("param2", 0, 127), ("param3", 0, 127)]

  function MidiSchema(): Schema {
    Typed([ObjectType]).(
      properties := seq(5, i requires 0 <= i < 5 =>
                          (MIDI_FIELDS[i].0, IntegerIn(MIDI_FIELDS[i].1, MIDI_FIELDS[i].2))),
      required := seq(5, i requires 0 <= i < 5 => MIDI_FIELDS[i].0), closed := true)
  }

  /** `schema_for`. */
  function SchemaFor(kind: Kind): Schema {
    match kind
    case AnyString => Typed([StringType]).(minLength := 1)
    case VisibleString(maxChars) => Typed([StringType]).(minLength := 1, maxLength := Some(maxChars), visible := true)
    case NullableString => Typed([StringType, NullType])
    case NullableInteger(min, max) => Ranged([IntegerType, NullType], min as real, Bound(max))
    case NullableBoolean => Typed([BooleanType, NullType])
    case NullableNumber(least, most) => Ranged([NumberType, NullType], least, most)
    case NullableStringEnum(values) => Typed([StringType, NullType]).(values := Some(Texts(values) + [Null]))
    case NullableStringArray(maxItems, values) =>
      Typed([ArrayType, NullType]).(
        maxItems := Some(maxItems), items := Some(Typed([StringType]).(values := Some(Texts(values)))))
    case Boolean => Typed([BooleanType])
    case Integer(min, max) => Ranged([IntegerType], min as real, Bound(max))
    case Number(least, most) => Ranged([NumberType], least, most)
    case MidiMessages => Typed([ArrayType]).(maxItems := Some(12), items := Some(MidiSchema()))
    case StringEnum(values) => Typed([StringType]).(values := Some(Texts(values)))
    case BooleanRows => Typed([ArrayType]).(minItems := 4, maxItems := Some(4), items := Some(Typed([BooleanType])))
    case IntegerArray(low, high, minItems, maxItems, unique) =>
      Typed([ArrayType]).(
        minItems := minItems, maxItems := Some(maxItems), uniqueItems := unique, items := Some(IntegerIn(low, high)))
  }

  /** The input schema of a tool. */
  function ToolSchema(spec: ActionSpec): Schema {
    Typed([ObjectType]).(
      properties := seq(|spec.properties|, i requires 0 <= i < |spec.properties| =>
                          (spec.properties[i].name, SchemaFor(spec.properties[i].kind))),
      required := RequiredNames(spec.properties), closed := true)
  }

  function RequiredNames(properties: seq<Property>): seq<string> {
    if properties == [] then []
    else
      var p := properties[|properties| - 1];
      RequiredNames(properties[..|properties| - 1]) + (if p.required then [p.name] else [])
  }

  // ---------------------------------------------------------------------- conformance

  /** A number with no fractional part is an integer, however it is written. */
  predicate HasType(t: Type, v: Json) {
    match t
    case NullType => v.Null?
    case BooleanType => v.Bool?
    case IntegerType => v.Whole? || (v.Fraction? && v.x.Floor as real == v.x)
    case NumberType => v.Whole? || v.Fraction?
    case StringType => v.Text?
    case ArrayType => v.Array?
    case ObjectType => v.Object?
  }

  predicate Visible(s: string) {
    forall i :: 0 <= i < |s| ==> s[i] > '\U{001F}' && s[i] != '\U{007F}'
  }

  /** Numbers are equal by value. */
  predicate Same(a: Json, b: Json) {
    if AsNumber(a).Some? then AsNumber(a) == AsNumber(b) else a == b
  }

  predicate Conforms(s: Schema, v: Json)
    decreases s, 1
  {
    OfTypes(s.types, v) && ScalarConforms(s, v) && ItemsConform(s, v) && MembersConform(s, v)
  }

  predicate OfTypes(types: seq<Type>, v: Json) {
    exists t :: t in types && HasType(t, v)
  }

  predicate ScalarConforms(s: Schema, v: Json) {
    && (s.values.Some? ==> v in s.values.value)
    && (v.Text? ==>
          && s.minLength <= |v.s| && (s.maxLength.Some? ==> |v.s| <= s.maxLength.value)
          && (s.visible ==> Visible(v.s)))
    && (AsNumber(v).Some? ==>
          && (s.minimum.Some? ==> s.minimum.value <= AsNumber(v).value)
          && (s.maximum.Some? ==> AsNumber(v).value <= s.maximum.value))
  }

  predicate ItemsConform(s: Schema, v: Json)
    decreases s, 0
  {
    v.Array? ==>
      && s.minItems <= |v.items| && (s.maxItems.Some? ==> |v.items| <= s.maxItems.value)
      && (s.uniqueItems ==> forall i, j :: 0 <= i < j < |v.items| ==> !Same(v.items[i], v.items[j]))
      && (s.items.Some? ==> forall i :: 0 <= i < |v.items| ==> Conforms(s.items.value, v.items[i]))
  }

  predicate MembersConform(s: Schema, v: Json)
    decreases s, 0
  {
    v.Object? ==>
      && (forall i :: 0 <= i < |s.required| ==> Get(v.fields, s.required[i]).Some?)
      && (forall i :: 0 <= i < |s.properties| ==>
            Get(v.fields, s.properties[i].0).Some? ==>
              Conforms(s.properties[i].1, Get(v.fields, s.properties[i].0).value))
      && (s.closed ==> forall j :: 0 <= j < |v.fields| ==>
            exists i :: 0 <= i < |s.properties| && s.properties[i].0 == v.fields[j].key)
  }

  // ------------------------------------------------------------------------- theorems

  /** No object in the value holds a key twice. */
  predicate Proper(v: Json) {
    match v
    case Array(items) => forall i :: 0 <= i < |items| ==> Proper(items[i])
    case Object(fields) => Distinct(fields) && forall i :: 0 <= i < |fields| ==> Proper(fields[i].value)
    case _ => true
  }

  /** A number, if it is one, that is held as a signed 64-bit integer. */
  predicate Machine(v: Json) {
    AsNumber(v).Some? ==> v.Whole? && -0x8000_0000_0000_0000 <= v.n < 0x8000_0000_0000_0000
  }

  /** What the server asks of a value beyond its schema: text that is not all white space and, where it is
      to be visible, holds no C1 control; and integers held as signed 64-bit integers. */
  predicate Plain(kind: Kind, v: Json) {
    match kind
    case AnyString => v.Text? ==> !Blank(v.s)
    case VisibleString(_) =>
      v.Text? ==> !Blank(v.s) && forall i :: 0 <= i < |v.s| ==> !('\U{0080}' <= v.s[i] <= '\U{009F}')
    case NullableInteger(_, _) => Machine(v)
    case Integer(_, _) => Machine(v)
    case IntegerArray(_, _, _, _, _) => v.Array? ==> forall i :: 0 <= i < |v.items| ==> Machine(v.items[i])
    case MidiMessages =>
      v.Array? ==> forall i :: 0 <= i < |v.items| && v.items[i].Object? ==>
                     forall j :: 0 <= j < |v.items[i].fields| ==> Machine(v.items[i].fields[j].value)
    case _ => true
  }

  /** The server takes a value exactly if it conforms to the schema published for its kind and is plain. */
  lemma FitsIffConforms(kind: Kind, v: Json)
    requires Proper(v)
    ensures Fits(kind, v) <==> Conforms(SchemaFor(kind), v) && Plain(kind, v)
  {
    hide Get, HasType, OfTypes, ScalarConforms, ItemsConform, MembersConform, MidiSchema;
    match kind
    case AnyString => StringKinds(kind, v);
    case VisibleString(_) => StringKinds(kind, v);
    case NullableString => TypedConforms([StringType, NullType], v);
    case NullableBoolean => TypedConforms([BooleanType, NullType], v);
    case Boolean => TypedConforms([BooleanType], v);
    case NullableStringEnum(values) => EnumKinds(kind, v);
    case StringEnum(values) => EnumKinds(kind, v);
    case NullableInteger(min, max) => RangedConforms([IntegerType, NullType], min as real, Bound(max), v);
    case Integer(min, max) => RangedConforms([IntegerType], min as real, Bound(max), v);
    case NullableNumber(least, most) => RangedConforms([NumberType, NullType], least, most, v);
    case Number(least, most) => RangedConforms([NumberType], least, most, v);
    case NullableStringArray(_, _) => TextArrays(kind, v);
    case BooleanRows => BooleanArrays(v);
    case IntegerArray(_, _, _, _, _) => IntegerArrays(kind, v);
    case MidiMessages => MidiArrays(v);
  }

  lemma TypedConforms(types: seq<Type>, v: Json)
    ensures Conforms(Typed(types), v) <==> OfTypes(types, v)
    ensures OfTypes([StringType, NullType], v) <==> v.Text? || v.Null?
    ensures OfTypes([BooleanType, NullType], v) <==> v.Bool? || v.Null?
    ensures OfTypes([BooleanType], v) <==> v.Bool?
  {
    OneType(v);
    hide HasType, OfTypes, Get;
  }

  lemma OneType(v: Json)
    ensures forall t :: OfTypes([t], v) <==> HasType(t, v)
    ensures forall t, u :: OfTypes([t, u], v) <==> HasType(t, v) || HasType(u, v)
    ensures HasType(StringType, v) <==> v.Text?
    ensures HasType(NullType, v) <==> v.Null?
    ensures HasType(BooleanType, v) <==> v.Bool?
    ensures HasType(ArrayType, v) <==> v.Array?
    ensures HasType(ObjectType, v) <==> v.Object?
    ensures HasType(NumberType, v) <==> AsNumber(v).Some?
    ensures v.Whole? ==> HasType(IntegerType, v)
    ensures HasType(IntegerType, v) ==> AsNumber(v).Some?
  {
    forall t ensures OfTypes([t], v) <==> HasType(t, v) {
      if HasType(t, v) { assert t in [t]; }
    }
    forall t, u ensures OfTypes([t, u], v) <==> HasType(t, v) || HasType(u, v) {
      if HasType(t, v) { assert t in [t, u]; }
      if HasType(u, v) { assert u in [t, u]; }
    }
  }

  lemma RangedConforms(types: seq<Type>, least: real, most: Option<real>, v: Json)
    ensures Conforms(Ranged(types, least, most), v) <==>
            && OfTypes(types, v)
            && (AsNumber(v).Some? ==>
                  least <= AsNumber(v).value && (most.Some? ==> AsNumber(v).value <= most.value))
    ensures OfTypes([IntegerType], v) <==> HasType(IntegerType, v)
    ensures OfTypes([IntegerType, NullType], v) <==> HasType(IntegerType, v) || v.Null?
    ensures OfTypes([NumberType], v) <==> AsNumber(v).Some?
    ensures OfTypes([NumberType, NullType], v) <==> AsNumber(v).Some? || v.Null?
    ensures v.Whole? ==> HasType(IntegerType, v)
    ensures HasType(IntegerType, v) ==> AsNumber(v).Some?
  {
    OneType(v);
    hide HasType, OfTypes, Get;
  }

  /** What the schema says of items and members is idle on other values. */
  lemma Idle(s: Schema, v: Json)
    ensures !v.Array? ==> ItemsConform(s, v)
    ensures !v.Object? ==> MembersConform(s, v)
    ensures Conforms(s, v) <==>
            OfTypes(s.types, v) && ScalarConforms(s, v) && ItemsConform(s, v) && MembersConform(s, v)
  {
    hide ScalarConforms, OfTypes, Get;
  }

  lemma StringKinds(kind: Kind, v: Json)
    requires kind.AnyString? || kind.VisibleString?
    ensures Fits(kind, v) <==> Conforms(SchemaFor(kind), v) && Plain(kind, v)
  {
    OneType(v);
    assert OfTypes([StringType], v) <==> v.Text?;
    assert v.Text? && |v.s| == 0 ==> Blank(v.s);
    Idle(SchemaFor(kind), v);
    hide HasType, OfTypes, Blank, Get, Conforms, ItemsConform, MembersConform;
  }

  lemma EnumKinds(kind: Kind, v: Json)
    requires kind.NullableStringEnum? || kind.StringEnum?
    ensures Fits(kind, v) <==> Conforms(SchemaFor(kind), v) && Plain(kind, v)
  {
    OneType(v);
    TextIn(v, kind.values);
    assert OfTypes([StringType], v) <==> v.Text?;
    assert OfTypes([StringType, NullType], v) <==> v.Text? || v.Null?;
    Idle(SchemaFor(kind), v);
    hide HasType, OfTypes, Texts, Get, Conforms, ItemsConform, MembersConform;
  }

  lemma TextIn(v: Json, values: seq<string>)
    ensures v in Texts(values) <==> OneOf(v, values)
  {
    if OneOf(v, values) {
      var i :| 0 <= i < |values| && values[i] == v.s;
      assert Texts(values)[i] == v;
    }
  }

  lemma TextArrays(kind: Kind, v: Json)
    requires kind.NullableStringArray?
    ensures Fits(kind, v) <==> Conforms(SchemaFor(kind), v) && Plain(kind, v)
  {
    OneType(v);
    assert OfTypes([ArrayType, NullType], v) <==> v.Array? || v.Null?;
    var item := Typed([StringType]).(values := Some(Texts(kind.values)));
    if v.Array? {
      forall i | 0 <= i < |v.items| ensures Conforms(item, v.items[i]) <==> OneOf(v.items[i], kind.values) {
        EnumKinds(StringEnum(kind.values), v.items[i]);
      }
    }
    Idle(SchemaFor(kind), v);
    hide HasType, OfTypes, Texts, OneOf, Get, Conforms, MembersConform;
  }

  lemma BooleanArrays(v: Json)
    ensures Fits(BooleanRows, v) <==> Conforms(SchemaFor(BooleanRows), v) && Plain(BooleanRows, v)
  {
    OneType(v);
    assert OfTypes([ArrayType], v) <==> v.Array?;
    if v.Array? {
      forall i | 0 <= i < |v.items| ensures Conforms(Typed([BooleanType]), v.items[i]) <==> v.items[i].Bool? {
        TypedConforms([BooleanType], v.items[i]);
      }
    }
    Idle(SchemaFor(BooleanRows), v);
    hide HasType, OfTypes, Get, Conforms, MembersConform;
  }

  lemma IntegerConforms(low: int, high: int, v: Json)
    ensures WholeWithin(v, low, Some(high)) <==> Conforms(IntegerIn(low, high), v) && Machine(v)
  {
    RangedConforms([IntegerType], low as real, Some(high as real), v);
  }

  lemma IntegerArrays(kind: Kind, v: Json)
    requires kind.IntegerArray?
    ensures Fits(kind, v) <==> Conforms(SchemaFor(kind), v) && Plain(kind, v)
  {
    OneType(v);
    assert OfTypes([ArrayType], v) <==> v.Array?;
    if v.Array? {
      forall i | 0 <= i < |v.items|
        ensures WholeWithin(v.items[i], kind.low, Some(kind.high)) <==>
                Conforms(IntegerIn(kind.low, kind.high), v.items[i]) && Machine(v.items[i])
        ensures WholeWithin(v.items[i], kind.low, Some(kind.high)) ==> v.items[i].Whole?
      {
        IntegerConforms(kind.low, kind.high, v.items[i]);
      }
    }
    hide HasType, OfTypes, IntegerIn, WholeWithin, Machine, Get;
  }

  // ------------------------------------------------------------------- MIDI messages

  function Keys(fields: seq<Entry>): (keys: set<string>)
    ensures forall k :: k in keys <==> exists i :: 0 <= i < |fields| && fields[i].key == k
  {
    set i | 0 <= i < |fields| :: fields[i].key
  }

  lemma {:induction false} KeysCount(fields: seq<Entry>)
    requires Distinct(fields)
    ensures |Keys(fields)| == |fields|
  {
    if fields != [] {
      var n := |fields| - 1;
      KeysCount(fields[..n]);
      assert fields[n].key !in Keys(fields[..n]);
      assert Keys(fields) == Keys(fields[..n]) + {fields[n].key};
    }
  }

  lemma {:induction false} GetIff(fields: seq<Entry>, key: string)
    ensures Get(fields, key).Some? <==> key in Keys(fields)
    ensures Get(fields, key).Some? ==> Entry(key, Get(fields, key).value) in fields
  {
    if fields != [] {
      var n := |fields| - 1;
      GetIff(fields[..n], key);
      assert Keys(fields) == Keys(fields[..n]) + {fields[n].key};
      assert fields == fields[..n] + [fields[n]];
    }
  }

  lemma MidiNamesDiffer()
    ensures |MIDI_FIELDS| == 5 && forall i, j :: 0 <= i < j < 5 ==> MIDI_FIELDS[i].0 != MIDI_FIELDS[j].0
  {
    assert MIDI_FIELDS[2].0[5] == '1' && MIDI_FIELDS[3].0[5] == '2' && MIDI_FIELDS[4].0[5] == '3';
    assert |MIDI_FIELDS[0].0| == 4 && |MIDI_FIELDS[1].0| == 7 && |MIDI_FIELDS[2].0| == 6;
  }

  function FieldNames(n: nat): (names: set<string>)
    requires n <= 5
  {
    if n == 0 then {} else FieldNames(n - 1) + {MIDI_FIELDS[n - 1].0}
  }

  lemma {:induction false} FieldNamesCount(n: nat)
    requires n <= 5
    ensures |FieldNames(n)| == n
    ensures forall name :: name in FieldNames(n) <==> exists i :: 0 <= i < n && MIDI_FIELDS[i].0 == name
  {
    MidiNamesDiffer();
    if n > 0 {
      hide *;
      FieldNamesCount(n - 1);
      FieldNamesGrow(n);
    }
  }

  lemma FieldNamesGrow(n: nat)
    requires 0 < n <= 5
    ensures FieldNames(n) == FieldNames(n - 1) + {MIDI_FIELDS[n - 1].0}
  {
  }

  /** A member under one of the five names. */
  ghost predicate Named(key: string) {
    exists i :: 0 <= i < 5 && MIDI_FIELDS[i].0 == key
  }

  ghost predicate HasAllFive(fields: seq<Entry>) {
    forall i :: 0 <= i < 5 ==> Get(fields, MIDI_FIELDS[i].0).Some?
  }

  /** Members under distinct keys that have all of some names are as many exactly if they have no other. */
  lemma OnlyThese(fields: seq<Entry>, names: set<string>)
    requires Distinct(fields) && forall name :: name in names ==> Get(fields, name).Some?
    ensures |fields| == |names| <==> forall j :: 0 <= j < |fields| ==> fields[j].key in names
  {
    KeysCount(fields);
    var keys := Keys(fields);
    forall name | name in names ensures name in keys { GetIff(fields, name); }
    SubsetCount(names, keys);
    assert forall j :: 0 <= j < |fields| ==> fields[j].key in keys;
    hide Get, Distinct;
    if forall j :: 0 <= j < |fields| ==> fields[j].key in names { assert keys <= names; }
  }

  lemma OnlyTheNames(fields: seq<Entry>)
    requires Distinct(fields) && HasAllFive(fields)
    ensures |fields| == 5 <==> forall j :: 0 <= j < |fields| ==> Named(fields[j].key)
  {
    FieldNamesCount(5);
    var names := FieldNames(5);
    assert forall name :: name in names <==> Named(name);
    assert forall name :: Named(name) ==> Get(fields, name).Some? by { hide Get; }
    hide Get, Distinct, Named, HasAllFive, FieldNames;
    OnlyThese(fields, names);
  }

  lemma SubsetCount<T>(a: set<T>, b: set<T>)
    requires a <= b
    ensures |a| == |b| <==> a == b
  {
    assert b == a + (b - a);
  }

  lemma MidiSchemaTold(v: Json)
    ensures Conforms(MidiSchema(), v) <==>
            && v.Object? && HasAllFive(v.fields)
            && (forall i :: 0 <= i < 5 && Get(v.fields, MIDI_FIELDS[i].0).Some? ==>
                  Conforms(IntegerIn(MIDI_FIELDS[i].1, MIDI_FIELDS[i].2), Get(v.fields, MIDI_FIELDS[i].0).value))
            && forall j :: 0 <= j < |v.fields| ==> Named(v.fields[j].key)
  {
    OneType(v);
    assert OfTypes([ObjectType], v) <==> v.Object?;
    var s := MidiSchema();
    MidiNamesDiffer();
    assert |s.properties| == |s.required| == 5 && s.closed && s.types == [ObjectType] && s.values.None?;
    assert forall i :: 0 <= i < 5 ==>
             s.properties[i] == (MIDI_FIELDS[i].0, IntegerIn(MIDI_FIELDS[i].1, MIDI_FIELDS[i].2));
    assert forall i :: 0 <= i < 5 ==> s.required[i] == MIDI_FIELDS[i].0;
    hide HasType, OfTypes, IntegerIn, Get, MidiSchema, MIDI_FIELDS;
  }

  lemma ValidMidiTold(v: Json)
    ensures ValidMidiMessage(v) <==>
            && v.Object? && |v.fields| == 5
            && forall i :: 0 <= i < 5 ==> FieldWithin(v, MIDI_FIELDS[i].0, MIDI_FIELDS[i].1, MIDI_FIELDS[i].2)
  {
    hide FieldWithin;
    assert MIDI_FIELDS[0] == ("type", 1, 3) && MIDI_FIELDS[1] == ("channel", 1, 16);
    assert MIDI_FIELDS[2] == ("param1", 0, 127) && MIDI_FIELDS[3] == ("param2", 0, 127);
    assert MIDI_FIELDS[4] == ("param3", 0, 127);
  }

  lemma MembersAreMachine(fields: seq<Entry>)
    requires Distinct(fields) && HasAllFive(fields) && forall j :: 0 <= j < |fields| ==> Named(fields[j].key)
    ensures (forall j :: 0 <= j < |fields| ==> Machine(fields[j].value)) <==>
            forall i :: 0 <= i < 5 ==> Machine(Get(fields, MIDI_FIELDS[i].0).value)
  {
    hide Machine, Get;
    forall j | 0 <= j < |fields| ensures Get(fields, fields[j].key) == Some(fields[j].value) {
      GetMember(fields, fields[j]);
    }
    forall i | 0 <= i < 5 ensures Entry(MIDI_FIELDS[i].0, Get(fields, MIDI_FIELDS[i].0).value) in fields {
      GetIff(fields, MIDI_FIELDS[i].0);
    }
  }

  /** The server takes a MIDI message exactly if it conforms and its members are signed 64-bit integers. */
  lemma MidiConforms(v: Json)
    requires Proper(v)
    ensures ValidMidiMessage(v) <==>
            Conforms(MidiSchema(), v)
            && (v.Object? ==> forall j :: 0 <= j < |v.fields| ==> Machine(v.fields[j].value))
  {
    MidiSchemaTold(v);
    ValidMidiTold(v);
    if v.Object? {
      assert Distinct(v.fields);
      forall i | 0 <= i < 5 && Get(v.fields, MIDI_FIELDS[i].0).Some?
        ensures var x := Get(v.fields, MIDI_FIELDS[i].0).value;
                FieldWithin(v, MIDI_FIELDS[i].0, MIDI_FIELDS[i].1, MIDI_FIELDS[i].2) <==>
                Conforms(IntegerIn(MIDI_FIELDS[i].1, MIDI_FIELDS[i].2), x) && Machine(x)
      {
        hide Get;
        IntegerConforms(MIDI_FIELDS[i].1, MIDI_FIELDS[i].2, Get(v.fields, MIDI_FIELDS[i].0).value);
      }
      if HasAllFive(v.fields) {
        OnlyTheNames(v.fields);
        if forall j :: 0 <= j < |v.fields| ==> Named(v.fields[j].key) { MembersAreMachine(v.fields); }
      } else {
        MissingRefused(v);
      }
    }
    hide *;
  }

  lemma MissingRefused(v: Json)
    requires v.Object? && !HasAllFive(v.fields)
    ensures !forall i :: 0 <= i < 5 ==> FieldWithin(v, MIDI_FIELDS[i].0, MIDI_FIELDS[i].1, MIDI_FIELDS[i].2)
  {
    hide Get, WholeWithin;
    var i :| 0 <= i < 5 && Get(v.fields, MIDI_FIELDS[i].0).None?;
    assert !FieldWithin(v, MIDI_FIELDS[i].0, MIDI_FIELDS[i].1, MIDI_FIELDS[i].2);
  }

  lemma MidiArrays(v: Json)
    requires Proper(v)
    ensures Fits(MidiMessages, v) <==> Conforms(SchemaFor(MidiMessages), v) && Plain(MidiMessages, v)
  {
    OneType(v);
    assert OfTypes([ArrayType], v) <==> v.Array?;
    if v.Array? {
      forall i | 0 <= i < |v.items|
        ensures ValidMidiMessage(v.items[i]) <==>
                Conforms(MidiSchema(), v.items[i])
                && (v.items[i].Object? ==>
                      forall j :: 0 <= j < |v.items[i].fields| ==> Machine(v.items[i].fields[j].value))
      {
        MidiConforms(v.items[i]);
      }
    }
    hide HasType, OfTypes, MidiSchema, ValidMidiMessage, Machine, Get;
  }

  // ---------------------------------------------------------------------- whole calls

  lemma {:induction false} RequiredPresent(properties: seq<Property>, args: seq<Entry>)
    ensures AllPresent(RequiredNames(properties), args) <==>
            forall i :: 0 <= i < |properties| && properties[i].required ==> Get(args, properties[i].name).Some?
  {
    hide Get;
    if properties != [] {
      var n := |properties| - 1;
      RequiredPresent(properties[..n], args);
      assert forall i :: 0 <= i < n ==> properties[..n][i] == properties[i];
      PresentJoin(RequiredNames(properties[..n]), if properties[n].required then [properties[n].name] else [], args);
    }
  }

  lemma PresentJoin(a: seq<string>, b: seq<string>, args: seq<Entry>)
    requires |b| <= 1
    ensures AllPresent(a + b, args) <==> AllPresent(a, args) && (b != [] ==> Get(args, b[0]).Some?)
  {
    hide Get;
    assert forall i :: 0 <= i < |a| ==> (a + b)[i] == a[i];
    if b != [] { assert (a + b)[|a|] == b[0]; }
  }

  ghost predicate AllPresent(names: seq<string>, args: seq<Entry>) {
    forall i :: 0 <= i < |names| ==> Get(args, names[i]).Some?
  }

  /** The value an argument has for the `i`-th property, if any, conforms to its schema. */
  ghost predicate ArgumentConforms(p: Property, args: seq<Entry>) {
    match Get(args, p.name)
    case None => !p.required
    case Some(v) => Conforms(SchemaFor(p.kind), v)
  }

  lemma ToolSchemaTold(spec: ActionSpec, args: seq<Entry>)
    ensures Conforms(ToolSchema(spec), Object(args)) <==>
            && (forall i :: 0 <= i < |args| ==> Known(spec, args[i].key))
            && (forall i :: 0 <= i < |spec.properties| ==> ArgumentConforms(spec.properties[i], args))
  {
    var s, v := ToolSchema(spec), Object(args);
    OneType(v);
    assert OfTypes([ObjectType], v);
    RequiredPresent(spec.properties, args);
    PropertiesTold(spec, args);
    assert s.types == [ObjectType] && s.values.None? && s.closed && s.required == RequiredNames(spec.properties);
    hide HasType, OfTypes, SchemaFor, Get, RequiredNames, ToolSchema;
  }

  lemma PropertiesTold(spec: ActionSpec, args: seq<Entry>)
    ensures var s := ToolSchema(spec);
            |s.properties| == |spec.properties|
            && forall i :: 0 <= i < |s.properties| ==>
                 s.properties[i].0 == spec.properties[i].name && s.properties[i].1 == SchemaFor(spec.properties[i].kind)
  {
    hide SchemaFor, RequiredNames;
  }

  /** The server accepts a call exactly if its arguments conform to the tool's published schema, every
      value is plain, and none of the three special rules is broken. */
  lemma AcceptsIffConforms(spec: ActionSpec, args: seq<Entry>)
    requires Proper(Object(args))
    ensures Accepts(spec, args) <==>
            && Conforms(ToolSchema(spec), Object(args))
            && (forall i :: 0 <= i < |spec.properties| ==> ArgumentPlain(spec.properties[i], args))
            && SpecialRule(spec, args) == None
  {
    ToolSchemaTold(spec, args);
    forall i | 0 <= i < |spec.properties|
      ensures Satisfies(spec.properties[i], args) <==>
              ArgumentConforms(spec.properties[i], args) && ArgumentPlain(spec.properties[i], args)
    {
      SatisfiesIff(spec.properties[i], args);
    }
    hide Satisfies, SpecialRule, ArgumentPlain, ArgumentConforms, Conforms, ToolSchema;
  }

  predicate ArgumentPlain(p: Property, args: seq<Entry>) {
    match Get(args, p.name) case None => true case Some(v) => Plain(p.kind, v)
  }

  lemma SatisfiesIff(p: Property, args: seq<Entry>)
    requires Proper(Object(args))
    ensures Satisfies(p, args) <==> ArgumentConforms(p, args) && ArgumentPlain(p, args)
  {
    if Get(args, p.name).Some? {
      GetIff(args, p.name);
      FitsIffConforms(p.kind, Get(args, p.name).value);
    }
    hide Get, Fits, Plain, Conforms, SchemaFor;
  }

  /** A fraction that is whole conforms where an integer is asked for, and the server refuses it. */
  lemma WholeFractionIsRefused()
    ensures Conforms(SchemaFor(Integer(0, None)), Fraction(1.0)) && !Fits(Integer(0, None), Fraction(1.0))
  {
    assert (1.0 as real).Floor == 1 && HasType(IntegerType, Fraction(1.0));
    RangedConforms([IntegerType], 0.0, None, Fraction(1.0));
    hide HasType, OfTypes, ScalarConforms, ItemsConform, MembersConform, Conforms, Get;
  }

  /** So does blank text where text is asked for. */
  lemma BlankTextIsRefused()
    ensures Conforms(SchemaFor(AnyString), Text(" ")) && !Fits(AnyString, Text(" "))
  {
    OneType(Text(" "));
    assert OfTypes([StringType], Text(" "));
    Idle(SchemaFor(AnyString), Text(" "));
    assert Blank(" ");
    hide HasType, OfTypes, ItemsConform, MembersConform, Conforms, Get, Blank;
  }
}
