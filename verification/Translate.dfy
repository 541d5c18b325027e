/** Two translators of public tool arguments into native ones: the server's naming rule
    (services/rust-mcp/src/server.rs) and the relay's tables (services/qc-relay/src/relay.rs). */
module Translate {
  import opened Prelude
  import opened Names

  // ------------------------------------------------------------------------- data

  /** A JSON value; integers are those that fit 64 bits, signed or unsigned. */
  datatype Json =
    | Null
    | Bool(b: bool)
    | Whole(n: int)
    | Fraction(x: real)
    | Text(s: string)
    | Array(items: seq<Json>)
    | Object(fields: seq<Entry>)

  datatype Entry = Entry(key: string, value: Json)

  /** An object's members in the order in which they are visited; no key comes twice. */
  predicate Distinct(entries: seq<Entry>) {
    forall i, j :: 0 <= i < j < |entries| ==> entries[i].key != entries[j].key
  }

  function Get(entries: seq<Entry>, key: string): Option<Json> {
    if entries == [] then None
    else if entries[|entries| - 1].key == key then Some(entries[|entries| - 1].value)
    else Get(entries[..|entries| - 1], key)
  }

  /** The object a list of members collects into: a later member replaces an earlier one. */
  function Collected(entries: seq<Entry>): map<string, Json> {
    if entries == [] then map[]
    else Collected(entries[..|entries| - 1])[entries[|entries| - 1].key := entries[|entries| - 1].value]
  }

  function AsInt(v: Json): Option<int> {
    if v.Whole? && -0x8000_0000_0000_0000 <= v.n < 0x8000_0000_0000_0000 then Some(v.n) else None
  }

  function AsNumber(v: Json): Option<real> {
    match v case Whole(n) => Some(n as real) case Fraction(x) => Some(x) case _ => None
  }

  datatype Classification = Read | LiveWrite | PersistentWrite | RiskyWrite

  datatype Kind =
    | AnyString
    | VisibleString(maxChars: nat)
    | NullableString
    | NullableInteger(min: int, max: Option<int>)
    | NullableBoolean
    | NullableNumber(least: real, most: Option<real>)
    | NullableStringEnum(values: seq<string>)
    | NullableStringArray(maxItems: nat, values: seq<string>)
    | Boolean
    | Integer(min: int, max: Option<int>)
    | Number(least: real, most: Option<real>)
    | MidiMessages
    | StringEnum(values: seq<string>)
    | BooleanRows
    | IntegerArray(low: int, high: int, minItems: nat, maxItems: nat, unique: bool)

  datatype Property = Property(name: string, kind: Kind, required: bool)

  /** A row of the server's table. */
  datatype ActionSpec = ActionSpec(name: string, classification: Classification, properties: seq<Property>)

  /** A row of the relay's table. */
  datatype ActionPolicy = ActionPolicy(
    name: string,
    class_: Classification,
    requiredArgumentConfirmations: seq<string>,
    allowedArguments: seq<string>,
    requiredArguments: seq<string>,
    gatewayArguments: seq<(string, string)>,
    gatewayTrueArguments: seq<string>
  )

  const RENAME := "rename_current_preset"
  const LIST_MODELS := "list_models"
  const CONFIRM_PERSISTENT := "confirm_persistent_write"
  const CONFIRM_RISKY := "confirm_risky_operation"

  // -------------------------------------------------------------------- validation

  predicate Blank(s: string) {
    forall i :: 0 <= i < |s| ==> IsWhitespace(s[i])
  }

  predicate HasControl(s: string) {
    exists i :: 0 <= i < |s| && (s[i] < ' ' || '\U{007F}' <= s[i] <= '\U{009F}')
  }

  predicate WholeWithin(v: Json, min: int, max: Option<int>) {
    var n := AsInt(v);
    n.Some? && min <= n.value && (max.Some? ==> n.value <= max.value)
  }

  predicate NumberWithin(v: Json, least: real, most: Option<real>) {
    var x := AsNumber(v);
    x.Some? && least <= x.value && (most.Some? ==> x.value <= most.value)
  }

  predicate OneOf(v: Json, values: seq<string>) {
    v.Text? && v.s in values
  }

  predicate ValidMidiMessage(v: Json) {
    && v.Object? && |v.fields| == 5
    && FieldWithin(v, "type", 1, 3) && FieldWithin(v, "channel", 1, 16)
    && FieldWithin(v, "param1", 0, 127) && FieldWithin(v, "param2", 0, 127) && FieldWithin(v, "param3", 0, 127)
  }

  predicate FieldWithin(v: Json, name: string, low: int, high: int)
    requires v.Object?
  {
    var field := Get(v.fields, name);
    field.Some? && WholeWithin(field.value, low, Some(high))
  }

  /** Whether a value is of a kind. */
  predicate Fits(kind: Kind, v: Json) {
    match kind
    case AnyString => v.Text? && !Blank(v.s)
    case VisibleString(maxChars) => v.Text? && !Blank(v.s) && |v.s| <= maxChars && !HasControl(v.s)
    case NullableString => v.Null? || v.Text?
    case NullableInteger(min, max) => v.Null? || WholeWithin(v, min, max)
    case NullableBoolean => v.Null? || v.Bool?
    case NullableNumber(least, most) => v.Null? || NumberWithin(v, least, most)
    case NullableStringEnum(values) => v.Null? || OneOf(v, values)
    case NullableStringArray(maxItems, values) =>
      v.Null? || (v.Array? && |v.items| <= maxItems && forall i :: 0 <= i < |v.items| ==> OneOf(v.items[i], values))
    case Boolean => v.Bool?
    case Integer(min, max) => WholeWithin(v, min, max)
    case Number(least, most) => NumberWithin(v, least, most)
    case MidiMessages => v.Array? && |v.items| <= 12 && forall i :: 0 <= i < |v.items| ==> ValidMidiMessage(v.items[i])
    case StringEnum(values) => OneOf(v, values)
    case BooleanRows => v.Array? && |v.items| == 4 && forall i :: 0 <= i < |v.items| ==> v.items[i].Bool?
    case IntegerArray(low, high, minItems, maxItems, unique) =>
      && v.Array? && minItems <= |v.items| <= maxItems
      && (forall i :: 0 <= i < |v.items| ==> WholeWithin(v.items[i], low, Some(high)))
      && (unique ==> forall i, j :: 0 <= i < j < |v.items| ==> v.items[i] != v.items[j])
  }

  datatype Refusal = Unexpected(name: string) | Missing(name: string) | Invalid(name: string)
    | BadDirection | SameScenes | BadLabel | Unconfirmed(flag: string)

  predicate Known(spec: ActionSpec, key: string) {
    exists i :: 0 <= i < |spec.properties| && spec.properties[i].name == key
  }

  predicate Satisfies(p: Property, args: seq<Entry>) {
    match Get(args, p.name)
    case None => !p.required
    case Some(v) => Fits(p.kind, v)
  }

  function IntegerArgument(args: seq<Entry>, key: string): Option<int> {
    match Get(args, key) case None => None case Some(v) => AsInt(v)
  }

  /** The three rules that go beyond single arguments. */
  function SpecialRule(spec: ActionSpec, args: seq<Entry>): Option<Refusal> {
    if spec.name == "navigate_bank" && IntegerArgument(args, "direction") !in {Some(-1), Some(1)} then
      Some(BadDirection)
    else if spec.name == "copy_scene"
            && IntegerArgument(args, "from_scene") == IntegerArgument(args, "to_scene") then
      Some(SameScenes)
    else if spec.name == "set_scene_label" && LabelRefused(Get(args, "label")) then Some(BadLabel)
    else None
  }

  predicate LabelRefused(text: Option<Json>) {
    text.Some? && text.value.Text? && (|text.value.s| > 32 || HasControl(text.value.s))
  }

  /** What the server takes: only known arguments, every property satisfied, no rule broken. */
  ghost predicate Accepts(spec: ActionSpec, args: seq<Entry>) {
    && (forall i :: 0 <= i < |args| ==> Known(spec, args[i].key))
    && (forall i :: 0 <= i < |spec.properties| ==> Satisfies(spec.properties[i], args))
    && SpecialRule(spec, args) == None
  }

  /** Why a refusal is given: an unknown argument before anything else, then the first property
      that is not satisfied, then a broken rule. */
  ghost predicate Justified(spec: ActionSpec, args: seq<Entry>, refusal: Refusal) {
    var known := forall i :: 0 <= i < |args| ==> Known(spec, args[i].key);
    match refusal
    case Unexpected(name) =>
      exists i ::
        && 0 <= i < |args| && args[i].key == name && !Known(spec, name)
        && forall j :: 0 <= j < i ==> Known(spec, args[j].key)
    case Missing(name) =>
      known && Get(args, name) == None
      && exists i: nat :: FirstUnsatisfied(spec, args, i) && spec.properties[i].name == name
    case Invalid(name) =>
      known && Get(args, name).Some?
      && exists i: nat :: FirstUnsatisfied(spec, args, i) && spec.properties[i].name == name
    case Unconfirmed(_) => false
    case _ => known && (forall i :: 0 <= i < |spec.properties| ==> Satisfies(spec.properties[i], args))
              && SpecialRule(spec, args) == Some(refusal)
  }

  ghost predicate FirstUnsatisfied(spec: ActionSpec, args: seq<Entry>, i: nat) {
    && i < |spec.properties| && !Satisfies(spec.properties[i], args)
    && forall j :: 0 <= j < i ==> Satisfies(spec.properties[j], args)
  }

  method Validate(spec: ActionSpec, args: seq<Entry>) returns (r: Result<(), Refusal>)
    ensures r.Ok? <==> Accepts(spec, args)
    ensures r.Err? ==> Justified(spec, args, r.error)
  {
    hide Get, Fits, SpecialRule, Known;
    var i := 0;
    while i < |args|
      invariant i <= |args| && forall j :: 0 <= j < i ==> Known(spec, args[j].key)
    {
      if !Known(spec, args[i].key) { return Err(Unexpected(args[i].key)); }
      i := i + 1;
    }
    var k := 0;
    while k < |spec.properties|
      invariant k <= |spec.properties| && forall j :: 0 <= j < k ==> Satisfies(spec.properties[j], args)
    {
      var p := spec.properties[k];
      var value := Get(args, p.name);
      if value.None? {
        if p.required {
          assert FirstUnsatisfied(spec, args, k);
          return Err(Missing(p.name));
        }
      } else if !Fits(p.kind, value.value) {
        assert FirstUnsatisfied(spec, args, k);
        return Err(Invalid(p.name));
      }
      k := k + 1;
    }
    var broken := SpecialRule(spec, args);
    if broken.Some? {
      RulesRefuse(spec, args);
      return Err(broken.value);
    }
    r := Ok(());
  }

  lemma RulesRefuse(spec: ActionSpec, args: seq<Entry>)
    ensures SpecialRule(spec, args).Some? ==> SpecialRule(spec, args).value in {BadDirection, SameScenes, BadLabel}
  {
    hide Get, LabelRefused;
  }

  /** The rules beyond single arguments: a bank is navigated by one step down or up, a scene is not copied
      to itself, and a label has at most 32 characters and no control among them. */
  lemma RulesTold(spec: ActionSpec, args: seq<Entry>)
    ensures SpecialRule(spec, args) == None <==>
            && (spec.name == "navigate_bank" ==>
                  Get(args, "direction") == Some(Whole(-1)) || Get(args, "direction") == Some(Whole(1)))
            && (spec.name == "copy_scene" ==>
                  IntegerArgument(args, "from_scene") != IntegerArgument(args, "to_scene"))
            && (spec.name == "set_scene_label" ==>
                  forall text :: Get(args, "label") == Some(Text(text)) ==> |text| <= 32 && !HasControl(text))
  {
    assert |"navigate_bank"| == 13 && |"copy_scene"| == 10 && |"set_scene_label"| == 15;
    hide Get, HasControl;
  }

  // -------------------------------------------------------------- confirmation gate

  function Flag(c: Classification): Option<string> {
    match c
    case PersistentWrite => Some(CONFIRM_PERSISTENT)
    case RiskyWrite => Some(CONFIRM_RISKY)
    case _ => None
  }

  /** The members of an object without those of one key. */
  function Without(args: seq<Entry>, key: string): seq<Entry> {
    if args == [] then []
    else Without(args[..|args| - 1], key) + (if args[|args| - 1].key == key then [] else [args[|args| - 1]])
  }

  function Remaining(spec: ActionSpec, args: seq<Entry>): seq<Entry> {
    match Flag(spec.classification) case None => args case Some(flag) => Without(args, flag)
  }

  lemma {:induction false} WithoutMember(args: seq<Entry>, key: string, e: Entry)
    ensures e in Without(args, key) <==> e in args && e.key != key
  {
    if args != [] {
      WithoutMember(args[..|args| - 1], key, e);
      assert args == args[..|args| - 1] + [args[|args| - 1]];
    }
  }

  lemma {:induction false} WithoutDistinct(args: seq<Entry>, key: string)
    requires Distinct(args)
    ensures Distinct(Without(args, key))
  {
    if args != [] {
      var n := |args| - 1;
      WithoutDistinct(args[..n], key);
      forall e | e in Without(args[..n], key) ensures e.key != args[n].key {
        WithoutMember(args[..n], key, e);
      }
      DistinctJoin(Without(args[..n], key), if args[n].key == key then [] else [args[n]]);
    }
  }

  /** What remains is every argument but the flag. */
  lemma RemainingMember(spec: ActionSpec, args: seq<Entry>, e: Entry)
    ensures e in Remaining(spec, args) <==> e in args && Flag(spec.classification) != Some(e.key)
  {
    var flag := Flag(spec.classification);
    if flag.Some? { WithoutMember(args, flag.value, e); }
  }

  lemma RemainingDistinct(spec: ActionSpec, args: seq<Entry>)
    requires Distinct(args)
    ensures Distinct(Remaining(spec, args))
  {
    var flag := Flag(spec.classification);
    if flag.Some? { WithoutDistinct(args, flag.value); }
  }

  predicate Confirmed(spec: ActionSpec, args: seq<Entry>) {
    match Flag(spec.classification) case None => true case Some(flag) => Get(args, flag) == Some(Bool(true))
  }

  /** Takes the confirmation flag of a write out of its arguments; without it, or if it is
      anything but true, the write is refused. */
  method ApplyConfirmationGate(spec: ActionSpec, args: seq<Entry>) returns (r: Result<(), Refusal>, rest: seq<Entry>)
    ensures rest == Remaining(spec, args)
    ensures r.Ok? <==> Confirmed(spec, args)
    ensures r.Ok? <==>
            && (spec.classification.PersistentWrite? ==> Get(args, "confirm_persistent_write") == Some(Bool(true)))
            && (spec.classification.RiskyWrite? ==> Get(args, "confirm_risky_operation") == Some(Bool(true)))
    ensures r.Err? ==> Flag(spec.classification).Some? && r.error == Unconfirmed(Flag(spec.classification).value)
  {
    hide Get, Without;
    var required := Flag(spec.classification);
    rest := args;
    if required.Some? {
      var removed := Get(args, required.value);
      rest := Without(args, required.value);
      if removed != Some(Bool(true)) { return Err(Unconfirmed(required.value)), rest; }
    }
    r := Ok(());
  }

  // ------------------------------------------------------------ the server's translation

  /** The kinds whose explicit null the server forwards. */
  predicate KeepsNull(kind: Kind) {
    kind.NullableInteger? || kind.NullableString? || kind.NullableBoolean? || kind.NullableNumber?
  }

  predicate NullForwarded(spec: ActionSpec, key: string) {
    exists i :: 0 <= i < |spec.properties| && spec.properties[i].name == key && KeepsNull(spec.properties[i].kind)
  }

  /** Arguments the server consumes itself. */
  predicate Discovery(spec: ActionSpec, key: string) {
    spec.name == LIST_MODELS && key == "query"
  }

  predicate Forwards(spec: ActionSpec, e: Entry) {
    (e.value.Null? ==> NullForwarded(spec, e.key)) && !Discovery(spec, e.key)
  }

  function Target(spec: ActionSpec, key: string): string {
    if spec.name == RENAME && key == "new_name" then "name" else SnakeToCamel(key)
  }

  function Translated(spec: ActionSpec, args: seq<Entry>): seq<Entry> {
    if args == [] then []
    else
      var e := args[|args| - 1];
      Translated(spec, args[..|args| - 1]) + (if Forwards(spec, e) then [Entry(Target(spec, e.key), e.value)] else [])
  }

  function Implied(names: seq<string>): (r: seq<Entry>)
    ensures |r| == |names| && forall i :: 0 <= i < |r| ==> r[i] == Entry(names[i], Bool(true))
  {
    seq(|names|, i requires 0 <= i < |names| => Entry(names[i], Bool(true)))
  }

  function ImpliedNames(spec: ActionSpec): seq<string> {
    if spec.name == RENAME then ["confirmRename"] else []
  }

  function GatewayParams(spec: ActionSpec, args: seq<Entry>): map<string, Json> {
    Collected(Translated(spec, args) + Implied(ImpliedNames(spec)))
  }

  // ------------------------------------------------------------- the relay's translation

  datatype RelayError =
    | Forbidden | UnknownAction | ConfirmationRequired
    | ConfirmationArgumentRequired(field: string)
    | InvalidArguments

  function Picked(table: seq<(string, string)>, args: seq<Entry>): seq<Entry> {
    if table == [] then []
    else
      var (source, target) := table[|table| - 1];
      Picked(table[..|table| - 1], args)
      + (match Get(args, source)
         case Some(v) => if v.Null? then [] else [Entry(target, v)]
         case None => [])
  }

  predicate PolicyAdmits(policy: ActionPolicy, args: seq<Entry>) {
    && (forall i :: 0 <= i < |args| ==> args[i].key in policy.allowedArguments)
    && (forall name :: name in policy.requiredArguments ==> Get(args, name).Some?)
  }

  function NormalizePublicArguments(policy: ActionPolicy, arguments: Json): Result<map<string, Json>, RelayError> {
    if !arguments.Object? || !PolicyAdmits(policy, arguments.fields) then Err(InvalidArguments)
    else Ok(Collected(Picked(policy.gatewayArguments, arguments.fields) + Implied(policy.gatewayTrueArguments)))
  }

  datatype Proof = Proof(approved: bool, source: string)

  /** The first of some flags that an argument object does not set. */
  function FirstUnset(flags: seq<string>, arguments: Json): Option<string> {
    if flags == [] then None
    else if arguments.Object? && Get(arguments.fields, flags[0]) == Some(Bool(true)) then
      FirstUnset(flags[1..], arguments)
    else Some(flags[0])
  }

  /** What `invoke` checks before it dispatches, in its order. */
  function Invoke(authorized: bool, policy: Option<ActionPolicy>, proof: Option<Proof>,
        arguments: Json): Result<map<string, Json>, RelayError> {
    if !authorized then Err(Forbidden)
    else if policy.None? then Err(UnknownAction)
    else if (policy.value.class_.RiskyWrite? || policy.value.class_.PersistentWrite?)
            && !(proof.Some? && proof.value.approved && !Blank(proof.value.source)) then Err(ConfirmationRequired)
    else match FirstUnset(policy.value.requiredArgumentConfirmations, arguments)
         case Some(field) => Err(ConfirmationArgumentRequired(field))
         case None => NormalizePublicArguments(policy.value, arguments)
  }

  // ------------------------------------------------------------------ well-formed rows

  predicate Consumed(spec: ActionSpec, key: string) {
    Flag(spec.classification) == Some(key) || Discovery(spec, key)
  }

  predicate PropertiesNamedWell(spec: ActionSpec) {
    && (forall i :: 0 <= i < |spec.properties| ==> SnakeName(spec.properties[i].name))
    && (forall i, j :: 0 <= i < j < |spec.properties| ==> spec.properties[i].name != spec.properties[j].name)
    && (spec.name == RENAME ==> !Known(spec, "name") && !Known(spec, "confirm_rename"))
  }

  /** The table names each forwarded property once, with the target the rule gives it. */
  ghost predicate TableFollowsRule(spec: ActionSpec, table: seq<(string, string)>) {
    && (forall i :: 0 <= i < |table| ==>
          Known(spec, table[i].0) && !Consumed(spec, table[i].0) && table[i].1 == Target(spec, table[i].0))
    && (forall i, j :: 0 <= i < j < |table| ==> table[i].0 != table[j].0)
    && (forall p :: p in spec.properties && !Consumed(spec, p.name) ==>
          exists i :: 0 <= i < |table| && table[i].0 == p.name)
  }

  ghost predicate WellFormedRow(spec: ActionSpec, policy: ActionPolicy) {
    && policy.name == spec.name && policy.class_ == spec.classification
    && PropertiesNamedWell(spec)
    && (forall p :: p in spec.properties ==> p.name in policy.allowedArguments)
    && (forall name :: name in policy.requiredArguments ==>
          exists p :: p in spec.properties && p.name == name && p.required)
    && TableFollowsRule(spec, policy.gatewayArguments)
    && policy.gatewayTrueArguments == ImpliedNames(spec)
  }

  // --------------------------------------------------------------- objects and lists

  lemma {:induction false} GetFinds(args: seq<Entry>, key: string)
    ensures Get(args, key).Some? ==> Entry(key, Get(args, key).value) in args
    ensures Get(args, key).None? ==> forall e :: e in args ==> e.key != key
  {
    if args != [] {
      GetFinds(args[..|args| - 1], key);
      assert args == args[..|args| - 1] + [args[|args| - 1]];
    }
  }

  lemma {:induction false} GetMember(args: seq<Entry>, e: Entry)
    requires Distinct(args) && e in args
    ensures Get(args, e.key) == Some(e.value)
  {
    var n := |args| - 1;
    assert args == args[..n] + [args[n]];
    if args[n].key != e.key { GetMember(args[..n], e); }
  }

  lemma {:induction false} CollectedFrom(entries: seq<Entry>, t: string)
    ensures t in Collected(entries) ==> Entry(t, Collected(entries)[t]) in entries
  {
    if entries != [] {
      CollectedFrom(entries[..|entries| - 1], t);
      assert entries == entries[..|entries| - 1] + [entries[|entries| - 1]];
    }
  }

  lemma {:induction false} CollectedHas(entries: seq<Entry>, x: Entry)
    requires Distinct(entries) && x in entries
    ensures x.key in Collected(entries) && Collected(entries)[x.key] == x.value
  {
    var n := |entries| - 1;
    assert entries == entries[..n] + [entries[n]];
    if entries[n].key != x.key { CollectedHas(entries[..n], x); }
  }

  lemma DistinctJoin(a: seq<Entry>, b: seq<Entry>)
    requires Distinct(a) && Distinct(b) && forall x, y :: x in a && y in b ==> x.key != y.key
    ensures Distinct(a + b)
  {
    forall i, j | 0 <= i < j < |a + b| ensures (a + b)[i].key != (a + b)[j].key {
      if i < |a| <= j { assert a[i] in a && b[j - |a|] in b; }
    }
  }

  // ------------------------------------------------------------ the server's entries

  ghost predicate AllKnown(spec: ActionSpec, args: seq<Entry>) {
    forall e :: e in args ==> Known(spec, e.key)
  }

  lemma KnownIsSnake(spec: ActionSpec, key: string)
    requires PropertiesNamedWell(spec) && Known(spec, key)
    ensures SnakeName(key)
  {
    hide SnakeName;
  }

  lemma NameIsSnake()
    ensures SnakeName("name") && SnakeToCamel("name") == "name"
  {
    WordIsSnake("name");
  }

  lemma ConfirmRenameIsSnake()
    ensures SnakeName("confirm_rename") && SnakeToCamel("confirm_rename") == "confirmRename"
  {
    hide SnakeName, SnakeToCamel;
    TwoWords("confirm", "rename");
    assert "confirm" + "_" + "rename" == "confirm_rename";
    assert "confirm" + (['R'] + "rename"[1..]) == "confirmRename";
  }

  /** Distinct arguments of a well-named row have distinct targets, none of them implied. */
  lemma TargetsDiffer(spec: ActionSpec, a: string, b: string)
    requires PropertiesNamedWell(spec) && Known(spec, a) && Known(spec, b) && a != b
    ensures Target(spec, a) != Target(spec, b)
  {
    KnownIsSnake(spec, a);
    KnownIsSnake(spec, b);
    NameIsSnake();
    hide SnakeName, SnakeToCamel;
    if SnakeToCamel(a) == SnakeToCamel(b) { NamesStayDistinct(a, b); }
    if SnakeToCamel(a) == "name" { NamesStayDistinct(a, "name"); }
    if SnakeToCamel(b) == "name" { NamesStayDistinct(b, "name"); }
  }

  lemma TargetNotImplied(spec: ActionSpec, a: string)
    requires PropertiesNamedWell(spec) && Known(spec, a)
    ensures Target(spec, a) !in ImpliedNames(spec)
  {
    KnownIsSnake(spec, a);
    ConfirmRenameIsSnake();
    assert |"name"| != |"confirmRename"|;
    hide SnakeName, SnakeToCamel;
    if SnakeToCamel(a) == "confirmRename" { NamesStayDistinct(a, "confirm_rename"); }
  }

  lemma {:induction false} TranslatedHas(spec: ActionSpec, args: seq<Entry>, e: Entry)
    requires e in args && Forwards(spec, e)
    ensures Entry(Target(spec, e.key), e.value) in Translated(spec, args)
  {
    hide Forwards, Target;
    var n := |args| - 1;
    assert args == args[..n] + [args[n]];
    if args[n] != e { TranslatedHas(spec, args[..n], e); }
  }

  lemma {:induction false} TranslatedFrom(spec: ActionSpec, args: seq<Entry>, x: Entry) returns (e: Entry)
    requires x in Translated(spec, args)
    ensures e in args && Forwards(spec, e) && x == Entry(Target(spec, e.key), e.value)
  {
    hide Forwards, Target;
    var n := |args| - 1;
    assert args == args[..n] + [args[n]];
    if x in Translated(spec, args[..n]) {
      e := TranslatedFrom(spec, args[..n], x);
    } else {
      e := args[n];
    }
  }

  lemma {:induction false} TranslatedDistinct(spec: ActionSpec, args: seq<Entry>)
    requires PropertiesNamedWell(spec) && Distinct(args) && AllKnown(spec, args)
    ensures Distinct(Translated(spec, args))
  {
    hide Forwards, Target, PropertiesNamedWell, Known;
    if args != [] {
      var n := |args| - 1;
      var before, last := args[..n], args[n];
      assert args == before + [last];
      TranslatedDistinct(spec, before);
      if Forwards(spec, last) {
        var x := Entry(Target(spec, last.key), last.value);
        forall y | y in Translated(spec, before) ensures y.key != x.key {
          var e := TranslatedFrom(spec, before, y);
          TargetsDiffer(spec, e.key, last.key);
        }
        DistinctJoin(Translated(spec, before), [x]);
      }
    }
  }

  /** Everything the server sends, under distinct names. */
  lemma SentDistinct(spec: ActionSpec, args: seq<Entry>)
    requires PropertiesNamedWell(spec) && Distinct(args) && AllKnown(spec, args)
    ensures Distinct(Translated(spec, args) + Implied(ImpliedNames(spec)))
  {
    hide Forwards, Target, PropertiesNamedWell, Known, Translated;
    TranslatedDistinct(spec, args);
    var implied := Implied(ImpliedNames(spec));
    forall x, y | x in Translated(spec, args) && y in implied ensures x.key != y.key {
      var e := TranslatedFrom(spec, args, x);
      TargetNotImplied(spec, e.key);
    }
    assert Distinct(implied);
    DistinctJoin(Translated(spec, args), implied);
  }

  // -------------------------------------------------------------- the relay's entries

  lemma {:induction false} PickedHas(table: seq<(string, string)>, args: seq<Entry>, i: nat)
    requires i < |table| && Get(args, table[i].0).Some? && !Get(args, table[i].0).value.Null?
    ensures Entry(table[i].1, Get(args, table[i].0).value) in Picked(table, args)
  {
    hide Get;
    var n := |table| - 1;
    if i < n { PickedHas(table[..n], args, i); }
  }

  lemma {:induction false} PickedFrom(table: seq<(string, string)>, args: seq<Entry>, x: Entry) returns (i: nat)
    requires x in Picked(table, args)
    ensures i < |table| && Get(args, table[i].0) == Some(x.value) && !x.value.Null? && table[i].1 == x.key
  {
    hide Get;
    var n := |table| - 1;
    if x in Picked(table[..n], args) {
      i := PickedFrom(table[..n], args, x);
    } else {
      i := n;
    }
  }

  ghost predicate TargetsDistinct(table: seq<(string, string)>) {
    forall i, j :: 0 <= i < j < |table| ==> table[i].1 != table[j].1
  }

  lemma {:induction false} PickedDistinct(table: seq<(string, string)>, args: seq<Entry>)
    requires TargetsDistinct(table)
    ensures Distinct(Picked(table, args))
  {
    hide Get;
    if table != [] {
      var n := |table| - 1;
      PickedDistinct(table[..n], args);
      var more := Picked(table, args)[|Picked(table[..n], args)|..];
      forall x, y | x in Picked(table[..n], args) && y in more ensures x.key != y.key {
        var i := PickedFrom(table[..n], args, x);
      }
      DistinctJoin(Picked(table[..n], args), more);
      assert Picked(table, args) == Picked(table[..n], args) + more;
    }
  }

  lemma TableTargetsDistinct(spec: ActionSpec, table: seq<(string, string)>)
    requires PropertiesNamedWell(spec) && TableFollowsRule(spec, table)
    ensures TargetsDistinct(table)
    ensures forall i :: 0 <= i < |table| ==> table[i].1 !in ImpliedNames(spec)
  {
    hide PropertiesNamedWell, Known, Consumed, Target, ImpliedNames;
    forall i, j | 0 <= i < j < |table| ensures table[i].1 != table[j].1 {
      TargetsDiffer(spec, table[i].0, table[j].0);
    }
    forall i | 0 <= i < |table| ensures table[i].1 !in ImpliedNames(spec) {
      TargetNotImplied(spec, table[i].0);
    }
  }

  lemma PickedAllDistinct(spec: ActionSpec, table: seq<(string, string)>, args: seq<Entry>)
    requires PropertiesNamedWell(spec) && TableFollowsRule(spec, table)
    ensures Distinct(Picked(table, args) + Implied(ImpliedNames(spec)))
  {
    TableTargetsDistinct(spec, table);
    hide PropertiesNamedWell, TableFollowsRule, Picked, Get, TargetsDistinct;
    PickedDistinct(table, args);
    var implied := Implied(ImpliedNames(spec));
    forall x, y | x in Picked(table, args) && y in implied ensures x.key != y.key {
      var i := PickedFrom(table, args, x);
    }
    assert Distinct(implied);
    DistinctJoin(Picked(table, args), implied);
  }

  // ----------------------------------------------------------------------- agreement

  function WithoutNulls(m: map<string, Json>): map<string, Json> {
    map k | k in m && !m[k].Null? :: m[k]
  }

  /** The arguments a call hands to either translator. */
  ghost predicate Call(spec: ActionSpec, policy: ActionPolicy, args: seq<Entry>) {
    WellFormedRow(spec, policy) && Distinct(args) && Accepts(spec, args) && Confirmed(spec, args)
  }

  lemma CallFacts(spec: ActionSpec, policy: ActionPolicy, args: seq<Entry>)
    requires Call(spec, policy, args)
    ensures PropertiesNamedWell(spec) && TableFollowsRule(spec, policy.gatewayArguments)
    ensures policy.gatewayTrueArguments == ImpliedNames(spec)
    ensures AllKnown(spec, args) && AllKnown(spec, Remaining(spec, args))
    ensures Distinct(args) && Distinct(Remaining(spec, args))
  {
    hide Known, TableFollowsRule, PropertiesNamedWell, Satisfies, SpecialRule, Flag, Get;
    forall e | e in args ensures Known(spec, e.key) {
      var i :| 0 <= i < |args| && args[i] == e;
    }
    forall e | e in Remaining(spec, args) ensures Known(spec, e.key) { RemainingMember(spec, args, e); }
    RemainingDistinct(spec, args);
  }

  lemma AdmitsCall(spec: ActionSpec, policy: ActionPolicy, args: seq<Entry>)
    requires Call(spec, policy, args)
    ensures PolicyAdmits(policy, args)
  {
    hide TableFollowsRule, PropertiesNamedWell, SpecialRule, Flag, Fits, Get, ImpliedNames;
    forall i | 0 <= i < |args| ensures args[i].key in policy.allowedArguments {
      assert Known(spec, args[i].key);
    }
    forall name | name in policy.requiredArguments ensures Get(args, name).Some? {
      var p :| p in spec.properties && p.name == name && p.required;
      var i :| 0 <= i < |spec.properties| && spec.properties[i] == p;
      assert Satisfies(spec.properties[i], args);
    }
  }

  lemma TranslatedIsPicked(spec: ActionSpec, policy: ActionPolicy, args: seq<Entry>, x: Entry)
    requires Call(spec, policy, args) && x in Translated(spec, Remaining(spec, args)) && !x.value.Null?
    ensures x in Picked(policy.gatewayArguments, args)
  {
    CallFacts(spec, policy, args);
    var e := TranslatedFrom(spec, Remaining(spec, args), x);
    hide Call, Distinct, Translated, Picked, Get, Flag, Target, Discovery, Remaining;
    RemainingMember(spec, args, e);
    GetMember(args, e);
    KnownHasProperty(spec, e.key);
    var i :| 0 <= i < |policy.gatewayArguments| && policy.gatewayArguments[i].0 == e.key;
    PickedHas(policy.gatewayArguments, args, i);
  }

  lemma KnownHasProperty(spec: ActionSpec, key: string)
    requires Known(spec, key)
    ensures exists p :: p in spec.properties && p.name == key
  {
    var i :| 0 <= i < |spec.properties| && spec.properties[i].name == key;
    assert spec.properties[i] in spec.properties;
  }

  lemma PickedIsTranslated(spec: ActionSpec, policy: ActionPolicy, args: seq<Entry>, x: Entry)
    requires Call(spec, policy, args) && x in Picked(policy.gatewayArguments, args)
    ensures x in Translated(spec, Remaining(spec, args)) && !x.value.Null?
  {
    CallFacts(spec, policy, args);
    hide Call, Distinct, Translated, Picked, Get, Flag, Target, Discovery, Known, NullForwarded, Remaining;
    var i := PickedFrom(policy.gatewayArguments, args, x);
    var source := policy.gatewayArguments[i].0;
    GetFinds(args, source);
    RemainingMember(spec, args, Entry(source, x.value));
    TranslatedHas(spec, Remaining(spec, args), Entry(source, x.value));
  }

  /** A member of what the server sends, other than a null, is a member of what the relay sends,
      and the other way round. */
  lemma SameMembers(spec: ActionSpec, policy: ActionPolicy, args: seq<Entry>, x: Entry)
    requires Call(spec, policy, args)
    ensures x in Translated(spec, Remaining(spec, args)) + Implied(ImpliedNames(spec)) && !x.value.Null? <==>
            x in Picked(policy.gatewayArguments, args) + Implied(ImpliedNames(spec))
  {
    hide Call, Translated, Picked, ImpliedNames, Remaining;
    if x in Translated(spec, Remaining(spec, args)) && !x.value.Null? { TranslatedIsPicked(spec, policy, args, x); }
    if x in Picked(policy.gatewayArguments, args) { PickedIsTranslated(spec, policy, args, x); }
  }

  lemma SameObjects(sent: seq<Entry>, picked: seq<Entry>)
    requires Distinct(sent) && Distinct(picked)
    requires forall x :: x in sent && !x.value.Null? <==> x in picked
    ensures WithoutNulls(Collected(sent)) == Collected(picked)
  {
    hide Distinct, Collected;
    var a, b := WithoutNulls(Collected(sent)), Collected(picked);
    forall t | t in a ensures t in b && b[t] == a[t] {
      CollectedFrom(sent, t);
      CollectedHas(picked, Entry(t, a[t]));
    }
    forall t | t in b ensures t in a {
      CollectedFrom(picked, t);
      CollectedHas(sent, Entry(t, b[t]));
    }
  }

  /** Whatever the server accepts and confirms, its rule and the relay's table make of it the same
      native arguments, but for the nulls the server forwards: for every well-formed row. */
  lemma TranslatorsAgree(spec: ActionSpec, policy: ActionPolicy, args: seq<Entry>)
    requires Call(spec, policy, args)
    ensures NormalizePublicArguments(policy, Object(args)) ==
            Ok(WithoutNulls(GatewayParams(spec, Remaining(spec, args))))
  {
    CallFacts(spec, policy, args);
    hide Call, PropertiesNamedWell, TableFollowsRule, PolicyAdmits, Translated, Picked, Distinct, AllKnown, Remaining,
         WithoutNulls, Collected, ImpliedNames, Implied;
    AdmitsCall(spec, policy, args);
    SentDistinct(spec, Remaining(spec, args));
    PickedAllDistinct(spec, policy.gatewayArguments, args);
    var sent := Translated(spec, Remaining(spec, args)) + Implied(ImpliedNames(spec));
    var picked := Picked(policy.gatewayArguments, args) + Implied(ImpliedNames(spec));
    forall x ensures x in sent && !x.value.Null? <==> x in picked {
      SameMembers(spec, policy, args, x);
    }
    SameObjects(sent, picked);
  }

  // ---------------------------------------------------------------- what nulls are for

  /** No argument is an explicit null of a kind that keeps it, other than one the server
      consumes. */
  ghost predicate NoNullForwarded(spec: ActionSpec, args: seq<Entry>) {
    forall e :: e in args && e.value.Null? ==> !Forwards(spec, e)
  }

  lemma FlagIsNotNull(spec: ActionSpec, args: seq<Entry>, e: Entry)
    requires Distinct(args) && Confirmed(spec, args) && e in args && e.value.Null?
    ensures e in Remaining(spec, args)
  {
    hide Get, Remaining;
    GetMember(args, e);
    RemainingMember(spec, args, e);
  }

  lemma SomeNullSent(spec: ActionSpec, args: seq<Entry>, e: Entry)
    requires Distinct(Translated(spec, args) + Implied(ImpliedNames(spec)))
    requires e in args && e.value.Null? && Forwards(spec, e)
    ensures WithoutNulls(GatewayParams(spec, args)) != GatewayParams(spec, args)
  {
    hide Distinct, Collected, Forwards, Target;
    TranslatedHas(spec, args, e);
    var t := Target(spec, e.key);
    CollectedHas(Translated(spec, args) + Implied(ImpliedNames(spec)), Entry(t, e.value));
    assert t in GatewayParams(spec, args) && t !in WithoutNulls(GatewayParams(spec, args));
  }

  lemma NoNullSent(spec: ActionSpec, args: seq<Entry>)
    requires NoNullForwarded(spec, args)
    ensures WithoutNulls(GatewayParams(spec, args)) == GatewayParams(spec, args)
  {
    var sent := GatewayParams(spec, args);
    forall t | t in sent ensures !sent[t].Null? {
      CollectedFrom(Translated(spec, args) + Implied(ImpliedNames(spec)), t);
      if Entry(t, sent[t]) in Translated(spec, args) {
        var e := TranslatedFrom(spec, args, Entry(t, sent[t]));
      }
    }
  }

  /** The two translations are the very same exactly when no null is forwarded. */
  lemma TranslatorsEqualIff(spec: ActionSpec, policy: ActionPolicy, args: seq<Entry>)
    requires Call(spec, policy, args)
    ensures NormalizePublicArguments(policy, Object(args)) == Ok(GatewayParams(spec, Remaining(spec, args))) <==>
            NoNullForwarded(spec, args)
  {
    assert Distinct(args) && Confirmed(spec, args);
    hide *;
    TranslatorsAgree(spec, policy, args);
    CallFacts(spec, policy, args);
    SentDistinct(spec, Remaining(spec, args));
    if NoNullForwarded(spec, args) {
      NullsRemain(spec, args);
      NoNullSent(spec, Remaining(spec, args));
    } else {
      NullsDiffer(spec, args);
    }
  }

  lemma NullsRemain(spec: ActionSpec, args: seq<Entry>)
    requires NoNullForwarded(spec, args)
    ensures NoNullForwarded(spec, Remaining(spec, args))
  {
    hide Forwards, Remaining;
    forall e | e in Remaining(spec, args) && e.value.Null? ensures !Forwards(spec, e) {
      RemainingMember(spec, args, e);
    }
  }

  lemma NullsDiffer(spec: ActionSpec, args: seq<Entry>)
    requires Distinct(args) && Confirmed(spec, args) && !NoNullForwarded(spec, args)
    requires Distinct(Translated(spec, Remaining(spec, args)) + Implied(ImpliedNames(spec)))
    ensures WithoutNulls(GatewayParams(spec, Remaining(spec, args))) != GatewayParams(spec, Remaining(spec, args))
  {
    hide Forwards, Translated, GatewayParams, WithoutNulls, Distinct, Confirmed, ImpliedNames, Flag, Remaining;
    var e :| e in args && e.value.Null? && Forwards(spec, e);
    FlagIsNotNull(spec, args, e);
    SomeNullSent(spec, Remaining(spec, args), e);
  }

  /** Every flag the relay asks for is set. */
  ghost predicate AllSet(policy: ActionPolicy, args: seq<Entry>) {
    forall f :: f in policy.requiredArgumentConfirmations ==> Get(args, f) == Some(Bool(true))
  }

  lemma {:induction false} UnsetIff(flags: seq<string>, args: seq<Entry>)
    ensures FirstUnset(flags, Object(args)) == None <==> (forall f :: f in flags ==> Get(args, f) == Some(Bool(true)))
    ensures var unset := FirstUnset(flags, Object(args));
            unset.Some? ==> unset.value in flags && Get(args, unset.value) != Some(Bool(true))
    decreases |flags|
  {
    hide Get;
    if flags != [] {
      assert flags == [flags[0]] + flags[1..] && flags[0] in flags;
      UnsetIff(flags[1..], args);
    }
  }

  /** Of what the server accepts and confirms, the relay takes from an authorized principal with
      an approved confirmation exactly the calls whose every confirmation argument is true, and
      sends the same arguments; any other it refuses, naming an argument that is not. A row may ask
      for more confirmation arguments than the server's gate does. */
  lemma RelayTakesIffAllSet(spec: ActionSpec, policy: ActionPolicy, args: seq<Entry>, proof: Proof)
    requires Call(spec, policy, args) && proof.approved && !Blank(proof.source)
    ensures var r := Invoke(true, Some(policy), Some(proof), Object(args));
            if AllSet(policy, args) then r == Ok(WithoutNulls(GatewayParams(spec, Remaining(spec, args))))
            else
              && r.Err? && r.error.ConfirmationArgumentRequired?
              && r.error.field in policy.requiredArgumentConfirmations
              && Get(args, r.error.field) != Some(Bool(true))
  {
    hide Call, NormalizePublicArguments, GatewayParams, WithoutNulls, Blank, FirstUnset, Get;
    UnsetIff(policy.requiredArgumentConfirmations, args);
    TranslatorsAgree(spec, policy, args);
  }

  /** What the relay lets through has passed every gate, in any case. */
  lemma RelayGates(authorized: bool, policy: Option<ActionPolicy>, proof: Option<Proof>, arguments: Json, flag: string)
    requires Invoke(authorized, policy, proof, arguments).Ok?
    ensures authorized && policy.Some? && arguments.Object?
    ensures forall i :: 0 <= i < |arguments.fields| ==> arguments.fields[i].key in policy.value.allowedArguments
    ensures forall name :: name in policy.value.requiredArguments ==> Get(arguments.fields, name).Some?
    ensures policy.value.class_ in {PersistentWrite, RiskyWrite} ==>
              proof.Some? && proof.value.approved && !Blank(proof.value.source)
    ensures flag in policy.value.requiredArgumentConfirmations ==> Get(arguments.fields, flag) == Some(Bool(true))
  {
    hide Blank, Get, Collected, Picked;
    NoneUnset(policy.value.requiredArgumentConfirmations, arguments, flag);
  }

  lemma {:induction false} NoneUnset(flags: seq<string>, arguments: Json, flag: string)
    requires FirstUnset(flags, arguments) == None
    ensures flag in flags ==> arguments.Object? && Get(arguments.fields, flag) == Some(Bool(true))
    decreases |flags|
  {
    hide Get;
    if flags != [] {
      assert flags == [flags[0]] + flags[1..];
      NoneUnset(flags[1..], arguments, flag);
    }
  }

  // --------------------------------------------------------------------- three rows

  function RenameNames(): seq<string> {
    ["new_name", "expected_preset_name", "expected_position", CONFIRM_PERSISTENT]
  }

  function RenameSpec(): ActionSpec {
    ActionSpec(RENAME, PersistentWrite, [
      Property(RenameNames()[0], AnyString, true),
      Property(RenameNames()[1], AnyString, true),
      Property(RenameNames()[2], Integer(0, None), true),
      Property(RenameNames()[3], Boolean, true)])
  }

  function RenamePolicy(): ActionPolicy {
    ActionPolicy(RENAME, PersistentWrite, [CONFIRM_PERSISTENT], RenameNames(), RenameNames(),
      [(RenameNames()[0], "name"), (RenameNames()[1], "expectedPresetName"), (RenameNames()[2], "expectedPosition")],
      ["confirmRename"])
  }

  const LIST_MODELS_SPEC := ActionSpec(LIST_MODELS, Read, [Property("query", NullableString, true)])

  const LIST_MODELS_POLICY := ActionPolicy(LIST_MODELS, Read, [], ["query"], ["query"], [], [])

  const TEMPO := "set_tempo_metronome"

  function Signatures(): seq<string> {
    ["2/4", "3/4", "4/4", "5/4", "6/4", "7/4", "8/4", "9/4", "10/4", "11/4", "12/4", "13/4", "3/8", "6/8", "9/8",
     "12/8", "5/8 (3+2)", "5/8 (2+3)", "7/8 (3+2+2)", "7/8 (2+3+2)", "7/8 (2+2+3)"]
  }

  function TempoNames(): seq<string> {
    ["led_enabled", "volume_db", "running", "pan", "time_signature", "subdivision", "sound", "routing", "beats",
        CONFIRM_PERSISTENT]
  }

  function TempoKinds(): seq<Kind> {
    [NullableBoolean, NullableNumber(-60.0, Some(9.0)), NullableBoolean, NullableNumber(-1.0, Some(1.0)),
     NullableStringEnum(Signatures()),
     NullableStringEnum(["1/4", "1/8", "1/8T", "1/16"]),
     NullableStringEnum(["BLIP", "BLOCK", "COWBELL", "DIGITAL", "DRUM KIT", "SOFT KIT"]),
     NullableStringEnum(["MULTI", "HP", "OUT 1/2", "OUT 3/4", "SEND 1/2"]),
     NullableStringArray(13, ["OFF", "MUTE", "DOWN", "ON"]),
     Boolean]
  }

  function TempoTargets(): seq<string> {
    ["ledEnabled", "volumeDb", "running", "pan", "timeSignature", "subdivision", "sound", "routing", "beats"]
  }

  function TempoSpec(): ActionSpec {
    ActionSpec(TEMPO, PersistentWrite,
        seq(10, i requires 0 <= i < 10 => Property(TempoNames()[i], TempoKinds()[i], true)))
  }

  function TempoPolicy(): ActionPolicy {
    ActionPolicy(TEMPO, PersistentWrite, [CONFIRM_PERSISTENT], TempoNames(), TempoNames(),
      seq(9, i requires 0 <= i < 9 => (TempoNames()[i], TempoTargets()[i])), [])
  }

  lemma RenameNamesConvert()
    ensures var n := RenameNames();
            && SnakeName(n[0]) && SnakeName(n[1]) && SnakeName(n[2]) && SnakeName(n[3])
            && SnakeToCamel(n[1]) == "expectedPresetName" && SnakeToCamel(n[2]) == "expectedPosition"
  {
    hide SnakeName, SnakeToCamel;
    TwoWords("new", "name");
    assert "new" + "_" + "name" == "new_name";
    TwoWords("expected", "position");
    assert "expected" + "_" + "position" == "expected_position";
    assert "expected" + (['P'] + "position"[1..]) == "expectedPosition";
    PresetNames();
  }

  lemma PresetNames()
    ensures SnakeName("expected_preset_name") && SnakeName(CONFIRM_PERSISTENT)
    ensures SnakeToCamel("expected_preset_name") == "expectedPresetName"
  {
    hide SnakeName, SnakeToCamel;
    ThreeWords("expected", "preset", "name");
    assert "expected" + "_" + ("preset" + "_" + "name") == "expected_preset_name";
    assert "expected" + (['P'] + ("preset"[1..] + (['N'] + "name"[1..]))) == "expectedPresetName";
    FlagName();
  }

  lemma FlagName()
    ensures SnakeName(CONFIRM_PERSISTENT)
  {
    hide SnakeName, SnakeToCamel;
    ThreeWords("confirm", "persistent", "write");
    assert "confirm" + "_" + ("persistent" + "_" + "write") == CONFIRM_PERSISTENT;
  }

  /** A table that lists, in order, every property but the last, which is the flag. */
  lemma TableInOrder(spec: ActionSpec, table: seq<(string, string)>)
    requires PropertiesNamedWell(spec) && spec.name != LIST_MODELS && |spec.properties| == |table| + 1
    requires Flag(spec.classification) == Some(spec.properties[|table|].name)
    requires forall i :: 0 <= i < |table| ==>
              table[i] == (spec.properties[i].name, Target(spec, spec.properties[i].name))
    ensures TableFollowsRule(spec, table)
  {
    hide SnakeName, Target;
    forall i | 0 <= i < |table| ensures Known(spec, table[i].0) && !Consumed(spec, table[i].0) {
      assert spec.properties[i].name == table[i].0;
    }
    forall p | p in spec.properties && !Consumed(spec, p.name)
      ensures exists i :: 0 <= i < |table| && table[i].0 == p.name
    {
      var i :| 0 <= i < |spec.properties| && spec.properties[i] == p;
      assert table[i].0 == p.name;
    }
  }

  /** The two rows take the same arguments, all of them required, with the flag last. */
  ghost predicate ListedInOrder(spec: ActionSpec, policy: ActionPolicy, names: seq<string>) {
    && policy.name == spec.name && policy.class_ == spec.classification && spec.name != LIST_MODELS
    && names != [] && Flag(spec.classification) == Some(names[|names| - 1])
    && policy.allowedArguments == policy.requiredArguments == names
    && |spec.properties| == |names| == |policy.gatewayArguments| + 1
    && (forall i :: 0 <= i < |names| ==> spec.properties[i].name == names[i] && spec.properties[i].required)
    && (forall i :: 0 <= i < |names| - 1 ==> policy.gatewayArguments[i] == (names[i], Target(spec, names[i])))
    && policy.gatewayTrueArguments == ImpliedNames(spec)
  }

  lemma RowInOrder(spec: ActionSpec, policy: ActionPolicy, names: seq<string>)
    requires ListedInOrder(spec, policy, names) && PropertiesNamedWell(spec)
    ensures WellFormedRow(spec, policy)
  {
    hide PropertiesNamedWell, Target, TableFollowsRule, ImpliedNames;
    TableInOrder(spec, policy.gatewayArguments);
    forall p | p in spec.properties ensures p.name in policy.allowedArguments {
      var i :| 0 <= i < |spec.properties| && spec.properties[i] == p;
      assert names[i] == p.name;
    }
    forall name | name in policy.requiredArguments
      ensures exists p :: p in spec.properties && p.name == name && p.required
    {
      var i :| 0 <= i < |names| && names[i] == name;
      assert spec.properties[i] in spec.properties;
    }
  }

  lemma NamedWell(spec: ActionSpec, names: seq<string>)
    requires |spec.properties| == |names| && forall i :: 0 <= i < |names| ==> spec.properties[i].name == names[i]
    requires forall i :: 0 <= i < |names| ==> SnakeName(names[i])
    requires forall i, j :: 0 <= i < j < |names| ==> names[i] != names[j]
    requires spec.name == RENAME ==> "name" !in names && "confirm_rename" !in names
    ensures PropertiesNamedWell(spec)
  {
    hide SnakeName;
    if spec.name == RENAME {
      forall key | Known(spec, key) ensures key in names {
        var i :| 0 <= i < |spec.properties| && spec.properties[i].name == key;
        assert key == names[i];
      }
    }
  }

  lemma RenameNamesDiffer()
    ensures var n := RenameNames(); forall i, j :: 0 <= i < j < |n| ==> n[i] != n[j]
    ensures "name" !in RenameNames() && "confirm_rename" !in RenameNames()
  {
    var n := RenameNames();
    assert |n[0]| == 8 && |n[1]| == 20 && |n[2]| == 17 && |n[3]| == 24 && |"name"| == 4 && |"confirm_rename"| == 14;
  }

  lemma RenameTargets(spec: ActionSpec)
    requires spec.name == RENAME
    ensures var n := RenameNames();
            && Target(spec, n[0]) == "name" && Target(spec, n[1]) == "expectedPresetName"
                && Target(spec, n[2]) == "expectedPosition"
  {
    RenameNamesConvert();
    assert |RenameNames()[0]| == |"new_name"| == 8 && |RenameNames()[1]| == 20 && |RenameNames()[2]| == 17;
    hide SnakeName, SnakeToCamel;
  }

  lemma RenameShape()
    ensures |RenameNames()| == 4 && RenameNames()[3] == CONFIRM_PERSISTENT && RENAME != LIST_MODELS
  {
    assert |RENAME| != |LIST_MODELS|;
  }

  lemma RenameListed()
    ensures ListedInOrder(RenameSpec(), RenamePolicy(), RenameNames())
  {
    hide RenameNames, Target;
    RenameShape();
    RenameTargets(RenameSpec());
  }

  /** The row whose argument is renamed against the rule, and whose confirmation is implied. */
  lemma RenameRowIsWellFormed()
    ensures WellFormedRow(RenameSpec(), RenamePolicy())
  {
    RenameNamesConvert();
    RenameNamesDiffer();
    RenameListed();
    RenameShape();
    hide RenameNames, RenameSpec, RenamePolicy, SnakeName, SnakeToCamel, Target;
    NamedWell(RenameSpec(), RenameNames());
    RowInOrder(RenameSpec(), RenamePolicy(), RenameNames());
  }

  lemma ListModelsNamedWell()
    ensures PropertiesNamedWell(LIST_MODELS_SPEC)
  {
    WordIsSnake("query");
    assert |RENAME| != |LIST_MODELS|;
    hide SnakeName, SnakeToCamel, PropertiesNamedWell, Known;
    NamedWell(LIST_MODELS_SPEC, ["query"]);
  }

  /** The row whose only argument the server consumes. */
  lemma ListModelsRowIsWellFormed()
    ensures WellFormedRow(LIST_MODELS_SPEC, LIST_MODELS_POLICY)
  {
    ListModelsNamedWell();
    assert |RENAME| != |LIST_MODELS|;
    hide PropertiesNamedWell;
    var ps := LIST_MODELS_SPEC.properties;
    assert forall p :: p in ps ==> p == ps[0];
  }

  lemma TempoJoinedNames()
    ensures SnakeName("led_enabled") && SnakeToCamel("led_enabled") == "ledEnabled"
    ensures SnakeName("volume_db") && SnakeToCamel("volume_db") == "volumeDb"
    ensures SnakeName("time_signature") && SnakeToCamel("time_signature") == "timeSignature"
  {
    hide SnakeName, SnakeToCamel;
    TwoWords("led", "enabled");
    assert "led" + "_" + "enabled" == "led_enabled" && "led" + (['E'] + "enabled"[1..]) == "ledEnabled";
    TwoWords("volume", "db");
    assert "volume" + "_" + "db" == "volume_db" && "volume" + (['D'] + "db"[1..]) == "volumeDb";
    TwoWords("time", "signature");
    assert "time" + "_" + "signature" == "time_signature" && "time" + (['S'] + "signature"[1..]) == "timeSignature";
  }

  lemma TempoNamesConvert(i: nat)
    requires i < 10
    ensures SnakeName(TempoNames()[i])
    ensures i < 9 ==> SnakeToCamel(TempoNames()[i]) == TempoTargets()[i]
  {
    hide SnakeName, SnakeToCamel;
    TempoJoinedNames();
    FlagName();
    if i == 2 { WordIsSnake("running"); }
    if i == 3 { WordIsSnake("pan"); }
    if i == 5 { WordIsSnake("subdivision"); }
    if i == 6 { WordIsSnake("sound"); }
    if i == 7 { WordIsSnake("routing"); }
    if i == 8 { WordIsSnake("beats"); }
  }

  lemma TempoNamesDiffer(i: nat, j: nat)
    requires i < j < 10
    ensures TempoNames()[i] != TempoNames()[j]
  {
    var n := TempoNames();
    assert |n[0]| == 11 && |n[1]| == 9 && |n[2]| == 7 && |n[3]| == 3 && |n[4]| == 14 && |n[5]| == 11 && |n[6]| == 5
        && |n[7]| == 7
           && |n[8]| == 5 && |n[9]| == 24;
    assert n[0][0] == 'l' && n[5][0] == 's' && n[2][1] == 'u' && n[7][1] == 'o' && n[6][0] == 's' && n[8][0] == 'b';
  }

  lemma TempoShape()
    ensures |TempoNames()| == 10 && |TempoTargets()| == 9 && TempoNames()[9] == CONFIRM_PERSISTENT
    ensures TempoSpec().name != LIST_MODELS && TempoSpec().name != RENAME
  {
    assert |TEMPO| != |LIST_MODELS| && |TEMPO| != |RENAME|;
  }

  /** The row with the kinds whose explicit null the server does not forward. */
  lemma TempoRowIsWellFormed()
    ensures WellFormedRow(TempoSpec(), TempoPolicy())
  {
    TempoShape();
    hide TempoNames, TempoTargets, TempoKinds, SnakeName, SnakeToCamel;
    forall i | 0 <= i < 10
      ensures SnakeName(TempoNames()[i]) && (i < 9 ==> SnakeToCamel(TempoNames()[i]) == TempoTargets()[i])
    {
      TempoNamesConvert(i);
    }
    forall i, j | 0 <= i < j < 10 ensures TempoNames()[i] != TempoNames()[j] { TempoNamesDiffer(i, j); }
    NamedWell(TempoSpec(), TempoNames());
    RowInOrder(TempoSpec(), TempoPolicy(), TempoNames());
  }

  // ------------------------------------------------------- two calls told apart

  function RestoreNames(): seq<string> {
    ["confirm_preference_reset", CONFIRM_RISKY]
  }

  function RestoreSpec(): ActionSpec {
    ActionSpec("restore_tuner_audio", RiskyWrite,
      [Property(RestoreNames()[0], Boolean, true), Property(RestoreNames()[1], Boolean, true)])
  }

  function RestorePolicy(): ActionPolicy {
    ActionPolicy("restore_tuner_audio", RiskyWrite, RestoreNames(), RestoreNames(), RestoreNames(),
      [(RestoreNames()[0], "confirmPreferenceReset")], [])
  }

  lemma RestoreNamesConvert()
    ensures SnakeName(RestoreNames()[0]) && SnakeToCamel(RestoreNames()[0]) == "confirmPreferenceReset"
    ensures SnakeName(CONFIRM_RISKY)
  {
    hide SnakeName, SnakeToCamel;
    ThreeWords("confirm", "preference", "reset");
    assert "confirm" + "_" + ("preference" + "_" + "reset") == "confirm_preference_reset";
    assert "confirm" + (['P'] + ("preference"[1..] + (['R'] + "reset"[1..]))) == "confirmPreferenceReset";
    RiskyName();
  }

  lemma RiskyName()
    ensures SnakeName(CONFIRM_RISKY)
  {
    hide SnakeName, SnakeToCamel;
    ThreeWords("confirm", "risky", "operation");
    assert "confirm" + "_" + ("risky" + "_" + "operation") == CONFIRM_RISKY;
  }

  lemma RestoreShape()
    ensures |RestoreNames()| == 2 && RestoreNames()[1] == CONFIRM_RISKY && RestoreNames()[0] != RestoreNames()[1]
    ensures RestoreSpec().name != LIST_MODELS && RestoreSpec().name != RENAME
    ensures SpecialRule(RestoreSpec(), []) == None && forall args :: SpecialRule(RestoreSpec(), args) == None
  {
    assert |"confirm_preference_reset"| == 24 && |CONFIRM_RISKY| == 23;
    var name := RestoreSpec().name;
    assert |name| == 19 && |LIST_MODELS| == 11 && |RENAME| == 21 && |"navigate_bank"| == 13 && |"copy_scene"| == 10
           && |"set_scene_label"| == 15;
    hide LabelRefused, Get;
  }

  /** A row that asks for a second confirmation argument. */
  lemma RestoreRowIsWellFormed()
    ensures WellFormedRow(RestoreSpec(), RestorePolicy())
  {
    RestoreNamesConvert();
    RestoreShape();
    hide RestoreNames, SnakeName, SnakeToCamel;
    NamedWell(RestoreSpec(), RestoreNames());
    RowInOrder(RestoreSpec(), RestorePolicy(), RestoreNames());
  }

  /** The second argument declined, the write confirmed. */
  function DeclinedReset(): seq<Entry> {
    [Entry(RestoreNames()[0], Bool(false)), Entry(RestoreNames()[1], Bool(true))]
  }

  lemma DeclinedResetIsCall()
    ensures Call(RestoreSpec(), RestorePolicy(), DeclinedReset())
    ensures Get(DeclinedReset(), RestoreNames()[0]) == Some(Bool(false))
  {
    RestoreRowIsWellFormed();
    RestoreShape();
    hide RestoreNames, WellFormedRow, SpecialRule;
    var args, ps := DeclinedReset(), RestoreSpec().properties;
    GetMember(args, args[0]);
    GetMember(args, args[1]);
    assert ps[0].name == args[0].key && ps[1].name == args[1].key;
    hide Get;
  }

  /** The server takes this call and the relay refuses it: a preference reset declined by `false`
      satisfies the server, whose gate looks at the flag of the write only. */
  lemma RelayRefusesDeclinedReset(proof: Proof)
    requires proof.approved && !Blank(proof.source)
    ensures Call(RestoreSpec(), RestorePolicy(), DeclinedReset())
    ensures Invoke(true, Some(RestorePolicy()), Some(proof), Object(DeclinedReset())) ==
            Err(ConfirmationArgumentRequired(RestoreNames()[0]))
  {
    DeclinedResetIsCall();
    hide RestoreNames, Call, Get, Blank;
    assert RestorePolicy().requiredArgumentConfirmations == RestoreNames();
    RestoreShape();
  }

  /** A tempo change that leaves every field as it is. */
  function UnchangedTempo(): seq<Entry> {
    seq(9, i requires 0 <= i < 9 => Entry(TempoNames()[i], Null)) + [Entry(CONFIRM_PERSISTENT, Bool(true))]
  }

  lemma TempoKindsTakeNull(i: nat)
    requires i < 9
    ensures |TempoKinds()| == 10 && Fits(TempoKinds()[i], Null) && TempoKinds()[9] == Boolean
    ensures TempoKinds()[0] == NullableBoolean
  {
  }

  lemma TempoRules(args: seq<Entry>)
    ensures SpecialRule(TempoSpec(), args) == None
  {
    assert |TEMPO| == 19 && |"navigate_bank"| == 13 && |"copy_scene"| == 10 && |"set_scene_label"| == 15;
    hide LabelRefused, Get, TempoNames, TempoKinds;
  }

  lemma UnchangedTempoDistinct()
    ensures |TempoNames()| == 10 && |UnchangedTempo()| == 10 && Distinct(UnchangedTempo())
    ensures forall i :: 0 <= i < 10 ==> UnchangedTempo()[i].key == TempoNames()[i]
  {
    TempoShape();
    hide TempoNames;
    forall i, j | 0 <= i < j < 10 ensures UnchangedTempo()[i].key != UnchangedTempo()[j].key { TempoNamesDiffer(i, j); }
  }

  lemma UnchangedTempoFits(i: nat)
    requires i < 10
    ensures |TempoSpec().properties| == 10 && Satisfies(TempoSpec().properties[i], UnchangedTempo())
    ensures Known(TempoSpec(), TempoNames()[i])
  {
    UnchangedTempoDistinct();
    TempoKindsTakeNull(if i < 9 then i else 0);
    hide TempoNames, TempoKinds, Distinct;
    var e := UnchangedTempo()[i];
    assert TempoSpec().properties[i] == Property(e.key, TempoKinds()[i], true);
    GetMember(UnchangedTempo(), e);
    hide Get;
  }

  lemma UnchangedTempoIsCall()
    ensures Call(TempoSpec(), TempoPolicy(), UnchangedTempo())
  {
    TempoRowIsWellFormed();
    TempoShape();
    UnchangedTempoDistinct();
    TempoRules(UnchangedTempo());
    GetMember(UnchangedTempo(), UnchangedTempo()[9]);
    hide TempoNames, WellFormedRow, Distinct, Get, SpecialRule, Satisfies, Known;
    forall i | 0 <= i < 10
      ensures Known(TempoSpec(), UnchangedTempo()[i].key)
      ensures Satisfies(TempoSpec().properties[i], UnchangedTempo())
    {
      UnchangedTempoFits(i);
    }
  }

  lemma LedNullIsForwarded()
    ensures !NoNullForwarded(TempoSpec(), UnchangedTempo())
  {
    UnchangedTempoDistinct();
    TempoKindsTakeNull(0);
    TempoShape();
    hide TempoNames, TempoKinds, Distinct;
    var e := UnchangedTempo()[0];
    assert TempoSpec().properties[0] == Property(e.key, NullableBoolean, true);
    assert NullForwarded(TempoSpec(), e.key) && !Discovery(TempoSpec(), e.key);
    assert e in UnchangedTempo() && Forwards(TempoSpec(), e);
  }

  /** On it the two translations differ: the server forwards the nulls of four fields. */
  lemma UnchangedTempoToldApart()
    ensures Call(TempoSpec(), TempoPolicy(), UnchangedTempo())
    ensures NormalizePublicArguments(TempoPolicy(), Object(UnchangedTempo())) !=
            Ok(GatewayParams(TempoSpec(), Remaining(TempoSpec(), UnchangedTempo())))
  {
    hide *;
    UnchangedTempoIsCall();
    LedNullIsForwarded();
    TranslatorsEqualIff(TempoSpec(), TempoPolicy(), UnchangedTempo());
  }
}
