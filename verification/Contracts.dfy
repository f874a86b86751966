/** Contract specifications as authors write them, and the meaning of compiling one: the
    full expansion of a specification with every shared reference replaced by the schema
    it names, computed without any cache. */
module Contracts {
  import opened Json
  import opened Schemas
  import Calendar

  datatype Specs = NoSpecs | SpecList(list: seq<Spec>)

  datatype Fields = NoFields | SpecFields(fields: map<string, Spec>)

  datatype Override = Override(value: Option<Json>, reason: string)

  datatype Spec = Spec(
    kind: string,
    jsonValue: bool,
    ref: string,
    description: string,
    properties: Fields,
    required: Option<seq<string>>,
    items: Option<Spec>,
    additionalProperties: Option<bool>,
    additionalPropertySpec: Option<Spec>,
    enum: Option<seq<Json>>,
    pattern: string,
    minLength: Option<int>,
    maxLength: Option<int>,
    minimum: Option<real>,
    maximum: Option<real>,
    minItems: Option<int>,
    maxItems: Option<int>,
    uniqueItems: Option<bool>,
    format: string,
    unit: string,
    default: Option<Json>,
    defaultOverride: Option<Override>,
    constant: Option<Json>,
    allOf: Specs,
    oneOf: Specs,
    anyOf: Specs,
    notSpec: Option<Spec>,
    ifSpec: Option<Spec>,
    thenSpec: Option<Spec>)

  datatype Mode = Shared | Input | Output

  /** The shared definitions, the regular-expression engine and its syntax check. */
  datatype Env = Env(specs: map<string, Spec>, matches: Matcher, compiles: string -> bool)

  datatype Failure = TooDeep | Rejected

  // -------------------------------------------------------------- small checks

  predicate IsSpace(c: char) {
    c in {' ', '\t', '\n', '\r', '\U{0B}', '\U{0C}', '\U{85}', '\U{A0}', '\U{1680}', '\U{2028}', '\U{2029}',
          '\U{202F}', '\U{205F}', '\U{3000}'} || '\U{2000}' <= c <= '\U{200A}'
  }

  function TrimLeft(text: string): string {
    if text != "" && IsSpace(text[0]) then TrimLeft(text[1..]) else text
  }

  function TrimRight(text: string): string {
    if text != "" && IsSpace(text[|text| - 1]) then TrimRight(text[..|text| - 1]) else text
  }

  function TrimSpace(text: string): string {
    TrimRight(TrimLeft(text))
  }

  predicate AllSpace(text: string) {
    forall i | 0 <= i < |text| :: IsSpace(text[i])
  }

  /** Nothing but space is trimmed, and no space is left at either end. */
  lemma TrimSpaceMeans(text: string) returns (before: string, after: string)
    ensures text == before + TrimSpace(text) + after && AllSpace(before) && AllSpace(after)
    ensures TrimSpace(text) != "" ==> !IsSpace(TrimSpace(text)[0]) && !IsSpace(TrimSpace(text)[|TrimSpace(text)| - 1])
  {
    hide IsSpace;
    before := TrimLeftMeans(text);
    after := TrimRightMeans(TrimLeft(text));
    assert TrimSpace(text) != "" ==> TrimSpace(text)[0] == TrimLeft(text)[0];
  }

  lemma {:induction false} TrimLeftMeans(text: string) returns (before: string)
    ensures text == before + TrimLeft(text) && AllSpace(before)
    ensures TrimLeft(text) != "" ==> !IsSpace(TrimLeft(text)[0])
    decreases |text|
  {
    hide IsSpace;
    if text != "" && IsSpace(text[0]) {
      var rest := TrimLeftMeans(text[1..]);
      before := [text[0]] + rest;
      assert text == [text[0]] + text[1..];
    } else {
      before := "";
    }
  }

  lemma {:induction false} TrimRightMeans(text: string) returns (after: string)
    ensures text == TrimRight(text) + after && AllSpace(after)
    ensures TrimRight(text) != "" ==> !IsSpace(TrimRight(text)[|TrimRight(text)| - 1])
    decreases |text|
  {
    hide IsSpace;
    if text != "" && IsSpace(text[|text| - 1]) {
      var rest := TrimRightMeans(text[..|text| - 1]);
      after := rest + [text[|text| - 1]];
      assert text == text[..|text| - 1] + [text[|text| - 1]];
    } else {
      after := "";
    }
  }

  /** The number of bytes of the UTF-8 form of a text. */
  function ByteLength(text: string): nat {
    if text == "" then 0
    else ByteLength(text[1..]) +
         if text[0] < '\U{80}' then 1 else if text[0] < '\U{800}' then 2 else if text[0] < '\U{10000}' then 3 else 4
  }

  predicate ValidType(kind: string) {
    kind in {"array", "boolean", "integer", "null", "number", "object", "string"}
  }

  predicate ValidPropertyName(name: string) {
    && name != "" && 'a' <= name[0] <= 'z'
    && forall i | 1 <= i < |name| :: 'a' <= name[i] <= 'z' || '0' <= name[i] <= '9' || name[i] == '_'
  }

  method CountBytes(text: string) returns (bytes: nat)
    ensures bytes == ByteLength(text)
  {
    bytes := 0;
    for i := |text| downto 0
      invariant bytes == ByteLength(text[i..])
    {
      assert text[i..][0] == text[i] && text[i..][1..] == text[i + 1..];
      var code := text[i] as int;
      if code <= 0x7f {
        bytes := bytes + 1;
      } else if code <= 0x7ff {
        bytes := bytes + 2;
      } else if code <= 0xffff {
        bytes := bytes + 3;
      } else {
        bytes := bytes + 4;
      }
    }
    assert text[0..] == text;
  }

  /** Matches a name against a lower-case letter followed by lower-case letters, digits and underscores. */
  method MatchesName(name: string) returns (ok: bool)
    ensures ok == ValidPropertyName(name)
  {
    if |name| == 0 || name[0] < 'a' || name[0] > 'z' {
      return false;
    }
    for i := 1 to |name|
      invariant forall j | 1 <= j < i :: 'a' <= name[j] <= 'z' || '0' <= name[j] <= '9' || name[j] == '_'
    {
      var c := name[i];
      if !('a' <= c <= 'z') && !('0' <= c <= '9') && c != '_' {
        return false;
      }
    }
    return true;
  }

  predicate Ordered(low: Option<int>, high: Option<int>) {
    low.Some? && high.Some? ==> low.value <= high.value
  }

  predicate NonNegative(n: Option<int>) {
    n.Some? ==> n.value >= 0
  }

  predicate KindsOk(s: Schema, env: Env) {
    && (s.pattern != "" ==> ByteLength(s.pattern) <= 512 && s.kind == "string" && env.compiles(s.pattern))
    && (s.minLength.Some? || s.maxLength.Some? || s.format != "" ==> s.kind == "string")
    && NonNegative(s.minLength) && NonNegative(s.maxLength) && Ordered(s.minLength, s.maxLength)
    && (s.minimum.Some? || s.maximum.Some? ==>
          && s.kind in {"integer", "number"}
          && (s.kind == "integer" ==>
                (s.minimum.Some? ==> IsWhole(s.minimum.value)) && (s.maximum.Some? ==> IsWhole(s.maximum.value)))
          && (s.minimum.Some? && s.maximum.Some? ==> s.minimum.value <= s.maximum.value))
    && (s.minItems.Some? || s.maxItems.Some? || s.uniqueItems.Some? ==> s.kind == "array")
    && NonNegative(s.minItems) && NonNegative(s.maxItems) && Ordered(s.minItems, s.maxItems)
  }

  predicate LiteralsOk(s: Schema, re: Matcher) {
    && (forall i | 0 <= i < |s.enum| :: Accepts(s, s.enum[i], re))
    && (s.constant.Some? ==> Accepts(s, s.constant.value, re))
  }

  predicate ReasonOk(reason: string) {
    var trimmed := TrimSpace(reason);
    trimmed != "" && |trimmed| <= 256 && forall c | c in trimmed :: c != '\U{0}' && c != '\r' && c != '\n'
  }

  predicate OverrideAllowed(s: Schema, o: Option<Override>, re: Matcher) {
    o.Some? ==> o.value.value.Some? && ReasonOk(o.value.reason) && s.default.Some? && Accepts(s, o.value.value.value, re)
  }

  function Overridden(s: Schema, o: Option<Override>): Schema {
    if o.Some? then s.(default := o.value.value, overrideReason := TrimSpace(o.value.reason)) else s
  }

  // -------------------------------------------------------------- references

  predicate HasStructure(spec: Spec) {
    || spec.kind != "" || (spec.properties.SpecFields? && spec.properties.fields != map[])
    || spec.required.Some? || spec.items.Some? || spec.additionalProperties.Some?
    || spec.additionalPropertySpec.Some? || spec.format != "" || spec.allOf.SpecList? || spec.oneOf.SpecList?
    || spec.anyOf.SpecList? || spec.notSpec.Some? || spec.ifSpec.Some? || spec.thenSpec.Some?
  }

  function Newer<T>(current: Option<T>, candidate: Option<T>): Option<T> {
    if candidate.Some? then candidate else current
  }

  predicate NotBelow(current: Option<int>, candidate: Option<int>) {
    current.Some? && candidate.Some? ==> current.value <= candidate.value
  }

  predicate NotBelowReal(current: Option<real>, candidate: Option<real>) {
    current.Some? && candidate.Some? ==> current.value <= candidate.value
  }

  /** The bounds a reference adds may equal or tighten the shared ones, never loosen them. */
  predicate BoundsTighten(base: Schema, spec: Spec) {
    && NotBelow(base.minLength, spec.minLength) && NotBelow(spec.maxLength, base.maxLength)
    && NotBelowReal(base.minimum, spec.minimum) && NotBelowReal(spec.maximum, base.maximum)
    && NotBelow(base.minItems, spec.minItems) && NotBelow(spec.maxItems, base.maxItems)
    && !(base.uniqueItems == Some(true) && spec.uniqueItems == Some(false))
  }

  predicate NoDuplicates(values: seq<Json>) {
    forall i, j | 0 <= j < i < |values| :: !SchemaEqual(values[i], values[j])
  }

  predicate EnumTightens(base: Schema, values: seq<Json>) {
    && values != []
    && (forall i | 0 <= i < |values| :: TypeMatches(base.kind, values[i]))
    && (base.enum != [] ==> forall i | 0 <= i < |values| :: ContainsSchemaValue(base.enum, values[i]))
    && NoDuplicates(values)
  }

  function WithBounds(base: Schema, spec: Spec): Schema {
    base.(minLength := Newer(base.minLength, spec.minLength), maxLength := Newer(base.maxLength, spec.maxLength),
          minimum := Newer(base.minimum, spec.minimum), maximum := Newer(base.maximum, spec.maximum),
          minItems := Newer(base.minItems, spec.minItems), maxItems := Newer(base.maxItems, spec.maxItems),
          uniqueItems := if spec.uniqueItems.Some? && (base.uniqueItems.None? || spec.uniqueItems.value)
                         then spec.uniqueItems else base.uniqueItems)
  }

  /** A shared schema with the constraints a reference adds to it. */
  function Tightened(base: Schema, spec: Spec): Schema {
    WithBounds(base, spec).(
      refName := spec.ref,
      description := if spec.description != "" then spec.description else base.description,
      unit := if spec.unit != "" then spec.unit else base.unit,
      pattern := if spec.pattern != "" then spec.pattern else base.pattern,
      enum := if spec.enum.Some? then spec.enum.value else base.enum,
      constant := Newer(base.constant, spec.constant),
      default := Newer(base.default, spec.default))
  }

  /** No field the reference sets loosens or replaces what the shared schema says. */
  predicate FieldsTighten(base: Schema, spec: Spec, mode: Mode) {
    && (spec.unit != "" ==> spec.ref == "Duration" && spec.unit in {"seconds", "minutes"})
    && BoundsTighten(base, spec)
    && (spec.pattern != "" ==> base.pattern == "")
    && (spec.enum.Some? ==> EnumTightens(base, spec.enum.value))
    && (spec.constant.Some? ==> ConstantTightens(base, if spec.enum.Some? then spec.enum.value else base.enum, spec.constant.value))
    && (spec.default.Some? ==> mode != Output && base.default.None?)
  }

  predicate ConstantTightens(base: Schema, enum: seq<Json>, constant: Json) {
    && TypeMatches(base.kind, constant)
    && (base.constant.Some? ==> SchemaEqual(base.constant.value, constant))
    && (enum != [] ==> ContainsSchemaValue(enum, constant))
  }

  /** The narrowed schema is consistent and its literals satisfy it. */
  predicate NarrowedOk(s: Schema, spec: Spec, mode: Mode, env: Env) {
    && KindsOk(s, env)
    && LiteralsOk(s, env.matches)
    && (s.default.Some? ==> Accepts(s, s.default.value, env.matches))
    && (spec.defaultOverride.Some? ==> mode != Output)
    && OverrideAllowed(s, spec.defaultOverride, env.matches)
  }

  predicate TighteningAllowed(base: Schema, spec: Spec, mode: Mode, env: Env) {
    FieldsTighten(base, spec, mode) && NarrowedOk(Tightened(base, spec), spec, mode, env)
  }

  function RefNode(base: Schema, spec: Spec, mode: Mode, env: Env): (r: Result<Schema, Failure>)
    ensures r.Err? ==> r.error == Rejected
  {
    if TighteningAllowed(base, spec, mode, env) then Ok(Overridden(Tightened(base, spec), spec.defaultOverride))
    else Err(Rejected)
  }

  // -------------------------------------------------------------- inline nodes

  predicate JsonValueOnly(spec: Spec) {
    spec == Spec("", true, "", spec.description, NoFields, None, None, None, None, None, "", None, None, None, None,
                 None, None, None, "", "", None, None, None, NoSpecs, NoSpecs, NoSpecs, None, None, None)
  }

  function Insert(name: string, names: seq<string>): (sorted: seq<string>)
    ensures multiset(sorted) == multiset(names) + multiset{name}
  {
    if names == [] || Calendar.TextLess(name, names[0]) then
      [name] + names
    else
      assert names == [names[0]] + names[1..];
      [names[0]] + Insert(name, names[1..])
  }

  function SortNames(names: seq<string>): (sorted: seq<string>)
    ensures multiset(sorted) == multiset(names)
  {
    if names == [] then []
    else
      assert names == [names[0]] + names[1..];
      Insert(names[0], SortNames(names[1..]))
  }

  /** No name comes before the one in front of it. */
  predicate InTextOrder(names: seq<string>) {
    forall i | 0 < i < |names| :: !Calendar.TextLess(names[i], names[i - 1])
  }

  lemma {:induction false} TextLessAsymmetric(a: string, b: string)
    ensures !(Calendar.TextLess(a, b) && Calendar.TextLess(b, a))
  {
    if a != "" && b != "" {
      TextLessAsymmetric(a[1..], b[1..]);
    }
  }

  lemma {:induction false} InsertKeepsOrder(name: string, names: seq<string>)
    requires InTextOrder(names)
    ensures InTextOrder(Insert(name, names)) && Insert(name, names) != []
    ensures Insert(name, names)[0] == name || (names != [] && Insert(name, names)[0] == names[0])
  {
    hide Calendar.TextLess;
    if names != [] {
      if Calendar.TextLess(name, names[0]) {
        TextLessAsymmetric(name, names[0]);
      } else {
        var rest := names[1..];
        assert forall i | 0 < i < |rest| :: rest[i] == names[i + 1] && rest[i - 1] == names[i];
        InsertKeepsOrder(name, rest);
      }
    }
  }

  /** Sorting puts names into the order of their texts. */
  lemma {:induction false} SortNamesSorts(names: seq<string>)
    ensures InTextOrder(SortNames(names)) && multiset(SortNames(names)) == multiset(names)
  {
    if names != [] {
      SortNamesSorts(names[1..]);
      InsertKeepsOrder(names[0], SortNames(names[1..]));
    }
  }

  /** The compiled subschemas of a node. */
  datatype Children = Children(
    properties: map<string, Schema>,
    items: Option<Schema>,
    additional: Option<Schema>,
    allOf: seq<Schema>,
    oneOf: seq<Schema>,
    anyOf: seq<Schema>,
    notSchema: Option<Schema>,
    ifSchema: Option<Schema>,
    thenSchema: Option<Schema>)

  predicate NonEmptyIfGiven(specs: Specs) {
    specs.SpecList? ==> specs.list != []
  }

  predicate RequiredOk(names: seq<string>, properties: map<string, Schema>) {
    && names != []
    && (forall i, j | 0 <= j < i < |names| :: names[i] != names[j])
    && (forall i | 0 <= i < |names| :: names[i] in properties && properties[names[i]].default.None?)
  }

  predicate ObjectRulesOk(spec: Spec, c: Children) {
    if spec.kind == "object" then
      && (forall k | k in c.properties :: ValidPropertyName(k))
      && (spec.required.Some? ==> RequiredOk(spec.required.value, c.properties))
      && (spec.additionalPropertySpec.Some? ==> spec.additionalProperties.None?)
    else
      && (spec.properties.SpecFields? ==> spec.properties.fields == map[])
      && spec.required.None? && spec.additionalProperties.None? && spec.additionalPropertySpec.None?
  }

  predicate InlineEnumOk(spec: Spec) {
    spec.enum.Some? ==>
      && spec.enum.value != [] && spec.kind !in {"", "object", "array"}
      && (forall i | 0 <= i < |spec.enum.value| :: TypeMatches(spec.kind, spec.enum.value[i]))
      && NoDuplicates(spec.enum.value)
  }

  /** The compiled form of a node before its default is set. */
  function InlineSchema(spec: Spec, c: Children): Schema {
    Schema(
      spec.kind, false, "", spec.description,
      if spec.kind == "object" then c.properties else map[],
      if spec.required.Some? && spec.kind == "object" then SortNames(spec.required.value) else [],
      c.items,
      if spec.kind == "object" && spec.additionalProperties.None? && spec.additionalPropertySpec.None?
      then Some(false) else spec.additionalProperties,
      c.additional,
      if spec.enum.Some? then spec.enum.value else [],
      spec.pattern, spec.minLength, spec.maxLength, spec.minimum, spec.maximum,
      spec.minItems, spec.maxItems, spec.uniqueItems, spec.format, "", None, "", spec.constant,
      c.allOf, c.oneOf, c.anyOf, c.notSchema, c.ifSchema, c.thenSchema)
  }

  predicate HeaderOk(spec: Spec, mode: Mode, timestamps: bool) {
    && spec.unit == ""
    && (spec.kind != "" || (spec.allOf.SpecList? && spec.allOf.list != []) || (spec.oneOf.SpecList? && spec.oneOf.list != [])
        || (spec.anyOf.SpecList? && spec.anyOf.list != []) || spec.notSpec.Some? || spec.ifSpec.Some?)
    && (spec.kind != "" ==> ValidType(spec.kind))
    && (spec.format != "" ==> timestamps && spec.format == FORMAT_TIMESTAMP && spec.kind == "string")
    && (mode == Output ==> spec.default.None? && spec.defaultOverride.None?)
    && NonEmptyIfGiven(spec.allOf) && NonEmptyIfGiven(spec.oneOf) && NonEmptyIfGiven(spec.anyOf)
    && (spec.items.Some? <==> spec.kind == "array")
    && (spec.ifSpec.Some? <==> spec.thenSpec.Some?)
    && InlineEnumOk(spec)
    && (spec.constant.Some? && spec.kind != "" ==> TypeMatches(spec.kind, spec.constant.value))
  }

  predicate InlineAllowed(spec: Spec, c: Children, mode: Mode, timestamps: bool, env: Env) {
    && HeaderOk(spec, mode, timestamps)
    && ObjectRulesOk(spec, c)
    && var s := InlineSchema(spec, c);
    && KindsOk(s, env)
    && LiteralsOk(s, env.matches)
    && (spec.default.Some? ==> Accepts(s, spec.default.value, env.matches))
    && OverrideAllowed(s.(default := spec.default), spec.defaultOverride, env.matches)
  }

  function InlineNode(spec: Spec, c: Children, mode: Mode, timestamps: bool, env: Env): (r: Result<Schema, Failure>)
    ensures r.Err? ==> r.error == Rejected
  {
    if InlineAllowed(spec, c, mode, timestamps, env) then
      Ok(Overridden(InlineSchema(spec, c).(default := spec.default), spec.defaultOverride))
    else
      Err(Rejected)
  }

  // -------------------------------------------------------------- full expansion

  /** Expands a shared definition, following at most n references in a row. */
  function ExpandDef(env: Env, name: string, n: nat): Result<Schema, Failure>
    decreases n, 0
  {
    if n == 0 || name !in env.specs then Err(Rejected)
    else Expand(env, env.specs[name], Shared, name == "Timestamp", n - 1)
  }

  function Expand(env: Env, spec: Spec, mode: Mode, timestamps: bool, n: nat): Result<Schema, Failure>
    decreases n, 1, spec, 4
  {
    if spec.jsonValue then
      if JsonValueOnly(spec) then Ok(Blank().(jsonValue := true, description := spec.description)) else Err(Rejected)
    else if spec.ref != "" then
      if HasStructure(spec) then Err(Rejected)
      else
        var base := ExpandDef(env, spec.ref, n);
        if base.Err? then base else RefNode(base.value, spec, mode, env)
    else if ChildrenExpand(env, spec, mode, n) then
      InlineNode(spec, ExpandedChildren(env, spec, mode, n), mode, timestamps, env)
    else
      Err(Rejected)
  }

  predicate OptionExpands(env: Env, spec: Option<Spec>, mode: Mode, n: nat)
    decreases n, 1, spec, 0
  {
    spec.Some? ==> Expand(env, spec.value, mode, false, n).Ok?
  }

  function ExpandedOption(env: Env, spec: Option<Spec>, mode: Mode, n: nat): Option<Schema>
    requires OptionExpands(env, spec, mode, n)
    decreases n, 1, spec, 1
  {
    if spec.Some? then Some(Expand(env, spec.value, mode, false, n).value) else None
  }

  predicate ListExpands(env: Env, specs: Specs, mode: Mode, n: nat)
    decreases n, 1, specs, 0
  {
    specs.SpecList? ==> forall i | 0 <= i < |specs.list| :: Expand(env, specs.list[i], mode, false, n).Ok?
  }

  function ExpandedList(env: Env, specs: Specs, mode: Mode, n: nat): (schemas: seq<Schema>)
    requires ListExpands(env, specs, mode, n)
    decreases n, 1, specs, 1
  {
    if specs.NoSpecs? then []
    else seq(|specs.list|, i requires 0 <= i < |specs.list| && Expand(env, specs.list[i], mode, false, n).Ok? =>
               Expand(env, specs.list[i], mode, false, n).value)
  }

  predicate FieldsExpand(env: Env, fields: Fields, mode: Mode, n: nat)
    decreases n, 1, fields, 0
  {
    fields.SpecFields? ==> forall k | k in fields.fields :: Expand(env, fields.fields[k], mode, false, n).Ok?
  }

  function ExpandedFields(env: Env, fields: Fields, mode: Mode, n: nat): map<string, Schema>
    requires FieldsExpand(env, fields, mode, n)
    decreases n, 1, fields, 1
  {
    if fields.NoFields? then map[]
    else map k | k in fields.fields :: Expand(env, fields.fields[k], mode, false, n).value
  }

  predicate ChildrenExpand(env: Env, spec: Spec, mode: Mode, n: nat)
    decreases n, 1, spec, 2
  {
    && FieldsExpand(env, spec.properties, mode, n)
    && OptionExpands(env, spec.items, mode, n) && OptionExpands(env, spec.additionalPropertySpec, mode, n)
    && ListExpands(env, spec.allOf, mode, n) && ListExpands(env, spec.oneOf, mode, n) && ListExpands(env, spec.anyOf, mode, n)
    && OptionExpands(env, spec.notSpec, mode, n) && OptionExpands(env, spec.ifSpec, mode, n)
    && OptionExpands(env, spec.thenSpec, mode, n)
  }

  function ExpandedChildren(env: Env, spec: Spec, mode: Mode, n: nat): Children
    requires ChildrenExpand(env, spec, mode, n)
    decreases n, 1, spec, 3
  {
    Children(
      ExpandedFields(env, spec.properties, mode, n),
      ExpandedOption(env, spec.items, mode, n), ExpandedOption(env, spec.additionalPropertySpec, mode, n),
      ExpandedList(env, spec.allOf, mode, n), ExpandedList(env, spec.oneOf, mode, n), ExpandedList(env, spec.anyOf, mode, n),
      ExpandedOption(env, spec.notSpec, mode, n), ExpandedOption(env, spec.ifSpec, mode, n),
      ExpandedOption(env, spec.thenSpec, mode, n))
  }
}
