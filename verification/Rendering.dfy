/** Rendering a compiled schema as a JSON Schema document, and the meaning the standard
    gives to that document. */
module Rendering {
  import opened Json
  import opened Schemas
  import Calendar

  // ------------------------------------------------------------------ the renderer

  function OptText(text: string): Option<Json> {
    if text == "" then None else Some(Str(text))
  }

  function OptInt(n: Option<int>): Option<Json> {
    if n.None? then None else Some(Num(n.value as real))
  }

  function OptReal(n: Option<real>): Option<Json> {
    if n.None? then None else Some(Num(n.value))
  }

  function OptBool(b: Option<bool>): Option<Json> {
    if b.None? then None else Some(Bool(b.value))
  }

  function OptList(items: seq<Json>): Option<Json> {
    if items == [] then None else Some(Arr(items))
  }

  function RenderOption(s: Option<Schema>): Option<Json>
    decreases s
  {
    if s.None? then None else Some(Render(s.value))
  }

  function RenderList(branches: seq<Schema>): (docs: seq<Json>)
    ensures |docs| == |branches|
    ensures forall i | 0 <= i < |branches| :: docs[i] == Render(branches[i])
    decreases branches, 0
  {
    seq(|branches|, i requires 0 <= i < |branches| => Render(branches[i]))
  }

  function RenderProperties(s: Schema): Option<Json>
    decreases s, 0
  {
    if s.properties == map[] then None
    else Some(Obj(map k | k in s.properties :: Render(s.properties[k])))
  }

  function RenderAdditional(s: Schema): Option<Json>
    decreases s, 0
  {
    if s.additionalPropertySchema.Some? then Some(Render(s.additionalPropertySchema.value))
    else if s.additionalProperties.Some? then Some(Bool(s.additionalProperties.value))
    else if s.kind == "object" then Some(Bool(false))
    else None
  }

  const KEYWORDS: set<string> := {
    "type", "description", "properties", "required", "items", "additionalProperties",
    "enum", "pattern", "format", "minLength", "maxLength", "minimum", "maximum",
    "minItems", "maxItems", "uniqueItems", "x-unit", "default", "const",
    "allOf", "oneOf", "anyOf", "not", "if", "then" }

  /** The value the renderer stores under a keyword, if it stores one. */
  function Keyword(s: Schema, key: string): Option<Json>
    decreases s, 1
  {
    if key == "type" then OptText(s.kind)
    else if key == "description" then OptText(s.description)
    else if key == "properties" then RenderProperties(s)
    else if key == "required" then OptList(seq(|s.required|, i requires 0 <= i < |s.required| => Str(s.required[i])))
    else if key == "items" then RenderOption(s.items)
    else if key == "additionalProperties" then RenderAdditional(s)
    else if key == "enum" then OptList(s.enum)
    else if key == "pattern" then OptText(s.pattern)
    else if key == "format" then OptText(s.format)
    else if key == "minLength" then OptInt(s.minLength)
    else if key == "maxLength" then OptInt(s.maxLength)
    else if key == "minimum" then OptReal(s.minimum)
    else if key == "maximum" then OptReal(s.maximum)
    else if key == "minItems" then OptInt(s.minItems)
    else if key == "maxItems" then OptInt(s.maxItems)
    else if key == "uniqueItems" then OptBool(s.uniqueItems)
    else if key == "x-unit" then OptText(s.unit)
    else if key == "default" then s.default
    else if key == "const" then s.constant
    else if key == "allOf" then OptList(RenderList(s.allOf))
    else if key == "oneOf" then OptList(RenderList(s.oneOf))
    else if key == "anyOf" then OptList(RenderList(s.anyOf))
    else if key == "not" then RenderOption(s.notSchema)
    else if key == "if" then RenderOption(s.ifSchema)
    else if key == "then" then RenderOption(s.thenSchema)
    else None
  }

  function RenderFields(s: Schema): map<string, Json>
    decreases s, 2
  {
    map key | key in KEYWORDS && Keyword(s, key).Some? :: Keyword(s, key).value
  }

  function Render(s: Schema): Json
    decreases s, 3
  {
    Obj(RenderFields(s))
  }

  function Get(fields: map<string, Json>, key: string): Option<Json> {
    if key in fields then Some(fields[key]) else None
  }

  lemma GetRendered(s: Schema, key: string)
    requires key in KEYWORDS
    ensures Get(RenderFields(s), key) == Keyword(s, key)
  {
  }

  /** The annotations of a node are published as they are, and only where there are any. */
  lemma AnnotationsRendered(s: Schema)
    ensures var f := RenderFields(s);
            && ("description" in f <==> s.description != "") && (s.description != "" ==> f["description"] == Str(s.description))
            && ("x-unit" in f <==> s.unit != "") && (s.unit != "" ==> f["x-unit"] == Str(s.unit))
            && ("default" in f <==> s.default.Some?) && (s.default.Some? ==> f["default"] == s.default.value)
  {
    hide RenderFields;
    GetRendered(s, "description");
    GetRendered(s, "x-unit");
    GetRendered(s, "default");
  }

  // --------------------------------------------- the standard's reading of a document
  // Sections 10.2 and 10.3 of JSON Schema Core 2020-12 and section 6 of JSON Schema
  // Validation 2020-12, for the keywords that occur in rendered documents. A keyword
  // whose value does not have the form the standard asks for asserts nothing.

  ghost predicate IsInstanceOf(v: Json, name: string) {
    match v
    case Null => name == "null"
    case Bool(_) => name == "boolean"
    case Num(n) => name == "number" || (name == "integer" && IsWhole(n))
    case Str(_) => name == "string"
    case Arr(_) => name == "array"
    case Obj(_) => name == "object"
  }

  ghost predicate TypeHolds(kw: Option<Json>, v: Json) {
    && (kw.Some? && kw.value.Str? ==> IsInstanceOf(v, kw.value.s))
    && (kw.Some? && kw.value.Arr? ==>
          exists i | 0 <= i < |kw.value.items| :: kw.value.items[i].Str? && IsInstanceOf(v, kw.value.items[i].s))
  }

  predicate EnumHolds(kw: Option<Json>, v: Json) {
    kw.Some? && kw.value.Arr? ==> v in kw.value.items
  }

  predicate ConstHolds(kw: Option<Json>, v: Json) {
    kw.Some? ==> kw.value == v
  }

  predicate AtLeast(kw: Option<Json>, n: real) {
    kw.Some? && kw.value.Num? ==> kw.value.n <= n
  }

  predicate AtMost(kw: Option<Json>, n: real) {
    kw.Some? && kw.value.Num? ==> n <= kw.value.n
  }

  predicate PatternHolds(kw: Option<Json>, text: string, re: Matcher) {
    kw.Some? && kw.value.Str? ==> re(kw.value.s, text)
  }

  /** The compact timestamp format, read as an assertion. */
  ghost predicate FormatHolds(kw: Option<Json>, text: string) {
    kw == Some(Str(FORMAT_TIMESTAMP)) ==> Calendar.NamesRealSecond(text)
  }

  predicate UniqueHolds(kw: Option<Json>, items: seq<Json>) {
    kw == Some(Bool(true)) ==> forall i, j | 0 <= i < |items| && 0 <= j < |items| && i != j :: items[i] != items[j]
  }

  predicate RequiredHolds(kw: Option<Json>, fields: map<string, Json>) {
    kw.Some? && kw.value.Arr? ==>
      forall i | 0 <= i < |kw.value.items| :: kw.value.items[i].Str? ==> kw.value.items[i].s in fields
  }

  ghost predicate AssertionsHold(f: map<string, Json>, v: Json, re: Matcher) {
    && TypeHolds(Get(f, "type"), v)
    && EnumHolds(Get(f, "enum"), v)
    && ConstHolds(Get(f, "const"), v)
    && (v.Num? ==> AtLeast(Get(f, "minimum"), v.n) && AtMost(Get(f, "maximum"), v.n))
    && (v.Str? ==>
          && AtLeast(Get(f, "minLength"), |v.s| as real) && AtMost(Get(f, "maxLength"), |v.s| as real)
          && PatternHolds(Get(f, "pattern"), v.s, re) && FormatHolds(Get(f, "format"), v.s))
    && (v.Arr? ==>
          && AtLeast(Get(f, "minItems"), |v.items| as real) && AtMost(Get(f, "maxItems"), |v.items| as real)
          && UniqueHolds(Get(f, "uniqueItems"), v.items))
  }

  /** Whether the instance v is valid against the document. */
  ghost predicate Valid(doc: Json, v: Json, re: Matcher)
    decreases doc, 3
  {
    match doc
    case Bool(b) => b
    case Obj(f) => AssertionsHold(f, v, re) && LogicHolds(doc, v, re) && MembersHold(doc, v, re)
    case _ => false
  }

  ghost predicate AllValid(docs: Json, v: Json, re: Matcher)
    decreases docs, 0
  {
    docs.Arr? ==> forall i | 0 <= i < |docs.items| :: Valid(docs.items[i], v, re)
  }

  ghost predicate AnyValid(docs: Json, v: Json, re: Matcher)
    decreases docs, 0
  {
    docs.Arr? ==> exists i | 0 <= i < |docs.items| :: Valid(docs.items[i], v, re)
  }

  ghost predicate ExactlyOneValid(docs: Json, v: Json, re: Matcher)
    decreases docs, 0
  {
    docs.Arr? ==>
      UniquelyTrue(seq(|docs.items|, i requires 0 <= i < |docs.items| => Valid(docs.items[i], v, re)))
  }

  /** Section 10.2: the in-place applicators. */
  ghost predicate LogicHolds(doc: Json, v: Json, re: Matcher)
    requires doc.Obj?
    decreases doc, 2
  {
    var f := doc.fields;
    && ("not" in f ==> !Valid(f["not"], v, re))
    && ("allOf" in f ==> AllValid(f["allOf"], v, re))
    && ("anyOf" in f ==> AnyValid(f["anyOf"], v, re))
    && ("oneOf" in f ==> ExactlyOneValid(f["oneOf"], v, re))
    && ("if" in f && Valid(f["if"], v, re) && "then" in f ==> Valid(f["then"], v, re))
  }

  /** Section 10.3: the applicators for items and members, with the required keyword. */
  ghost predicate MembersHold(doc: Json, v: Json, re: Matcher)
    requires doc.Obj?
    decreases doc, 2
  {
    var f := doc.fields;
    && (v.Arr? && "items" in f ==> forall i | 0 <= i < |v.items| :: Valid(f["items"], v.items[i], re))
    && (v.Obj? ==>
          && RequiredHolds(Get(f, "required"), v.fields)
          && forall k | k in v.fields :: MemberHolds(doc, k, v.fields[k], re))
  }

  /** A member named by "properties" answers to that schema, any other to "additionalProperties". */
  ghost predicate MemberHolds(doc: Json, key: string, v: Json, re: Matcher)
    requires doc.Obj?
    decreases doc, 1
  {
    var f := doc.fields;
    if "properties" in f && f["properties"].Obj? && key in f["properties"].fields then
      Valid(f["properties"].fields[key], v, re)
    else
      "additionalProperties" in f ==> Valid(f["additionalProperties"], v, re)
  }

  // ------------------------------------------------- where the two readings can differ

  /** A json_value node carries no constraint at all. */
  predicate Unconstrained(s: Schema) {
    s == Blank().(jsonValue := true, refName := s.refName, description := s.description, unit := s.unit,
                  default := s.default, overrideReason := s.overrideReason)
  }

  /** What the compiler guarantees about each node it produces. */
  predicate NodeShape(s: Schema) {
    && (s.jsonValue ==> Unconstrained(s))
    && (s.ifSchema.Some? <==> s.thenSchema.Some?)
    && (s.kind != "object" ==>
          && s.properties == map[] && s.required == []
          && s.additionalProperties.None? && s.additionalPropertySchema.None?)
  }

  /** The validator and the document treat unknown keys alike: an untyped node must combine
      other schemas, and an object node that only combines others must be open. */
  predicate KeysRuleAgrees(s: Schema) {
    s.jsonValue ||
    if ComposedOnly(s) then s.kind == "object" ==> s.additionalProperties == Some(true)
    else s.kind != ""
  }

  ghost predicate Faithful(s: Schema)
    decreases s, 1
  {
    NodeShape(s) && KeysRuleAgrees(s) && ChildrenFaithful(s)
  }

  ghost predicate ChildrenFaithful(s: Schema)
    decreases s, 0
  {
    && (forall k | k in s.properties :: Faithful(s.properties[k]))
    && (s.items.Some? ==> Faithful(s.items.value))
    && (s.additionalPropertySchema.Some? ==> Faithful(s.additionalPropertySchema.value))
    && (forall i | 0 <= i < |s.allOf| :: Faithful(s.allOf[i]))
    && (forall i | 0 <= i < |s.oneOf| :: Faithful(s.oneOf[i]))
    && (forall i | 0 <= i < |s.anyOf| :: Faithful(s.anyOf[i]))
    && (s.notSchema.Some? ==> Faithful(s.notSchema.value))
    && (s.ifSchema.Some? ==> Faithful(s.ifSchema.value))
    && (s.thenSchema.Some? ==> Faithful(s.thenSchema.value))
  }

  // ------------------------------------------------- agreement, keyword by keyword

  lemma NumbersAgree(s: Schema, v: Json)
    requires v.Num?
    ensures WithinBounds(s, v.n) <==>
            AtLeast(Get(RenderFields(s), "minimum"), v.n) && AtMost(Get(RenderFields(s), "maximum"), v.n)
  {
    GetRendered(s, "minimum");
    GetRendered(s, "maximum");
  }

  lemma TextsAgree(s: Schema, v: Json, re: Matcher)
    requires v.Str?
    ensures var f := RenderFields(s);
            TextAccepted(s, v.s, re) <==>
            && AtLeast(Get(f, "minLength"), |v.s| as real) && AtMost(Get(f, "maxLength"), |v.s| as real)
            && PatternHolds(Get(f, "pattern"), v.s, re) && FormatHolds(Get(f, "format"), v.s)
  {
    GetRendered(s, "minLength");
    GetRendered(s, "maxLength");
    GetRendered(s, "pattern");
    GetRendered(s, "format");
    Calendar.ValidTimestampIsARealSecond(v.s);
  }

  lemma DistinctAgree(items: seq<Json>)
    ensures AllDistinct(items) <==>
            forall i, j | 0 <= i < |items| && 0 <= j < |items| && i != j :: items[i] != items[j]
  {
    forall i, j | 0 <= i < |items| && 0 <= j < |items|
      ensures SchemaEqual(items[i], items[j]) <==> items[i] == items[j]
    {
      SchemaEqualIsEquality(items[i], items[j]);
    }
  }

  lemma SizesAgree(s: Schema, v: Json)
    requires v.Arr?
    ensures var f := RenderFields(s);
            SizeAccepted(s, v.items) <==>
            && AtLeast(Get(f, "minItems"), |v.items| as real) && AtMost(Get(f, "maxItems"), |v.items| as real)
            && UniqueHolds(Get(f, "uniqueItems"), v.items)
  {
    GetRendered(s, "minItems");
    GetRendered(s, "maxItems");
    GetRendered(s, "uniqueItems");
    DistinctAgree(v.items);
  }

  lemma ValuesAgree(s: Schema, v: Json)
    ensures (s.kind != "" ==> TypeMatches(s.kind, v)) <==> TypeHolds(Get(RenderFields(s), "type"), v)
    ensures (s.enum != [] ==> ContainsSchemaValue(s.enum, v)) <==> EnumHolds(Get(RenderFields(s), "enum"), v)
    ensures (s.constant.Some? ==> SchemaEqual(s.constant.value, v)) <==> ConstHolds(Get(RenderFields(s), "const"), v)
  {
    GetRendered(s, "type");
    GetRendered(s, "enum");
    GetRendered(s, "const");
    ContainsIsMembership(s.enum, v);
    if s.constant.Some? {
      SchemaEqualIsEquality(s.constant.value, v);
    }
  }

  lemma AssertionsAgree(s: Schema, v: Json, re: Matcher)
    ensures AssertionsHold(RenderFields(s), v, re) <==> PlainAccepts(s, v, re)
  {
    ValuesAgree(s, v);
    match v
    case Num(_) => NumbersAgree(s, v);
    case Str(_) => TextsAgree(s, v, re);
    case Arr(_) => SizesAgree(s, v);
    case _ =>
  }

  // ------------------------------------------------- agreement of branches and members

  ghost predicate SameVerdicts(docs: seq<Json>, branches: seq<Schema>, v: Json, re: Matcher) {
    && |docs| == |branches|
    && forall i | 0 <= i < |branches| :: Valid(docs[i], v, re) <==> Accepts(branches[i], v, re)
  }

  lemma AllAgree(docs: seq<Json>, branches: seq<Schema>, v: Json, re: Matcher)
    requires SameVerdicts(docs, branches, v, re)
    ensures AllValid(Arr(docs), v, re) <==> AllAccept(branches, v, re)
  {
    hide Valid, Accepts;
  }

  lemma AnyAgree(docs: seq<Json>, branches: seq<Schema>, v: Json, re: Matcher)
    requires SameVerdicts(docs, branches, v, re)
    ensures AnyValid(Arr(docs), v, re) <==> AnyAccepts(branches, v, re)
  {
    hide Valid, Accepts;
    if i :| 0 <= i < |branches| && Accepts(branches[i], v, re) {
      assert Valid(docs[i], v, re);
    }
    if i :| 0 <= i < |docs| && Valid(docs[i], v, re) {
      assert Accepts(branches[i], v, re);
    }
  }

  lemma ExactlyOneAgree(docs: seq<Json>, branches: seq<Schema>, v: Json, re: Matcher)
    requires SameVerdicts(docs, branches, v, re)
    ensures ExactlyOneValid(Arr(docs), v, re) <==> ExactlyOneAccepts(branches, v, re)
  {
    hide UniquelyTrue;
    assert seq(|branches|, i requires 0 <= i < |branches| => Accepts(branches[i], v, re)) ==
           seq(|docs|, i requires 0 <= i < |docs| => Valid(docs[i], v, re));
  }

  lemma {:induction false} BranchesAgree(branches: seq<Schema>, v: Json, re: Matcher)
    requires forall i | 0 <= i < |branches| :: Faithful(branches[i])
    ensures SameVerdicts(RenderList(branches), branches, v, re)
    decreases branches, 0
  {
    hide Valid, Accepts, Render;
    forall i | 0 <= i < |branches|
      ensures Valid(RenderList(branches)[i], v, re) <==> Accepts(branches[i], v, re)
    {
      RenderingPreservesMeaning(branches[i], v, re);
    }
  }

  lemma {:induction false} BranchKeywordsAgree(s: Schema, v: Json, re: Matcher)
    requires ChildrenFaithful(s)
    ensures "allOf" in RenderFields(s) <==> s.allOf != []
    ensures s.allOf != [] ==> (AllValid(RenderFields(s)["allOf"], v, re) <==> AllAccept(s.allOf, v, re))
    ensures "anyOf" in RenderFields(s) <==> s.anyOf != []
    ensures s.anyOf != [] ==> (AnyValid(RenderFields(s)["anyOf"], v, re) <==> AnyAccepts(s.anyOf, v, re))
    ensures "oneOf" in RenderFields(s) <==> s.oneOf != []
    ensures s.oneOf != [] ==> (ExactlyOneValid(RenderFields(s)["oneOf"], v, re) <==> ExactlyOneAccepts(s.oneOf, v, re))
    decreases s, 0
  {
    hide Valid, Accepts, Faithful, Render, AllValid, AnyValid, ExactlyOneValid, AllAccept, AnyAccepts, ExactlyOneAccepts;
    GetRendered(s, "allOf");
    GetRendered(s, "anyOf");
    GetRendered(s, "oneOf");
    BranchesAgree(s.allOf, v, re);
    AllAgree(RenderList(s.allOf), s.allOf, v, re);
    BranchesAgree(s.anyOf, v, re);
    AnyAgree(RenderList(s.anyOf), s.anyOf, v, re);
    BranchesAgree(s.oneOf, v, re);
    ExactlyOneAgree(RenderList(s.oneOf), s.oneOf, v, re);
  }

  lemma {:induction false} ConditionKeywordsAgree(s: Schema, v: Json, re: Matcher)
    requires ChildrenFaithful(s)
    ensures "not" in RenderFields(s) <==> s.notSchema.Some?
    ensures s.notSchema.Some? ==> (Valid(RenderFields(s)["not"], v, re) <==> Accepts(s.notSchema.value, v, re))
    ensures "if" in RenderFields(s) <==> s.ifSchema.Some?
    ensures s.ifSchema.Some? ==> (Valid(RenderFields(s)["if"], v, re) <==> Accepts(s.ifSchema.value, v, re))
    ensures "then" in RenderFields(s) <==> s.thenSchema.Some?
    ensures s.thenSchema.Some? ==> (Valid(RenderFields(s)["then"], v, re) <==> Accepts(s.thenSchema.value, v, re))
    decreases s, 0
  {
    hide Valid, Accepts, Faithful, Render;
    GetRendered(s, "not");
    GetRendered(s, "if");
    GetRendered(s, "then");
    if s.notSchema.Some? {
      RenderingPreservesMeaning(s.notSchema.value, v, re);
    }
    if s.ifSchema.Some? {
      RenderingPreservesMeaning(s.ifSchema.value, v, re);
    }
    if s.thenSchema.Some? {
      RenderingPreservesMeaning(s.thenSchema.value, v, re);
    }
  }

  lemma LogicFromKeywords(s: Schema, doc: Json, v: Json, re: Matcher)
    requires doc.Obj? && (s.ifSchema.Some? <==> s.thenSchema.Some?)
    requires "allOf" in doc.fields <==> s.allOf != []
    requires s.allOf != [] ==> (AllValid(doc.fields["allOf"], v, re) <==> AllAccept(s.allOf, v, re))
    requires "anyOf" in doc.fields <==> s.anyOf != []
    requires s.anyOf != [] ==> (AnyValid(doc.fields["anyOf"], v, re) <==> AnyAccepts(s.anyOf, v, re))
    requires "oneOf" in doc.fields <==> s.oneOf != []
    requires s.oneOf != [] ==> (ExactlyOneValid(doc.fields["oneOf"], v, re) <==> ExactlyOneAccepts(s.oneOf, v, re))
    requires "not" in doc.fields <==> s.notSchema.Some?
    requires s.notSchema.Some? ==> (Valid(doc.fields["not"], v, re) <==> Accepts(s.notSchema.value, v, re))
    requires "if" in doc.fields <==> s.ifSchema.Some?
    requires s.ifSchema.Some? ==> (Valid(doc.fields["if"], v, re) <==> Accepts(s.ifSchema.value, v, re))
    requires "then" in doc.fields <==> s.thenSchema.Some?
    requires s.thenSchema.Some? ==> (Valid(doc.fields["then"], v, re) <==> Accepts(s.thenSchema.value, v, re))
    ensures LogicHolds(doc, v, re) <==> CompositionAccepts(s, v, re)
  {
  }

  lemma {:induction false} LogicAgrees(s: Schema, v: Json, re: Matcher)
    requires NodeShape(s) && ChildrenFaithful(s)
    ensures LogicHolds(Render(s), v, re) <==> CompositionAccepts(s, v, re)
    decreases s, 1
  {
    hide Valid, Accepts, Faithful, AllValid, AnyValid, ExactlyOneValid, AllAccept, AnyAccepts, ExactlyOneAccepts;
    BranchKeywordsAgree(s, v, re);
    ConditionKeywordsAgree(s, v, re);
    LogicFromKeywords(s, Render(s), v, re);
  }

  lemma MemberFromKeywords(s: Schema, doc: Json, key: string, v: Json, re: Matcher)
    requires doc.Obj? && s.kind == "object"
    requires Get(doc.fields, "properties") == RenderProperties(s)
    requires Get(doc.fields, "additionalProperties") == RenderAdditional(s)
    requires key in s.properties ==> (Valid(Render(s.properties[key]), v, re) <==> Accepts(s.properties[key], v, re))
    requires s.additionalPropertySchema.Some? ==>
      (Valid(Render(s.additionalPropertySchema.value), v, re) <==> Accepts(s.additionalPropertySchema.value, v, re))
    ensures MemberHolds(doc, key, v, re) <==> FieldAccepts(s, key, v, re)
  {
  }

  lemma {:induction false} MemberAgrees(s: Schema, key: string, v: Json, re: Matcher)
    requires NodeShape(s) && ChildrenFaithful(s)
    requires s.kind == "object"
    ensures MemberHolds(Render(s), key, v, re) <==> FieldAccepts(s, key, v, re)
    decreases s, 0
  {
    GetRendered(s, "properties");
    GetRendered(s, "additionalProperties");
    if key in s.properties {
      RenderingPreservesMeaning(s.properties[key], v, re);
    }
    if s.additionalPropertySchema.Some? {
      RenderingPreservesMeaning(s.additionalPropertySchema.value, v, re);
    }
    MemberFromKeywords(s, Render(s), key, v, re);
  }

  lemma RequiredAgrees(s: Schema, fields: map<string, Json>)
    ensures RequiredHolds(Get(RenderFields(s), "required"), fields) <==>
            forall i | 0 <= i < |s.required| :: s.required[i] in fields
  {
    GetRendered(s, "required");
    var names := seq(|s.required|, i requires 0 <= i < |s.required| => Str(s.required[i]));
    assert forall i | 0 <= i < |s.required| :: names[i] == Str(s.required[i]);
  }

  lemma {:induction false} ArrayMembersAgree(s: Schema, v: Json, re: Matcher)
    requires ChildrenFaithful(s) && v.Arr?
    ensures MembersHold(Render(s), v, re) <==> ChildrenAccept(s, v, re)
    decreases s, 0
  {
    GetRendered(s, "items");
    if s.items.Some? {
      forall i | 0 <= i < |v.items|
        ensures Valid(Render(s.items.value), v.items[i], re) <==> Accepts(s.items.value, v.items[i], re)
      {
        RenderingPreservesMeaning(s.items.value, v.items[i], re);
      }
    }
  }

  lemma {:induction false} ObjectMembersAgree(s: Schema, v: Json, re: Matcher)
    requires NodeShape(s) && ChildrenFaithful(s) && v.Obj? && s.kind == "object"
    requires !ComposedOnly(s)
    ensures MembersHold(Render(s), v, re) <==> ChildrenAccept(s, v, re)
    decreases s, 1
  {
    RequiredAgrees(s, v.fields);
    forall k | k in v.fields
      ensures MemberHolds(Render(s), k, v.fields[k], re) <==> FieldAccepts(s, k, v.fields[k], re)
    {
      MemberAgrees(s, k, v.fields[k], re);
    }
  }

  /** A node without declared properties renders to a document that only asks about
      additional keys. */
  lemma BareObjectMembers(s: Schema, v: Json, re: Matcher)
    requires NodeShape(s) && v.Obj?
    requires s.properties == map[] && s.required == [] && s.additionalPropertySchema.None?
    ensures MembersHold(Render(s), v, re) <==>
            s.kind != "object" || s.additionalProperties == Some(true) || v.fields == map[]
  {
    RequiredAgrees(s, v.fields);
    GetRendered(s, "properties");
    GetRendered(s, "additionalProperties");
    assert Keyword(s, "properties").None?;
    forall k | k in v.fields
      ensures MemberHolds(Render(s), k, v.fields[k], re) <==> s.kind != "object" || s.additionalProperties == Some(true)
    {
    }
    if v.fields != map[] {
      var k :| k in v.fields;
      assert MemberHolds(Render(s), k, v.fields[k], re) <==> s.kind != "object" || s.additionalProperties == Some(true);
    }
  }

  /** On a value of the node's type the rules for items and keys differ only about unknown keys. */
  lemma {:induction false} MembersDisagreement(s: Schema, v: Json, re: Matcher)
    requires NodeShape(s) && ChildrenFaithful(s) && (s.kind != "" ==> TypeMatches(s.kind, v))
    ensures (MembersHold(Render(s), v, re) <==> s.jsonValue || ChildrenAccept(s, v, re)) <==>
            !(!KeysRuleAgrees(s) && v.Obj? && v.fields != map[])
    decreases s, 2
  {
    hide RenderFields, Keyword;
    if v.Arr? {
      ArrayMembersAgree(s, v, re);
    } else if v.Obj? && s.kind == "object" && !ComposedOnly(s) {
      ObjectMembersAgree(s, v, re);
    } else if v.Obj? {
      BareObjectMembers(s, v, re);
      if !s.jsonValue && !ComposedOnly(s) && s.kind == "" && v.fields != map[] {
        var k :| k in v.fields;
        UntypedKnowsNoField(s, k, v.fields[k], re);
      }
    }
  }

  lemma UntypedKnowsNoField(s: Schema, key: string, v: Json, re: Matcher)
    requires NodeShape(s) && s.kind == ""
    ensures !s.jsonValue ==> !FieldAccepts(s, key, v, re)
  {
  }

  /** Exactly where the validator and the document disagree at a node whose subschemas are
      faithful: on a non-empty object, when the unknown-key rules differ and every other
      keyword of the node accepts it. */
  lemma {:induction false} NodeDisagreement(s: Schema, v: Json, re: Matcher)
    requires NodeShape(s) && ChildrenFaithful(s)
    ensures (Valid(Render(s), v, re) <==> Accepts(s, v, re)) <==>
            !(&& !KeysRuleAgrees(s) && v.Obj? && v.fields != map[]
              && CompositionAccepts(s, v, re) && PlainAccepts(s, v, re))
    decreases s, 3
  {
    hide RenderFields, Keyword;
    AssertionsAgree(s, v, re);
    LogicAgrees(s, v, re);
    if s.kind != "" ==> TypeMatches(s.kind, v) {
      MembersDisagreement(s, v, re);
    }
  }

  /** Rendering preserves meaning: on a faithful schema the validator accepts a value
      exactly when the value is valid against the rendered document. */
  lemma {:induction false} RenderingPreservesMeaning(s: Schema, v: Json, re: Matcher)
    requires Faithful(s)
    ensures Valid(Render(s), v, re) <==> Accepts(s, v, re)
    decreases s, 4
  {
    NodeDisagreement(s, v, re);
  }

  // Both halves of KeysRuleAgrees are needed.

  /** A schema that is only a negation rejects an object its document admits. */
  lemma NegationLosesMeaning(re: Matcher)
    ensures var negation := Blank().(notSchema := Some(Blank().(kind := "string")));
            var v := Obj(map["a" := Null]);
            Valid(Render(negation), v, re) && !Accepts(negation, v, re)
  {
    hide Valid, Render, RenderFields;
    var v := Obj(map["a" := Null]);
    assert "a" in v.fields;
    var text := Blank().(kind := "string");
    var negation := Blank().(notSchema := Some(text));
    assert ChildrenFaithful(text) && Faithful(text);
    assert !PlainAccepts(text, v, re);
    assert CompositionAccepts(negation, v, re) && PlainAccepts(negation, v, re);
    assert !FieldAccepts(negation, "a", v.fields["a"], re);
    NodeDisagreement(negation, v, re);
  }

  /** A closed object schema that only combines others admits an object its document rejects. */
  lemma ClosedCompositionLosesMeaning(re: Matcher)
    ensures var open := Blank().(kind := "object", additionalProperties := Some(true));
            var closed := Blank().(kind := "object", additionalProperties := Some(false), allOf := [open]);
            var v := Obj(map["a" := Null]);
            !Valid(Render(closed), v, re) && Accepts(closed, v, re)
  {
    hide Valid, Render, RenderFields;
    var v := Obj(map["a" := Null]);
    assert "a" in v.fields;
    var open := Blank().(kind := "object", additionalProperties := Some(true));
    var closed := Blank().(kind := "object", additionalProperties := Some(false), allOf := [open]);
    assert ChildrenFaithful(open) && Faithful(open);
    assert CompositionAccepts(open, v, re) && PlainAccepts(open, v, re) && ChildrenAccept(open, v, re);
    assert AllAccept(closed.allOf, v, re);
    assert CompositionAccepts(closed, v, re) && PlainAccepts(closed, v, re) && ChildrenAccept(closed, v, re);
    NodeDisagreement(closed, v, re);
  }
}
