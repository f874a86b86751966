/** What compiling a procedure's document keeps: the meaning the standard gives to it. */
module ProcedureMeaning {
  import opened Json
  import opened Schemas
  import opened Rendering
  import opened Procedure
  import ProcedureRoundTrip
  import Contracts
  import opened ContractLaws

  // -------------------------------------------------------------- the keywords that assert

  const ASSERTIONS: set<string> := {
    "type", "enum", "const", "minimum", "maximum", "minLength", "maxLength", "pattern", "format",
    "minItems", "maxItems", "uniqueItems" }

  predicate SameAssertions(f: map<string, Json>, g: map<string, Json>) {
    forall key | key in ASSERTIONS :: Get(f, key) == Get(g, key)
  }

  lemma AssertionsAlike(f: map<string, Json>, g: map<string, Json>, v: Json, re: Matcher)
    requires SameAssertions(f, g)
    ensures AssertionsHold(f, v, re) <==> AssertionsHold(g, v, re)
  {
    hide TypeHolds, EnumHolds, ConstHolds, AtLeast, AtMost, PatternHolds, FormatHolds, UniqueHolds;
    assert {"type", "enum", "const", "minimum", "maximum", "minLength"} <= ASSERTIONS;
    assert {"maxLength", "pattern", "format", "minItems", "maxItems", "uniqueItems"} <= ASSERTIONS;
  }

  lemma IntKept(kw: Option<Json>, high: int)
    requires IntBound(kw, high).Some?
    ensures OptInt(IntBound(kw, high).value) == kw
  {
  }

  lemma NumberKept(kw: Option<Json>)
    requires NumberBound(kw).Some?
    ensures OptReal(NumberBound(kw).value) == kw
  {
  }

  lemma UniqueKept(kw: Option<Json>)
    requires UniqueFlag(kw).Some?
    ensures OptBool(UniqueFlag(kw).value) == kw
  {
  }

  lemma EnumKept(kw: Option<Json>)
    requires EnumValues(kw).Some?
    ensures OptList(EnumValues(kw).value) == kw
  {
  }

  lemma RenderedValues(s: Schema)
    ensures var f := RenderFields(s);
            && Get(f, "type") == OptText(s.kind) && Get(f, "enum") == OptList(s.enum) && Get(f, "const") == s.constant
            && Get(f, "pattern") == OptText(s.pattern) && Get(f, "format") == OptText(s.format)
            && Get(f, "uniqueItems") == OptBool(s.uniqueItems)
  {
    hide RenderFields, Get, OptText, OptList, OptBool;
    GetRendered(s, "type");
    GetRendered(s, "enum");
    GetRendered(s, "const");
    GetRendered(s, "pattern");
    GetRendered(s, "format");
    GetRendered(s, "uniqueItems");
  }

  lemma RenderedLimits(s: Schema)
    ensures var f := RenderFields(s);
            && Get(f, "minimum") == OptReal(s.minimum) && Get(f, "maximum") == OptReal(s.maximum)
            && Get(f, "minLength") == OptInt(s.minLength) && Get(f, "maxLength") == OptInt(s.maxLength)
            && Get(f, "minItems") == OptInt(s.minItems) && Get(f, "maxItems") == OptInt(s.maxItems)
  {
    hide RenderFields, Get, OptInt, OptReal;
    GetRendered(s, "minimum");
    GetRendered(s, "maximum");
    GetRendered(s, "minLength");
    GetRendered(s, "maxLength");
    GetRendered(s, "minItems");
    GetRendered(s, "maxItems");
  }

  /** The assertions a rendered schema makes, keyword by keyword. */
  lemma RenderedAssertions(s: Schema)
    ensures var f := RenderFields(s);
            && Get(f, "type") == OptText(s.kind) && Get(f, "enum") == OptList(s.enum) && Get(f, "const") == s.constant
            && Get(f, "minimum") == OptReal(s.minimum) && Get(f, "maximum") == OptReal(s.maximum)
            && Get(f, "minLength") == OptInt(s.minLength) && Get(f, "maxLength") == OptInt(s.maxLength)
            && Get(f, "pattern") == OptText(s.pattern) && Get(f, "format") == OptText(s.format)
            && Get(f, "minItems") == OptInt(s.minItems) && Get(f, "maxItems") == OptInt(s.maxItems)
            && Get(f, "uniqueItems") == OptBool(s.uniqueItems)
  {
    hide RenderFields, Get, OptText, OptList, OptBool, OptInt, OptReal;
    RenderedValues(s);
    RenderedLimits(s);
  }

  lemma StringAsserts(fields: map<string, Json>, s: Schema)
    requires StringNode(fields) == Some(s) && Get(fields, "type") == Some(Str("string"))
    ensures SameAssertions(fields, RenderFields(s))
  {
    hide IntBound, EnumValues, RenderFields, OptInt, OptList;
    IntKept(Get(fields, "minLength"), MAX_LENGTH);
    IntKept(Get(fields, "maxLength"), MAX_LENGTH);
    EnumKept(Get(fields, "enum"));
    RenderedAssertions(s);
    NothingRendered();
  }

  lemma NumericAsserts(kind: string, fields: map<string, Json>, s: Schema)
    requires NumericNode(kind, fields) == Some(s) && Get(fields, "type") == Some(Str(kind)) && kind != ""
    ensures SameAssertions(fields, RenderFields(s))
  {
    hide NumberBound, RenderFields, OptReal, OptInt, OptList;
    NumberKept(Get(fields, "minimum"));
    NumberKept(Get(fields, "maximum"));
    RenderedAssertions(s);
    NothingRendered();
  }

  lemma BooleanAsserts(fields: map<string, Json>, s: Schema)
    requires s == Blank().(kind := "boolean") && Get(fields, "type") == Some(Str("boolean")) && |fields| == 1
    ensures SameAssertions(fields, RenderFields(s)) && fields.Keys == {"type"}
  {
    hide RenderFields, OptReal, OptInt, OptList;
    OnlyKey(fields, "type");
    RenderedAssertions(s);
    NothingRendered();
  }

  lemma OnlyKey(fields: map<string, Json>, key: string)
    requires key in fields && |fields| == 1
    ensures fields.Keys == {key}
  {
    assert |fields.Keys| == 1;
    assert {key} <= fields.Keys;
    SubsetSize({key}, fields.Keys);
  }

  lemma ArrayAsserts(item: Schema, fields: map<string, Json>, s: Schema)
    requires ArrayNode(item, fields) == Some(s) && ArrayShape(fields) && Get(fields, "type") == Some(Str("array"))
    ensures SameAssertions(fields, RenderFields(s))
  {
    hide IntBound, UniqueFlag, RenderFields, OptReal, OptInt, OptBool, OptList;
    IntKept(Get(fields, "minItems"), MAX_ITEMS);
    IntKept(Get(fields, "maxItems"), MAX_ITEMS);
    UniqueKept(Get(fields, "uniqueItems"));
    RenderedAssertions(s);
    NothingRendered();
  }

  lemma ObjectAsserts(fields: map<string, Json>, s: Schema, properties: map<string, Schema>, required: Option<seq<string>>)
    requires ObjectNode(properties, required) == Some(s) && ObjectShape(fields) && Get(fields, "type") == Some(Str("object"))
    ensures SameAssertions(fields, RenderFields(s))
  {
    hide RenderFields, OptReal, OptInt, OptBool, OptList;
    RenderedAssertions(s);
    NothingRendered();
  }

  lemma NothingRendered()
    ensures OptInt(None).None? && OptReal(None).None? && OptBool(None).None? && OptList([]).None? && OptText("").None?
  {
  }

  // -------------------------------------------------------------- documents without applicators

  const LOGIC: set<string> := {"not", "allOf", "anyOf", "oneOf", "if"}
  const MEMBERS: set<string> := {"items", "required", "properties", "additionalProperties"}

  lemma NoLogic(doc: Json, v: Json, re: Matcher)
    requires doc.Obj? && doc.fields.Keys !! LOGIC
    ensures LogicHolds(doc, v, re)
  {
    hide Valid, AllValid, AnyValid, ExactlyOneValid;
    assert forall key | key in LOGIC :: key !in doc.fields;
  }

  lemma NoMembers(doc: Json, v: Json, re: Matcher)
    requires doc.Obj? && doc.fields.Keys !! MEMBERS
    ensures MembersHold(doc, v, re)
  {
    hide Valid;
    assert forall key | key in MEMBERS :: key !in doc.fields;
  }

  /** A schema without branches, conditions, members or items accepts by its own keywords. */
  lemma LeafAccepts(s: Schema, v: Json, re: Matcher)
    requires s == Blank().(kind := s.kind, minLength := s.minLength, maxLength := s.maxLength, enum := s.enum,
                           minimum := s.minimum, maximum := s.maximum)
    requires s.kind in {"string", "integer", "number", "boolean"}
    ensures Accepts(s, v, re) <==> PlainAccepts(s, v, re)
  {
    hide WithinBounds, TextAccepted, SizeAccepted, ContainsSchemaValue, SchemaEqual;
    NoBranches(s, v, re);
    if PlainAccepts(s, v, re) {
      LeafIsNoObject(s.kind, v);
    }
  }

  lemma NoBranches(s: Schema, v: Json, re: Matcher)
    requires s.allOf == [] && s.oneOf == [] && s.anyOf == [] && s.notSchema.None? && s.ifSchema.None?
    ensures CompositionAccepts(s, v, re) && !ComposedOnly(s)
  {
    hide Accepts;
  }

  lemma LeafIsNoObject(kind: string, v: Json)
    requires kind in {"string", "integer", "number", "boolean", "array"} && TypeMatches(kind, v)
    ensures !v.Obj? && (kind == "array" ==> v.Arr?)
  {
    assert |"object"| == 6 && |"boolean"| == 7 && |"integer"| == 7 && |"array"| == 5 && |"null"| == 4;
    assert "object"[0] != "string"[0] && "object"[0] != "number"[0];
  }

  lemma LeafMeaning(doc: Json, s: Schema, v: Json, re: Matcher)
    requires doc.Obj? && doc.fields.Keys !! LOGIC && doc.fields.Keys !! MEMBERS
    requires SameAssertions(doc.fields, RenderFields(s)) && (Accepts(s, v, re) <==> PlainAccepts(s, v, re))
    ensures Accepts(s, v, re) <==> Valid(doc, v, re)
  {
    hide Accepts, PlainAccepts, SameAssertions, RenderFields, LogicHolds, MembersHold, AssertionsHold;
    NoLogic(doc, v, re);
    NoMembers(doc, v, re);
    AssertionsAlike(doc.fields, RenderFields(s), v, re);
    AssertionsAgree(s, v, re);
  }

  // -------------------------------------------------------------- every document

  lemma {:induction false} ArrayMeaning(definitions: Definitions, doc: Json, inArrayItem: bool, item: Schema, s: Schema, v: Json, re: Matcher)
    requires doc.Obj? && ArrayShape(doc.fields) && Get(doc.fields, "type") == Some(Str("array"))
    requires ProcedureRoundTrip.RefFree(doc.fields["items"]) && Compiled(definitions, doc.fields["items"], true) == Some(item)
    requires ArrayNode(item, doc.fields) == Some(s)
    ensures Accepts(s, v, re) <==> Valid(doc, v, re)
    decreases doc, 0
  {
    hide Compiled, RenderFields, SameAssertions, AssertionsHold, CompositionAccepts, IntBound, UniqueFlag;
    hide SizeAccepted, WithinBounds, TextAccepted, ContainsSchemaValue, TypeMatches;
    ArrayAsserts(item, doc.fields, s);
    AssertionsAlike(doc.fields, RenderFields(s), v, re);
    AssertionsAgree(s, v, re);
    NoLogic(doc, v, re);
    NoBranches(s, v, re);
    if PlainAccepts(s, v, re) {
      LeafIsNoObject(s.kind, v);
    }
    if v.Arr? {
      forall i | 0 <= i < |v.items|
        ensures Accepts(item, v.items[i], re) <==> Valid(doc.fields["items"], v.items[i], re)
      {
        CompilingKeepsMeaning(definitions, doc.fields["items"], true, item, v.items[i], re);
      }
    }
  }

  lemma RequiredAgree(kw: Option<Json>, declared: set<string>, names: seq<string>, fields: map<string, Json>)
    requires RequiredNames(kw, declared) == Some(names)
    ensures RequiredHolds(kw, fields) <==> forall i | 0 <= i < |names| :: names[i] in fields
  {
    if kw.Some? {
      var items := kw.value.items;
      assert names == Texts(items) && forall i | 0 <= i < |names| :: names[i] == items[i].s && items[i].Str?;
    }
  }

  lemma {:induction false} ObjectMeaning(definitions: Definitions, doc: Json, s: Schema, v: Json, re: Matcher)
    requires doc.Obj? && ObjectShape(doc.fields) && Get(doc.fields, "type") == Some(Str("object"))
    requires "properties" in doc.fields && doc.fields["properties"].Obj? && doc.fields["properties"] < doc
    requires forall name | name in doc.fields["properties"].fields :: ProcedureRoundTrip.RefFree(doc.fields["properties"].fields[name])
    requires PropertiesCompile(definitions, doc.fields["properties"])
    requires ObjectNode(CompiledProperties(definitions, doc.fields["properties"]),
                        RequiredNames(Get(doc.fields, "required"), doc.fields["properties"].fields.Keys)) == Some(s)
    ensures Accepts(s, v, re) <==> Valid(doc, v, re)
    decreases doc, 0
  {
    hide Compiled, RenderFields, SameAssertions, AssertionsHold, CompositionAccepts, RequiredNames, RequiredHolds;
    hide SizeAccepted, WithinBounds, TextAccepted, ContainsSchemaValue, Contracts.ValidPropertyName, PropertiesCompile, CompiledProperties;
    var declared := doc.fields["properties"];
    var properties := CompiledProperties(definitions, declared);
    ObjectAsserts(doc.fields, s, properties, RequiredNames(Get(doc.fields, "required"), declared.fields.Keys));
    AssertionsAlike(doc.fields, RenderFields(s), v, re);
    AssertionsAgree(s, v, re);
    NoLogic(doc, v, re);
    NoBranches(s, v, re);
    if v.Obj? {
      ProcedureRoundTrip.PropertiesMean(definitions, declared);
      RequiredAgree(Get(doc.fields, "required"), declared.fields.Keys, s.required, v.fields);
      forall k | k in v.fields
        ensures FieldAccepts(s, k, v.fields[k], re) <==> MemberHolds(doc, k, v.fields[k], re)
      {
        if k in declared.fields {
          CompilingKeepsMeaning(definitions, declared.fields[k], false, properties[k], v.fields[k], re);
        }
      }
    }
  }

  /** Compiling a document without references keeps its meaning: the compiled schema accepts
      exactly the values that are valid against the document by the standard. */
  lemma {:induction false} CompilingKeepsMeaning(definitions: Definitions, doc: Json, inArrayItem: bool, s: Schema, v: Json, re: Matcher)
    requires doc.Obj? && ProcedureRoundTrip.RefFree(doc) && Compiled(definitions, doc, inArrayItem) == Some(s)
    ensures Accepts(s, v, re) <==> Valid(doc, v, re)
    decreases doc, 1
  {
    hide Compiled, RenderFields, Accepts, Valid, ObjectShape, ArrayShape, StringNode, NumericNode, ObjectNode, ArrayNode, RequiredNames;
    hide PropertiesCompile, CompiledProperties, PlainAccepts;
    CompiledByType(definitions, doc, inArrayItem);
    var kind := doc.fields["type"].s;
    if kind == "object" {
      ObjectByParts(definitions, doc, inArrayItem);
      ObjectMeaning(definitions, doc, s, v, re);
    } else if kind == "array" {
      ArrayByParts(definitions, doc, inArrayItem);
      assert "items" in Children(doc);
      ArrayMeaning(definitions, doc, inArrayItem, Compiled(definitions, doc.fields["items"], true).value, s, v, re);
    } else {
      LeafDocument(doc, s, v, re);
    }
  }

  lemma LeafDocument(doc: Json, s: Schema, v: Json, re: Matcher)
    requires doc.Obj? && Get(doc.fields, "type").Some? && doc.fields["type"].Str?
    requires var kind := doc.fields["type"].s;
             || (kind == "string" && StringNode(doc.fields) == Some(s))
             || ((kind == "integer" || kind == "number") && NumericNode(kind, doc.fields) == Some(s))
             || (kind == "boolean" && |doc.fields| == 1 && s == Blank().(kind := kind))
    ensures Accepts(s, v, re) <==> Valid(doc, v, re)
  {
    hide RenderFields, Accepts, Valid, PlainAccepts, SameAssertions, IntBound, NumberBound, EnumValues;
    var kind := doc.fields["type"].s;
    if kind == "string" {
      StringAsserts(doc.fields, s);
    } else if kind == "boolean" {
      BooleanAsserts(doc.fields, s);
    } else {
      NumericAsserts(kind, doc.fields, s);
    }
    LeafAccepts(s, v, re);
    LeafMeaning(doc, s, v, re);
  }

  /** A reference to a shared definition accepts exactly what the definition does. */
  lemma ReferenceMeaning(definitions: Definitions, doc: Json, inArrayItem: bool, s: Schema, v: Json, re: Matcher)
    requires doc.Obj? && Get(doc.fields, "$ref").Some? && Compiled(definitions, doc, inArrayItem) == Some(s)
    ensures doc.fields["$ref"].Str? && doc.fields["$ref"].s in definitions
    ensures Accepts(s, v, re) <==> Accepts(definitions[doc.fields["$ref"].s], v, re)
  {
    hide Accepts;
    SharedIsLeaf(definitions, doc, inArrayItem);
    AnnotationsDoNotMatter(definitions[doc.fields["$ref"].s], s, v, re);
  }
}
