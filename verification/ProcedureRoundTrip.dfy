/** Rendering a procedure's compiled schema and compiling it again. */
module ProcedureRoundTrip {
  import opened Json
  import opened Schemas
  import opened Rendering
  import opened Procedure
  import Contracts

  // -------------------------------------------------------------- which keywords are rendered

  /** A keyword is only rendered for the part of the schema it states. */
  lemma KeywordMeans(s: Schema, key: string)
    requires Keyword(s, key).Some?
    ensures || (key == "type" && s.kind != "") || (key == "description" && s.description != "")
            || (key == "properties" && s.properties != map[]) || (key == "required" && s.required != [])
            || (key == "items" && s.items.Some?)
            || (key == "additionalProperties" && (s.additionalProperties.Some? || s.additionalPropertySchema.Some? || s.kind == "object"))
            || (key == "enum" && s.enum != []) || (key == "pattern" && s.pattern != "") || (key == "format" && s.format != "")
            || (key == "minLength" && s.minLength.Some?) || (key == "maxLength" && s.maxLength.Some?)
            || (key == "minimum" && s.minimum.Some?) || (key == "maximum" && s.maximum.Some?)
            || (key == "minItems" && s.minItems.Some?) || (key == "maxItems" && s.maxItems.Some?)
            || (key == "uniqueItems" && s.uniqueItems.Some?) || (key == "x-unit" && s.unit != "")
            || (key == "default" && s.default.Some?) || (key == "const" && s.constant.Some?)
            || (key == "allOf" && s.allOf != []) || (key == "oneOf" && s.oneOf != []) || (key == "anyOf" && s.anyOf != [])
            || (key == "not" && s.notSchema.Some?) || (key == "if" && s.ifSchema.Some?) || (key == "then" && s.thenSchema.Some?)
  {
  }

  /** A schema that states nothing beyond its type and the keywords of one kind. */
  predicate NothingElse(s: Schema) {
    && s.description == "" && s.additionalPropertySchema.None? && s.pattern == "" && s.format == "" && s.unit == ""
    && s.default.None? && s.constant.None? && s.allOf == [] && s.oneOf == [] && s.anyOf == []
    && s.notSchema.None? && s.ifSchema.None? && s.thenSchema.None?
  }

  predicate NoObjectKeywords(s: Schema) {
    s.properties == map[] && s.required == [] && s.additionalProperties.None? && s.kind != "object"
  }

  predicate NoArrayKeywords(s: Schema) {
    s.items.None? && s.minItems.None? && s.maxItems.None? && s.uniqueItems.None?
  }

  predicate NoStringKeywords(s: Schema) {
    s.minLength.None? && s.maxLength.None? && s.enum == []
  }

  predicate NoNumericKeywords(s: Schema) {
    s.minimum.None? && s.maximum.None?
  }

  lemma RenderedKeys(s: Schema)
    requires NothingElse(s)
    ensures "$ref" !in RenderFields(s)
    ensures NoArrayKeywords(s) && NoStringKeywords(s) && NoNumericKeywords(s) ==> RenderFields(s).Keys <= OBJECT_KEYS
    ensures NoObjectKeywords(s) && NoStringKeywords(s) && NoNumericKeywords(s) ==> RenderFields(s).Keys <= ARRAY_KEYS
    ensures NoObjectKeywords(s) && NoArrayKeywords(s) && NoNumericKeywords(s) ==> RenderFields(s).Keys <= STRING_KEYS
    ensures NoObjectKeywords(s) && NoArrayKeywords(s) && NoStringKeywords(s) ==> RenderFields(s).Keys <= NUMERIC_KEYS
  {
    hide Keyword;
    forall key | key in RenderFields(s)
      ensures || key in {"type", "properties", "required", "items", "additionalProperties"}
              || key in {"enum", "minLength", "maxLength", "minimum", "maximum", "minItems", "maxItems", "uniqueItems"}
      ensures key in {"properties", "required", "additionalProperties"} ==> !NoObjectKeywords(s)
      ensures key in {"items", "minItems", "maxItems", "uniqueItems"} ==> !NoArrayKeywords(s)
      ensures key in {"minLength", "maxLength", "enum"} ==> !NoStringKeywords(s)
      ensures key in {"minimum", "maximum"} ==> !NoNumericKeywords(s)
    {
      KeywordMeans(s, key);
    }
  }

  // -------------------------------------------------------------- documents of the same size

  /** No part of the document refers to a shared definition. */
  predicate RefFree(doc: Json)
    decreases doc
  {
    doc.Obj? ==> "$ref" !in doc.fields && forall name | name in Children(doc) :: RefFree(Children(doc)[name])
  }

  ghost predicate SameSize(a: Json, b: Json) {
    NodeCount(a) == NodeCount(b) && forall levels: int :: FitsDepth(a, levels) <==> FitsDepth(b, levels)
  }

  lemma {:induction false} CountsAgree(a: Json, b: Json, names: set<string>)
    requires a.Obj? && b.Obj? && names <= Children(a).Keys && names <= Children(b).Keys
    requires forall name | name in names :: NodeCount(Children(a)[name]) == NodeCount(Children(b)[name])
    ensures CountOver(a, names) == CountOver(b, names)
    decreases |names|
  {
    hide NodeCount, Children;
    if name :| name in names {
      CountsAgree(a, b, names - {name});
      CountAnyOrder(a, names, name);
      CountAnyOrder(b, names, name);
    }
  }

  lemma SizesByChildren(a: Json, b: Json)
    requires a.Obj? && b.Obj? && Children(a).Keys == Children(b).Keys
    requires forall name | name in Children(a) :: SameSize(Children(a)[name], Children(b)[name])
    ensures SameSize(a, b)
  {
    hide Children;
    CountsAgree(a, b, Children(a).Keys);
    forall levels: int
      ensures FitsDepth(a, levels) <==> FitsDepth(b, levels)
    {
      assert forall name | name in Children(a) :: FitsDepth(Children(a)[name], levels - 1) <==> FitsDepth(Children(b)[name], levels - 1);
    }
  }

  // -------------------------------------------------------------- the keywords of each kind come back

  lemma IntBoundBack(kw: Option<Json>, high: int)
    requires IntBound(kw, high).Some?
    ensures IntBound(OptInt(IntBound(kw, high).value), high) == IntBound(kw, high)
  {
  }

  lemma NumberBoundBack(kw: Option<Json>)
    requires NumberBound(kw).Some?
    ensures NumberBound(OptReal(NumberBound(kw).value)) == NumberBound(kw)
  {
  }

  lemma EnumBack(kw: Option<Json>)
    requires EnumValues(kw).Some?
    ensures EnumValues(OptList(EnumValues(kw).value)) == EnumValues(kw)
  {
  }

  lemma RequiredBack(kw: Option<Json>, declared: set<string>, names: seq<string>, items: seq<Json>)
    requires RequiredNames(kw, declared) == Some(names)
    requires |items| == |names| && forall i | 0 <= i < |names| :: items[i] == Str(names[i])
    ensures RequiredNames(OptList(items), declared) == Some(names)
  {
    assert AllTexts(items) && Texts(items) == names;
  }

  lemma StringBack(fields: map<string, Json>, s: Schema)
    requires StringNode(fields) == Some(s)
    ensures StringNode(RenderFields(s)) == Some(s) && "$ref" !in RenderFields(s)
    ensures Get(RenderFields(s), "type") == Some(Str("string"))
  {
    hide IntBound, EnumValues, Keyword, RenderFields, OptInt, OptList;
    IntBoundBack(Get(fields, "minLength"), MAX_LENGTH);
    IntBoundBack(Get(fields, "maxLength"), MAX_LENGTH);
    EnumBack(Get(fields, "enum"));
    RenderedKeys(s);
    StringKeywords(s);
  }

  lemma StringKeywords(s: Schema)
    ensures Get(RenderFields(s), "type") == OptText(s.kind)
    ensures Get(RenderFields(s), "minLength") == OptInt(s.minLength) && Get(RenderFields(s), "maxLength") == OptInt(s.maxLength)
    ensures Get(RenderFields(s), "enum") == OptList(s.enum)
  {
    hide RenderFields;
    GetRendered(s, "type");
    GetRendered(s, "minLength");
    GetRendered(s, "maxLength");
    GetRendered(s, "enum");
  }

  lemma NumericBack(kind: string, fields: map<string, Json>, s: Schema)
    requires NumericNode(kind, fields) == Some(s) && (kind == "integer" || kind == "number")
    ensures NumericNode(kind, RenderFields(s)) == Some(s) && "$ref" !in RenderFields(s)
    ensures Get(RenderFields(s), "type") == Some(Str(kind))
  {
    hide NumberBound, Keyword, RenderFields, OptReal;
    NumberBoundBack(Get(fields, "minimum"));
    NumberBoundBack(Get(fields, "maximum"));
    assert |"integer"| == 7 && |"number"| == 6 && |"object"| == 6;
    assert "number" != "object" by {
      assert "number"[0] != "object"[0];
    }
    RenderedKeys(s);
    NumericKeywords(s);
  }

  lemma NumericKeywords(s: Schema)
    ensures Get(RenderFields(s), "type") == OptText(s.kind)
    ensures Get(RenderFields(s), "minimum") == OptReal(s.minimum) && Get(RenderFields(s), "maximum") == OptReal(s.maximum)
  {
    hide RenderFields;
    GetRendered(s, "type");
    GetRendered(s, "minimum");
    GetRendered(s, "maximum");
  }

  lemma BooleanBack(s: Schema)
    requires s == Blank().(kind := "boolean")
    ensures RenderFields(s) == map["type" := Str("boolean")]
  {
    hide Keyword, RenderFields;
    forall key | key in RenderFields(s)
      ensures key == "type"
    {
      RenderedOnly(s, key);
    }
    NumericKeywords(s);
    assert RenderFields(s) == map["type" := RenderFields(s)["type"]];
  }

  lemma RenderedOnly(s: Schema, key: string)
    requires s == Blank().(kind := "boolean") && key in RenderFields(s)
    ensures key == "type"
  {
    hide Keyword;
    assert |"boolean"| == 7 && |"object"| == 6;
    KeywordMeans(s, key);
  }

  lemma ArrayKeywords(s: Schema)
    ensures Get(RenderFields(s), "type") == OptText(s.kind) && Get(RenderFields(s), "items") == RenderOption(s.items)
    ensures Get(RenderFields(s), "minItems") == OptInt(s.minItems) && Get(RenderFields(s), "maxItems") == OptInt(s.maxItems)
    ensures Get(RenderFields(s), "uniqueItems") == OptBool(s.uniqueItems)
  {
    hide RenderFields;
    GetRendered(s, "type");
    GetRendered(s, "items");
    GetRendered(s, "minItems");
    GetRendered(s, "maxItems");
    GetRendered(s, "uniqueItems");
  }

  /** All but the items of an array come back. */
  lemma ArrayBack(item: Schema, fields: map<string, Json>, s: Schema)
    requires ArrayNode(item, fields) == Some(s)
    ensures ArrayShape(RenderFields(s)) && RenderFields(s)["items"] == Render(item) && ArrayNode(item, RenderFields(s)) == Some(s)
    ensures Get(RenderFields(s), "type") == Some(Str("array")) && "$ref" !in RenderFields(s)
  {
    hide IntBound, Keyword, RenderFields, OptInt;
    IntBoundBack(Get(fields, "minItems"), MAX_ITEMS);
    IntBoundBack(Get(fields, "maxItems"), MAX_ITEMS);
    assert |"array"| == 5 && |"object"| == 6;
    RenderedKeys(s);
    ArrayKeywords(s);
  }

  lemma ObjectKeywords(s: Schema)
    ensures Get(RenderFields(s), "type") == OptText(s.kind) && Get(RenderFields(s), "properties") == RenderProperties(s)
    ensures Get(RenderFields(s), "additionalProperties") == RenderAdditional(s)
    ensures Get(RenderFields(s), "required") == OptList(seq(|s.required|, i requires 0 <= i < |s.required| => Str(s.required[i])))
  {
    hide RenderFields;
    GetRendered(s, "type");
    GetRendered(s, "properties");
    GetRendered(s, "additionalProperties");
    GetRendered(s, "required");
  }

  lemma RenderedRequired(s: Schema, items: seq<Json>)
    requires |items| == |s.required| && forall i | 0 <= i < |items| :: items[i] == Str(s.required[i])
    ensures Get(RenderFields(s), "required") == OptList(items)
  {
    hide RenderFields;
    ObjectKeywords(s);
    assert items == seq(|s.required|, i requires 0 <= i < |s.required| => Str(s.required[i]));
  }

  /** All but the properties of an object come back, and the properties too if there are any. */
  lemma ObjectBack(properties: map<string, Schema>, kw: Option<Json>, declared: set<string>, s: Schema)
    requires ObjectNode(properties, RequiredNames(kw, declared)) == Some(s) && properties.Keys == declared && |declared| <= MAX_PROPERTIES
    ensures Get(RenderFields(s), "type") == Some(Str("object")) && "$ref" !in RenderFields(s)
    ensures RequiredNames(Get(RenderFields(s), "required"), declared) == RequiredNames(kw, declared)
    ensures ObjectShape(RenderFields(s)) <==> properties != map[]
    ensures properties != map[] ==> RenderFields(s)["properties"] == Obj(map name | name in properties :: Render(properties[name]))
  {
    hide Keyword, RenderFields, RequiredNames;
    RenderedKeys(s);
    ObjectKeywords(s);
    var items := seq(|s.required|, i requires 0 <= i < |s.required| => Str(s.required[i]));
    RequiredBack(kw, declared, s.required, items);
    RenderedRequired(s, items);
    if properties != map[] {
      var rendered := map name | name in properties :: Render(properties[name]);
      assert rendered.Keys == declared;
      assert |rendered| == |rendered.Keys|;
    }
  }

  // -------------------------------------------------------------- the round trip

  predicate EveryObjectDeclares(s: Schema)
    decreases s
  {
    && (s.kind == "object" ==> s.properties != map[])
    && (forall name | name in s.properties :: EveryObjectDeclares(s.properties[name]))
    && (s.items.Some? ==> EveryObjectDeclares(s.items.value))
  }

  /** Rendering a schema and compiling it again gives the schema back, from a document of the
      same size as the original, if every object declares a property; otherwise it fails. */
  ghost predicate ComesBack(definitions: Definitions, doc: Json, inArrayItem: bool, s: Schema) {
    && (EveryObjectDeclares(s) ==>
          Compiled(definitions, Render(s), inArrayItem) == Some(s) && RefFree(Render(s)) && SameSize(doc, Render(s)))
    && (!EveryObjectDeclares(s) ==> Compiled(definitions, Render(s), inArrayItem).None?)
  }

  lemma {:induction false} EverySchemaComesBack(definitions: Definitions, doc: Json, inArrayItem: bool, s: Schema)
    requires doc.Obj? && RefFree(doc) && Compiled(definitions, doc, inArrayItem) == Some(s)
    ensures ComesBack(definitions, doc, inArrayItem, s)
    decreases doc
  {
    hide Compiled, RenderFields, Children, StringNode, NumericNode, ObjectShape, ArrayShape, SameSize, ComesBack;
    CompiledByType(definitions, doc, inArrayItem);
    var kind := doc.fields["type"].s;
    if kind == "object" {
      ObjectComesBack(definitions, doc, inArrayItem, s);
    } else if kind == "array" {
      ArrayComesBack(definitions, doc, inArrayItem, s);
    } else {
      LeafComesBack(definitions, doc, inArrayItem, s);
    }
  }

  lemma LeafComesBack(definitions: Definitions, doc: Json, inArrayItem: bool, s: Schema)
    requires doc.Obj? && RefFree(doc) && Compiled(definitions, doc, inArrayItem) == Some(s)
    requires Get(doc.fields, "type").Some? && doc.fields["type"].Str?
    requires doc.fields["type"].s != "object" && doc.fields["type"].s != "array"
    ensures ComesBack(definitions, doc, inArrayItem, s)
  {
    hide Compiled, RenderFields, Children, StringNode, NumericNode;
    CompiledByType(definitions, doc, inArrayItem);
    LeafKinds(doc, s);
    CompiledByType(definitions, Render(s), inArrayItem);
    SizesByChildren(doc, Render(s));
  }

  /** A leaf's rendering is a leaf of the same kind and states the same. */
  lemma LeafKinds(doc: Json, s: Schema)
    requires doc.Obj? && Get(doc.fields, "type").Some? && doc.fields["type"].Str?
    requires var kind := doc.fields["type"].s;
             || (kind == "string" && StringNode(doc.fields) == Some(s))
             || ((kind == "integer" || kind == "number") && NumericNode(kind, doc.fields) == Some(s))
             || (kind == "boolean" && s == Blank().(kind := kind))
    ensures var kind, fields := doc.fields["type"].s, RenderFields(s);
            && "$ref" !in fields && Get(fields, "type") == Some(Str(kind))
            && s.properties == map[] && s.items.None? && s.kind != "object"
            && (kind == "string" ==> StringNode(fields) == Some(s))
            && (kind == "integer" || kind == "number" ==> NumericNode(kind, fields) == Some(s))
            && (kind == "boolean" ==> |fields| == 1)
  {
    hide RenderFields, Keyword;
    var kind := doc.fields["type"].s;
    if kind == "string" {
      StringBack(doc.fields, s);
    } else if kind == "boolean" {
      BooleanBack(s);
    } else {
      NumericBack(kind, doc.fields, s);
    }
  }

  lemma {:induction false} ArrayComesBack(definitions: Definitions, doc: Json, inArrayItem: bool, s: Schema)
    requires doc.Obj? && RefFree(doc) && Compiled(definitions, doc, inArrayItem) == Some(s)
    requires Get(doc.fields, "type") == Some(Str("array"))
    ensures ComesBack(definitions, doc, inArrayItem, s)
    decreases doc, 0
  {
    hide Compiled, RenderFields, Children, ArrayNode, ArrayShape, SameSize;
    ArrayByParts(definitions, doc, inArrayItem);
    var item := Compiled(definitions, doc.fields["items"], true).value;
    ArrayBack(item, doc.fields, s);
    assert "items" in Children(doc);
    EverySchemaComesBack(definitions, doc.fields["items"], true, item);
    ArrayByParts(definitions, Render(s), inArrayItem);
    ArrayParts(item, doc.fields, s);
    if EveryObjectDeclares(s) {
      SizesByChildren(doc, Render(s));
    }
  }

  lemma ArrayParts(item: Schema, fields: map<string, Json>, s: Schema)
    requires ArrayNode(item, fields) == Some(s)
    ensures s.items == Some(item) && s.properties == map[] && s.kind != "object"
    ensures EveryObjectDeclares(s) <==> EveryObjectDeclares(item)
  {
    assert |"array"| == 5 && |"object"| == 6;
  }

  lemma {:induction false} ObjectComesBack(definitions: Definitions, doc: Json, inArrayItem: bool, s: Schema)
    requires doc.Obj? && RefFree(doc) && Compiled(definitions, doc, inArrayItem) == Some(s)
    requires Get(doc.fields, "type") == Some(Str("object"))
    ensures ComesBack(definitions, doc, inArrayItem, s)
    decreases doc, 0
  {
    hide Compiled, RenderFields, Children, ObjectShape, RequiredNames, ComesBack, PropertiesCompile, CompiledProperties, ObjectNode;
    ObjectByParts(definitions, doc, inArrayItem);
    var declared := doc.fields["properties"];
    var properties := CompiledProperties(definitions, declared);
    AtMostSoMany(doc.fields);
    PropertiesMean(definitions, declared);
    forall name | name in declared.fields
      ensures ComesBack(definitions, declared.fields[name], false, properties[name])
    {
      assert name in Children(doc);
      EverySchemaComesBack(definitions, declared.fields[name], false, properties[name]);
    }
    ObjectFromProperties(definitions, doc, inArrayItem, s, declared, properties);
  }

  lemma ObjectFromProperties(definitions: Definitions, doc: Json, inArrayItem: bool, s: Schema, declared: Json, properties: map<string, Schema>)
    requires doc.Obj? && declared.Obj? && Children(doc) == declared.fields && properties.Keys == declared.fields.Keys
    requires |declared.fields.Keys| <= MAX_PROPERTIES
    requires ObjectNode(properties, RequiredNames(Get(doc.fields, "required"), declared.fields.Keys)) == Some(s)
    requires forall name | name in declared.fields ::
               Contracts.ValidPropertyName(name) && ComesBack(definitions, declared.fields[name], false, properties[name])
    ensures ComesBack(definitions, doc, inArrayItem, s)
  {
    hide Compiled, RenderFields, Children, ObjectShape, RequiredNames, SameSize, RefFree, EveryObjectDeclares, PropertiesCompile, CompiledProperties, Contracts.ValidPropertyName;
    ObjectBack(properties, Get(doc.fields, "required"), declared.fields.Keys, s);
    ObjectByParts(definitions, Render(s), inArrayItem);
    DeclaresByProperties(s);
    if properties != map[] {
      PropertiesComeBack(definitions, declared, Render(s).fields["properties"], properties);
      if EveryObjectDeclares(s) {
        SizesByProperties(doc, Render(s), declared.fields, Render(s).fields["properties"].fields);
      }
    }
  }

  lemma SizesByProperties(a: Json, b: Json, ofA: map<string, Json>, ofB: map<string, Json>)
    requires a.Obj? && b.Obj? && Children(a) == ofA && Children(b) == ofB && ofA.Keys == ofB.Keys && "$ref" !in b.fields
    requires forall name | name in ofA :: RefFree(ofB[name]) && SameSize(ofA[name], ofB[name])
    ensures SameSize(a, b) && RefFree(b)
  {
    hide Children, SameSize;
    SizesByChildren(a, b);
  }

  lemma DeclaresByProperties(s: Schema)
    requires s.kind == "object" && s.items.None?
    ensures EveryObjectDeclares(s) <==> s.properties != map[] && forall name | name in s.properties :: EveryObjectDeclares(s.properties[name])
  {
  }

  lemma AtMostSoMany(fields: map<string, Json>)
    requires ObjectShape(fields)
    ensures "properties" in fields && fields["properties"].Obj? && |fields["properties"].fields.Keys| <= MAX_PROPERTIES
  {
    assert |fields["properties"].fields.Keys| == |fields["properties"].fields|;
  }

  lemma PropertiesMean(definitions: Definitions, declared: Json)
    requires declared.Obj? && PropertiesCompile(definitions, declared)
    ensures CompiledProperties(definitions, declared).Keys == declared.fields.Keys
    ensures forall name | name in declared.fields ::
              && Contracts.ValidPropertyName(name) && declared.fields[name].Obj? && declared.fields[name] < declared
              && Compiled(definitions, declared.fields[name], false) == Some(CompiledProperties(definitions, declared)[name])
  {
    hide Contracts.ValidPropertyName;
  }

  /** The rendered properties compile exactly if each declares its properties, and then to the same. */
  lemma PropertiesComeBack(definitions: Definitions, declared: Json, rendered: Json, properties: map<string, Schema>)
    requires declared.Obj? && properties.Keys == declared.fields.Keys
    requires rendered == Obj(map name | name in properties :: Render(properties[name]))
    requires forall name | name in declared.fields ::
               Contracts.ValidPropertyName(name) && ComesBack(definitions, declared.fields[name], false, properties[name])
    ensures PropertiesCompile(definitions, rendered) <==> forall name | name in properties :: EveryObjectDeclares(properties[name])
    ensures PropertiesCompile(definitions, rendered) ==> CompiledProperties(definitions, rendered) == properties
    ensures PropertiesCompile(definitions, rendered) ==>
              forall name | name in properties :: RefFree(rendered.fields[name]) && SameSize(declared.fields[name], rendered.fields[name])
  {
    hide Compiled, Contracts.ValidPropertyName, EveryObjectDeclares, SameSize, RefFree, RenderFields;
    assert rendered.fields.Keys == properties.Keys;
    forall name | name in properties
      ensures Compiled(definitions, rendered.fields[name], false).Some? <==> EveryObjectDeclares(properties[name])
      ensures EveryObjectDeclares(properties[name]) ==> Compiled(definitions, rendered.fields[name], false) == Some(properties[name])
    {
      assert ComesBack(definitions, declared.fields[name], false, properties[name]);
    }
  }

  /** For every document without references that the compiler accepts, it accepts the
      rendering of the schema, within the same bounds and with the same schema, exactly when
      every object in it declares a property; otherwise it refuses it. */
  lemma RenderingRecompiles(definitions: Definitions, doc: Json, s: Schema)
    requires doc.Obj? && RefFree(doc) && Acceptable(definitions, doc) && Compiled(definitions, doc, false) == Some(s)
    ensures Acceptable(definitions, Render(s)) <==> EveryObjectDeclares(s)
    ensures EveryObjectDeclares(s) ==> Compiled(definitions, Render(s), false) == Some(s) && NodeCount(Render(s)) == NodeCount(doc)
  {
    hide Compiled, FitsDepth, NodeCount, EveryObjectDeclares, RenderFields;
    EverySchemaComesBack(definitions, doc, false, s);
  }
}
