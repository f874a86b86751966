/** The renderer as it runs: a document built keyword by keyword. */
module Renderer {
  import opened Json
  import opened Schemas
  import opened Rendering

  /** The document so far holds what the schema states under the keywords already done. */
  predicate Rendered(s: Schema, done: set<string>, fields: map<string, Json>) {
    && (forall key | key in fields :: key in done && Keyword(s, key) == Some(fields[key]))
    && (forall key | key in done && Keyword(s, key).Some? :: key in fields)
  }

  /** Stores a keyword if the schema states it. */
  method Assign(ghost s: Schema, ghost done: set<string>, given: map<string, Json>, key: string, value: Option<Json>)
      returns (fields: map<string, Json>, ghost now: set<string>)
    requires Rendered(s, done, given) && Keyword(s, key) == value
    ensures now == done + {key} && Rendered(s, now, fields)
  {
    hide Keyword;
    now := done + {key};
    fields := given;
    if value.Some? {
      fields := fields[key := value.value];
    }
  }

  method Begin(ghost s: Schema) returns (fields: map<string, Json>, ghost done: set<string>)
    ensures done == {} && Rendered(s, done, fields)
  {
    fields, done := map[], {};
  }

  method RenderChildren(s: Schema) returns (properties: Option<Json>)
    ensures properties == RenderProperties(s)
    decreases s, 0
  {
    if s.properties == map[] {
      return None;
    }
    var rendered: map<string, Json> := map[];
    var pending := s.properties.Keys;
    while pending != {}
      invariant pending <= s.properties.Keys && rendered.Keys == s.properties.Keys - pending
      invariant forall key | key in rendered :: rendered[key] == Render(s.properties[key])
      decreases |pending|
    {
      var key :| key in pending;
      var child := JSONSchema(s.properties[key]);
      rendered := rendered[key := child];
      pending := pending - {key};
    }
    assert rendered == map key | key in s.properties :: Render(s.properties[key]);
    return Some(Obj(rendered));
  }

  method RenderBranches(branches: seq<Schema>) returns (rendered: Option<Json>)
    ensures rendered == OptList(RenderList(branches))
    decreases branches, 0
  {
    var docs: seq<Json> := [];
    for i := 0 to |branches|
      invariant |docs| == i && forall j | 0 <= j < i :: docs[j] == Render(branches[j])
    {
      var doc := JSONSchema(branches[i]);
      docs := docs + [doc];
    }
    assert docs == RenderList(branches);
    return if docs == [] then None else Some(Arr(docs));
  }

  method RenderPart(s: Option<Schema>) returns (rendered: Option<Json>)
    ensures rendered == RenderOption(s)
    decreases s
  {
    if s.None? {
      return None;
    }
    var doc := JSONSchema(s.value);
    return Some(doc);
  }

  method RenderUnknownKeys(s: Schema) returns (rendered: Option<Json>)
    ensures rendered == RenderAdditional(s)
    decreases s, 0
  {
    rendered := None;
    if s.additionalProperties.Some? {
      rendered := Some(Bool(s.additionalProperties.value));
    } else if s.kind == "object" {
      rendered := Some(Bool(false));
    }
    if s.additionalPropertySchema.Some? {
      rendered := RenderPart(s.additionalPropertySchema);
    }
  }

  method RenderShape(s: Schema) returns (fields: map<string, Json>, ghost done: set<string>)
    ensures Rendered(s, done, fields)
    ensures done == {"type", "description", "properties", "required", "items", "additionalProperties"}
    decreases s, 1
  {
    hide Rendered, Render, RenderAdditional, RenderProperties, RenderOption;
    fields, done := Begin(s);
    fields, done := Assign(s, done, fields, "type", OptText(s.kind));
    fields, done := Assign(s, done, fields, "description", OptText(s.description));
    var properties := RenderChildren(s);
    fields, done := Assign(s, done, fields, "properties", properties);
    fields, done := Assign(s, done, fields, "required", OptList(seq(|s.required|, i requires 0 <= i < |s.required| => Str(s.required[i]))));
    var items := RenderPart(s.items);
    fields, done := Assign(s, done, fields, "items", items);
    var unknown := RenderUnknownKeys(s);
    fields, done := Assign(s, done, fields, "additionalProperties", unknown);
  }

  lemma NoteKeywords(s: Schema)
    ensures Keyword(s, "minItems") == OptInt(s.minItems) && Keyword(s, "maxItems") == OptInt(s.maxItems)
    ensures Keyword(s, "uniqueItems") == OptBool(s.uniqueItems) && Keyword(s, "x-unit") == OptText(s.unit)
    ensures Keyword(s, "default") == s.default && Keyword(s, "const") == s.constant
  {
  }

  lemma BranchKeywords(s: Schema)
    ensures Keyword(s, "allOf") == OptList(RenderList(s.allOf)) && Keyword(s, "oneOf") == OptList(RenderList(s.oneOf))
    ensures Keyword(s, "anyOf") == OptList(RenderList(s.anyOf))
  {
    hide RenderList;
  }

  lemma ConditionKeywords(s: Schema)
    ensures Keyword(s, "not") == RenderOption(s.notSchema)
    ensures Keyword(s, "if") == RenderOption(s.ifSchema) && Keyword(s, "then") == RenderOption(s.thenSchema)
  {
    hide RenderOption;
  }

  lemma BoundKeywords(s: Schema)
    ensures Keyword(s, "enum") == OptList(s.enum) && Keyword(s, "pattern") == OptText(s.pattern)
    ensures Keyword(s, "format") == OptText(s.format)
    ensures Keyword(s, "minLength") == OptInt(s.minLength) && Keyword(s, "maxLength") == OptInt(s.maxLength)
    ensures Keyword(s, "minimum") == OptReal(s.minimum) && Keyword(s, "maximum") == OptReal(s.maximum)
  {
  }

  method RenderBounds(s: Schema, given: map<string, Json>, ghost before: set<string>) returns (fields: map<string, Json>, ghost done: set<string>)
    requires Rendered(s, before, given)
    ensures Rendered(s, done, fields)
    ensures done == before + {"enum", "pattern", "format", "minLength", "maxLength", "minimum", "maximum"}
    decreases s, 1
  {
    hide Rendered, Keyword, Render, RenderAdditional, RenderProperties, RenderOption, RenderList;
    BoundKeywords(s);
    fields, done := given, before;
    fields, done := Assign(s, done, fields, "enum", OptList(s.enum));
    fields, done := Assign(s, done, fields, "pattern", OptText(s.pattern));
    fields, done := Assign(s, done, fields, "format", OptText(s.format));
    fields, done := Assign(s, done, fields, "minLength", OptInt(s.minLength));
    fields, done := Assign(s, done, fields, "maxLength", OptInt(s.maxLength));
    fields, done := Assign(s, done, fields, "minimum", OptReal(s.minimum));
    fields, done := Assign(s, done, fields, "maximum", OptReal(s.maximum));
  }

  method RenderNotes(s: Schema, given: map<string, Json>, ghost before: set<string>) returns (fields: map<string, Json>, ghost done: set<string>)
    requires Rendered(s, before, given)
    ensures Rendered(s, done, fields)
    ensures done == before + {"minItems", "maxItems", "uniqueItems", "x-unit", "default", "const"}
    decreases s, 1
  {
    hide Rendered, Keyword, Render, RenderAdditional, RenderProperties, RenderOption, RenderList;
    NoteKeywords(s);
    fields, done := given, before;
    fields, done := Assign(s, done, fields, "minItems", OptInt(s.minItems));
    fields, done := Assign(s, done, fields, "maxItems", OptInt(s.maxItems));
    fields, done := Assign(s, done, fields, "uniqueItems", OptBool(s.uniqueItems));
    fields, done := Assign(s, done, fields, "x-unit", OptText(s.unit));
    fields, done := Assign(s, done, fields, "default", s.default);
    fields, done := Assign(s, done, fields, "const", s.constant);
  }

  method RenderComposition(s: Schema, given: map<string, Json>, ghost before: set<string>) returns (fields: map<string, Json>, ghost done: set<string>)
    requires Rendered(s, before, given)
    ensures Rendered(s, done, fields)
    ensures done == before + {"allOf", "oneOf", "anyOf", "not", "if", "then"}
    decreases s, 1
  {
    hide Rendered, Keyword, Render, RenderAdditional, RenderProperties, RenderOption, RenderList;
    BranchKeywords(s);
    ConditionKeywords(s);
    fields, done := given, before;
    var all := RenderBranches(s.allOf);
    fields, done := Assign(s, done, fields, "allOf", all);
    var one := RenderBranches(s.oneOf);
    fields, done := Assign(s, done, fields, "oneOf", one);
    var any := RenderBranches(s.anyOf);
    fields, done := Assign(s, done, fields, "anyOf", any);
    var excluded := RenderPart(s.notSchema);
    fields, done := Assign(s, done, fields, "not", excluded);
    var condition := RenderPart(s.ifSchema);
    fields, done := Assign(s, done, fields, "if", condition);
    var consequence := RenderPart(s.thenSchema);
    fields, done := Assign(s, done, fields, "then", consequence);
  }

  /** The document built by assignment is the one whose meaning is stated. */
  method JSONSchema(s: Schema) returns (doc: Json)
    ensures doc == Render(s)
    decreases s, 2
  {
    hide Rendered, Keyword;
    var fields;
    ghost var done;
    fields, done := RenderShape(s);
    fields, done := RenderBounds(s, fields, done);
    fields, done := RenderNotes(s, fields, done);
    fields, done := RenderComposition(s, fields, done);
    assert done == KEYWORDS;
    AllRendered(s, fields);
    return Obj(fields);
  }

  lemma AllRendered(s: Schema, fields: map<string, Json>)
    requires Rendered(s, KEYWORDS, fields)
    ensures fields == RenderFields(s)
  {
    hide Keyword;
    assert forall key | key in KEYWORDS :: (key in fields <==> Keyword(s, key).Some?);
  }
}
