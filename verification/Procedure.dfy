/** The bounded compiler for the schemas that procedures declare at run time. */
module Procedure {
  import opened Json
  import opened Schemas
  import opened Rendering
  import Contracts

  const MAX_DEPTH := 8
  const MAX_NODES := 256
  const MAX_PROPERTIES := 32
  const MAX_ITEMS := 64
  const MAX_LENGTH := 4096
  const MAX_ENUM := 64
  const MAX_SAFE := 9007199254740991.0

  datatype SchemaError = ExceedsBounds | Malformed

  type Definitions = map<string, Schema>

  // -------------------------------------------------------------- keywords

  const OBJECT_KEYS: set<string> := {"type", "properties", "required", "additionalProperties"}
  const ARRAY_KEYS: set<string> := {"type", "items", "minItems", "maxItems", "uniqueItems"}
  const STRING_KEYS: set<string> := {"type", "minLength", "maxLength", "enum"}
  const NUMERIC_KEYS: set<string> := {"type", "minimum", "maximum"}

  /** An optional whole number from 0 to a bound; none if it is anything else. */
  function IntBound(kw: Option<Json>, high: int): Option<Option<int>> {
    match kw
    case None => Some(None)
    case Some(Num(n)) => if IsWhole(n) && 0.0 <= n <= high as real then Some(Some(n.Floor)) else None
    case _ => None
  }

  function NumberBound(kw: Option<Json>): Option<Option<real>> {
    match kw
    case None => Some(None)
    case Some(Num(n)) => if 0.0 - MAX_SAFE <= n <= MAX_SAFE then Some(Some(n)) else None
    case _ => None
  }

  function UniqueFlag(kw: Option<Json>): Option<Option<bool>> {
    match kw
    case None => Some(None)
    case Some(Bool(true)) => Some(Some(true))
    case _ => None
  }

  function EnumValues(kw: Option<Json>): Option<seq<Json>> {
    match kw
    case None => Some([])
    case Some(Arr(items)) => if 0 < |items| <= MAX_ENUM then Some(items) else None
    case _ => None
  }

  predicate AllTexts(items: seq<Json>) {
    forall i | 0 <= i < |items| :: items[i].Str?
  }

  function Texts(items: seq<Json>): seq<string>
    requires AllTexts(items)
  {
    seq(|items|, i requires 0 <= i < |items| => items[i].s)
  }

  predicate Distinct(names: seq<string>) {
    forall i, j | 0 <= i < j < |names| :: names[i] != names[j]
  }

  predicate RequiredFits(names: seq<string>, declared: set<string>) {
    |names| <= |declared| && Distinct(names) && forall i | 0 <= i < |names| :: names[i] in declared
  }

  function RequiredNames(kw: Option<Json>, declared: set<string>): Option<seq<string>> {
    match kw
    case None => Some([])
    case Some(Arr(items)) =>
      if AllTexts(items) && RequiredFits(Texts(items), declared) then Some(Texts(items)) else None
    case _ => None
  }

  predicate InOrder(low: Option<int>, high: Option<int>) {
    low.Some? && high.Some? ==> low.value <= high.value
  }

  predicate InOrderReal(low: Option<real>, high: Option<real>) {
    low.Some? && high.Some? ==> low.value <= high.value
  }

  predicate WholeBound(bound: Option<real>) {
    bound.Some? ==> IsWhole(bound.value)
  }

  // -------------------------------------------------------------- what a document compiles to

  predicate ObjectShape(fields: map<string, Json>) {
    && fields.Keys <= OBJECT_KEYS && Get(fields, "additionalProperties") == Some(Bool(false))
    && Get(fields, "properties").Some? && Get(fields, "properties").value.Obj?
    && |Get(fields, "properties").value.fields| <= MAX_PROPERTIES
  }

  predicate ArrayShape(fields: map<string, Json>) {
    fields.Keys <= ARRAY_KEYS && Get(fields, "items").Some? && Get(fields, "items").value.Obj?
  }

  function ObjectNode(properties: map<string, Schema>, required: Option<seq<string>>): Option<Schema> {
    match required
    case None => None
    case Some(names) =>
      Some(Blank().(kind := "object", properties := properties, required := names, additionalProperties := Some(false)))
  }

  function ArrayNode(item: Schema, fields: map<string, Json>): Option<Schema> {
    match (IntBound(Get(fields, "minItems"), MAX_ITEMS), IntBound(Get(fields, "maxItems"), MAX_ITEMS), UniqueFlag(Get(fields, "uniqueItems")))
    case (Some(low), Some(high), Some(unique)) =>
      if InOrder(low, high) then Some(Blank().(kind := "array", items := Some(item), minItems := low, maxItems := high, uniqueItems := unique))
      else None
    case _ => None
  }

  function StringNode(fields: map<string, Json>): Option<Schema> {
    match (IntBound(Get(fields, "minLength"), MAX_LENGTH), IntBound(Get(fields, "maxLength"), MAX_LENGTH), EnumValues(Get(fields, "enum")))
    case (Some(low), Some(high), Some(values)) =>
      if fields.Keys <= STRING_KEYS && InOrder(low, high)
      then Some(Blank().(kind := "string", minLength := low, maxLength := high, enum := values)) else None
    case _ => None
  }

  function NumericNode(kind: string, fields: map<string, Json>): Option<Schema> {
    match (NumberBound(Get(fields, "minimum")), NumberBound(Get(fields, "maximum")))
    case (Some(low), Some(high)) =>
      if fields.Keys <= NUMERIC_KEYS && InOrderReal(low, high) && (kind == "integer" ==> WholeBound(low) && WholeBound(high))
      then Some(Blank().(kind := kind, minimum := low, maximum := high)) else None
    case _ => None
  }

  function SharedNode(definitions: Definitions, fields: map<string, Json>, inArrayItem: bool): Option<Schema>
    requires "$ref" in fields
  {
    var reference := fields["$ref"];
    if !reference.Str? || inArrayItem || reference.s !in definitions || |fields| != 1 then None
    else Some(definitions[reference.s].(refName := reference.s))
  }

  /** The schema a document denotes, without regard to how large it is. */
  function Compiled(definitions: Definitions, doc: Json, inArrayItem: bool): Option<Schema>
    requires doc.Obj?
    decreases doc, 1
  {
    var fields := doc.fields;
    if "$ref" in fields then SharedNode(definitions, fields, inArrayItem)
    else
      match Get(fields, "type")
      case Some(Str(kind)) =>
        if kind == "object" then
          if ObjectShape(fields) && PropertiesCompile(definitions, fields["properties"])
          then ObjectNode(CompiledProperties(definitions, fields["properties"]),
                          RequiredNames(Get(fields, "required"), fields["properties"].fields.Keys))
          else None
        else if kind == "array" then
          if !ArrayShape(fields) then None
          else
            (match Compiled(definitions, fields["items"], true)
             case None => None
             case Some(item) => ArrayNode(item, fields))
        else if kind == "string" then StringNode(fields)
        else if kind == "integer" || kind == "number" then NumericNode(kind, fields)
        else if kind == "boolean" && |fields| == 1 then Some(Blank().(kind := kind))
        else None
      case _ => None
  }

  predicate PropertiesCompile(definitions: Definitions, properties: Json)
    requires properties.Obj?
    decreases properties, 0
  {
    forall name | name in properties.fields ::
      Contracts.ValidPropertyName(name) && properties.fields[name].Obj? && Compiled(definitions, properties.fields[name], false).Some?
  }

  function CompiledProperties(definitions: Definitions, properties: Json): map<string, Schema>
    requires properties.Obj? && PropertiesCompile(definitions, properties)
    decreases properties, 1
  {
    map name | name in properties.fields :: Compiled(definitions, properties.fields[name], false).value
  }

  predicate PropertyCompiles(definitions: Definitions, name: string, property: Json) {
    Contracts.ValidPropertyName(name) && property.Obj? && Compiled(definitions, property, false).Some?
  }

  // -------------------------------------------------------------- how large a document is

  /** The documents a compiled document contains directly. */
  function Children(doc: Json): (children: map<string, Json>)
    ensures doc.Obj? ==> forall name | name in children :: children[name] < doc
  {
    if !doc.Obj? || "$ref" in doc.fields then map[]
    else if Get(doc.fields, "type") == Some(Str("object")) && Get(doc.fields, "properties").Some? && doc.fields["properties"].Obj?
    then doc.fields["properties"].fields
    else if Get(doc.fields, "type") == Some(Str("array")) && Get(doc.fields, "items").Some?
    then map["items" := doc.fields["items"]]
    else map[]
  }

  ghost function NodeCount(doc: Json): nat
    decreases doc, 1
  {
    if !doc.Obj? then 1 else 1 + CountOver(doc, Children(doc).Keys)
  }

  ghost function CountOver(doc: Json, names: set<string>): nat
    requires doc.Obj? && names <= Children(doc).Keys
    decreases doc, 0, |names|
  {
    if names == {} then 0
    else
      var name :| name in names;
      NodeCount(Children(doc)[name]) + CountOver(doc, names - {name})
  }

  /** The document is at most so many levels deep. */
  predicate FitsDepth(doc: Json, levels: int)
    decreases doc
  {
    levels > 0 && (doc.Obj? ==> forall name | name in Children(doc) :: FitsDepth(Children(doc)[name], levels - 1))
  }

  /** The count does not depend on the order in which the children are taken. */
  lemma {:induction false} CountAnyOrder(doc: Json, names: set<string>, name: string)
    requires doc.Obj? && names <= Children(doc).Keys && name in names
    ensures CountOver(doc, names) == NodeCount(Children(doc)[name]) + CountOver(doc, names - {name})
    decreases |names|
  {
    hide NodeCount, Children;
    var first :| first in names &&
      CountOver(doc, names) == NodeCount(Children(doc)[first]) + CountOver(doc, names - {first});
    if first != name {
      CountAnyOrder(doc, names - {first}, name);
      CountAnyOrder(doc, names - {name}, first);
      assert names - {first} - {name} == names - {name} - {first};
    }
  }

  lemma {:induction false} CountMonotone(doc: Json, some: set<string>, all: set<string>)
    requires doc.Obj? && some <= all <= Children(doc).Keys
    ensures CountOver(doc, some) <= CountOver(doc, all)
    decreases |some|
  {
    hide NodeCount, Children;
    if name :| name in some {
      CountMonotone(doc, some - {name}, all - {name});
      CountAnyOrder(doc, some, name);
      CountAnyOrder(doc, all, name);
    }
  }

  // -------------------------------------------------------------- the compiler

  /** What the compiler accepts with so many levels left and so many nodes visited before. */
  ghost predicate Fits(definitions: Definitions, doc: Json, inArrayItem: bool, depth: int, nodes: nat)
    requires doc.Obj?
  {
    && Compiled(definitions, doc, inArrayItem).Some?
    && FitsDepth(doc, MAX_DEPTH + 1 - depth) && nodes + NodeCount(doc) <= MAX_NODES
  }

  /** The same for the children among these names, the document itself already visited. */
  ghost predicate ChildrenFit(doc: Json, names: set<string>, depth: int, nodes: nat)
    requires doc.Obj? && names <= Children(doc).Keys
  {
    && (forall name | name in names :: FitsDepth(Children(doc)[name], MAX_DEPTH - depth))
    && nodes + CountOver(doc, names) <= MAX_NODES
  }

  lemma FitsByChildren(definitions: Definitions, doc: Json, inArrayItem: bool, depth: int, nodes: nat)
    requires doc.Obj? && depth <= MAX_DEPTH
    ensures Fits(definitions, doc, inArrayItem, depth, nodes) <==>
            Compiled(definitions, doc, inArrayItem).Some? && ChildrenFit(doc, Children(doc).Keys, depth, nodes + 1)
    ensures NodeCount(doc) == 1 + CountOver(doc, Children(doc).Keys)
  {
    hide Compiled, Children;
  }

  /** An error wherever there is nothing. */
  function Demand<T>(found: Option<T>): Result<T, SchemaError> {
    match found
    case None => Err(Malformed)
    case Some(value) => Ok(value)
  }

  method ReadInt(fields: map<string, Json>, key: string, high: int) returns (r: Result<Option<int>, SchemaError>)
    ensures r == Demand(IntBound(Get(fields, key), high))
  {
    if key !in fields {
      return Ok(None);
    }
    var value := fields[key];
    if !value.Num? || !IsWhole(value.n) || value.n < 0.0 || value.n > high as real {
      return Err(Malformed);
    }
    return Ok(Some(value.n.Floor));
  }

  method ReadNumber(fields: map<string, Json>, key: string) returns (r: Result<Option<real>, SchemaError>)
    ensures r == Demand(NumberBound(Get(fields, key)))
  {
    if key !in fields {
      return Ok(None);
    }
    var value := fields[key];
    if !value.Num? || value.n < -9007199254740991.0 || value.n > 9007199254740991.0 {
      return Err(Malformed);
    }
    return Ok(Some(value.n));
  }

  method StringList(value: Json) returns (r: Option<seq<string>>)
    ensures r == if value.Arr? && AllTexts(value.items) then Some(Texts(value.items)) else None
  {
    if !value.Arr? {
      return None;
    }
    var result: seq<string> := [];
    for index := 0 to |value.items|
      invariant |result| == index && forall i | 0 <= i < index :: value.items[i] == Str(result[i])
    {
      if !value.items[index].Str? {
        return None;
      }
      result := result + [value.items[index].s];
    }
    assert result == Texts(value.items);
    return Some(result);
  }

  /** The required list names declared properties, each once. */
  method CompileRequired(fields: map<string, Json>, declared: set<string>) returns (r: Result<seq<string>, SchemaError>)
    ensures r == Demand(RequiredNames(Get(fields, "required"), declared))
  {
    if "required" !in fields {
      return Ok([]);
    }
    var required := StringList(fields["required"]);
    if required.None? || |required.value| > |declared| {
      return Err(Malformed);
    }
    var names := required.value;
    var seen: set<string> := {};
    for i := 0 to |names|
      invariant seen == set j | 0 <= j < i :: names[j]
      invariant forall j | 0 <= j < i :: names[j] in declared
      invariant forall j, k | 0 <= j < k < i :: names[j] != names[k]
    {
      if names[i] !in declared || names[i] in seen {
        assert !RequiredFits(names, declared);
        return Err(Malformed);
      }
      seen := seen + {names[i]};
    }
    return Ok(names);
  }

  method CompileString(fields: map<string, Json>) returns (r: Result<Schema, SchemaError>)
    ensures r == Demand(StringNode(fields))
  {
    hide IntBound;
    var result := Blank().(kind := "string");
    if exists key | key in fields :: key !in {"type", "minLength", "maxLength", "enum"} {
      return Err(Malformed);
    }
    var minLength := ReadInt(fields, "minLength", 4096);
    if minLength.Err? {
      return Err(minLength.error);
    }
    var maxLength := ReadInt(fields, "maxLength", 4096);
    if maxLength.Err? {
      return Err(maxLength.error);
    }
    if minLength.value.Some? && maxLength.value.Some? && minLength.value.value > maxLength.value.value {
      return Err(Malformed);
    }
    result := result.(minLength := minLength.value, maxLength := maxLength.value);
    if "enum" in fields {
      var values := fields["enum"];
      if !values.Arr? || |values.items| == 0 || |values.items| > 64 {
        return Err(Malformed);
      }
      result := result.(enum := values.items);
    }
    return Ok(result);
  }

  method CompileNumeric(kind: string, fields: map<string, Json>) returns (r: Result<Schema, SchemaError>)
    ensures r == Demand(NumericNode(kind, fields))
  {
    hide NumberBound;
    if exists key | key in fields :: key !in {"type", "minimum", "maximum"} {
      return Err(Malformed);
    }
    var minimum := ReadNumber(fields, "minimum");
    if minimum.Err? {
      return Err(minimum.error);
    }
    var maximum := ReadNumber(fields, "maximum");
    if maximum.Err? {
      return Err(maximum.error);
    }
    var low, high := minimum.value, maximum.value;
    if low.Some? && high.Some? && low.value > high.value {
      return Err(Malformed);
    }
    if kind == "integer" && ((low.Some? && !IsWhole(low.value)) || (high.Some? && !IsWhole(high.value))) {
      return Err(Malformed);
    }
    return Ok(Blank().(kind := kind, minimum := low, maximum := high));
  }

  method CompileShared(definitions: Definitions, fields: map<string, Json>, inArrayItem: bool) returns (r: Result<Schema, SchemaError>)
    requires "$ref" in fields
    ensures r == Demand(SharedNode(definitions, fields, inArrayItem))
  {
    var reference := fields["$ref"];
    if !reference.Str? || inArrayItem {
      return Err(Malformed);
    }
    var name := reference.s;
    if name !in definitions || |fields| != 1 {
      return Err(Malformed);
    }
    return Ok(definitions[name].(refName := name));
  }

  /** The keywords of an array around its compiled items. */
  method FinishArray(item: Schema, fields: map<string, Json>) returns (r: Result<Schema, SchemaError>)
    ensures r == Demand(ArrayNode(item, fields))
  {
    hide IntBound;
    var minItems := ReadInt(fields, "minItems", 64);
    if minItems.Err? {
      return Err(minItems.error);
    }
    var maxItems := ReadInt(fields, "maxItems", 64);
    if maxItems.Err? {
      return Err(maxItems.error);
    }
    if minItems.value.Some? && maxItems.value.Some? && minItems.value.value > maxItems.value.value {
      return Err(Malformed);
    }
    var result := Blank().(kind := "array", items := Some(item), minItems := minItems.value, maxItems := maxItems.value);
    if "uniqueItems" in fields {
      if fields["uniqueItems"] != Bool(true) {
        return Err(Malformed);
      }
      result := result.(uniqueItems := Some(true));
    }
    return Ok(result);
  }

  method CheckObjectShape(fields: map<string, Json>) returns (ok: bool)
    ensures ok == ObjectShape(fields)
  {
    if exists key | key in fields :: key !in {"type", "properties", "required", "additionalProperties"} {
      return false;
    }
    if "additionalProperties" !in fields || fields["additionalProperties"] != Bool(false) {
      return false;
    }
    return "properties" in fields && fields["properties"].Obj? && |fields["properties"].fields| <= 32;
  }

  method CheckArrayShape(fields: map<string, Json>) returns (ok: bool)
    ensures ok == ArrayShape(fields)
  {
    if exists key | key in fields :: key !in {"type", "items", "minItems", "maxItems", "uniqueItems"} {
      return false;
    }
    return "items" in fields && fields["items"].Obj?;
  }

  class ProcedureSchemaCompiler {
    const definitions: Definitions
    var nodes: nat

    constructor (definitions: Definitions)
      ensures this.definitions == definitions && nodes == 0
    {
      this.definitions, nodes := definitions, 0;
    }

    /** Compiles a document, counting the nodes visited. It succeeds exactly when the document
        denotes a schema, is not too deep and does not bring the count over its limit. */
    method Compile(doc: Json, depth: int, inArrayItem: bool) returns (r: Result<Schema, SchemaError>)
      requires doc.Obj?
      modifies this`nodes
      ensures r.Ok? <==> Fits(definitions, doc, inArrayItem, depth, old(nodes))
      ensures r.Ok? ==> Compiled(definitions, doc, inArrayItem) == Some(r.value) && nodes == old(nodes) + NodeCount(doc)
      decreases doc, 1
    {
      hide Compiled, Fits, Children, NodeCount;
      nodes := nodes + 1;
      if depth > 8 || nodes > 256 {
        TooLarge(definitions, doc, inArrayItem, depth, nodes - 1);
        return Err(ExceedsBounds);
      }
      FitsByChildren(definitions, doc, inArrayItem, depth, nodes - 1);
      if "$ref" in doc.fields {
        SharedIsLeaf(definitions, doc, inArrayItem);
        r := CompileShared(definitions, doc.fields, inArrayItem);
        return;
      }
      CompiledByType(definitions, doc, inArrayItem);
      if Get(doc.fields, "type").None? || !doc.fields["type"].Str? {
        return Err(Malformed);
      }
      var kind := doc.fields["type"].s;
      if kind == "object" {
        r := CompileObject(doc, depth, inArrayItem);
      } else if kind == "array" {
        r := CompileArray(doc, depth, inArrayItem);
      } else if kind == "string" {
        r := CompileString(doc.fields);
      } else if kind == "integer" || kind == "number" {
        r := CompileNumeric(kind, doc.fields);
      } else if kind == "boolean" {
        return if |doc.fields| == 1 then Ok(Blank().(kind := kind)) else Err(Malformed);
      } else {
        return Err(Malformed);
      }
    }

    method CompileObject(doc: Json, depth: int, inArrayItem: bool) returns (r: Result<Schema, SchemaError>)
      requires doc.Obj? && "$ref" !in doc.fields && Get(doc.fields, "type") == Some(Str("object"))
      requires nodes <= MAX_NODES
      modifies this`nodes
      ensures r.Ok? <==> Compiled(definitions, doc, inArrayItem).Some? && ChildrenFit(doc, Children(doc).Keys, depth, old(nodes))
      ensures r.Ok? ==> Compiled(definitions, doc, inArrayItem) == Some(r.value) && nodes == old(nodes) + CountOver(doc, Children(doc).Keys)
      decreases doc, 0, 1
    {
      hide Compiled, Children, ChildrenFit, CountOver, ObjectShape, RequiredNames, PropertiesCompile, CompiledProperties;
      ObjectByParts(definitions, doc, inArrayItem);
      var closed := CheckObjectShape(doc.fields);
      if !closed {
        return Err(Malformed);
      }
      ShapeHasProperties(doc.fields);
      var properties := doc.fields["properties"];
      var compiled := CompileProperties(doc, properties, depth);
      if compiled.Err? {
        return Err(compiled.error);
      }
      var required := CompileRequired(doc.fields, properties.fields.Keys);
      if required.Err? {
        return Err(required.error);
      }
      return Ok(Blank().(kind := "object", properties := compiled.value, additionalProperties := Some(false),
                         required := required.value));
    }

    method CompileProperties(ghost doc: Json, properties: Json, depth: int) returns (r: Result<map<string, Schema>, SchemaError>)
      requires properties.Obj? && doc.Obj? && properties < doc && Children(doc) == properties.fields
      requires nodes <= MAX_NODES
      modifies this`nodes
      ensures r.Ok? <==> PropertiesCompile(definitions, properties) && ChildrenFit(doc, Children(doc).Keys, depth, old(nodes))
      ensures r.Ok? ==> r.value == CompiledProperties(definitions, properties) && nodes == old(nodes) + CountOver(doc, Children(doc).Keys)
      decreases doc, 0, 0
    {
      hide Compiled, Fits, Children, ChildrenFit, NodeCount, CountOver, CompiledSoFar, PropertiesCompile, CompiledProperties, Remaining, Contracts.ValidPropertyName;
      NoChildYet(doc, depth, nodes);
      NothingCompiled(definitions, properties);
      var compiled: map<string, Schema> := map[];
      var pending := properties.fields.Keys;
      assert compiled.Keys == {} && Remaining(properties.fields.Keys, {}, pending) by {
        NoneTaken(properties.fields.Keys);
      }
      while pending != {}
        invariant compiled.Keys <= properties.fields.Keys && Remaining(properties.fields.Keys, compiled.Keys, pending)
        invariant CompiledSoFar(definitions, properties, compiled)
        invariant ChildrenFit(doc, compiled.Keys, depth, old(nodes)) && nodes == old(nodes) + CountOver(doc, compiled.Keys)
        decreases |pending|
      {
        var name :| name in pending;
        TakeOne(properties.fields.Keys, compiled.Keys, pending, name);
        var property := properties.fields[name];
        var named := Contracts.MatchesName(name);
        if !named || !property.Obj? {
          PropertyFails(definitions, properties, name);
          return Err(Malformed);
        }
        var before := nodes;
        var child := Compile(property, depth + 1, false);
        ChildJoins(definitions, doc, compiled.Keys, name, false, depth, old(nodes), before);
        if child.Err? {
          if Compiled(definitions, property, false).None? {
            PropertyFails(definitions, properties, name);
          }
          return Err(child.error);
        }
        PropertyJoins(definitions, properties, compiled, name, child.value);
        compiled := compiled[name := child.value];
        pending := pending - {name};
      }
      NoneLeft(properties.fields.Keys, compiled.Keys, pending);
      AllCompiled(definitions, properties, compiled);
      return Ok(compiled);
    }

    method CompileArray(doc: Json, depth: int, inArrayItem: bool) returns (r: Result<Schema, SchemaError>)
      requires doc.Obj? && "$ref" !in doc.fields && Get(doc.fields, "type") == Some(Str("array"))
      requires nodes <= MAX_NODES
      modifies this`nodes
      ensures r.Ok? <==> Compiled(definitions, doc, inArrayItem).Some? && ChildrenFit(doc, Children(doc).Keys, depth, old(nodes))
      ensures r.Ok? ==> Compiled(definitions, doc, inArrayItem) == Some(r.value) && nodes == old(nodes) + CountOver(doc, Children(doc).Keys)
      decreases doc, 0
    {
      hide Compiled, Fits, Children, ChildrenFit, NodeCount, CountOver, ArrayNode, ArrayShape;
      NoChildYet(doc, depth, nodes);
      ArrayByParts(definitions, doc, inArrayItem);
      var shaped := CheckArrayShape(doc.fields);
      if !shaped {
        return Err(Malformed);
      }
      ShapeHasItems(doc.fields);
      var before := nodes;
      var item := Compile(doc.fields["items"], depth + 1, true);
      ChildJoins(definitions, doc, {}, "items", true, depth, old(nodes), before);
      assert {} + {"items"} == Children(doc).Keys;
      if item.Err? {
        return Err(item.error);
      }
      r := FinishArray(item.value, doc.fields);
    }
  }

  lemma NoChildYet(doc: Json, depth: int, nodes: nat)
    requires doc.Obj? && nodes <= MAX_NODES
    ensures ChildrenFit(doc, {}, depth, nodes) && CountOver(doc, {}) == 0
  {
    hide Children;
  }

  /** These properties have been compiled to these schemas. */
  predicate CompiledSoFar(definitions: Definitions, properties: Json, compiled: map<string, Schema>)
    requires properties.Obj?
  {
    && compiled.Keys <= properties.fields.Keys
    && forall name | name in compiled ::
         PropertyCompiles(definitions, name, properties.fields[name]) &&
         Compiled(definitions, properties.fields[name], false) == Some(compiled[name])
  }

  lemma NothingCompiled(definitions: Definitions, properties: Json)
    requires properties.Obj?
    ensures CompiledSoFar(definitions, properties, map[])
  {
  }

  lemma PropertyFails(definitions: Definitions, properties: Json, name: string)
    requires properties.Obj? && name in properties.fields && !PropertyCompiles(definitions, name, properties.fields[name])
    ensures !PropertiesCompile(definitions, properties)
  {
    hide Contracts.ValidPropertyName;
  }

  lemma PropertyJoins(definitions: Definitions, properties: Json, compiled: map<string, Schema>, name: string, schema: Schema)
    requires properties.Obj? && CompiledSoFar(definitions, properties, compiled)
    requires name in properties.fields && Contracts.ValidPropertyName(name) && properties.fields[name].Obj?
    requires Compiled(definitions, properties.fields[name], false) == Some(schema)
    ensures CompiledSoFar(definitions, properties, compiled[name := schema])
    ensures (compiled[name := schema]).Keys == compiled.Keys + {name}
  {
    hide Compiled, Contracts.ValidPropertyName;
  }

  lemma AllCompiled(definitions: Definitions, properties: Json, compiled: map<string, Schema>)
    requires properties.Obj? && CompiledSoFar(definitions, properties, compiled) && compiled.Keys == properties.fields.Keys
    ensures PropertiesCompile(definitions, properties) && compiled == CompiledProperties(definitions, properties)
  {
    hide Contracts.ValidPropertyName;
  }

  lemma TooLarge(definitions: Definitions, doc: Json, inArrayItem: bool, depth: int, nodes: nat)
    requires doc.Obj? && (depth > MAX_DEPTH || nodes >= MAX_NODES)
    ensures !Fits(definitions, doc, inArrayItem, depth, nodes)
  {
    hide Compiled, Children;
  }

  lemma SharedIsLeaf(definitions: Definitions, doc: Json, inArrayItem: bool)
    requires doc.Obj? && "$ref" in doc.fields
    ensures Children(doc) == map[] && CountOver(doc, Children(doc).Keys) == 0
    ensures Compiled(definitions, doc, inArrayItem) == SharedNode(definitions, doc.fields, inArrayItem)
  {
  }

  /** The leaf kinds, and what no kind fits. */
  lemma CompiledByType(definitions: Definitions, doc: Json, inArrayItem: bool)
    requires doc.Obj? && "$ref" !in doc.fields
    ensures Get(doc.fields, "type").None? || !doc.fields["type"].Str? ==> Compiled(definitions, doc, inArrayItem).None?
    ensures Get(doc.fields, "type").Some? && doc.fields["type"].Str? ==>
              var kind, node := doc.fields["type"].s, Compiled(definitions, doc, inArrayItem);
              && (kind != "object" && kind != "array" ==> Children(doc) == map[] && CountOver(doc, Children(doc).Keys) == 0)
              && (kind == "string" ==> node == StringNode(doc.fields))
              && (kind == "integer" || kind == "number" ==> node == NumericNode(kind, doc.fields))
              && (kind == "boolean" ==> node == if |doc.fields| == 1 then Some(Blank().(kind := kind)) else None)
              && (kind !in {"object", "array", "string", "integer", "number", "boolean"} ==> node.None?)
  {
    hide StringNode, NumericNode, ObjectShape, ArrayShape;
  }

  lemma ShapeHasProperties(fields: map<string, Json>)
    requires ObjectShape(fields)
    ensures "properties" in fields && fields["properties"].Obj?
  {
  }

  lemma ShapeHasItems(fields: map<string, Json>)
    requires ArrayShape(fields)
    ensures "items" in fields && fields["items"].Obj?
  {
  }

  lemma ObjectByParts(definitions: Definitions, doc: Json, inArrayItem: bool)
    requires doc.Obj? && "$ref" !in doc.fields && Get(doc.fields, "type") == Some(Str("object"))
    ensures !ObjectShape(doc.fields) ==> Compiled(definitions, doc, inArrayItem).None?
    ensures ObjectShape(doc.fields) ==>
              && "properties" in doc.fields && doc.fields["properties"].Obj? && Children(doc) == doc.fields["properties"].fields
              && doc.fields["properties"] < doc
              && Compiled(definitions, doc, inArrayItem) ==
                 if PropertiesCompile(definitions, doc.fields["properties"])
                 then ObjectNode(CompiledProperties(definitions, doc.fields["properties"]),
                                 RequiredNames(Get(doc.fields, "required"), doc.fields["properties"].fields.Keys))
                 else None
  {
    hide RequiredNames, ObjectNode, PropertiesCompile, CompiledProperties;
  }

  lemma ArrayByParts(definitions: Definitions, doc: Json, inArrayItem: bool)
    requires doc.Obj? && "$ref" !in doc.fields && Get(doc.fields, "type") == Some(Str("array"))
    ensures !ArrayShape(doc.fields) ==> Compiled(definitions, doc, inArrayItem).None?
    ensures ArrayShape(doc.fields) ==>
              && "items" in doc.fields && doc.fields["items"].Obj? && Children(doc) == map["items" := doc.fields["items"]]
              && Compiled(definitions, doc, inArrayItem) ==
                 match Compiled(definitions, doc.fields["items"], true) case None => None case Some(item) => ArrayNode(item, doc.fields)
  {
    hide ArrayNode;
    assert |"array"| == 5 && |"object"| == 6;
  }

  /** A child compiled after others either joins them or keeps the whole from fitting. */
  lemma ChildJoins(definitions: Definitions, doc: Json, seen: set<string>, name: string, inArrayItem: bool, depth: int, start: nat, nodes: nat)
    requires doc.Obj? && seen <= Children(doc).Keys && name in Children(doc) && name !in seen && Children(doc)[name].Obj?
    requires ChildrenFit(doc, seen, depth, start) && nodes == start + CountOver(doc, seen)
    ensures seen + {name} <= Children(doc).Keys
    ensures CountOver(doc, seen + {name}) == CountOver(doc, seen) + NodeCount(Children(doc)[name])
    ensures Fits(definitions, Children(doc)[name], inArrayItem, depth + 1, nodes) ==> ChildrenFit(doc, seen + {name}, depth, start)
    ensures !Fits(definitions, Children(doc)[name], inArrayItem, depth + 1, nodes) ==>
              Compiled(definitions, Children(doc)[name], inArrayItem).None? || !ChildrenFit(doc, Children(doc).Keys, depth, start)
  {
    hide Compiled, Children, NodeCount, FitsDepth;
    CountAnyOrder(doc, seen + {name}, name);
    assert seen + {name} - {name} == seen;
    CountMonotone(doc, seen + {name}, Children(doc).Keys);
  }

  ghost predicate Acceptable(definitions: Definitions, doc: Json)
    requires doc.Obj?
  {
    Compiled(definitions, doc, false).Some? && FitsDepth(doc, MAX_DEPTH) && NodeCount(doc) <= MAX_NODES
  }

  /** Compiling a schema from the start: it succeeds exactly for a document that denotes a
      schema, is at most eight levels deep and has at most 256 nodes. */
  method CompileProcedureSchema(definitions: Definitions, doc: Json) returns (r: Result<Schema, SchemaError>)
    requires doc.Obj?
    ensures r.Ok? <==> Acceptable(definitions, doc)
    ensures r.Ok? ==> Compiled(definitions, doc, false) == Some(r.value)
  {
    var compiler := new ProcedureSchemaCompiler(definitions);
    r := compiler.Compile(doc, 1, false);
  }
}
