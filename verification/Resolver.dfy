/** The definition resolver: compiles specifications, caching each shared definition and
    refusing reference cycles. */
module Resolver {
  import opened Json
  import opened Schemas
  import opened Contracts
  import opened Nesting
  import opened ContractLaws
  import opened ContractMeaning

  // -------------------------------------------------------------- merging a reference

  predicate Above(bound: Option<int>, n: int) {
    bound.Some? ==> bound.value <= n
  }

  predicate Below(bound: Option<int>, n: int) {
    bound.Some? ==> n <= bound.value
  }

  predicate AboveReal(bound: Option<real>, n: real) {
    bound.Some? ==> bound.value <= n
  }

  predicate BelowReal(bound: Option<real>, n: real) {
    bound.Some? ==> n <= bound.value
  }

  /** A bound may be added or tightened: it must exclude whatever the shared bound does, and the
      merged bound admits exactly what both admit. */
  method MergeLowerInt(current: Option<int>, candidate: Option<int>) returns (ok: bool, merged: Option<int>)
    ensures ok == NotBelow(current, candidate) && (ok ==> merged == Newer(current, candidate))
    ensures ok <==> (candidate.Some? ==> forall n: int :: Above(candidate, n) ==> Above(current, n))
    ensures ok ==> forall n: int :: Above(merged, n) <==> Above(current, n) && Above(candidate, n)
  {
    if candidate.None? {
      return true, current;
    }
    if current.Some? && candidate.value < current.value {
      assert Above(candidate, candidate.value) && !Above(current, candidate.value);
      return false, current;
    }
    return true, candidate;
  }

  method MergeUpperInt(current: Option<int>, candidate: Option<int>) returns (ok: bool, merged: Option<int>)
    ensures ok == NotBelow(candidate, current) && (ok ==> merged == Newer(current, candidate))
    ensures ok <==> (candidate.Some? ==> forall n: int :: Below(candidate, n) ==> Below(current, n))
    ensures ok ==> forall n: int :: Below(merged, n) <==> Below(current, n) && Below(candidate, n)
  {
    if candidate.None? {
      return true, current;
    }
    if current.Some? && candidate.value > current.value {
      assert Below(candidate, candidate.value) && !Below(current, candidate.value);
      return false, current;
    }
    return true, candidate;
  }

  method MergeLowerReal(current: Option<real>, candidate: Option<real>) returns (ok: bool, merged: Option<real>)
    ensures ok == NotBelowReal(current, candidate) && (ok ==> merged == Newer(current, candidate))
    ensures ok <==> (candidate.Some? ==> forall n: real :: AboveReal(candidate, n) ==> AboveReal(current, n))
    ensures ok ==> forall n: real :: AboveReal(merged, n) <==> AboveReal(current, n) && AboveReal(candidate, n)
  {
    if candidate.None? {
      return true, current;
    }
    if current.Some? && candidate.value < current.value {
      assert AboveReal(candidate, candidate.value) && !AboveReal(current, candidate.value);
      return false, current;
    }
    return true, candidate;
  }

  method MergeUpperReal(current: Option<real>, candidate: Option<real>) returns (ok: bool, merged: Option<real>)
    ensures ok == NotBelowReal(candidate, current) && (ok ==> merged == Newer(current, candidate))
    ensures ok <==> (candidate.Some? ==> forall n: real :: BelowReal(candidate, n) ==> BelowReal(current, n))
    ensures ok ==> forall n: real :: BelowReal(merged, n) <==> BelowReal(current, n) && BelowReal(candidate, n)
  {
    if candidate.None? {
      return true, current;
    }
    if current.Some? && candidate.value > current.value {
      assert BelowReal(candidate, candidate.value) && !BelowReal(current, candidate.value);
      return false, current;
    }
    return true, candidate;
  }

  method MergeRefConstraints(base: Schema, spec: Spec) returns (r: Result<Schema, Failure>)
    ensures r == if BoundsTighten(base, spec) then Ok(WithBounds(base, spec)) else Err(Rejected)
  {
    var schema := base;
    var ok, minLength := MergeLowerInt(schema.minLength, spec.minLength);
    if !ok { return Err(Rejected); }
    schema := schema.(minLength := minLength);
    var maxLength;
    ok, maxLength := MergeUpperInt(schema.maxLength, spec.maxLength);
    if !ok { return Err(Rejected); }
    schema := schema.(maxLength := maxLength);
    var minimum;
    ok, minimum := MergeLowerReal(schema.minimum, spec.minimum);
    if !ok { return Err(Rejected); }
    schema := schema.(minimum := minimum);
    var maximum;
    ok, maximum := MergeUpperReal(schema.maximum, spec.maximum);
    if !ok { return Err(Rejected); }
    schema := schema.(maximum := maximum);
    var minItems;
    ok, minItems := MergeLowerInt(schema.minItems, spec.minItems);
    if !ok { return Err(Rejected); }
    schema := schema.(minItems := minItems);
    var maxItems;
    ok, maxItems := MergeUpperInt(schema.maxItems, spec.maxItems);
    if !ok { return Err(Rejected); }
    schema := schema.(maxItems := maxItems);
    if spec.uniqueItems.Some? {
      if schema.uniqueItems == Some(true) && !spec.uniqueItems.value {
        return Err(Rejected);
      }
      if schema.uniqueItems.None? || spec.uniqueItems.value {
        schema := schema.(uniqueItems := spec.uniqueItems);
      }
    }
    return Ok(schema);
  }

  /** The added enum lists values of the type, inside the shared enum and without repetition. */
  method CheckAddedEnum(base: Schema, values: seq<Json>) returns (ok: bool)
    ensures ok == EnumTightens(base, values)
  {
    hide SchemaEqual, TypeMatches, ContainsSchemaValue;
    if |values| == 0 {
      return false;
    }
    for index := 0 to |values|
      invariant forall i | 0 <= i < index :: TypeMatches(base.kind, values[i])
      invariant base.enum != [] ==> forall i | 0 <= i < index :: ContainsSchemaValue(base.enum, values[i])
      invariant forall i, j | 0 <= j < i < index :: !SchemaEqual(values[i], values[j])
    {
      if !TypeMatches(base.kind, values[index]) {
        return false;
      }
      if |base.enum| > 0 && !ContainsSchemaValue(base.enum, values[index]) {
        return false;
      }
      for previous := 0 to index
        invariant forall j | 0 <= j < previous :: !SchemaEqual(values[index], values[j])
      {
        if SchemaEqual(values[index], values[previous]) {
          return false;
        }
      }
    }
    return true;
  }

  method TightenFields(base: Schema, spec: Spec, mode: Mode) returns (r: Result<Schema, Failure>)
    ensures r == if FieldsTighten(base, spec, mode) then Ok(Tightened(base, spec)) else Err(Rejected)
  {
    hide EnumTightens, BoundsTighten, TypeMatches, SchemaEqual, ContainsSchemaValue;
    if spec.unit != "" && (spec.ref != "Duration" || spec.unit !in {"seconds", "minutes"}) {
      return Err(Rejected);
    }
    var merged := MergeRefConstraints(base, spec);
    if merged.Err? {
      return merged;
    }
    var schema := merged.value;
    var description, unit, pattern := schema.description, schema.unit, schema.pattern;
    var enum, constant, default := schema.enum, schema.constant, schema.default;
    if spec.description != "" {
      description := spec.description;
    }
    if spec.unit != "" {
      unit := spec.unit;
    }
    if spec.pattern != "" {
      if pattern != "" {
        return Err(Rejected);
      }
      pattern := spec.pattern;
    }
    if spec.enum.Some? {
      var added := CheckAddedEnum(base, spec.enum.value);
      if !added {
        return Err(Rejected);
      }
      enum := spec.enum.value;
    }
    if spec.constant.Some? {
      var value := spec.constant.value;
      if !TypeMatches(base.kind, value) || (constant.Some? && !SchemaEqual(constant.value, value))
         || (|enum| > 0 && !ContainsSchemaValue(enum, value)) {
        return Err(Rejected);
      }
      constant := spec.constant;
    }
    if spec.default.Some? {
      if mode == Output || default.Some? {
        return Err(Rejected);
      }
      default := spec.default;
    }
    return Ok(schema.(refName := spec.ref, description := description, unit := unit, pattern := pattern,
                      enum := enum, constant := constant, default := default));
  }

  /** Constraints fit the type, are not negative and do not contradict each other. */
  method CheckKinds(s: Schema, env: Env) returns (ok: bool)
    ensures ok == KindsOk(s, env)
  {
    if s.pattern != "" {
      var bytes := CountBytes(s.pattern);
      if bytes > 512 || s.kind != "string" || !env.compiles(s.pattern) {
        return false;
      }
    }
    if s.minLength.Some? || s.maxLength.Some? || s.format != "" {
      if s.kind != "string" {
        return false;
      }
    }
    if (s.minLength.Some? && s.minLength.value < 0) || (s.maxLength.Some? && s.maxLength.value < 0) {
      return false;
    }
    if s.minLength.Some? && s.maxLength.Some? && s.minLength.value > s.maxLength.value {
      return false;
    }
    if s.minimum.Some? || s.maximum.Some? {
      if s.kind != "integer" && s.kind != "number" {
        return false;
      }
      if s.kind == "integer" && ((s.minimum.Some? && !IsWhole(s.minimum.value)) || (s.maximum.Some? && !IsWhole(s.maximum.value))) {
        return false;
      }
      if s.minimum.Some? && s.maximum.Some? && s.minimum.value > s.maximum.value {
        return false;
      }
    }
    if s.minItems.Some? || s.maxItems.Some? || s.uniqueItems.Some? {
      if s.kind != "array" {
        return false;
      }
    }
    if (s.minItems.Some? && s.minItems.value < 0) || (s.maxItems.Some? && s.maxItems.value < 0) {
      return false;
    }
    if s.minItems.Some? && s.maxItems.Some? && s.minItems.value > s.maxItems.value {
      return false;
    }
    return true;
  }

  method CheckLiterals(s: Schema, re: Matcher) returns (ok: bool)
    ensures ok == LiteralsOk(s, re)
  {
    hide Accepts;
    for index := 0 to |s.enum|
      invariant forall i | 0 <= i < index :: Accepts(s, s.enum[i], re)
    {
      var holds := Validate(s, s.enum[index], re);
      if !holds {
        return false;
      }
    }
    if s.constant.Some? {
      ok := Validate(s, s.constant.value, re);
      return;
    }
    return true;
  }

  method ApplyDefaultOverride(s: Schema, override: Option<Override>, re: Matcher) returns (r: Result<Schema, Failure>)
    ensures r == if OverrideAllowed(s, override, re) then Ok(Overridden(s, override)) else Err(Rejected)
  {
    hide Accepts, TrimSpace;
    if override.None? {
      return Ok(s);
    }
    if override.value.value.None? {
      return Err(Rejected);
    }
    var reason := TrimSpace(override.value.reason);
    if reason == "" || |reason| > 256 || exists c | c in reason :: c in {'\U{0}', '\r', '\n'} {
      return Err(Rejected);
    }
    if s.default.None? {
      return Err(Rejected);
    }
    var value := override.value.value.value;
    var holds := Validate(s, value, re);
    if !holds {
      return Err(Rejected);
    }
    return Ok(s.(default := Some(value), overrideReason := reason));
  }

  /** Copies the shared schema and adds what the reference asks for, refusing to loosen it. */
  method CompileRef(base: Schema, spec: Spec, mode: Mode, env: Env) returns (r: Result<Schema, Failure>)
    ensures r == RefNode(base, spec, mode, env)
  {
    hide Accepts, KindsOk, LiteralsOk, OverrideAllowed, Overridden, FieldsTighten, Tightened;
    r := TightenFields(base, spec, mode);
    if r.Err? {
      return;
    }
    var schema := r.value;
    var fits := CheckKinds(schema, env);
    if !fits {
      return Err(Rejected);
    }
    var literal := CheckLiterals(schema, env.matches);
    if !literal {
      return Err(Rejected);
    }
    if schema.default.Some? {
      var holds := Validate(schema, schema.default.value, env.matches);
      if !holds {
        return Err(Rejected);
      }
    }
    if spec.defaultOverride.Some? && mode == Output {
      return Err(Rejected);
    }
    r := ApplyDefaultOverride(schema, spec.defaultOverride, env.matches);
  }

  // -------------------------------------------------------------- inline nodes

  method CheckRequired(names: seq<string>, properties: map<string, Schema>) returns (ok: bool)
    ensures ok == RequiredOk(names, properties)
  {
    if names == [] {
      return false;
    }
    var seen: set<string> := {};
    for i := 0 to |names|
      invariant seen == set j | 0 <= j < i :: names[j]
      invariant forall j, k | 0 <= k < j < i :: names[j] != names[k]
      invariant forall j | 0 <= j < i :: names[j] in properties && properties[names[j]].default.None?
    {
      if names[i] in seen || names[i] !in properties || properties[names[i]].default.Some? {
        return false;
      }
      seen := seen + {names[i]};
    }
    return true;
  }

  method CheckObjectRules(spec: Spec, c: Children) returns (ok: bool)
    ensures ok == ObjectRulesOk(spec, c)
  {
    if spec.kind != "object" {
      return !(spec.properties.SpecFields? && spec.properties.fields != map[]) && spec.required.None?
             && spec.additionalProperties.None? && spec.additionalPropertySpec.None?;
    }
    var keys := c.properties.Keys;
    while keys != {}
      invariant keys <= c.properties.Keys
      invariant forall k | k in c.properties && k !in keys :: ValidPropertyName(k)
      decreases |keys|
    {
      var key :| key in keys;
      var named := MatchesName(key);
      if !named {
        return false;
      }
      keys := keys - {key};
    }
    if spec.required.Some? {
      var required := CheckRequired(spec.required.value, c.properties);
      if !required {
        return false;
      }
    }
    return spec.additionalPropertySpec.None? || spec.additionalProperties.None?;
  }

  method CheckEnum(spec: Spec) returns (ok: bool)
    ensures ok == InlineEnumOk(spec)
  {
    hide SchemaEqual, TypeMatches;
    if spec.enum.None? {
      return true;
    }
    var values := spec.enum.value;
    if |values| == 0 || spec.kind == "" || spec.kind == "object" || spec.kind == "array" {
      return false;
    }
    for index := 0 to |values|
      invariant forall i | 0 <= i < index :: TypeMatches(spec.kind, values[i])
      invariant forall i, j | 0 <= j < i < index :: !SchemaEqual(values[i], values[j])
    {
      if !TypeMatches(spec.kind, values[index]) {
        return false;
      }
      for previous := 0 to index
        invariant forall j | 0 <= j < previous :: !SchemaEqual(values[index], values[j])
      {
        if SchemaEqual(values[index], values[previous]) {
          return false;
        }
      }
    }
    return true;
  }

  /** What is checked of a node whatever its subschemas compile to. */
  method CheckHeader(spec: Spec, mode: Mode, timestamps: bool) returns (ok: bool)
    ensures ok == HeaderOk(spec, mode, timestamps)
  {
    hide InlineEnumOk, TypeMatches;
    if spec.unit != "" {
      return false;
    }
    if spec.kind == "" && (spec.allOf.NoSpecs? || |spec.allOf.list| == 0) && (spec.oneOf.NoSpecs? || |spec.oneOf.list| == 0)
       && (spec.anyOf.NoSpecs? || |spec.anyOf.list| == 0) && spec.notSpec.None? && spec.ifSpec.None? {
      return false;
    }
    if spec.kind != "" && spec.kind !in {"array", "boolean", "integer", "null", "number", "object", "string"} {
      return false;
    }
    if spec.format != "" && (!timestamps || spec.format != "gtw-timestamp" || spec.kind != "string") {
      return false;
    }
    if mode == Output && (spec.default.Some? || spec.defaultOverride.Some?) {
      return false;
    }
    if (spec.allOf.SpecList? && |spec.allOf.list| == 0) || (spec.oneOf.SpecList? && |spec.oneOf.list| == 0)
       || (spec.anyOf.SpecList? && |spec.anyOf.list| == 0) {
      return false;
    }
    if (spec.items.Some? && spec.kind != "array") || (spec.kind == "array" && spec.items.None?) {
      return false;
    }
    if spec.ifSpec.Some? != spec.thenSpec.Some? {
      return false;
    }
    if spec.constant.Some? && spec.kind != "" && !TypeMatches(spec.kind, spec.constant.value) {
      return false;
    }
    ok := CheckEnum(spec);
  }

  method CheckStructure(spec: Spec) returns (structural: bool)
    ensures structural == HasStructure(spec)
  {
    if spec.kind != "" || spec.format != "" || (spec.properties.SpecFields? && |spec.properties.fields| > 0) {
      return true;
    }
    if spec.required.Some? || spec.items.Some? || spec.additionalProperties.Some? || spec.additionalPropertySpec.Some? {
      return true;
    }
    return spec.allOf != NoSpecs || spec.oneOf != NoSpecs || spec.anyOf != NoSpecs
           || spec.notSpec.Some? || spec.ifSpec.Some? || spec.thenSpec.Some?;
  }

  /** A specification of any value says nothing else but its description. */
  method CheckJsonValue(spec: Spec) returns (only: bool)
    requires spec.jsonValue
    ensures only == JsonValueOnly(spec)
  {
    if spec.kind != "" || spec.ref != "" || spec.properties.SpecFields? || spec.required.Some? || spec.items.Some?
       || spec.additionalProperties.Some? || spec.additionalPropertySpec.Some? {
      return false;
    }
    if spec.enum.Some? || spec.pattern != "" || spec.minLength.Some? || spec.maxLength.Some? || spec.minimum.Some?
       || spec.maximum.Some? || spec.minItems.Some? || spec.maxItems.Some? || spec.uniqueItems.Some? {
      return false;
    }
    if spec.format != "" || spec.unit != "" || spec.default.Some? || spec.defaultOverride.Some? || spec.constant.Some? {
      return false;
    }
    return spec.allOf.NoSpecs? && spec.oneOf.NoSpecs? && spec.anyOf.NoSpecs?
           && spec.notSpec.None? && spec.ifSpec.None? && spec.thenSpec.None?;
  }

  /** Copies the keywords of a node and puts in its compiled subschemas. */
  method AssembleInline(spec: Spec, c: Children) returns (compiled: Schema)
    ensures compiled == InlineSchema(spec, c)
  {
    compiled := Blank().(kind := spec.kind, description := spec.description, pattern := spec.pattern, format := spec.format);
    compiled := compiled.(minLength := spec.minLength, maxLength := spec.maxLength, minimum := spec.minimum, maximum := spec.maximum);
    compiled := compiled.(minItems := spec.minItems, maxItems := spec.maxItems, uniqueItems := spec.uniqueItems);
    compiled := compiled.(additionalProperties := spec.additionalProperties);
    if spec.kind == "object" && compiled.additionalProperties.None? && spec.additionalPropertySpec.None? {
      compiled := compiled.(additionalProperties := Some(false));
    }
    if spec.kind == "object" {
      compiled := compiled.(properties := c.properties);
      if spec.required.Some? {
        compiled := compiled.(required := SortNames(spec.required.value));
      }
    }
    compiled := compiled.(items := c.items, additionalPropertySchema := c.additional);
    if spec.enum.Some? {
      compiled := compiled.(enum := spec.enum.value);
    }
    compiled := compiled.(constant := spec.constant, allOf := c.allOf, oneOf := c.oneOf, anyOf := c.anyOf);
    compiled := compiled.(notSchema := c.notSchema, ifSchema := c.ifSchema, thenSchema := c.thenSchema);
  }

  method CompileInline(spec: Spec, c: Children, mode: Mode, timestamps: bool, env: Env) returns (r: Result<Schema, Failure>)
    ensures r == InlineNode(spec, c, mode, timestamps, env)
  {
    hide Accepts, KindsOk, LiteralsOk, OverrideAllowed, Overridden, HeaderOk, ObjectRulesOk, InlineSchema;
    var header := CheckHeader(spec, mode, timestamps);
    if !header {
      return Err(Rejected);
    }
    var shaped := CheckObjectRules(spec, c);
    if !shaped {
      return Err(Rejected);
    }
    var schema := AssembleInline(spec, c);
    var fits := CheckKinds(schema, env);
    if !fits {
      return Err(Rejected);
    }
    var literal := CheckLiterals(schema, env.matches);
    if !literal {
      return Err(Rejected);
    }
    if spec.default.Some? {
      var holds := Validate(schema, spec.default.value, env.matches);
      if !holds {
        return Err(Rejected);
      }
    }
    r := ApplyDefaultOverride(schema.(default := spec.default), spec.defaultOverride, env.matches);
  }

  // -------------------------------------------------------------- the resolver

  /** The cache only gains entries. */
  predicate Extends(before: map<string, Schema>, after: map<string, Schema>) {
    |before| <= |after| && forall k | k in before :: k in after && after[k] == before[k]
  }

  lemma ExtendsTransitively(a: map<string, Schema>, b: map<string, Schema>, c: map<string, Schema>)
    requires Extends(a, b) && Extends(b, c)
    ensures Extends(a, c) && |b| <= |c|
  {
  }

  lemma ExtendsReflexively(a: map<string, Schema>)
    ensures Extends(a, a)
  {
  }

  lemma ExtendsByOne(before: map<string, Schema>, name: string, schema: Schema)
    requires name !in before
    ensures Extends(before, before[name := schema])
  {
  }

  lemma EnteringAndLeaving(all: set<string>, visiting: set<string>, stack: seq<string>, name: string)
    requires name in all && name !in visiting
    ensures |all - (visiting + {name})| < |all - visiting|
    ensures visiting + {name} - {name} == visiting && (stack + [name])[..|stack|] == stack
  {
    assert all - visiting == (all - (visiting + {name})) + {name};
  }

  class DefinitionResolver {
    const env: Env
    var compiled: map<string, Schema>
    var visiting: set<string>
    // The definitions being compiled, outermost first.
    ghost var stack: seq<string>

    constructor (env: Env)
      ensures this.env == env && compiled == map[] && visiting == {} && stack == []
      ensures Valid()
    {
      this.env := env;
      compiled := map[];
      visiting := {};
      stack := [];
    }

    /** Cached schemas are full expansions, none of them is still being compiled, and each
        definition being compiled is mentioned by the one before it. */
    ghost predicate Valid()
      reads this
    {
      && compiled.Keys <= env.specs.Keys
      && visiting <= env.specs.Keys
      && compiled.Keys !! visiting
      && (forall name :: name in visiting <==> name in stack)
      && (forall i, j | 0 <= i < j < |stack| :: stack[i] != stack[j])
      && (forall i | 0 <= i < |stack| - 1 :: Mentions(env.specs[stack[i]], stack[i + 1]))
      && (forall name | name in compiled :: ExpandDef(env, name, |compiled|) == Ok(compiled[name]))
    }

    lemma CycleFound(name: string)
      requires Valid() && name in visiting
      requires stack != [] ==> Mentions(env.specs[stack[|stack| - 1]], name)
      ensures DefNeverExpands(env, name)
    {
      hide Mentions, ExpandDef;
      var j :| 0 <= j < |stack| && stack[j] == name;
      var path := stack[j..] + [name];
      assert forall i | j <= i < |stack| :: stack[i] in stack;
      forall i | 0 <= i < |path| - 1
        ensures path[i] in env.specs && Mentions(env.specs[path[i]], path[i + 1])
      {
        assert path[i] == stack[j + i];
        if i + 1 < |path| - 1 {
          assert path[i + 1] == stack[j + i + 1];
        }
      }
      assert RefPath(env, path);
      forall n: nat
        ensures ExpandDef(env, name, n).Err?
      {
        CyclesNeverExpand(env, path, n);
      }
    }

    lemma CacheExtends(name: string, schema: Schema)
      requires Valid()
      requires ExpandDef(env, name, |compiled| + 1) == Ok(schema)
      ensures forall k | k in compiled :: ExpandDef(env, k, |compiled| + 1) == Ok(compiled[k])
    {
      hide ExpandDef;
      forall k | k in compiled
        ensures ExpandDef(env, k, |compiled| + 1) == Ok(compiled[k])
      {
        DefStays(env, k, |compiled|, |compiled| + 1);
      }
    }

    lemma VisitedIsNotCached(name: string)
      requires Valid() && name in visiting
      ensures name !in compiled
    {
    }

    method Enter(name: string)
      requires Valid() && name in env.specs && name !in compiled && name !in visiting
      requires stack != [] ==> Mentions(env.specs[stack[|stack| - 1]], name)
      modifies this`visiting, this`stack
      ensures Valid() && visiting == old(visiting) + {name} && stack == old(stack) + [name]
    {
      hide Mentions, ExpandDef;
      visiting := visiting + {name};
      stack := stack + [name];
    }

    method Leave(name: string)
      requires Valid() && stack != [] && stack[|stack| - 1] == name
      modifies this`visiting, this`stack
      ensures Valid() && visiting == old(visiting) - {name} && stack == old(stack)[..|old(stack)| - 1]
    {
      hide Mentions, ExpandDef;
      ghost var before := stack;
      visiting := visiting - {name};
      stack := stack[..|stack| - 1];
      assert before == stack + [name];
    }

    method Store(name: string, schema: Schema)
      requires Valid() && name in env.specs && name !in compiled && name !in visiting
      requires ExpandDef(env, name, |compiled| + 1) == Ok(schema)
      modifies this`compiled
      ensures Valid() && Extends(old(compiled), compiled) && name in compiled && compiled[name] == schema
    {
      hide Mentions, ExpandDef;
      CacheExtends(name, schema);
      ExtendsByOne(compiled, name, schema);
      compiled := compiled[name := schema];
    }

    /** Resolves a shared definition. On every exit the visiting set is what it was; a
        success is the full expansion; a failure other than exceeding the nesting bound
        means that no expansion exists. */
    method Resolve(name: string, depth: nat) returns (r: Result<Schema, Failure>)
      requires Valid()
      requires stack != [] ==> Mentions(env.specs[stack[|stack| - 1]], name)
      modifies this
      ensures Valid() && visiting == old(visiting) && stack == old(stack) && Extends(old(compiled), compiled)
      ensures r.Ok? ==> name in compiled && r.value == compiled[name]
      ensures r.Err? && r.error != TooDeep ==> DefNeverExpands(env, name)
      ensures r.Err? && r.error == TooDeep ==> DefNestsBeyond(env, name, depth)
      decreases |env.specs.Keys - visiting|, 0, 2
    {
      hide Expand, ExpandDef, Mentions, NeverExpands, DefNeverExpands, Extends, Valid, Within;
      ExtendsReflexively(compiled);
      if depth > 64 {
        return Err(TooDeep);
      }
      if name in compiled {
        return Ok(compiled[name]);
      }
      if name !in env.specs {
        UnknownFails(env, name);
        return Err(Rejected);
      }
      if name in visiting {
        CycleFound(name);
        return Err(Rejected);
      }
      r := CompileDefinition(name, depth);
    }

    method CompileDefinition(name: string, depth: nat) returns (r: Result<Schema, Failure>)
      requires Valid() && name in env.specs && name !in compiled && name !in visiting
      requires stack != [] ==> Mentions(env.specs[stack[|stack| - 1]], name)
      modifies this
      ensures Valid() && visiting == old(visiting) && stack == old(stack) && Extends(old(compiled), compiled)
      ensures r.Ok? ==> name in compiled && r.value == compiled[name]
      ensures r.Err? && r.error != TooDeep ==> DefNeverExpands(env, name)
      ensures r.Err? && r.error == TooDeep ==> DefNestsBeyond(env, name, depth)
      decreases |env.specs.Keys - visiting|, 0, 1
    {
      hide *;
      r := CompileVisited(name, depth);
      if r.Err? {
        if r.error != TooDeep {
          DefinitionFails(env, name);
        } else {
          DefinitionNestsBeyond(env, name, depth);
        }
        return;
      }
      DefinitionExpands(env, name, |compiled|);
      ghost var before := compiled;
      Store(name, r.value);
      ExtendsTransitively(old(compiled), before, compiled);
    }

    /** Compiles a definition's schema while the definition is marked as being visited. */
    method CompileVisited(name: string, depth: nat) returns (r: Result<Schema, Failure>)
      requires Valid() && name in env.specs && name !in compiled && name !in visiting
      requires stack != [] ==> Mentions(env.specs[stack[|stack| - 1]], name)
      modifies this
      ensures Valid() && visiting == old(visiting) && stack == old(stack) && Extends(old(compiled), compiled)
      ensures name !in compiled
      ensures r.Ok? ==> Expand(env, env.specs[name], Shared, name == "Timestamp", |compiled|) == r
      ensures r.Err? && r.error != TooDeep ==> NeverExpands(env, env.specs[name], Shared, name == "Timestamp")
      ensures r.Err? && r.error == TooDeep ==> NestsBeyond(env, env.specs[name], depth + 1)
      decreases |env.specs.Keys - visiting|, 0, 0
    {
      hide *;
      EnteringAndLeaving(env.specs.Keys, visiting, stack, name);
      DefinitionIsWithin(env, stack, name);
      Enter(name);
      r := CompileSchema(env.specs[name], Shared, name == "Timestamp", depth + 1);
      VisitedIsNotCached(name);
      Leave(name);
    }

    /** Compiles a specification; failures are as for Resolve. */
    method CompileSchema(spec: Spec, mode: Mode, timestamps: bool, depth: nat) returns (r: Result<Schema, Failure>)
      requires Valid() && Within(env, stack, spec)
      modifies this
      ensures Valid() && visiting == old(visiting) && stack == old(stack) && Extends(old(compiled), compiled)
      ensures r.Ok? ==> Expand(env, spec, mode, timestamps, |compiled|) == r
      ensures r.Err? && r.error != TooDeep ==> NeverExpands(env, spec, mode, timestamps)
      ensures r.Err? && r.error == TooDeep ==> NestsBeyond(env, spec, depth)
      decreases |env.specs.Keys - visiting|, 1, spec, 4
    {
      hide RefNode, InlineNode, ChildrenExpand, ExpandedChildren, HasStructure, HeaderOk, ExpandDef;
      if depth > 64 {
        return Err(TooDeep);
      }
      if spec.jsonValue {
        var only := CheckJsonValue(spec);
        if !only {
          return Err(Rejected);
        }
        return Ok(Blank().(jsonValue := true, description := spec.description));
      }
      if spec.ref != "" {
        r := CompileReference(spec, mode, timestamps, depth);
        return;
      }
      var header := CheckHeader(spec, mode, timestamps);
      if !header {
        InlineFails(env, spec, mode, timestamps);
        return Err(Rejected);
      }
      var children := CompileChildren(spec, mode, depth);
      if children.Err? {
        if children.error != TooDeep {
          InlineFails(env, spec, mode, timestamps);
        }
        return Err(children.error);
      }
      r := CompileInline(spec, children.value, mode, timestamps, env);
      if r.Err? {
        AssemblyFails(env, spec, mode, timestamps, |compiled|);
      }
    }

    method CompileReference(spec: Spec, mode: Mode, timestamps: bool, depth: nat) returns (r: Result<Schema, Failure>)
      requires Valid() && Within(env, stack, spec) && !spec.jsonValue && spec.ref != ""
      modifies this
      ensures Valid() && visiting == old(visiting) && stack == old(stack) && Extends(old(compiled), compiled)
      ensures r.Ok? ==> Expand(env, spec, mode, timestamps, |compiled|) == r
      ensures r.Err? && r.error != TooDeep ==> NeverExpands(env, spec, mode, timestamps)
      ensures r.Err? && r.error == TooDeep ==> NestsBeyond(env, spec, depth)
      decreases |env.specs.Keys - visiting|, 1, spec, 3
    {
      hide RefNode, InlineNode, ChildrenExpand, ExpandedChildren, HasStructure;
      var structural := CheckStructure(spec);
      if structural {
        ReferenceFails(env, spec, mode, timestamps);
        return Err(Rejected);
      }
      assert Mentions(spec, spec.ref);
      var base := Resolve(spec.ref, depth + 1);
      if base.Err? {
        if base.error != TooDeep {
          ReferenceFails(env, spec, mode, timestamps);
        }
        return base;
      }
      r := CompileRef(base.value, spec, mode, env);
      if r.Err? {
        NarrowingFails(env, spec, mode, timestamps, |compiled|);
      }
    }

    method CompileOption(spec: Option<Spec>, mode: Mode, depth: nat) returns (r: Result<Option<Schema>, Failure>)
      requires Valid() && (spec.Some? ==> Within(env, stack, spec.value))
      modifies this
      ensures Valid() && visiting == old(visiting) && stack == old(stack) && Extends(old(compiled), compiled)
      ensures r.Ok? ==> OptionIs(env, spec, mode, |compiled|, r.value)
      ensures r.Err? && r.error != TooDeep ==> forall n: nat :: !OptionExpands(env, spec, mode, n)
      ensures r.Err? && r.error == TooDeep ==> OptionNestsBeyond(env, spec, depth + 1)
      decreases |env.specs.Keys - visiting|, 1, spec, 0
    {
      hide RefNode, InlineNode;
      if spec.None? {
        return Ok(None);
      }
      var schema := CompileSchema(spec.value, mode, false, depth + 1);
      if schema.Err? {
        return Err(schema.error);
      }
      return Ok(Some(schema.value));
    }

    method CompileList(specs: Specs, mode: Mode, depth: nat) returns (r: Result<seq<Schema>, Failure>)
      requires Valid() && (specs.SpecList? ==> forall i | 0 <= i < |specs.list| :: Within(env, stack, specs.list[i]))
      modifies this
      ensures Valid() && visiting == old(visiting) && stack == old(stack) && Extends(old(compiled), compiled)
      ensures r.Ok? ==> ListIs(env, specs, mode, |compiled|, r.value)
      ensures r.Err? && r.error != TooDeep ==> forall n: nat :: !ListExpands(env, specs, mode, n)
      ensures r.Err? && r.error == TooDeep ==> ListNestsBeyond(env, specs, depth + 1)
      decreases |env.specs.Keys - visiting|, 1, specs, 0
    {
      hide Expand, Valid, Within, NeverExpands, Extends, ListedSoFar, ListIs, ListExpands, NestsBeyond, ListNestsBeyond;
      ExtendsReflexively(compiled);
      NothingListed(env, specs, mode, |compiled|);
      if specs.NoSpecs? {
        return Ok([]);
      }
      var schemas: seq<Schema> := [];
      for i := 0 to |specs.list|
        invariant Valid() && visiting == old(visiting) && stack == old(stack) && Extends(old(compiled), compiled)
        invariant |schemas| == i && ListedSoFar(env, specs, mode, |compiled|, schemas)
      {
        ghost var before := compiled;
        var schema := CompileSchema(specs.list[i], mode, false, depth + 1);
        ExtendsTransitively(old(compiled), before, compiled);
        if schema.Err? {
          if schema.error != TooDeep {
            ListFails(env, specs, mode, i);
          } else {
            ItemNestsBeyond(env, specs, i, depth + 1);
          }
          return Err(schema.error);
        }
        ListedSoFarGrows(env, specs, mode, |before|, |compiled|, schemas, schema.value);
        schemas := schemas + [schema.value];
      }
      AllListed(env, specs, mode, |compiled|, schemas);
      return Ok(schemas);
    }

    method CompileFields(fields: Fields, mode: Mode, depth: nat) returns (r: Result<map<string, Schema>, Failure>)
      requires Valid() && (fields.SpecFields? ==> forall k | k in fields.fields :: Within(env, stack, fields.fields[k]))
      modifies this
      ensures Valid() && visiting == old(visiting) && stack == old(stack) && Extends(old(compiled), compiled)
      ensures r.Ok? ==> FieldsAre(env, fields, mode, |compiled|, r.value)
      ensures r.Err? && r.error != TooDeep ==> forall n: nat :: !FieldsExpand(env, fields, mode, n)
      ensures r.Err? && r.error == TooDeep ==> FieldsNestBeyond(env, fields, depth + 1)
      decreases |env.specs.Keys - visiting|, 1, fields, 0
    {
      hide Expand, Valid, Within, NeverExpands, Extends, PartlyExpanded, FieldsExpand, FieldsAre, Remaining, NestsBeyond, FieldsNestBeyond;
      ExtendsReflexively(compiled);
      if fields.NoFields? {
        NoFieldsExpand(env, mode, |compiled|);
        return Ok(map[]);
      }
      var schemas: map<string, Schema> := map[];
      var pending := fields.fields.Keys;
      NoneExpandedYet(env, fields, mode, |compiled|);
      NoneTaken(fields.fields.Keys);
      assert schemas.Keys == {};
      while pending != {}
        invariant Valid() && visiting == old(visiting) && stack == old(stack) && Extends(old(compiled), compiled)
        invariant pending <= fields.fields.Keys && Remaining(fields.fields.Keys, schemas.Keys, pending)
        invariant PartlyExpanded(env, fields, mode, |compiled|, schemas)
        decreases |pending|
      {
        var key :| key in pending;
        TakeOne(fields.fields.Keys, schemas.Keys, pending, key);
        ghost var before := compiled;
        var schema := CompileSchema(fields.fields[key], mode, false, depth + 1);
        ExtendsTransitively(old(compiled), before, compiled);
        if schema.Err? {
          if schema.error != TooDeep {
            FieldsFail(env, fields, mode, key);
          } else {
            FieldNestsBeyond(env, fields, key, depth + 1);
          }
          return Err(schema.error);
        }
        PartlyExpandedStays(env, fields, mode, |before|, |compiled|, schemas);
        PartlyExpandedGrows(env, fields, mode, |compiled|, schemas, key, schema.value);
        assert (schemas[key := schema.value]).Keys == schemas.Keys + {key};
        schemas := schemas[key := schema.value];
        pending := pending - {key};
      }
      NoneLeft(fields.fields.Keys, schemas.Keys, pending);
      FullyExpanded(env, fields, mode, |compiled|, schemas);
      return Ok(schemas);
    }

    method CompileShape(spec: Spec, mode: Mode, depth: nat, given: Children) returns (r: Result<Children, Failure>)
      requires Valid() && PartsWithin(env, stack, spec)
      modifies this
      ensures Valid() && visiting == old(visiting) && stack == old(stack) && Extends(old(compiled), compiled)
      ensures r.Ok? ==> ShapeIs(env, spec, mode, |compiled|, r.value)
      ensures r.Ok? ==> r.value == given.(properties := r.value.properties, items := r.value.items, additional := r.value.additional)
      ensures r.Err? && r.error != TooDeep ==> ChildrenNeverExpand(env, spec, mode)
      ensures r.Err? && r.error == TooDeep ==> PartNestsBeyond(env, spec, depth + 1)
      decreases |env.specs.Keys - visiting|, 1, spec, 2
    {
      hide Expand, Valid, Extends, OptionIs, ListIs, FieldsAre, ChildrenNeverExpand, Within, NestsBeyond, OptionNestsBeyond, ListNestsBeyond, FieldsNestBeyond;
      var properties := CompileFields(spec.properties, mode, depth);
      if properties.Err? {
        if properties.error != TooDeep {
          PartFails(env, spec, mode);
        }
        return Err(properties.error);
      }
      ghost var c1 := compiled;
      var items := CompileOption(spec.items, mode, depth);
      ExtendsTransitively(old(compiled), c1, compiled);
      if items.Err? {
        if items.error != TooDeep {
          PartFails(env, spec, mode);
        }
        return Err(items.error);
      }
      FieldsAreStill(env, spec.properties, mode, |c1|, |compiled|, properties.value);
      ghost var c2 := compiled;
      var additional := CompileOption(spec.additionalPropertySpec, mode, depth);
      ExtendsTransitively(old(compiled), c2, compiled);
      if additional.Err? {
        if additional.error != TooDeep {
          PartFails(env, spec, mode);
        }
        return Err(additional.error);
      }
      FieldsAreStill(env, spec.properties, mode, |c2|, |compiled|, properties.value);
      OptionIsStill(env, spec.items, mode, |c2|, |compiled|, items.value);
      return Ok(given.(properties := properties.value, items := items.value, additional := additional.value));
    }

    method CompileBranches(spec: Spec, mode: Mode, depth: nat, given: Children) returns (r: Result<Children, Failure>)
      requires Valid() && PartsWithin(env, stack, spec)
      modifies this
      ensures Valid() && visiting == old(visiting) && stack == old(stack) && Extends(old(compiled), compiled)
      ensures r.Ok? ==> BranchesAre(env, spec, mode, |compiled|, r.value)
      ensures r.Ok? ==> r.value == given.(allOf := r.value.allOf, oneOf := r.value.oneOf, anyOf := r.value.anyOf)
      ensures r.Err? && r.error != TooDeep ==> ChildrenNeverExpand(env, spec, mode)
      ensures r.Err? && r.error == TooDeep ==> PartNestsBeyond(env, spec, depth + 1)
      decreases |env.specs.Keys - visiting|, 1, spec, 2
    {
      hide Expand, Valid, Extends, OptionIs, ListIs, FieldsAre, ChildrenNeverExpand, Within, NestsBeyond, OptionNestsBeyond, ListNestsBeyond, FieldsNestBeyond;
      var allOf := CompileList(spec.allOf, mode, depth);
      if allOf.Err? {
        if allOf.error != TooDeep {
          PartFails(env, spec, mode);
        }
        return Err(allOf.error);
      }
      ghost var c1 := compiled;
      var oneOf := CompileList(spec.oneOf, mode, depth);
      ExtendsTransitively(old(compiled), c1, compiled);
      if oneOf.Err? {
        if oneOf.error != TooDeep {
          PartFails(env, spec, mode);
        }
        return Err(oneOf.error);
      }
      ListIsStill(env, spec.allOf, mode, |c1|, |compiled|, allOf.value);
      ghost var c2 := compiled;
      var anyOf := CompileList(spec.anyOf, mode, depth);
      ExtendsTransitively(old(compiled), c2, compiled);
      if anyOf.Err? {
        if anyOf.error != TooDeep {
          PartFails(env, spec, mode);
        }
        return Err(anyOf.error);
      }
      ListIsStill(env, spec.allOf, mode, |c2|, |compiled|, allOf.value);
      ListIsStill(env, spec.oneOf, mode, |c2|, |compiled|, oneOf.value);
      return Ok(given.(allOf := allOf.value, oneOf := oneOf.value, anyOf := anyOf.value));
    }

    method CompileConditions(spec: Spec, mode: Mode, depth: nat, given: Children) returns (r: Result<Children, Failure>)
      requires Valid() && PartsWithin(env, stack, spec)
      modifies this
      ensures Valid() && visiting == old(visiting) && stack == old(stack) && Extends(old(compiled), compiled)
      ensures r.Ok? ==> ConditionsAre(env, spec, mode, |compiled|, r.value)
      ensures r.Ok? ==> r.value == given.(notSchema := r.value.notSchema, ifSchema := r.value.ifSchema, thenSchema := r.value.thenSchema)
      ensures r.Err? && r.error != TooDeep ==> ChildrenNeverExpand(env, spec, mode)
      ensures r.Err? && r.error == TooDeep ==> PartNestsBeyond(env, spec, depth + 1)
      decreases |env.specs.Keys - visiting|, 1, spec, 2
    {
      hide Expand, Valid, Extends, OptionIs, ListIs, FieldsAre, ChildrenNeverExpand, Within, NestsBeyond, OptionNestsBeyond, ListNestsBeyond, FieldsNestBeyond;
      var negated := CompileOption(spec.notSpec, mode, depth);
      if negated.Err? {
        if negated.error != TooDeep {
          PartFails(env, spec, mode);
        }
        return Err(negated.error);
      }
      ghost var c1 := compiled;
      var condition := CompileOption(spec.ifSpec, mode, depth);
      ExtendsTransitively(old(compiled), c1, compiled);
      if condition.Err? {
        if condition.error != TooDeep {
          PartFails(env, spec, mode);
        }
        return Err(condition.error);
      }
      OptionIsStill(env, spec.notSpec, mode, |c1|, |compiled|, negated.value);
      ghost var c2 := compiled;
      var consequence := CompileOption(spec.thenSpec, mode, depth);
      ExtendsTransitively(old(compiled), c2, compiled);
      if consequence.Err? {
        if consequence.error != TooDeep {
          PartFails(env, spec, mode);
        }
        return Err(consequence.error);
      }
      OptionIsStill(env, spec.notSpec, mode, |c2|, |compiled|, negated.value);
      OptionIsStill(env, spec.ifSpec, mode, |c2|, |compiled|, condition.value);
      return Ok(given.(notSchema := negated.value, ifSchema := condition.value, thenSchema := consequence.value));
    }

    method CompileChildren(spec: Spec, mode: Mode, depth: nat) returns (r: Result<Children, Failure>)
      requires Valid() && Within(env, stack, spec) && !spec.jsonValue && spec.ref == ""
      modifies this
      ensures Valid() && visiting == old(visiting) && stack == old(stack) && Extends(old(compiled), compiled)
      ensures r.Ok? ==> ChildrenExpand(env, spec, mode, |compiled|) && r.value == ExpandedChildren(env, spec, mode, |compiled|)
      ensures r.Err? && r.error != TooDeep ==> ChildrenNeverExpand(env, spec, mode)
      ensures r.Err? && r.error == TooDeep ==> PartNestsBeyond(env, spec, depth + 1)
      decreases |env.specs.Keys - visiting|, 1, spec, 3
    {
      hide Expand, Valid, Extends, ChildrenNeverExpand, Within, PartsWithin, FieldsAre, OptionIs, ListIs, PartNestsBeyond;
      PartsAreWithin(env, stack, spec);
      r := CompileShape(spec, mode, depth, Children(map[], None, None, [], [], [], None, None, None));
      if r.Err? {
        return;
      }
      ghost var c1, shaped := compiled, r.value;
      r := CompileBranches(spec, mode, depth, r.value);
      ExtendsTransitively(old(compiled), c1, compiled);
      if r.Err? {
        return;
      }
      ShapeIsStill(env, spec, mode, |c1|, |compiled|, shaped);
      ghost var c2, branched := compiled, r.value;
      r := CompileConditions(spec, mode, depth, r.value);
      ExtendsTransitively(old(compiled), c2, compiled);
      if r.Err? {
        return;
      }
      ShapeIsStill(env, spec, mode, |c2|, |compiled|, shaped);
      BranchesAreStill(env, spec, mode, |c2|, |compiled|, branched);
      PartsMakeChildren(env, spec, mode, |compiled|, r.value);
    }
  }

  // -------------------------------------------------------------- compiling every definition

  /** Every definition has an expansion, and none nests beyond the bound. */
  ghost predicate AllWithinReach(env: Env) {
    forall name | name in env.specs :: !DefNeverExpands(env, name) && !DefNestsBeyond(env, name, 0)
  }

  /** Compiles all shared definitions. On success no definition reaches itself through
      references and every cached schema is the cache-free full expansion; on failure some
      definition has no expansion, or nests beyond the bound. */
  method CompileDefinitions(env: Env) returns (r: Result<map<string, Schema>, Failure>)
    ensures r.Ok? ==> r.value.Keys == env.specs.Keys
    ensures r.Ok? ==> forall name | name in r.value :: ExpandDef(env, name, |r.value|) == Ok(r.value[name])
    ensures r.Ok? ==> forall name | name in r.value :: WellCompiled(r.value[name], env.matches)
    ensures r.Ok? ==> forall name | name in r.value :: MeansSame(env, env.specs[name], r.value[name], |r.value| - 1)
    ensures r.Ok? ==> forall name | name in r.value :: Carries(env, env.specs[name], r.value[name], |r.value| - 1)
    ensures r.Ok? ==> forall path | RefPath(env, path) && |path| > 1 && path[0] in r.value :: path[0] != path[|path| - 1]
    ensures r.Err? && r.error != TooDeep ==> exists name :: name in env.specs && DefNeverExpands(env, name)
    ensures r.Err? && r.error == TooDeep ==> exists name :: name in env.specs && DefNestsBeyond(env, name, 0)
    ensures AllWithinReach(env) ==> r.Ok?
  {
    hide Expand, Mentions, WellCompiled, DefNeverExpands, DefNestsBeyond, ExpandDef, MeansSame, Carries;
    var resolver := new DefinitionResolver(env);
    var pending := env.specs.Keys;
    while pending != {}
      invariant fresh(resolver) && resolver.env == env && resolver.Valid() && resolver.stack == [] && resolver.visiting == {}
      invariant pending <= env.specs.Keys && env.specs.Keys - pending <= resolver.compiled.Keys
      decreases |pending|
    {
      var name :| name in pending;
      ghost var before := resolver.compiled;
      var schema := resolver.Resolve(name, 0);
      if schema.Err? {
        return Err(schema.error);
      }
      assert forall k | k in before :: k in resolver.compiled;
      pending := pending - {name};
    }
    forall name | name in resolver.compiled
      ensures WellCompiled(resolver.compiled[name], env.matches)
      ensures MeansSame(env, env.specs[name], resolver.compiled[name], |resolver.compiled| - 1)
      ensures Carries(env, env.specs[name], resolver.compiled[name], |resolver.compiled| - 1)
    {
      DefinitionIsWellCompiled(env, name, |resolver.compiled|);
      DefinitionKeepsMeaning(env, name, |resolver.compiled|);
    }
    forall path | RefPath(env, path) && |path| > 1 && path[0] in resolver.compiled
      ensures path[0] != path[|path| - 1]
    {
      if path[0] == path[|path| - 1] {
        CyclesNeverExpand(env, path, |resolver.compiled|);
      }
    }
    return Ok(resolver.compiled);
  }
}
