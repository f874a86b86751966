/** Laws of contract compilation: references only narrow, every literal in a compiled tree
    satisfies its node, compiled trees have the shape the renderer relies on, and only
    acyclic references expand. */
module ContractLaws {
  import opened Json
  import opened Schemas
  import opened Contracts
  import Rendering

  // -------------------------------------------------------------- references only narrow

  /** t agrees with base on everything but annotations. */
  predicate SameConstraints(base: Schema, t: Schema) {
    t == base.(refName := t.refName, description := t.description, unit := t.unit,
               default := t.default, overrideReason := t.overrideReason)
  }

  lemma AnnotationsDoNotMatter(base: Schema, t: Schema, v: Json, re: Matcher)
    requires SameConstraints(base, t)
    ensures Accepts(base, v, re) <==> Accepts(t, v, re)
  {
    assert CompositionAccepts(base, v, re) <==> CompositionAccepts(t, v, re);
    assert PlainAccepts(base, v, re) <==> PlainAccepts(t, v, re);
    if v.Obj? {
      forall k | k in v.fields
        ensures FieldAccepts(base, k, v.fields[k], re) <==> FieldAccepts(t, k, v.fields[k], re)
      {
      }
    }
    assert ChildrenAccept(base, v, re) <==> ChildrenAccept(t, v, re);
  }

  /** t differs from base only in annotations and in the keywords a reference may set. */
  predicate SameStructure(base: Schema, t: Schema) {
    SameConstraints(
      base.(minLength := t.minLength, maxLength := t.maxLength, minimum := t.minimum, maximum := t.maximum,
            minItems := t.minItems, maxItems := t.maxItems, uniqueItems := t.uniqueItems,
            pattern := t.pattern, enum := t.enum, constant := t.constant),
      t)
  }

  lemma StructureAccepts(base: Schema, t: Schema, v: Json, re: Matcher)
    requires SameStructure(base, t)
    requires PlainAccepts(t, v, re) ==> PlainAccepts(base, v, re)
    requires Accepts(t, v, re)
    ensures Accepts(base, v, re)
  {
    assert CompositionAccepts(base, v, re) <==> CompositionAccepts(t, v, re);
    if v.Obj? {
      forall k | k in v.fields
        ensures FieldAccepts(base, k, v.fields[k], re) <==> FieldAccepts(t, k, v.fields[k], re)
      {
      }
    }
    assert ChildrenAccept(base, v, re) <==> ChildrenAccept(t, v, re);
  }

  lemma EnumNarrows(base: Schema, values: seq<Json>, v: Json)
    requires EnumTightens(base, values) && base.enum != []
    requires ContainsSchemaValue(values, v)
    ensures ContainsSchemaValue(base.enum, v)
  {
    ContainsIsMembership(values, v);
    var i :| 0 <= i < |values| && values[i] == v;
    assert ContainsSchemaValue(base.enum, values[i]);
  }

  lemma ConstantNarrows(shared: Json, added: Json, v: Json)
    requires SchemaEqual(shared, added) && SchemaEqual(added, v)
    ensures SchemaEqual(shared, v)
  {
    SchemaEqualIsEquality(shared, added);
    SchemaEqualIsEquality(added, v);
    SchemaEqualIsEquality(shared, v);
  }

  lemma PlainNarrows(base: Schema, spec: Spec, mode: Mode, env: Env, v: Json)
    requires TighteningAllowed(base, spec, mode, env)
    requires PlainAccepts(Tightened(base, spec), v, env.matches)
    ensures PlainAccepts(base, v, env.matches)
  {
    hide SchemaEqual, Accepts, KindsOk, LiteralsOk, OverrideAllowed, TypeMatches, ContainsSchemaValue;
    if base.enum != [] && spec.enum.Some? {
      EnumNarrows(base, spec.enum.value, v);
    }
    if base.constant.Some? && spec.constant.Some? {
      ConstantNarrows(base.constant.value, spec.constant.value, v);
    }
  }

  lemma TightenedStructure(base: Schema, spec: Spec)
    ensures SameStructure(base, Tightened(base, spec))
  {
  }

  lemma OverriddenConstraints(s: Schema, o: Option<Override>)
    ensures SameConstraints(s, Overridden(s, o))
  {
  }

  /** A reference can only narrow: whatever the compiled reference accepts, the shared
      definition accepts, for any combination of added constraints. */
  lemma RefsOnlyNarrow(base: Schema, spec: Spec, mode: Mode, env: Env, v: Json)
    requires RefNode(base, spec, mode, env).Ok?
    requires Accepts(RefNode(base, spec, mode, env).value, v, env.matches)
    ensures Accepts(base, v, env.matches)
  {
    hide Accepts, TighteningAllowed, Tightened, Overridden, PlainAccepts, SameStructure, SameConstraints;
    var t := Tightened(base, spec);
    OverriddenConstraints(t, spec.defaultOverride);
    AnnotationsDoNotMatter(t, Overridden(t, spec.defaultOverride), v, env.matches);
    TightenedStructure(base, spec);
    if PlainAccepts(t, v, env.matches) {
      PlainNarrows(base, spec, mode, env, v);
    }
    StructureAccepts(base, t, v, env.matches);
  }

  // -------------------------------------------------------------- every compiled node

  /** The default, the constant and every enum entry of a node satisfy that node. */
  predicate LiteralsHold(s: Schema, re: Matcher) {
    && LiteralsOk(s, re)
    && (s.default.Some? ==> Accepts(s, s.default.value, re))
  }

  ghost predicate WellCompiled(s: Schema, re: Matcher)
    decreases s, 1
  {
    Rendering.NodeShape(s) && LiteralsHold(s, re) && ChildrenWellCompiled(s, re)
  }

  ghost predicate OptionWellCompiled(s: Option<Schema>, re: Matcher)
    decreases s, 0
  {
    s.Some? ==> WellCompiled(s.value, re)
  }

  ghost predicate ListWellCompiled(branches: seq<Schema>, re: Matcher)
    decreases branches, 0
  {
    forall i | 0 <= i < |branches| :: WellCompiled(branches[i], re)
  }

  ghost predicate FieldsWellCompiled(fields: map<string, Schema>, re: Matcher)
  {
    forall k | k in fields :: WellCompiled(fields[k], re)
  }

  ghost predicate ChildrenWellCompiled(s: Schema, re: Matcher)
    decreases s, 0
  {
    && (forall k | k in s.properties :: WellCompiled(s.properties[k], re))
    && OptionWellCompiled(s.items, re) && OptionWellCompiled(s.additionalPropertySchema, re)
    && ListWellCompiled(s.allOf, re) && ListWellCompiled(s.oneOf, re) && ListWellCompiled(s.anyOf, re)
    && OptionWellCompiled(s.notSchema, re) && OptionWellCompiled(s.ifSchema, re) && OptionWellCompiled(s.thenSchema, re)
  }

  lemma SameChildren(s: Schema, t: Schema, re: Matcher)
    requires SameStructure(s, t) && ChildrenWellCompiled(s, re)
    ensures ChildrenWellCompiled(t, re)
  {
  }

  lemma LiteralsSurviveAnnotations(s: Schema, t: Schema, re: Matcher)
    requires SameConstraints(s, t) && LiteralsOk(s, re)
    requires t.default.Some? ==> Accepts(s, t.default.value, re)
    ensures LiteralsHold(t, re)
  {
    hide Accepts;
    forall i | 0 <= i < |t.enum|
      ensures Accepts(t, t.enum[i], re)
    {
      AnnotationsDoNotMatter(s, t, t.enum[i], re);
    }
    if t.constant.Some? {
      AnnotationsDoNotMatter(s, t, t.constant.value, re);
    }
    if t.default.Some? {
      AnnotationsDoNotMatter(s, t, t.default.value, re);
    }
  }

  lemma UntypedHasNoKinds(s: Schema, env: Env)
    requires KindsOk(s, env) && s.kind == ""
    ensures s.pattern == "" && s.format == "" && s.minLength.None? && s.maxLength.None?
    ensures s.minimum.None? && s.maximum.None? && s.minItems.None? && s.maxItems.None? && s.uniqueItems.None?
  {
    hide ByteLength, IsWhole;
  }

  lemma UntypedHasNoEnum(base: Schema, values: seq<Json>)
    requires base.kind == ""
    ensures !EnumTightens(base, values)
  {
    if values != [] {
      assert !TypeMatches(base.kind, values[0]);
    }
  }

  /** A json_value definition admits no added constraint. */
  lemma TightenedJsonValue(base: Schema, spec: Spec, mode: Mode, env: Env)
    requires base.jsonValue && Rendering.Unconstrained(base)
    requires TighteningAllowed(base, spec, mode, env)
    ensures Rendering.Unconstrained(Overridden(Tightened(base, spec), spec.defaultOverride))
  {
    hide Accepts, SchemaEqual, LiteralsOk, OverrideAllowed, KindsOk, EnumTightens, ContainsSchemaValue, TrimSpace;
    UntypedHasNoKinds(Tightened(base, spec), env);
    if spec.enum.Some? {
      UntypedHasNoEnum(base, spec.enum.value);
    }
  }

  lemma TightenedShape(base: Schema, spec: Spec, mode: Mode, env: Env)
    requires Rendering.NodeShape(base)
    requires TighteningAllowed(base, spec, mode, env)
    ensures Rendering.NodeShape(Overridden(Tightened(base, spec), spec.defaultOverride))
  {
    hide TighteningAllowed, TrimSpace, Rendering.Unconstrained;
    if base.jsonValue {
      TightenedJsonValue(base, spec, mode, env);
    }
  }

  lemma RefNodeWellCompiled(base: Schema, spec: Spec, mode: Mode, env: Env)
    requires WellCompiled(base, env.matches)
    requires RefNode(base, spec, mode, env).Ok?
    ensures WellCompiled(RefNode(base, spec, mode, env).value, env.matches)
  {
    hide Accepts, Rendering.NodeShape;
    var t := Tightened(base, spec);
    var r := Overridden(t, spec.defaultOverride);
    TightenedShape(base, spec, mode, env);
    SameChildren(base, r, env.matches);
    LiteralsSurviveAnnotations(t, r, env.matches);
  }

  ghost predicate PartsWellCompiled(c: Children, re: Matcher) {
    && FieldsWellCompiled(c.properties, re)
    && OptionWellCompiled(c.items, re) && OptionWellCompiled(c.additional, re)
    && ListWellCompiled(c.allOf, re) && ListWellCompiled(c.oneOf, re) && ListWellCompiled(c.anyOf, re)
    && OptionWellCompiled(c.notSchema, re) && OptionWellCompiled(c.ifSchema, re) && OptionWellCompiled(c.thenSchema, re)
  }

  /** The compiled children are present exactly where the specification has them. */
  predicate ChildrenFit(spec: Spec, c: Children) {
    && (c.additional.Some? <==> spec.additionalPropertySpec.Some?)
    && (c.ifSchema.Some? <==> spec.ifSpec.Some?) && (c.thenSchema.Some? <==> spec.thenSpec.Some?)
  }

  lemma InlineNodeWellCompiled(spec: Spec, c: Children, mode: Mode, timestamps: bool, env: Env)
    requires PartsWellCompiled(c, env.matches) && ChildrenFit(spec, c)
    requires InlineNode(spec, c, mode, timestamps, env).Ok?
    ensures WellCompiled(InlineNode(spec, c, mode, timestamps, env).value, env.matches)
  {
    hide Accepts, KindsOk;
    var s := InlineSchema(spec, c);
    var r := Overridden(s.(default := spec.default), spec.defaultOverride);
    assert ChildrenWellCompiled(s, env.matches);
    SameChildren(s, r, env.matches);
    if spec.defaultOverride.Some? {
      AnnotationsDoNotMatter(s, s.(default := spec.default), spec.defaultOverride.value.value.value, env.matches);
    }
    LiteralsSurviveAnnotations(s, r, env.matches);
  }

  lemma {:induction false} OptionsExpandWell(env: Env, spec: Option<Spec>, mode: Mode, n: nat)
    requires OptionExpands(env, spec, mode, n)
    ensures OptionWellCompiled(ExpandedOption(env, spec, mode, n), env.matches)
    decreases n, 1, spec, 0
  {
    hide Accepts, InlineNode, RefNode, WellCompiled;
    if spec.Some? {
      ExpandedIsWellCompiled(env, spec.value, mode, false, n);
    }
  }

  lemma {:induction false} ListsExpandWell(env: Env, specs: Specs, mode: Mode, n: nat)
    requires ListExpands(env, specs, mode, n)
    ensures ListWellCompiled(ExpandedList(env, specs, mode, n), env.matches)
    decreases n, 1, specs, 0
  {
    hide Accepts, InlineNode, RefNode, WellCompiled;
    if specs.SpecList? {
      forall i | 0 <= i < |specs.list|
        ensures WellCompiled(ExpandedList(env, specs, mode, n)[i], env.matches)
      {
        ExpandedIsWellCompiled(env, specs.list[i], mode, false, n);
      }
    }
  }

  lemma {:induction false} FieldsExpandWell(env: Env, fields: Fields, mode: Mode, n: nat)
    requires FieldsExpand(env, fields, mode, n)
    ensures FieldsWellCompiled(ExpandedFields(env, fields, mode, n), env.matches)
    decreases n, 1, fields, 0
  {
    hide Accepts, InlineNode, RefNode, WellCompiled;
    if fields.SpecFields? {
      forall k | k in fields.fields
        ensures WellCompiled(ExpandedFields(env, fields, mode, n)[k], env.matches)
      {
        ExpandedIsWellCompiled(env, fields.fields[k], mode, false, n);
      }
    }
  }

  lemma {:induction false} PartsExpandWell(env: Env, spec: Spec, mode: Mode, n: nat)
    requires ChildrenExpand(env, spec, mode, n)
    ensures PartsWellCompiled(ExpandedChildren(env, spec, mode, n), env.matches)
    ensures ChildrenFit(spec, ExpandedChildren(env, spec, mode, n))
    decreases n, 1, spec, 1
  {
    hide Accepts, InlineNode, RefNode, WellCompiled, Expand, OptionWellCompiled, ListWellCompiled;
    FieldsExpandWell(env, spec.properties, mode, n);
    OptionsExpandWell(env, spec.items, mode, n);
    OptionsExpandWell(env, spec.additionalPropertySpec, mode, n);
    ListsExpandWell(env, spec.allOf, mode, n);
    ListsExpandWell(env, spec.oneOf, mode, n);
    ListsExpandWell(env, spec.anyOf, mode, n);
    OptionsExpandWell(env, spec.notSpec, mode, n);
    OptionsExpandWell(env, spec.ifSpec, mode, n);
    OptionsExpandWell(env, spec.thenSpec, mode, n);
  }

  lemma JsonValueWellCompiled(description: string, re: Matcher)
    ensures WellCompiled(Blank().(jsonValue := true, description := description), re)
  {
  }

  /** Every node of every expanded tree, after references, narrowing and default overrides,
      has the compiler's shape and accepts its own default, constant and enum entries. */
  lemma {:induction false} ExpandedIsWellCompiled(env: Env, spec: Spec, mode: Mode, timestamps: bool, n: nat)
    requires Expand(env, spec, mode, timestamps, n).Ok?
    ensures WellCompiled(Expand(env, spec, mode, timestamps, n).value, env.matches)
    decreases n, 1, spec, 2
  {
    hide Accepts, InlineNode, RefNode, WellCompiled, ChildrenExpand, ExpandedChildren;
    if spec.jsonValue {
      JsonValueWellCompiled(spec.description, env.matches);
    } else if spec.ref != "" {
      var base := ExpandDef(env, spec.ref, n);
      ExpandedIsWellCompiled(env, env.specs[spec.ref], Shared, spec.ref == "Timestamp", n - 1);
      RefNodeWellCompiled(base.value, spec, mode, env);
    } else {
      PartsExpandWell(env, spec, mode, n);
      InlineNodeWellCompiled(spec, ExpandedChildren(env, spec, mode, n), mode, timestamps, env);
    }
  }

  lemma DefinitionIsWellCompiled(env: Env, name: string, n: nat)
    requires ExpandDef(env, name, n).Ok?
    ensures WellCompiled(ExpandDef(env, name, n).value, env.matches)
  {
    hide RefNode, InlineNode, WellCompiled;
    ExpandedIsWellCompiled(env, env.specs[name], Shared, name == "Timestamp", n - 1);
  }

  // -------------------------------------------------------------- compiled trees render faithfully

  ghost predicate KeysRuleEverywhere(s: Schema)
    decreases s
  {
    && Rendering.KeysRuleAgrees(s)
    && (forall k | k in s.properties :: KeysRuleEverywhere(s.properties[k]))
    && (s.items.Some? ==> KeysRuleEverywhere(s.items.value))
    && (s.additionalPropertySchema.Some? ==> KeysRuleEverywhere(s.additionalPropertySchema.value))
    && (forall i | 0 <= i < |s.allOf| :: KeysRuleEverywhere(s.allOf[i]))
    && (forall i | 0 <= i < |s.oneOf| :: KeysRuleEverywhere(s.oneOf[i]))
    && (forall i | 0 <= i < |s.anyOf| :: KeysRuleEverywhere(s.anyOf[i]))
    && (s.notSchema.Some? ==> KeysRuleEverywhere(s.notSchema.value))
    && (s.ifSchema.Some? ==> KeysRuleEverywhere(s.ifSchema.value))
    && (s.thenSchema.Some? ==> KeysRuleEverywhere(s.thenSchema.value))
  }

  lemma {:induction false} BranchesAreFaithful(branches: seq<Schema>, re: Matcher)
    requires ListWellCompiled(branches, re)
    ensures forall i | 0 <= i < |branches| :: Rendering.Faithful(branches[i]) <==> KeysRuleEverywhere(branches[i])
    decreases branches, 0
  {
    hide Rendering.Faithful, KeysRuleEverywhere;
    forall i | 0 <= i < |branches|
      ensures Rendering.Faithful(branches[i]) <==> KeysRuleEverywhere(branches[i])
    {
      WellCompiledIsFaithful(branches[i], re);
    }
  }

  lemma {:induction false} OptionIsFaithful(s: Option<Schema>, re: Matcher)
    requires OptionWellCompiled(s, re)
    ensures s.Some? ==> (Rendering.Faithful(s.value) <==> KeysRuleEverywhere(s.value))
    decreases s, 0
  {
    hide Rendering.Faithful, KeysRuleEverywhere;
    if s.Some? {
      WellCompiledIsFaithful(s.value, re);
    }
  }

  lemma {:induction false} WellCompiledIsFaithful(s: Schema, re: Matcher)
    requires WellCompiled(s, re)
    ensures Rendering.Faithful(s) <==> KeysRuleEverywhere(s)
    decreases s, 1
  {
    hide Rendering.NodeShape, Rendering.KeysRuleAgrees, LiteralsHold, ListWellCompiled, OptionWellCompiled;
    assert ChildrenWellCompiled(s, re);
    forall k | k in s.properties
      ensures Rendering.Faithful(s.properties[k]) <==> KeysRuleEverywhere(s.properties[k])
    {
      WellCompiledIsFaithful(s.properties[k], re);
    }
    BranchesAreFaithful(s.allOf, re);
    BranchesAreFaithful(s.oneOf, re);
    BranchesAreFaithful(s.anyOf, re);
    OptionIsFaithful(s.items, re);
    OptionIsFaithful(s.additionalPropertySchema, re);
    OptionIsFaithful(s.notSchema, re);
    OptionIsFaithful(s.ifSchema, re);
    OptionIsFaithful(s.thenSchema, re);
  }

  /** For every contract that compiles and obeys the unknown-key rule at each node, the
      published document and the validator accept the same values. */
  lemma CompiledContractsRenderFaithfully(env: Env, spec: Spec, mode: Mode, timestamps: bool, n: nat, v: Json)
    requires Expand(env, spec, mode, timestamps, n).Ok?
    requires KeysRuleEverywhere(Expand(env, spec, mode, timestamps, n).value)
    ensures var s := Expand(env, spec, mode, timestamps, n).value;
            Rendering.Valid(Rendering.Render(s), v, env.matches) <==> Accepts(s, v, env.matches)
  {
    hide Expand, Accepts, Rendering.Valid, Rendering.Render, WellCompiled, KeysRuleEverywhere, Rendering.Faithful;
    var s := Expand(env, spec, mode, timestamps, n).value;
    ExpandedIsWellCompiled(env, spec, mode, timestamps, n);
    WellCompiledIsFaithful(s, env.matches);
    Rendering.RenderingPreservesMeaning(s, v, env.matches);
  }

  // -------------------------------------------------------------- fuel and acyclicity

  /** More fuel never changes a successful expansion. */
  lemma {:induction false} ExpandIsMonotone(env: Env, spec: Spec, mode: Mode, timestamps: bool, n: nat)
    requires Expand(env, spec, mode, timestamps, n).Ok?
    ensures Expand(env, spec, mode, timestamps, n + 1) == Expand(env, spec, mode, timestamps, n)
    decreases n, 1, spec, 2
  {
    hide InlineNode, RefNode, ChildrenExpand, ExpandedChildren;
    if spec.jsonValue {
    } else if spec.ref != "" {
      ExpandIsMonotone(env, env.specs[spec.ref], Shared, spec.ref == "Timestamp", n - 1);
      assert ExpandDef(env, spec.ref, n + 1) == ExpandDef(env, spec.ref, n);
    } else {
      ChildrenAreMonotone(env, spec, mode, n);
    }
  }

  lemma {:induction false} OptionIsMonotone(env: Env, spec: Option<Spec>, mode: Mode, n: nat)
    requires OptionExpands(env, spec, mode, n)
    ensures OptionExpands(env, spec, mode, n + 1)
    ensures ExpandedOption(env, spec, mode, n + 1) == ExpandedOption(env, spec, mode, n)
    decreases n, 1, spec, 0
  {
    hide InlineNode, RefNode;
    if spec.Some? {
      ExpandIsMonotone(env, spec.value, mode, false, n);
    }
  }

  lemma {:induction false} ListIsMonotone(env: Env, specs: Specs, mode: Mode, n: nat)
    requires ListExpands(env, specs, mode, n)
    ensures ListExpands(env, specs, mode, n + 1)
    ensures ExpandedList(env, specs, mode, n + 1) == ExpandedList(env, specs, mode, n)
    decreases n, 1, specs, 0
  {
    hide InlineNode, RefNode;
    if specs.SpecList? {
      forall i | 0 <= i < |specs.list|
        ensures Expand(env, specs.list[i], mode, false, n + 1) == Expand(env, specs.list[i], mode, false, n)
      {
        ExpandIsMonotone(env, specs.list[i], mode, false, n);
      }
    }
  }

  lemma {:induction false} FieldsAreMonotone(env: Env, fields: Fields, mode: Mode, n: nat)
    requires FieldsExpand(env, fields, mode, n)
    ensures FieldsExpand(env, fields, mode, n + 1)
    ensures ExpandedFields(env, fields, mode, n + 1) == ExpandedFields(env, fields, mode, n)
    decreases n, 1, fields, 0
  {
    hide InlineNode, RefNode;
    if fields.SpecFields? {
      forall k | k in fields.fields
        ensures Expand(env, fields.fields[k], mode, false, n + 1) == Expand(env, fields.fields[k], mode, false, n)
      {
        ExpandIsMonotone(env, fields.fields[k], mode, false, n);
      }
    }
  }

  lemma {:induction false} ChildrenAreMonotone(env: Env, spec: Spec, mode: Mode, n: nat)
    requires ChildrenExpand(env, spec, mode, n)
    ensures ChildrenExpand(env, spec, mode, n + 1)
    ensures ExpandedChildren(env, spec, mode, n + 1) == ExpandedChildren(env, spec, mode, n)
    decreases n, 1, spec, 1
  {
    hide InlineNode, RefNode;
    FieldsAreMonotone(env, spec.properties, mode, n);
    OptionIsMonotone(env, spec.items, mode, n);
    OptionIsMonotone(env, spec.additionalPropertySpec, mode, n);
    ListIsMonotone(env, spec.allOf, mode, n);
    ListIsMonotone(env, spec.oneOf, mode, n);
    ListIsMonotone(env, spec.anyOf, mode, n);
    OptionIsMonotone(env, spec.notSpec, mode, n);
    OptionIsMonotone(env, spec.ifSpec, mode, n);
    OptionIsMonotone(env, spec.thenSpec, mode, n);
  }

  lemma {:induction false} ExpandStays(env: Env, spec: Spec, mode: Mode, timestamps: bool, n: nat, m: nat)
    requires n <= m && Expand(env, spec, mode, timestamps, n).Ok?
    ensures Expand(env, spec, mode, timestamps, m) == Expand(env, spec, mode, timestamps, n)
    decreases m - n
  {
    hide Expand;
    if n < m {
      ExpandIsMonotone(env, spec, mode, timestamps, n);
      ExpandStays(env, spec, mode, timestamps, n + 1, m);
    }
  }

  lemma DefStays(env: Env, name: string, n: nat, m: nat)
    requires n <= m && ExpandDef(env, name, n).Ok?
    ensures ExpandDef(env, name, m) == ExpandDef(env, name, n)
  {
    hide Expand;
    ExpandStays(env, env.specs[name], Shared, name == "Timestamp", n - 1, m - 1);
  }

  lemma OptionStays(env: Env, spec: Option<Spec>, mode: Mode, n: nat, m: nat)
    requires n <= m && OptionExpands(env, spec, mode, n)
    ensures OptionExpands(env, spec, mode, m) && ExpandedOption(env, spec, mode, m) == ExpandedOption(env, spec, mode, n)
  {
    hide Expand;
    if spec.Some? {
      ExpandStays(env, spec.value, mode, false, n, m);
    }
  }

  lemma ListStays(env: Env, specs: Specs, mode: Mode, n: nat, m: nat)
    requires n <= m && ListExpands(env, specs, mode, n)
    ensures ListExpands(env, specs, mode, m) && ExpandedList(env, specs, mode, m) == ExpandedList(env, specs, mode, n)
  {
    hide Expand;
    if specs.SpecList? {
      forall i | 0 <= i < |specs.list|
        ensures Expand(env, specs.list[i], mode, false, m) == Expand(env, specs.list[i], mode, false, n)
      {
        ExpandStays(env, specs.list[i], mode, false, n, m);
      }
    }
  }

  lemma FieldsStay(env: Env, fields: Fields, mode: Mode, n: nat, m: nat)
    requires n <= m && FieldsExpand(env, fields, mode, n)
    ensures FieldsExpand(env, fields, mode, m) && ExpandedFields(env, fields, mode, m) == ExpandedFields(env, fields, mode, n)
  {
    hide Expand;
    if fields.SpecFields? {
      forall k | k in fields.fields
        ensures Expand(env, fields.fields[k], mode, false, m) == Expand(env, fields.fields[k], mode, false, n)
      {
        ExpandStays(env, fields.fields[k], mode, false, n, m);
      }
    }
  }

  /** Any two successful expansions of a definition agree. */
  lemma DefIsUnique(env: Env, name: string, n: nat, m: nat)
    requires ExpandDef(env, name, n).Ok? && ExpandDef(env, name, m).Ok?
    ensures ExpandDef(env, name, n) == ExpandDef(env, name, m)
  {
    hide ExpandDef;
    if n <= m {
      DefStays(env, name, n, m);
    } else {
      DefStays(env, name, m, n);
    }
  }

  lemma ChildrenStay(env: Env, spec: Spec, mode: Mode, n: nat, m: nat)
    requires n <= m && ChildrenExpand(env, spec, mode, n)
    ensures ChildrenExpand(env, spec, mode, m) && ExpandedChildren(env, spec, mode, m) == ExpandedChildren(env, spec, mode, n)
  {
    hide Expand, OptionExpands, ListExpands, FieldsExpand, ExpandedOption, ExpandedList, ExpandedFields;
    FieldsStay(env, spec.properties, mode, n, m);
    OptionStays(env, spec.items, mode, n, m);
    OptionStays(env, spec.additionalPropertySpec, mode, n, m);
    ListStays(env, spec.allOf, mode, n, m);
    ListStays(env, spec.oneOf, mode, n, m);
    ListStays(env, spec.anyOf, mode, n, m);
    OptionStays(env, spec.notSpec, mode, n, m);
    OptionStays(env, spec.ifSpec, mode, n, m);
    OptionStays(env, spec.thenSpec, mode, n, m);
  }

  lemma ChildrenAreUnique(env: Env, spec: Spec, mode: Mode, n: nat, m: nat)
    requires ChildrenExpand(env, spec, mode, n) && ChildrenExpand(env, spec, mode, m)
    ensures ExpandedChildren(env, spec, mode, n) == ExpandedChildren(env, spec, mode, m)
  {
    hide ChildrenExpand, ExpandedChildren;
    if n <= m {
      ChildrenStay(env, spec, mode, n, m);
    } else {
      ChildrenStay(env, spec, mode, m, n);
    }
  }

  /** The reference occurs in the specification, at any depth. */
  predicate Mentions(spec: Spec, name: string)
    decreases spec, 1
  {
    !spec.jsonValue &&
    if spec.ref != "" then spec.ref == name
    else
      || (spec.properties.SpecFields? && exists k | k in spec.properties.fields :: Mentions(spec.properties.fields[k], name))
      || OptionMentions(spec.items, name) || OptionMentions(spec.additionalPropertySpec, name)
      || ListMentions(spec.allOf, name) || ListMentions(spec.oneOf, name) || ListMentions(spec.anyOf, name)
      || OptionMentions(spec.notSpec, name) || OptionMentions(spec.ifSpec, name) || OptionMentions(spec.thenSpec, name)
  }

  predicate OptionMentions(spec: Option<Spec>, name: string)
    decreases spec, 0
  {
    spec.Some? && Mentions(spec.value, name)
  }

  predicate ListMentions(specs: Specs, name: string)
    decreases specs, 0
  {
    specs.SpecList? && exists i | 0 <= i < |specs.list| :: Mentions(specs.list[i], name)
  }

  lemma {:induction false} OptionMentionedExpands(env: Env, spec: Option<Spec>, mode: Mode, n: nat, name: string)
    requires OptionExpands(env, spec, mode, n) && OptionMentions(spec, name)
    ensures ExpandDef(env, name, n).Ok?
    decreases spec, 0
  {
    hide InlineNode, RefNode;
    MentionedExpands(env, spec.value, mode, false, n, name);
  }

  lemma {:induction false} ListMentionedExpands(env: Env, specs: Specs, mode: Mode, n: nat, name: string)
    requires ListExpands(env, specs, mode, n) && ListMentions(specs, name)
    ensures ExpandDef(env, name, n).Ok?
    decreases specs, 0
  {
    hide InlineNode, RefNode;
    var i :| 0 <= i < |specs.list| && Mentions(specs.list[i], name);
    MentionedExpands(env, specs.list[i], mode, false, n, name);
  }

  /** A specification expands only if every definition it mentions does. */
  lemma {:induction false} MentionedExpands(env: Env, spec: Spec, mode: Mode, timestamps: bool, n: nat, name: string)
    requires Expand(env, spec, mode, timestamps, n).Ok? && Mentions(spec, name)
    ensures ExpandDef(env, name, n).Ok?
    decreases spec, 1
  {
    hide InlineNode, RefNode;
    if spec.ref == "" {
      assert ChildrenExpand(env, spec, mode, n);
      if OptionMentions(spec.items, name) {
        OptionMentionedExpands(env, spec.items, mode, n, name);
      } else if OptionMentions(spec.additionalPropertySpec, name) {
        OptionMentionedExpands(env, spec.additionalPropertySpec, mode, n, name);
      } else if ListMentions(spec.allOf, name) {
        ListMentionedExpands(env, spec.allOf, mode, n, name);
      } else if ListMentions(spec.oneOf, name) {
        ListMentionedExpands(env, spec.oneOf, mode, n, name);
      } else if ListMentions(spec.anyOf, name) {
        ListMentionedExpands(env, spec.anyOf, mode, n, name);
      } else if OptionMentions(spec.notSpec, name) {
        OptionMentionedExpands(env, spec.notSpec, mode, n, name);
      } else if OptionMentions(spec.ifSpec, name) {
        OptionMentionedExpands(env, spec.ifSpec, mode, n, name);
      } else if OptionMentions(spec.thenSpec, name) {
        OptionMentionedExpands(env, spec.thenSpec, mode, n, name);
      } else {
        assert FieldsExpand(env, spec.properties, mode, n);
        var k :| k in spec.properties.fields && Mentions(spec.properties.fields[k], name);
        MentionedExpands(env, spec.properties.fields[k], mode, false, n, name);
      }
    }
  }

  /** Each definition on the path mentions the next. */
  predicate RefPath(env: Env, path: seq<string>) {
    && path != []
    && forall i | 0 <= i < |path| - 1 :: path[i] in env.specs && Mentions(env.specs[path[i]], path[i + 1])
  }

  lemma {:induction false} PathExpands(env: Env, path: seq<string>, n: nat)
    requires RefPath(env, path) && ExpandDef(env, path[0], n).Ok?
    ensures |path| <= n && ExpandDef(env, path[|path| - 1], n - (|path| - 1)).Ok?
    decreases |path|
  {
    hide Expand, Mentions;
    if |path| > 1 {
      MentionedExpands(env, env.specs[path[0]], Shared, path[0] == "Timestamp", n - 1, path[1]);
      PathExpands(env, path[1..], n - 1);
    }
  }

  /** A definition that reaches itself through references never expands, whatever the fuel. */
  lemma {:induction false} CyclesNeverExpand(env: Env, path: seq<string>, n: nat)
    requires RefPath(env, path) && |path| > 1 && path[0] == path[|path| - 1]
    ensures ExpandDef(env, path[0], n).Err?
    decreases n
  {
    hide Expand, Mentions;
    if ExpandDef(env, path[0], n).Ok? {
      PathExpands(env, path, n);
      CyclesNeverExpand(env, path, n - (|path| - 1));
    }
  }

  // -------------------------------------------------------------- expansions that do not exist

  ghost predicate NeverExpands(env: Env, spec: Spec, mode: Mode, timestamps: bool) {
    forall n: nat :: Expand(env, spec, mode, timestamps, n).Err?
  }

  ghost predicate DefNeverExpands(env: Env, name: string) {
    forall n: nat :: ExpandDef(env, name, n).Err?
  }

  ghost predicate ChildrenNeverExpand(env: Env, spec: Spec, mode: Mode) {
    forall n: nat :: !ChildrenExpand(env, spec, mode, n)
  }

  lemma DefinitionExpands(env: Env, name: string, n: nat)
    requires name in env.specs
    ensures ExpandDef(env, name, n + 1) == Expand(env, env.specs[name], Shared, name == "Timestamp", n)
  {
    hide Expand;
  }

  /** The specification is part of the innermost definition on the stack. */
  ghost predicate Within(env: Env, stack: seq<string>, spec: Spec) {
    stack != [] ==>
      && stack[|stack| - 1] in env.specs
      && forall name :: Mentions(spec, name) ==> Mentions(env.specs[stack[|stack| - 1]], name)
  }

  lemma DefinitionIsWithin(env: Env, stack: seq<string>, name: string)
    requires name in env.specs
    ensures Within(env, stack + [name], env.specs[name])
  {
    hide Mentions;
  }

  ghost predicate PartsWithin(env: Env, stack: seq<string>, spec: Spec) {
    && (spec.properties.SpecFields? ==>
          forall k | k in spec.properties.fields :: Within(env, stack, spec.properties.fields[k]))
    && (spec.items.Some? ==> Within(env, stack, spec.items.value))
    && (spec.additionalPropertySpec.Some? ==> Within(env, stack, spec.additionalPropertySpec.value))
    && (spec.allOf.SpecList? ==> forall i | 0 <= i < |spec.allOf.list| :: Within(env, stack, spec.allOf.list[i]))
    && (spec.oneOf.SpecList? ==> forall i | 0 <= i < |spec.oneOf.list| :: Within(env, stack, spec.oneOf.list[i]))
    && (spec.anyOf.SpecList? ==> forall i | 0 <= i < |spec.anyOf.list| :: Within(env, stack, spec.anyOf.list[i]))
    && (spec.notSpec.Some? ==> Within(env, stack, spec.notSpec.value))
    && (spec.ifSpec.Some? ==> Within(env, stack, spec.ifSpec.value))
    && (spec.thenSpec.Some? ==> Within(env, stack, spec.thenSpec.value))
  }

  lemma OptionIsWithin(env: Env, stack: seq<string>, spec: Spec, part: Option<Spec>)
    requires Within(env, stack, spec)
    requires forall name :: OptionMentions(part, name) ==> Mentions(spec, name)
    ensures part.Some? ==> Within(env, stack, part.value)
  {
    hide Mentions;
    if part.Some? {
      forall name
        ensures Mentions(part.value, name) ==> OptionMentions(part, name)
      {
      }
    }
  }

  lemma PartIsWithin(env: Env, stack: seq<string>, spec: Spec, part: Spec)
    requires Within(env, stack, spec)
    requires forall name :: Mentions(part, name) ==> Mentions(spec, name)
    ensures Within(env, stack, part)
  {
    hide Mentions;
  }

  lemma ListItemMentions(specs: Specs, i: int, name: string)
    requires specs.SpecList? && 0 <= i < |specs.list| && Mentions(specs.list[i], name)
    ensures ListMentions(specs, name)
  {
  }

  lemma FieldMentions(spec: Spec, key: string, name: string)
    requires !spec.jsonValue && spec.ref == "" && spec.properties.SpecFields? && key in spec.properties.fields
    requires Mentions(spec.properties.fields[key], name)
    ensures Mentions(spec, name)
  {
  }

  lemma ListIsWithin(env: Env, stack: seq<string>, spec: Spec, part: Specs)
    requires Within(env, stack, spec)
    requires forall name :: ListMentions(part, name) ==> Mentions(spec, name)
    ensures part.SpecList? ==> forall i | 0 <= i < |part.list| :: Within(env, stack, part.list[i])
  {
    hide Mentions, ListMentions, Within;
    if part.SpecList? {
      forall i | 0 <= i < |part.list|
        ensures Within(env, stack, part.list[i])
      {
        forall name | Mentions(part.list[i], name)
          ensures Mentions(spec, name)
        {
          ListItemMentions(part, i, name);
        }
        PartIsWithin(env, stack, spec, part.list[i]);
      }
    }
  }

  lemma FieldIsWithin(env: Env, stack: seq<string>, spec: Spec, key: string)
    requires Within(env, stack, spec) && !spec.jsonValue && spec.ref == ""
    requires spec.properties.SpecFields? && key in spec.properties.fields
    ensures Within(env, stack, spec.properties.fields[key])
  {
    hide Mentions, Within;
    forall name | Mentions(spec.properties.fields[key], name)
      ensures Mentions(spec, name)
    {
      FieldMentions(spec, key, name);
    }
    PartIsWithin(env, stack, spec, spec.properties.fields[key]);
  }

  lemma PartsAreWithin(env: Env, stack: seq<string>, spec: Spec)
    requires Within(env, stack, spec) && !spec.jsonValue && spec.ref == ""
    ensures PartsWithin(env, stack, spec)
  {
    hide Within, OptionMentions, ListMentions;
    if spec.properties.SpecFields? {
      forall k | k in spec.properties.fields
        ensures Within(env, stack, spec.properties.fields[k])
      {
        FieldIsWithin(env, stack, spec, k);
      }
    }
    OptionIsWithin(env, stack, spec, spec.items);
    OptionIsWithin(env, stack, spec, spec.additionalPropertySpec);
    ListIsWithin(env, stack, spec, spec.allOf);
    ListIsWithin(env, stack, spec, spec.oneOf);
    ListIsWithin(env, stack, spec, spec.anyOf);
    OptionIsWithin(env, stack, spec, spec.notSpec);
    OptionIsWithin(env, stack, spec, spec.ifSpec);
    OptionIsWithin(env, stack, spec, spec.thenSpec);
  }

  /** A compiled option, list or field map is the full expansion of its specification. */
  ghost predicate OptionIs(env: Env, spec: Option<Spec>, mode: Mode, n: nat, value: Option<Schema>) {
    OptionExpands(env, spec, mode, n) && ExpandedOption(env, spec, mode, n) == value
  }

  ghost predicate ListIs(env: Env, specs: Specs, mode: Mode, n: nat, value: seq<Schema>) {
    ListExpands(env, specs, mode, n) && ExpandedList(env, specs, mode, n) == value
  }

  ghost predicate FieldsAre(env: Env, fields: Fields, mode: Mode, n: nat, value: map<string, Schema>) {
    FieldsExpand(env, fields, mode, n) && ExpandedFields(env, fields, mode, n) == value
  }

  ghost predicate ShapeIs(env: Env, spec: Spec, mode: Mode, n: nat, c: Children) {
    && FieldsAre(env, spec.properties, mode, n, c.properties)
    && OptionIs(env, spec.items, mode, n, c.items)
    && OptionIs(env, spec.additionalPropertySpec, mode, n, c.additional)
  }

  ghost predicate BranchesAre(env: Env, spec: Spec, mode: Mode, n: nat, c: Children) {
    && ListIs(env, spec.allOf, mode, n, c.allOf)
    && ListIs(env, spec.oneOf, mode, n, c.oneOf)
    && ListIs(env, spec.anyOf, mode, n, c.anyOf)
  }

  ghost predicate ConditionsAre(env: Env, spec: Spec, mode: Mode, n: nat, c: Children) {
    && OptionIs(env, spec.notSpec, mode, n, c.notSchema)
    && OptionIs(env, spec.ifSpec, mode, n, c.ifSchema)
    && OptionIs(env, spec.thenSpec, mode, n, c.thenSchema)
  }

  lemma OptionIsStill(env: Env, spec: Option<Spec>, mode: Mode, n: nat, m: nat, value: Option<Schema>)
    requires OptionIs(env, spec, mode, n, value) && n <= m
    ensures OptionIs(env, spec, mode, m, value)
  {
    OptionStays(env, spec, mode, n, m);
  }

  lemma ListIsStill(env: Env, specs: Specs, mode: Mode, n: nat, m: nat, value: seq<Schema>)
    requires ListIs(env, specs, mode, n, value) && n <= m
    ensures ListIs(env, specs, mode, m, value)
  {
    ListStays(env, specs, mode, n, m);
  }

  lemma FieldsAreStill(env: Env, fields: Fields, mode: Mode, n: nat, m: nat, value: map<string, Schema>)
    requires FieldsAre(env, fields, mode, n, value) && n <= m
    ensures FieldsAre(env, fields, mode, m, value)
  {
    FieldsStay(env, fields, mode, n, m);
  }

  lemma ShapeIsStill(env: Env, spec: Spec, mode: Mode, n: nat, m: nat, c: Children)
    requires ShapeIs(env, spec, mode, n, c) && n <= m
    ensures ShapeIs(env, spec, mode, m, c)
  {
    hide FieldsAre, OptionIs;
    FieldsAreStill(env, spec.properties, mode, n, m, c.properties);
    OptionIsStill(env, spec.items, mode, n, m, c.items);
    OptionIsStill(env, spec.additionalPropertySpec, mode, n, m, c.additional);
  }

  lemma BranchesAreStill(env: Env, spec: Spec, mode: Mode, n: nat, m: nat, c: Children)
    requires BranchesAre(env, spec, mode, n, c) && n <= m
    ensures BranchesAre(env, spec, mode, m, c)
  {
    hide ListIs;
    ListIsStill(env, spec.allOf, mode, n, m, c.allOf);
    ListIsStill(env, spec.oneOf, mode, n, m, c.oneOf);
    ListIsStill(env, spec.anyOf, mode, n, m, c.anyOf);
  }

  lemma PartsMakeChildren(env: Env, spec: Spec, mode: Mode, n: nat, c: Children)
    requires ShapeIs(env, spec, mode, n, c) && BranchesAre(env, spec, mode, n, c) && ConditionsAre(env, spec, mode, n, c)
    ensures ChildrenExpand(env, spec, mode, n) && ExpandedChildren(env, spec, mode, n) == c
  {
    hide RefNode, InlineNode;
  }

  lemma PartFails(env: Env, spec: Spec, mode: Mode)
    requires
      || (forall n: nat :: !FieldsExpand(env, spec.properties, mode, n))
      || (forall n: nat :: !OptionExpands(env, spec.items, mode, n))
      || (forall n: nat :: !OptionExpands(env, spec.additionalPropertySpec, mode, n))
      || (forall n: nat :: !ListExpands(env, spec.allOf, mode, n))
      || (forall n: nat :: !ListExpands(env, spec.oneOf, mode, n))
      || (forall n: nat :: !ListExpands(env, spec.anyOf, mode, n))
      || (forall n: nat :: !OptionExpands(env, spec.notSpec, mode, n))
      || (forall n: nat :: !OptionExpands(env, spec.ifSpec, mode, n))
      || (forall n: nat :: !OptionExpands(env, spec.thenSpec, mode, n))
    ensures ChildrenNeverExpand(env, spec, mode)
  {
    hide RefNode, InlineNode;
    forall n: nat
      ensures !ChildrenExpand(env, spec, mode, n)
    {
      assert !FieldsExpand(env, spec.properties, mode, n)
        || !OptionExpands(env, spec.items, mode, n) || !OptionExpands(env, spec.additionalPropertySpec, mode, n)
        || !ListExpands(env, spec.allOf, mode, n) || !ListExpands(env, spec.oneOf, mode, n)
        || !ListExpands(env, spec.anyOf, mode, n) || !OptionExpands(env, spec.notSpec, mode, n)
        || !OptionExpands(env, spec.ifSpec, mode, n) || !OptionExpands(env, spec.thenSpec, mode, n);
    }
  }

  lemma ListFails(env: Env, specs: Specs, mode: Mode, i: int)
    requires specs.SpecList? && 0 <= i < |specs.list| && NeverExpands(env, specs.list[i], mode, false)
    ensures forall n: nat :: !ListExpands(env, specs, mode, n)
  {
    hide Expand;
  }

  lemma FieldsFail(env: Env, fields: Fields, mode: Mode, key: string)
    requires fields.SpecFields? && key in fields.fields && NeverExpands(env, fields.fields[key], mode, false)
    ensures forall n: nat :: !FieldsExpand(env, fields, mode, n)
  {
    hide Expand;
  }

  /** The fields compiled so far are full expansions. */
  ghost predicate PartlyExpanded(env: Env, fields: Fields, mode: Mode, n: nat, schemas: map<string, Schema>) {
    && fields.SpecFields?
    && forall k | k in schemas :: k in fields.fields && Expand(env, fields.fields[k], mode, false, n) == Ok(schemas[k])
  }

  lemma PartlyExpandedStays(env: Env, fields: Fields, mode: Mode, n: nat, m: nat, schemas: map<string, Schema>)
    requires PartlyExpanded(env, fields, mode, n, schemas) && n <= m
    ensures PartlyExpanded(env, fields, mode, m, schemas)
  {
    hide Expand;
    forall k | k in schemas
      ensures Expand(env, fields.fields[k], mode, false, m) == Ok(schemas[k])
    {
      ExpandStays(env, fields.fields[k], mode, false, n, m);
    }
  }

  lemma PartlyExpandedGrows(env: Env, fields: Fields, mode: Mode, n: nat, schemas: map<string, Schema>, key: string, schema: Schema)
    requires PartlyExpanded(env, fields, mode, n, schemas)
    requires key in fields.fields && Expand(env, fields.fields[key], mode, false, n) == Ok(schema)
    ensures PartlyExpanded(env, fields, mode, n, schemas[key := schema])
  {
    hide Expand;
  }

  /** The first items compiled are full expansions. */
  ghost predicate ListedSoFar(env: Env, specs: Specs, mode: Mode, n: nat, schemas: seq<Schema>) {
    && specs.SpecList? && |schemas| <= |specs.list|
    && forall j | 0 <= j < |schemas| :: Expand(env, specs.list[j], mode, false, n) == Ok(schemas[j])
  }

  lemma ListedSoFarGrows(env: Env, specs: Specs, mode: Mode, n: nat, m: nat, schemas: seq<Schema>, schema: Schema)
    requires ListedSoFar(env, specs, mode, n, schemas) && n <= m && |schemas| < |specs.list|
    requires Expand(env, specs.list[|schemas|], mode, false, m) == Ok(schema)
    ensures ListedSoFar(env, specs, mode, m, schemas + [schema])
  {
    hide Expand;
    forall j | 0 <= j < |schemas|
      ensures Expand(env, specs.list[j], mode, false, m) == Ok(schemas[j])
    {
      ExpandStays(env, specs.list[j], mode, false, n, m);
    }
  }

  lemma AllListed(env: Env, specs: Specs, mode: Mode, n: nat, schemas: seq<Schema>)
    requires ListedSoFar(env, specs, mode, n, schemas) && |schemas| == |specs.list|
    ensures ListIs(env, specs, mode, n, schemas)
  {
    hide Expand;
  }

  lemma NothingListed(env: Env, specs: Specs, mode: Mode, n: nat)
    ensures specs.SpecList? ==> ListedSoFar(env, specs, mode, n, [])
    ensures specs.NoSpecs? ==> ListIs(env, specs, mode, n, [])
  {
  }

  lemma NoneExpandedYet(env: Env, fields: Fields, mode: Mode, n: nat)
    requires fields.SpecFields?
    ensures PartlyExpanded(env, fields, mode, n, map[])
  {
  }

  lemma NoFieldsExpand(env: Env, mode: Mode, n: nat)
    ensures FieldsAre(env, NoFields, mode, n, map[])
  {
  }

  lemma FullyExpanded(env: Env, fields: Fields, mode: Mode, n: nat, schemas: map<string, Schema>)
    requires PartlyExpanded(env, fields, mode, n, schemas) && schemas.Keys == fields.fields.Keys
    ensures FieldsAre(env, fields, mode, n, schemas)
  {
    hide Expand;
  }

  lemma NoFuel(env: Env, name: string)
    ensures ExpandDef(env, name, 0).Err?
  {
  }

  lemma DefinitionFails(env: Env, name: string)
    requires name in env.specs
    requires NeverExpands(env, env.specs[name], Shared, name == "Timestamp")
    ensures DefNeverExpands(env, name)
  {
    hide Expand, ExpandDef;
    forall n: nat
      ensures ExpandDef(env, name, n).Err?
    {
      if n == 0 {
        NoFuel(env, name);
      } else {
        DefinitionExpands(env, name, n - 1);
      }
    }
  }

  lemma UnknownFails(env: Env, name: string)
    requires name !in env.specs
    ensures DefNeverExpands(env, name)
  {
  }

  lemma ReferenceFails(env: Env, spec: Spec, mode: Mode, timestamps: bool)
    requires !spec.jsonValue && spec.ref != ""
    requires HasStructure(spec) || DefNeverExpands(env, spec.ref)
    ensures NeverExpands(env, spec, mode, timestamps)
  {
    hide RefNode, HasStructure, InlineNode, ChildrenExpand;
    forall n: nat
      ensures Expand(env, spec, mode, timestamps, n).Err?
    {
      assert HasStructure(spec) || ExpandDef(env, spec.ref, n).Err?;
    }
  }

  lemma NarrowingFails(env: Env, spec: Spec, mode: Mode, timestamps: bool, n: nat)
    requires !spec.jsonValue && spec.ref != "" && ExpandDef(env, spec.ref, n).Ok?
    requires RefNode(ExpandDef(env, spec.ref, n).value, spec, mode, env).Err?
    ensures NeverExpands(env, spec, mode, timestamps)
  {
    hide RefNode, HasStructure, InlineNode, ExpandDef;
    forall m: nat
      ensures Expand(env, spec, mode, timestamps, m).Err?
    {
      if ExpandDef(env, spec.ref, m).Ok? {
        DefIsUnique(env, spec.ref, n, m);
      }
    }
  }

  lemma InlineFails(env: Env, spec: Spec, mode: Mode, timestamps: bool)
    requires !spec.jsonValue && spec.ref == ""
    requires ChildrenNeverExpand(env, spec, mode) || !HeaderOk(spec, mode, timestamps)
    ensures NeverExpands(env, spec, mode, timestamps)
  {
    hide RefNode, HasStructure, ExpandedChildren, HeaderOk, ObjectRulesOk, KindsOk, LiteralsOk, OverrideAllowed;
    forall n: nat
      ensures Expand(env, spec, mode, timestamps, n).Err?
    {
      assert !ChildrenExpand(env, spec, mode, n) || !HeaderOk(spec, mode, timestamps);
    }
  }

  lemma AssemblyFails(env: Env, spec: Spec, mode: Mode, timestamps: bool, n: nat)
    requires !spec.jsonValue && spec.ref == "" && ChildrenExpand(env, spec, mode, n)
    requires InlineNode(spec, ExpandedChildren(env, spec, mode, n), mode, timestamps, env).Err?
    ensures NeverExpands(env, spec, mode, timestamps)
  {
    hide RefNode, HasStructure, InlineNode, ChildrenExpand, ExpandedChildren;
    forall m: nat
      ensures Expand(env, spec, mode, timestamps, m).Err?
    {
      if ChildrenExpand(env, spec, mode, m) {
        ChildrenAreUnique(env, spec, mode, n, m);
      }
    }
  }
}
