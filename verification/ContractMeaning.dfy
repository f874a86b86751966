/** What a contract specification means, in terms of the keywords its author writes, and that
    compiling keeps that meaning. */
module ContractMeaning {
  import opened Json
  import opened Schemas
  import opened Contracts
  import opened ContractLaws
  import Rendering
  import Calendar

  // -------------------------------------------------------------- the keywords of a specification

  predicate WithinLimits(low: Option<int>, high: Option<int>, n: int) {
    (low.Some? ==> low.value <= n) && (high.Some? ==> n <= high.value)
  }

  predicate WithinRange(low: Option<real>, high: Option<real>, n: real) {
    (low.Some? ==> low.value <= n) && (high.Some? ==> n <= high.value)
  }

  /** The value satisfies the type, bounds, pattern, format, enum and constant that are written. */
  ghost predicate KeywordsHold(spec: Spec, v: Json, re: Matcher) {
    && (spec.kind != "" ==> Rendering.IsInstanceOf(v, spec.kind))
    && (spec.enum.Some? ==> v in spec.enum.value)
    && (spec.constant.Some? ==> v == spec.constant.value)
    && (v.Num? ==> WithinRange(spec.minimum, spec.maximum, v.n))
    && (v.Str? ==> TextHolds(spec, v.s, re))
    && (v.Arr? ==> ListHolds(spec, v.items))
  }

  ghost predicate TextHolds(spec: Spec, text: string, re: Matcher) {
    && WithinLimits(spec.minLength, spec.maxLength, |text|)
    && (spec.pattern != "" ==> re(spec.pattern, text))
    && (spec.format == FORMAT_TIMESTAMP ==> Calendar.NamesRealSecond(text))
  }

  ghost predicate ListHolds(spec: Spec, items: seq<Json>) {
    && WithinLimits(spec.minItems, spec.maxItems, |items|)
    && (spec.uniqueItems == Some(true) ==> forall i, j | 0 <= i < |items| && 0 <= j < |items| && i != j :: items[i] != items[j])
  }

  predicate Declares(spec: Spec, key: string) {
    spec.properties.SpecFields? && key in spec.properties.fields
  }

  predicate HasBranches(specs: Specs) {
    specs.SpecList? && specs.list != []
  }

  /** A specification that says nothing about keys and combines others leaves the keys to those. */
  predicate LeavesKeys(spec: Spec) {
    && (spec.properties.SpecFields? ==> spec.properties.fields == map[]) && spec.required.None? && spec.additionalPropertySpec.None?
    && (HasBranches(spec.allOf) || HasBranches(spec.oneOf) || HasBranches(spec.anyOf))
  }

  // -------------------------------------------------------------- what a specification accepts

  /** The value is what the specification asks for, following at most n references in a row.
      A reference asks for what the shared definition does and for the constraints it adds. */
  ghost predicate Satisfies(env: Env, spec: Spec, v: Json, n: nat)
    decreases n, spec, 3
  {
    spec.jsonValue ||
    if spec.ref != "" then
      n > 0 && spec.ref in env.specs && Satisfies(env, env.specs[spec.ref], v, n - 1) && KeywordsHold(spec, v, env.matches)
    else
      KeywordsHold(spec, v, env.matches) && BranchesHold(env, spec, v, n) && MembersHold(env, spec, v, n)
  }

  ghost predicate AllHold(env: Env, specs: Specs, v: Json, n: nat)
    decreases n, specs, 0
  {
    specs.SpecList? ==> forall i | 0 <= i < |specs.list| :: Satisfies(env, specs.list[i], v, n)
  }

  ghost predicate SomeHolds(env: Env, specs: Specs, v: Json, n: nat)
    decreases n, specs, 0
  {
    specs.SpecList? ==> exists i | 0 <= i < |specs.list| :: Satisfies(env, specs.list[i], v, n)
  }

  ghost predicate ExactlyOneHolds(env: Env, specs: Specs, v: Json, n: nat)
    decreases n, specs, 0
  {
    specs.SpecList? ==>
      UniquelyTrue(seq(|specs.list|, i requires 0 <= i < |specs.list| => Satisfies(env, specs.list[i], v, n)))
  }

  /** The exclusion, the branches and the condition. */
  ghost predicate BranchesHold(env: Env, spec: Spec, v: Json, n: nat)
    decreases n, spec, 2
  {
    && (spec.notSpec.Some? ==> !Satisfies(env, spec.notSpec.value, v, n))
    && AllHold(env, spec.allOf, v, n) && SomeHolds(env, spec.anyOf, v, n) && ExactlyOneHolds(env, spec.oneOf, v, n)
    && (spec.ifSpec.Some? && Satisfies(env, spec.ifSpec.value, v, n) ==>
          spec.thenSpec.Some? && Satisfies(env, spec.thenSpec.value, v, n))
  }

  /** The required keys, every key and every item. */
  ghost predicate MembersHold(env: Env, spec: Spec, v: Json, n: nat)
    decreases n, spec, 2
  {
    && (v.Obj? && !LeavesKeys(spec) ==>
          && (spec.required.Some? ==> forall i | 0 <= i < |spec.required.value| :: spec.required.value[i] in v.fields)
          && (forall k | k in v.fields :: KeyHolds(env, spec, k, v.fields[k], n)))
    && (v.Arr? && spec.items.Some? ==> forall i | 0 <= i < |v.items| :: Satisfies(env, spec.items.value, v.items[i], n))
  }

  /** A declared key answers to its own specification; any other needs a specification for
      further keys that it satisfies, or the word that they are allowed. */
  ghost predicate KeyHolds(env: Env, spec: Spec, key: string, v: Json, n: nat)
    decreases n, spec, 1
  {
    if Declares(spec, key) then FieldHolds(env, spec.properties, key, v, n)
    else if spec.additionalPropertySpec.Some? then Satisfies(env, spec.additionalPropertySpec.value, v, n)
    else spec.additionalProperties == Some(true)
  }

  ghost predicate FieldHolds(env: Env, fields: Fields, key: string, v: Json, n: nat)
    requires fields.SpecFields? && key in fields.fields
    decreases n, fields, 0
  {
    Satisfies(env, fields.fields[key], v, n)
  }

  /** The compiled schema accepts exactly what the specification asks for. */
  ghost predicate MeansSame(env: Env, spec: Spec, s: Schema, n: nat) {
    forall v: Json :: Accepts(s, v, env.matches) <==> Satisfies(env, spec, v, n)
  }

  // -------------------------------------------------------------- keyword by keyword

  /** The compiled keywords of a node are those of a specification. */
  predicate SameKeywords(s: Schema, spec: Spec) {
    && s.kind == spec.kind && s.pattern == spec.pattern && s.format == spec.format && s.constant == spec.constant
    && s.enum == (if spec.enum.Some? then spec.enum.value else []) && (spec.enum.Some? ==> spec.enum.value != [])
    && s.minLength == spec.minLength && s.maxLength == spec.maxLength && s.minimum == spec.minimum && s.maximum == spec.maximum
    && s.minItems == spec.minItems && s.maxItems == spec.maxItems && s.uniqueItems == spec.uniqueItems
  }

  lemma TypesAgree(kind: string, v: Json)
    ensures TypeMatches(kind, v) <==> Rendering.IsInstanceOf(v, kind)
  {
  }

  lemma PlainMeans(s: Schema, spec: Spec, v: Json, re: Matcher)
    requires SameKeywords(s, spec)
    ensures PlainAccepts(s, v, re) <==> KeywordsHold(spec, v, re)
  {
    hide TypeMatches, Rendering.IsInstanceOf, ContainsSchemaValue, SchemaEqual, AllDistinct;
    TypesAgree(s.kind, v);
    ContainsIsMembership(s.enum, v);
    if s.constant.Some? {
      SchemaEqualIsEquality(s.constant.value, v);
    }
    if v.Str? {
      Calendar.ValidTimestampIsARealSecond(v.s);
      hide Calendar.ValidTimestamp, Calendar.NamesRealSecond;
    }
    if v.Arr? {
      Rendering.DistinctAgree(v.items);
    }
  }

  // -------------------------------------------------------------- an inline node

  ghost predicate OptionMeans(env: Env, spec: Option<Spec>, s: Option<Schema>, n: nat) {
    (s.Some? <==> spec.Some?) && (spec.Some? && s.Some? ==> MeansSame(env, spec.value, s.value, n))
  }

  ghost predicate ListMeans(env: Env, specs: Specs, branches: seq<Schema>, n: nat) {
    match specs
    case NoSpecs => branches == []
    case SpecList(list) => |branches| == |list| && forall i | 0 <= i < |list| :: MeansSame(env, list[i], branches[i], n)
  }

  ghost predicate FieldsMean(env: Env, fields: Fields, properties: map<string, Schema>, n: nat) {
    match fields
    case NoFields => properties == map[]
    case SpecFields(specs) => properties.Keys == specs.Keys && forall k | k in specs :: MeansSame(env, specs[k], properties[k], n)
  }

  ghost predicate PartsMean(env: Env, spec: Spec, c: Children, n: nat) {
    && FieldsMean(env, spec.properties, c.properties, n)
    && OptionMeans(env, spec.items, c.items, n) && OptionMeans(env, spec.additionalPropertySpec, c.additional, n)
    && ListMeans(env, spec.allOf, c.allOf, n) && ListMeans(env, spec.oneOf, c.oneOf, n) && ListMeans(env, spec.anyOf, c.anyOf, n)
    && OptionMeans(env, spec.notSpec, c.notSchema, n) && OptionMeans(env, spec.ifSpec, c.ifSchema, n)
    && OptionMeans(env, spec.thenSpec, c.thenSchema, n)
  }

  lemma AllMean(env: Env, specs: Specs, branches: seq<Schema>, v: Json, n: nat)
    requires ListMeans(env, specs, branches, n)
    ensures AllAccept(branches, v, env.matches) <==> AllHold(env, specs, v, n)
  {
    hide Accepts, Satisfies;
    if specs.SpecList? {
      forall i | 0 <= i < |branches|
        ensures Accepts(branches[i], v, env.matches) <==> Satisfies(env, specs.list[i], v, n)
      {
        assert MeansSame(env, specs.list[i], branches[i], n);
      }
    }
  }

  lemma AnyMeans(env: Env, specs: Specs, branches: seq<Schema>, v: Json, n: nat)
    requires ListMeans(env, specs, branches, n) && NonEmptyIfGiven(specs)
    ensures (branches != [] ==> AnyAccepts(branches, v, env.matches)) <==> SomeHolds(env, specs, v, n)
  {
    hide Accepts, Satisfies;
    if specs.SpecList? {
      forall i | 0 <= i < |branches|
        ensures Accepts(branches[i], v, env.matches) <==> Satisfies(env, specs.list[i], v, n)
      {
        assert MeansSame(env, specs.list[i], branches[i], n);
      }
      if i :| 0 <= i < |branches| && Accepts(branches[i], v, env.matches) {
        assert Satisfies(env, specs.list[i], v, n);
      }
      if i :| 0 <= i < |branches| && Satisfies(env, specs.list[i], v, n) {
        assert Accepts(branches[i], v, env.matches);
      }
    }
  }

  lemma OneMeans(env: Env, specs: Specs, branches: seq<Schema>, v: Json, n: nat)
    requires ListMeans(env, specs, branches, n) && NonEmptyIfGiven(specs)
    ensures (branches != [] ==> ExactlyOneAccepts(branches, v, env.matches)) <==> ExactlyOneHolds(env, specs, v, n)
  {
    hide Accepts, Satisfies;
    if specs.SpecList? {
      forall i | 0 <= i < |branches|
        ensures Accepts(branches[i], v, env.matches) <==> Satisfies(env, specs.list[i], v, n)
      {
        assert MeansSame(env, specs.list[i], branches[i], n);
      }
      assert seq(|branches|, i requires 0 <= i < |branches| => Accepts(branches[i], v, env.matches)) ==
             seq(|specs.list|, i requires 0 <= i < |specs.list| => Satisfies(env, specs.list[i], v, n));
    }
  }

  lemma OptionsMean(env: Env, spec: Option<Spec>, s: Option<Schema>, v: Json, n: nat)
    requires OptionMeans(env, spec, s, n)
    ensures spec.Some? ==> s.Some? && (Accepts(s.value, v, env.matches) <==> Satisfies(env, spec.value, v, n))
  {
    hide Accepts, Satisfies;
  }

  lemma BranchesMean(env: Env, spec: Spec, c: Children, s: Schema, v: Json, n: nat)
    requires PartsMean(env, spec, c, n) && NonEmptyIfGiven(spec.anyOf) && NonEmptyIfGiven(spec.oneOf)
    requires s.allOf == c.allOf && s.anyOf == c.anyOf && s.oneOf == c.oneOf && s.notSchema == c.notSchema
    requires s.ifSchema == c.ifSchema && s.thenSchema == c.thenSchema
    ensures CompositionAccepts(s, v, env.matches) <==> BranchesHold(env, spec, v, n)
  {
    hide Accepts, Satisfies, AllAccept, AnyAccepts, ExactlyOneAccepts, AllHold, SomeHolds, ExactlyOneHolds, ListMeans, FieldsMean, OptionMeans;
    AllMean(env, spec.allOf, c.allOf, v, n);
    AnyMeans(env, spec.anyOf, c.anyOf, v, n);
    OneMeans(env, spec.oneOf, c.oneOf, v, n);
    OptionsMean(env, spec.notSpec, c.notSchema, v, n);
    OptionsMean(env, spec.ifSpec, c.ifSchema, v, n);
    OptionsMean(env, spec.thenSpec, c.thenSchema, v, n);
    OptionsFit(env, spec.notSpec, c.notSchema, n);
    OptionsFit(env, spec.ifSpec, c.ifSchema, n);
    OptionsFit(env, spec.thenSpec, c.thenSchema, n);
  }

  lemma OptionsFit(env: Env, spec: Option<Spec>, s: Option<Schema>, n: nat)
    requires OptionMeans(env, spec, s, n)
    ensures s.Some? <==> spec.Some?
  {
  }

  predicate AllIn(names: seq<string>, fields: map<string, Json>) {
    forall i | 0 <= i < |names| :: names[i] in fields
  }

  lemma SortedNames(names: seq<string>, fields: map<string, Json>)
    ensures AllIn(SortNames(names), fields) <==> AllIn(names, fields)
    ensures SortNames(names) == [] <==> names == []
  {
    hide SortNames, AllIn;
    var sorted := SortNames(names);
    assert multiset(sorted) == multiset(names);
    assert |multiset(sorted)| == |multiset(names)|;
    SameElements(sorted, names, fields);
    SameElements(names, sorted, fields);
  }

  lemma SameElements(a: seq<string>, b: seq<string>, fields: map<string, Json>)
    requires multiset(a) == multiset(b)
    ensures AllIn(a, fields) ==> AllIn(b, fields)
  {
    forall i | AllIn(a, fields) && 0 <= i < |b|
      ensures b[i] in fields
    {
      assert b[i] in multiset(b);
      assert b[i] in multiset(a);
      var k :| 0 <= k < |a| && a[k] == b[i];
    }
  }

  lemma FieldsAgree(env: Env, fields: Fields, properties: map<string, Schema>, key: string, v: Json, n: nat)
    requires FieldsMean(env, fields, properties, n)
    ensures key in properties <==> fields.SpecFields? && key in fields.fields
    ensures key in properties ==> (Accepts(properties[key], v, env.matches) <==> FieldHolds(env, fields, key, v, n))
  {
    hide Accepts, Satisfies;
    if key in properties {
      assert MeansSame(env, fields.fields[key], properties[key], n);
    }
  }

  lemma KeyMeans(env: Env, spec: Spec, c: Children, key: string, v: Json, n: nat)
    requires PartsMean(env, spec, c, n) && ObjectRulesOk(spec, c)
    ensures FieldAccepts(InlineSchema(spec, c), key, v, env.matches) <==> KeyHolds(env, spec, key, v, n)
  {
    hide Accepts, Satisfies, FieldHolds, ListMeans, FieldsMean, OptionMeans, RequiredOk, ValidPropertyName;
    FieldsAgree(env, spec.properties, c.properties, key, v, n);
    OptionsMean(env, spec.additionalPropertySpec, c.additional, v, n);
    OptionsFit(env, spec.additionalPropertySpec, c.additional, n);
  }

  lemma ListsFit(env: Env, specs: Specs, branches: seq<Schema>, n: nat)
    requires ListMeans(env, specs, branches, n)
    ensures branches != [] <==> HasBranches(specs)
  {
  }

  lemma KeysAreLeft(env: Env, spec: Spec, c: Children, n: nat)
    requires PartsMean(env, spec, c, n) && ObjectRulesOk(spec, c)
    ensures ComposedOnly(InlineSchema(spec, c)) <==> LeavesKeys(spec)
  {
    hide Accepts, Satisfies, ListMeans, OptionMeans, ValidPropertyName, MeansSame, SortNames;
    if spec.required.Some? {
      SortedNames(spec.required.value, map[]);
    }
    ListsFit(env, spec.allOf, c.allOf, n);
    ListsFit(env, spec.oneOf, c.oneOf, n);
    ListsFit(env, spec.anyOf, c.anyOf, n);
    OptionsFit(env, spec.additionalPropertySpec, c.additional, n);
  }

  lemma MembersMean(env: Env, spec: Spec, c: Children, v: Json, n: nat)
    requires PartsMean(env, spec, c, n) && ObjectRulesOk(spec, c)
    ensures ChildrenAccept(InlineSchema(spec, c), v, env.matches) <==> MembersHold(env, spec, v, n)
  {
    hide Accepts, Satisfies, ListMeans, OptionMeans, FieldsMean, FieldAccepts, KeyHolds, ComposedOnly, LeavesKeys, SortNames;
    hide ValidPropertyName, RequiredOk;
    KeysAreLeft(env, spec, c, n);
    OptionsFit(env, spec.items, c.items, n);
    if v.Obj? {
      forall k | k in v.fields
        ensures FieldAccepts(InlineSchema(spec, c), k, v.fields[k], env.matches) <==> KeyHolds(env, spec, k, v.fields[k], n)
      {
        KeyMeans(env, spec, c, k, v.fields[k], n);
      }
      if spec.required.Some? {
        SortedNames(spec.required.value, v.fields);
      }
    } else if v.Arr? && spec.items.Some? {
      forall i | 0 <= i < |v.items|
        ensures Accepts(c.items.value, v.items[i], env.matches) <==> Satisfies(env, spec.items.value, v.items[i], n)
      {
        OptionsMean(env, spec.items, c.items, v.items[i], n);
      }
    }
  }

  lemma InlineMeans(env: Env, spec: Spec, c: Children, mode: Mode, timestamps: bool, v: Json, n: nat)
    requires !spec.jsonValue && spec.ref == "" && PartsMean(env, spec, c, n) && InlineAllowed(spec, c, mode, timestamps, env)
    ensures Accepts(InlineSchema(spec, c), v, env.matches) <==> Satisfies(env, spec, v, n)
  {
    hide CompositionAccepts, ChildrenAccept, PlainAccepts, BranchesHold, MembersHold, KeywordsHold, PartsMean, LiteralsOk, KindsOk;
    hide OverrideAllowed, ObjectRulesOk;
    var s := InlineSchema(spec, c);
    BranchesMean(env, spec, c, s, v, n);
    PlainMeans(s, spec, v, env.matches);
    MembersMean(env, spec, c, v, n);
  }

  // -------------------------------------------------------------- a reference

  /** What a reference may write: no structure of its own. */
  lemma ReferenceKeywords(spec: Spec, v: Json, re: Matcher)
    requires !HasStructure(spec)
    ensures spec.kind == "" && spec.format == ""
  {
  }

  lemma TextsTighten(base: Schema, spec: Spec, text: string, re: Matcher)
    requires BoundsTighten(base, spec) && (spec.pattern != "" ==> base.pattern == "") && spec.format == ""
    ensures TextAccepted(Tightened(base, spec), text, re) <==> TextAccepted(base, text, re) && TextHolds(spec, text, re)
  {
    hide Calendar.ValidTimestamp, Calendar.NamesRealSecond;
    assert FORMAT_TIMESTAMP != "";
  }

  lemma ListsTighten(base: Schema, spec: Spec, items: seq<Json>)
    requires BoundsTighten(base, spec)
    ensures SizeAccepted(Tightened(base, spec), items) <==> SizeAccepted(base, items) && ListHolds(spec, items)
  {
    hide AllDistinct;
    Rendering.DistinctAgree(items);
  }

  lemma NumbersTighten(base: Schema, spec: Spec, n: real)
    requires BoundsTighten(base, spec)
    ensures WithinBounds(Tightened(base, spec), n) <==> WithinBounds(base, n) && WithinRange(spec.minimum, spec.maximum, n)
  {
  }

  lemma LiteralsTighten(base: Schema, spec: Spec, mode: Mode, v: Json)
    requires FieldsTighten(base, spec, mode)
    ensures var t := Tightened(base, spec);
            && ((t.enum != [] ==> ContainsSchemaValue(t.enum, v)) <==>
                (base.enum != [] ==> ContainsSchemaValue(base.enum, v)) && (spec.enum.Some? ==> v in spec.enum.value))
            && ((t.constant.Some? ==> SchemaEqual(t.constant.value, v)) <==>
                (base.constant.Some? ==> SchemaEqual(base.constant.value, v)) && (spec.constant.Some? ==> v == spec.constant.value))
  {
    hide SchemaEqual, TypeMatches, BoundsTighten, ContainsSchemaValue;
    if spec.enum.Some? {
      ContainsIsMembership(spec.enum.value, v);
      if base.enum != [] && v in spec.enum.value {
        EnumNarrows(base, spec.enum.value, v);
      }
    }
    if spec.constant.Some? {
      SchemaEqualIsEquality(spec.constant.value, v);
      if base.constant.Some? {
        SchemaEqualIsEquality(base.constant.value, spec.constant.value);
      }
    }
  }

  lemma KeywordsTighten(base: Schema, spec: Spec, mode: Mode, v: Json, re: Matcher)
    requires FieldsTighten(base, spec, mode) && !HasStructure(spec)
    ensures PlainAccepts(Tightened(base, spec), v, re) <==> PlainAccepts(base, v, re) && KeywordsHold(spec, v, re)
  {
    ReferenceKeywords(spec, v, re);
    hide SchemaEqual, TypeMatches, ContainsSchemaValue, TextAccepted, TextHolds, SizeAccepted, ListHolds, WithinBounds, WithinRange;
    hide EnumTightens, ConstantTightens, HasStructure;
    LiteralsTighten(base, spec, mode, v);
    match v
    case Num(x) => NumbersTighten(base, spec, x);
    case Str(text) => TextsTighten(base, spec, text, re);
    case Arr(items) => ListsTighten(base, spec, items);
    case _ =>
  }

  lemma SameStructureAccepts(base: Schema, t: Schema, v: Json, re: Matcher)
    requires SameStructure(base, t)
    ensures CompositionAccepts(base, v, re) <==> CompositionAccepts(t, v, re)
    ensures ChildrenAccept(base, v, re) <==> ChildrenAccept(t, v, re)
    ensures t.jsonValue == base.jsonValue
  {
    if v.Obj? {
      forall k | k in v.fields
        ensures FieldAccepts(base, k, v.fields[k], re) <==> FieldAccepts(t, k, v.fields[k], re)
      {
      }
    }
  }

  /** On a definition that admits any value a reference can add no constraint. */
  lemma NothingAdded(base: Schema, spec: Spec, mode: Mode, env: Env, v: Json)
    requires base.jsonValue && Rendering.Unconstrained(base) && TighteningAllowed(base, spec, mode, env) && !HasStructure(spec)
    ensures KeywordsHold(spec, v, env.matches)
  {
    hide Accepts, SchemaEqual, LiteralsOk, OverrideAllowed, EnumTightens, ContainsSchemaValue, KindsOk, TypeMatches;
    ReferenceKeywords(spec, v, env.matches);
    UntypedHasNoKinds(Tightened(base, spec), env);
    if spec.enum.Some? {
      UntypedHasNoEnum(base, spec.enum.value);
    }
    UntypedHasNoConstant(spec);
  }

  lemma UntypedHasNoConstant(spec: Spec)
    ensures spec.constant.Some? ==> !TypeMatches("", spec.constant.value)
  {
  }

  lemma ReferenceMeans(env: Env, spec: Spec, base: Schema, mode: Mode, v: Json)
    requires Rendering.NodeShape(base) && TighteningAllowed(base, spec, mode, env) && !HasStructure(spec)
    ensures Accepts(Tightened(base, spec), v, env.matches) <==> Accepts(base, v, env.matches) && KeywordsHold(spec, v, env.matches)
  {
    hide FieldsTighten, Tightened, NarrowedOk, HasStructure, PlainAccepts, CompositionAccepts, ChildrenAccept, KeywordsHold, SameStructure;
    TightenedStructure(base, spec);
    SameStructureAccepts(base, Tightened(base, spec), v, env.matches);
    KeywordsTighten(base, spec, mode, v, env.matches);
    if base.jsonValue {
      NothingAdded(base, spec, mode, env, v);
    }
  }

  // -------------------------------------------------------------- every specification

  lemma {:induction false} OptionKeepsMeaning(env: Env, spec: Option<Spec>, mode: Mode, n: nat)
    requires OptionExpands(env, spec, mode, n)
    ensures OptionMeans(env, spec, ExpandedOption(env, spec, mode, n), n)
    decreases n, 1, spec, 0
  {
    hide Accepts, Satisfies, InlineNode, RefNode, MeansSame;
    if spec.Some? {
      CompilingKeepsMeaning(env, spec.value, mode, false, n);
    }
  }

  lemma {:induction false} ListKeepsMeaning(env: Env, specs: Specs, mode: Mode, n: nat)
    requires ListExpands(env, specs, mode, n)
    ensures ListMeans(env, specs, ExpandedList(env, specs, mode, n), n)
    decreases n, 1, specs, 0
  {
    hide Accepts, Satisfies, InlineNode, RefNode, MeansSame;
    if specs.SpecList? {
      forall i | 0 <= i < |specs.list|
        ensures MeansSame(env, specs.list[i], ExpandedList(env, specs, mode, n)[i], n)
      {
        CompilingKeepsMeaning(env, specs.list[i], mode, false, n);
      }
    }
  }

  lemma {:induction false} FieldsKeepMeaning(env: Env, fields: Fields, mode: Mode, n: nat)
    requires FieldsExpand(env, fields, mode, n)
    ensures FieldsMean(env, fields, ExpandedFields(env, fields, mode, n), n)
    decreases n, 1, fields, 0
  {
    hide Accepts, Satisfies, InlineNode, RefNode, MeansSame;
    if fields.SpecFields? {
      forall k | k in fields.fields
        ensures MeansSame(env, fields.fields[k], ExpandedFields(env, fields, mode, n)[k], n)
      {
        CompilingKeepsMeaning(env, fields.fields[k], mode, false, n);
      }
    }
  }

  lemma {:induction false} PartsKeepMeaning(env: Env, spec: Spec, mode: Mode, n: nat)
    requires ChildrenExpand(env, spec, mode, n)
    ensures PartsMean(env, spec, ExpandedChildren(env, spec, mode, n), n)
    decreases n, 1, spec, 1
  {
    hide Accepts, Satisfies, InlineNode, RefNode, Expand, OptionMeans, ListMeans, FieldsMean;
    FieldsKeepMeaning(env, spec.properties, mode, n);
    OptionKeepsMeaning(env, spec.items, mode, n);
    OptionKeepsMeaning(env, spec.additionalPropertySpec, mode, n);
    ListKeepsMeaning(env, spec.allOf, mode, n);
    ListKeepsMeaning(env, spec.oneOf, mode, n);
    ListKeepsMeaning(env, spec.anyOf, mode, n);
    OptionKeepsMeaning(env, spec.notSpec, mode, n);
    OptionKeepsMeaning(env, spec.ifSpec, mode, n);
    OptionKeepsMeaning(env, spec.thenSpec, mode, n);
  }

  /** Defaults and other annotations have no say in what a node accepts. */
  lemma DefaultsDoNotMatter(s: Schema, default: Option<Json>, o: Option<Override>, v: Json, re: Matcher)
    ensures Accepts(Overridden(s.(default := default), o), v, re) <==> Accepts(s, v, re)
  {
    hide Accepts;
    AnnotationsDoNotMatter(s, Overridden(s.(default := default), o), v, re);
  }

  lemma InlineCompiles(env: Env, spec: Spec, c: Children, mode: Mode, timestamps: bool, n: nat)
    requires !spec.jsonValue && spec.ref == "" && PartsMean(env, spec, c, n) && InlineNode(spec, c, mode, timestamps, env).Ok?
    ensures MeansSame(env, spec, InlineNode(spec, c, mode, timestamps, env).value, n)
  {
    hide Accepts, Satisfies, InlineSchema, PartsMean, InlineAllowed, Overridden;
    var s := InlineSchema(spec, c);
    forall v: Json
      ensures Accepts(InlineNode(spec, c, mode, timestamps, env).value, v, env.matches) <==> Satisfies(env, spec, v, n)
    {
      InlineMeans(env, spec, c, mode, timestamps, v, n);
      DefaultsDoNotMatter(s, spec.default, spec.defaultOverride, v, env.matches);
    }
  }

  lemma ReferenceCompiles(env: Env, spec: Spec, base: Schema, mode: Mode, n: nat)
    requires !spec.jsonValue && spec.ref != "" && n > 0 && spec.ref in env.specs && !HasStructure(spec)
    requires MeansSame(env, env.specs[spec.ref], base, n - 1) && Rendering.NodeShape(base)
    requires RefNode(base, spec, mode, env).Ok?
    ensures MeansSame(env, spec, RefNode(base, spec, mode, env).value, n)
  {
    hide Accepts, TighteningAllowed, Tightened, Overridden, HasStructure, Rendering.NodeShape, KeywordsHold, BranchesHold, MembersHold;
    var t := Tightened(base, spec);
    forall v: Json
      ensures Accepts(RefNode(base, spec, mode, env).value, v, env.matches) <==> Satisfies(env, spec, v, n)
    {
      ReferenceMeans(env, spec, base, mode, v);
      DefaultsDoNotMatter(t, t.default, spec.defaultOverride, v, env.matches);
      assert t.(default := t.default) == t;
      assert Accepts(base, v, env.matches) <==> Satisfies(env, env.specs[spec.ref], v, n - 1);
    }
  }

  /** Compiling keeps the meaning: for every specification that compiles, the validator accepts
      exactly the values that satisfy what is written. */
  lemma {:induction false} CompilingKeepsMeaning(env: Env, spec: Spec, mode: Mode, timestamps: bool, n: nat)
    requires Expand(env, spec, mode, timestamps, n).Ok?
    ensures MeansSame(env, spec, Expand(env, spec, mode, timestamps, n).value, n)
    decreases n, 1, spec, 2
  {
    hide Accepts, Satisfies, InlineNode, RefNode, MeansSame, ChildrenExpand, ExpandedChildren, PartsMean, HasStructure, WellCompiled;
    if spec.jsonValue {
      AnythingMeansSame(env, spec, n);
    } else if spec.ref != "" {
      var base := ExpandDef(env, spec.ref, n).value;
      CompilingKeepsMeaning(env, env.specs[spec.ref], Shared, spec.ref == "Timestamp", n - 1);
      DefinitionIsWellCompiled(env, spec.ref, n);
      WellCompiledIsShaped(base, env.matches);
      ReferenceCompiles(env, spec, base, mode, n);
    } else {
      PartsKeepMeaning(env, spec, mode, n);
      InlineCompiles(env, spec, ExpandedChildren(env, spec, mode, n), mode, timestamps, n);
    }
  }

  lemma AnythingMeansSame(env: Env, spec: Spec, n: nat)
    requires spec.jsonValue
    ensures MeansSame(env, spec, Blank().(jsonValue := true, description := spec.description), n)
  {
  }

  lemma WellCompiledIsShaped(s: Schema, re: Matcher)
    requires WellCompiled(s, re)
    ensures Rendering.NodeShape(s)
  {
  }

  // -------------------------------------------------------------- what else a compiled tree carries

  predicate Refers(env: Env, spec: Spec, n: nat) {
    !spec.jsonValue && spec.ref != "" && n > 0 && spec.ref in env.specs
  }

  /** The default: the override's value if there is one, else what is written, else that of the
      shared definition. */
  function DefaultOf(env: Env, spec: Spec, n: nat): Option<Json>
    decreases n
  {
    if spec.defaultOverride.Some? then spec.defaultOverride.value.value
    else if spec.default.Some? then spec.default
    else if Refers(env, spec, n) then DefaultOf(env, env.specs[spec.ref], n - 1)
    else None
  }

  function DescriptionOf(env: Env, spec: Spec, n: nat): string
    decreases n
  {
    if spec.description == "" && Refers(env, spec, n) then DescriptionOf(env, env.specs[spec.ref], n - 1) else spec.description
  }

  function UnitOf(env: Env, spec: Spec, n: nat): string
    decreases n
  {
    if spec.unit == "" && Refers(env, spec, n) then UnitOf(env, env.specs[spec.ref], n - 1) else spec.unit
  }

  /** The reason given for the last override, without the spaces around it. */
  function ReasonOf(env: Env, spec: Spec, n: nat): string
    decreases n
  {
    if spec.defaultOverride.Some? then TrimSpace(spec.defaultOverride.value.reason)
    else if Refers(env, spec, n) then ReasonOf(env, env.specs[spec.ref], n - 1)
    else ""
  }

  predicate Annotated(env: Env, spec: Spec, s: Schema, n: nat) {
    && s.default == DefaultOf(env, spec, n) && s.description == DescriptionOf(env, spec, n) && s.unit == UnitOf(env, spec, n)
    && s.overrideReason == ReasonOf(env, spec, n) && s.refName == (if spec.jsonValue then "" else spec.ref)
  }

  /** Every node of the compiled tree carries the annotations of the specification it stands for. */
  ghost predicate Carries(env: Env, spec: Spec, s: Schema, n: nat)
    decreases n, spec, 2
  {
    Annotated(env, spec, s, n) && PartsCarried(env, spec, s, n)
  }

  ghost predicate PartsCarried(env: Env, spec: Spec, s: Schema, n: nat)
    decreases n, spec, 1
  {
    if spec.jsonValue then true
    else if spec.ref != "" then n > 0 && spec.ref in env.specs && PartsCarried(env, env.specs[spec.ref], s, n - 1)
    else
      && FieldsCarried(env, spec.properties, s.properties, n)
      && OptionCarried(env, spec.items, s.items, n) && OptionCarried(env, spec.additionalPropertySpec, s.additionalPropertySchema, n)
      && ListCarried(env, spec.allOf, s.allOf, n) && ListCarried(env, spec.oneOf, s.oneOf, n) && ListCarried(env, spec.anyOf, s.anyOf, n)
      && OptionCarried(env, spec.notSpec, s.notSchema, n) && OptionCarried(env, spec.ifSpec, s.ifSchema, n)
      && OptionCarried(env, spec.thenSpec, s.thenSchema, n)
  }

  ghost predicate OptionCarried(env: Env, spec: Option<Spec>, s: Option<Schema>, n: nat)
    decreases n, spec, 0
  {
    (s.Some? <==> spec.Some?) && (spec.Some? && s.Some? ==> Carries(env, spec.value, s.value, n))
  }

  ghost predicate ListCarried(env: Env, specs: Specs, branches: seq<Schema>, n: nat)
    decreases n, specs, 0
  {
    match specs
    case NoSpecs => branches == []
    case SpecList(list) => |branches| == |list| && forall i | 0 <= i < |list| :: Carries(env, list[i], branches[i], n)
  }

  ghost predicate FieldsCarried(env: Env, fields: Fields, properties: map<string, Schema>, n: nat)
    decreases n, fields, 0
  {
    match fields
    case NoFields => properties == map[]
    case SpecFields(specs) => properties.Keys == specs.Keys && forall k | k in specs :: Carries(env, specs[k], properties[k], n)
  }

  lemma {:induction false} OptionIsCarried(env: Env, spec: Option<Spec>, mode: Mode, n: nat)
    requires OptionExpands(env, spec, mode, n)
    ensures OptionCarried(env, spec, ExpandedOption(env, spec, mode, n), n)
    decreases n, 1, spec, 0
  {
    hide InlineNode, RefNode, Annotated;
    if spec.Some? {
      CompiledTreeCarries(env, spec.value, mode, false, n);
    }
  }

  lemma {:induction false} ListIsCarried(env: Env, specs: Specs, mode: Mode, n: nat)
    requires ListExpands(env, specs, mode, n)
    ensures ListCarried(env, specs, ExpandedList(env, specs, mode, n), n)
    decreases n, 1, specs, 0
  {
    hide InlineNode, RefNode, Annotated;
    if specs.SpecList? {
      forall i | 0 <= i < |specs.list|
        ensures Carries(env, specs.list[i], ExpandedList(env, specs, mode, n)[i], n)
      {
        CompiledTreeCarries(env, specs.list[i], mode, false, n);
      }
    }
  }

  lemma {:induction false} FieldsAreCarried(env: Env, fields: Fields, mode: Mode, n: nat)
    requires FieldsExpand(env, fields, mode, n)
    ensures FieldsCarried(env, fields, ExpandedFields(env, fields, mode, n), n)
    decreases n, 1, fields, 0
  {
    hide InlineNode, RefNode, Annotated;
    if fields.SpecFields? {
      forall k | k in fields.fields
        ensures Carries(env, fields.fields[k], ExpandedFields(env, fields, mode, n)[k], n)
      {
        CompiledTreeCarries(env, fields.fields[k], mode, false, n);
      }
    }
  }

  ghost predicate ChildrenCarried(env: Env, spec: Spec, c: Children, n: nat) {
    && FieldsCarried(env, spec.properties, c.properties, n)
    && OptionCarried(env, spec.items, c.items, n) && OptionCarried(env, spec.additionalPropertySpec, c.additional, n)
    && ListCarried(env, spec.allOf, c.allOf, n) && ListCarried(env, spec.oneOf, c.oneOf, n) && ListCarried(env, spec.anyOf, c.anyOf, n)
    && OptionCarried(env, spec.notSpec, c.notSchema, n) && OptionCarried(env, spec.ifSpec, c.ifSchema, n)
    && OptionCarried(env, spec.thenSpec, c.thenSchema, n)
  }

  lemma {:induction false} ChildrenAreCarried(env: Env, spec: Spec, mode: Mode, n: nat)
    requires ChildrenExpand(env, spec, mode, n)
    ensures ChildrenCarried(env, spec, ExpandedChildren(env, spec, mode, n), n)
    decreases n, 1, spec, 1
  {
    hide InlineNode, RefNode, Expand, OptionCarried, ListCarried, FieldsCarried;
    FieldsAreCarried(env, spec.properties, mode, n);
    OptionIsCarried(env, spec.items, mode, n);
    OptionIsCarried(env, spec.additionalPropertySpec, mode, n);
    ListIsCarried(env, spec.allOf, mode, n);
    ListIsCarried(env, spec.oneOf, mode, n);
    ListIsCarried(env, spec.anyOf, mode, n);
    OptionIsCarried(env, spec.notSpec, mode, n);
    OptionIsCarried(env, spec.ifSpec, mode, n);
    OptionIsCarried(env, spec.thenSpec, mode, n);
  }

  lemma InlineCarries(env: Env, spec: Spec, c: Children, mode: Mode, timestamps: bool, n: nat)
    requires !spec.jsonValue && spec.ref == "" && ChildrenCarried(env, spec, c, n)
    requires InlineNode(spec, c, mode, timestamps, env).Ok?
    ensures Carries(env, spec, InlineNode(spec, c, mode, timestamps, env).value, n)
  {
    hide OptionCarried, ListCarried, KindsOk, LiteralsOk, Accepts, TrimSpace, ReasonOk;
    var r := InlineNode(spec, c, mode, timestamps, env).value;
    InlineHeader(spec, c, mode, timestamps, env);
    assert FieldsCarried(env, spec.properties, r.properties, n);
  }

  lemma InlineHeader(spec: Spec, c: Children, mode: Mode, timestamps: bool, env: Env)
    requires InlineAllowed(spec, c, mode, timestamps, env)
    ensures spec.unit == "" && ObjectRulesOk(spec, c)
  {
    hide KindsOk, LiteralsOk, Accepts;
  }

  /** The parts of a node, apart from its annotations and keywords. */
  predicate SameParts(s: Schema, t: Schema) {
    && s.properties == t.properties && s.items == t.items && s.additionalPropertySchema == t.additionalPropertySchema
    && s.allOf == t.allOf && s.oneOf == t.oneOf && s.anyOf == t.anyOf
    && s.notSchema == t.notSchema && s.ifSchema == t.ifSchema && s.thenSchema == t.thenSchema
  }

  lemma {:induction false} PartsStayCarried(env: Env, spec: Spec, s: Schema, t: Schema, n: nat)
    requires PartsCarried(env, spec, s, n) && SameParts(s, t)
    ensures PartsCarried(env, spec, t, n)
    decreases n
  {
    hide OptionCarried, ListCarried, FieldsCarried;
    if !spec.jsonValue && spec.ref != "" {
      PartsStayCarried(env, env.specs[spec.ref], s, t, n - 1);
    }
  }

  lemma ReferenceIsAnnotated(env: Env, spec: Spec, base: Schema, mode: Mode, n: nat)
    requires !spec.jsonValue && spec.ref != "" && n > 0 && spec.ref in env.specs
    requires Annotated(env, env.specs[spec.ref], base, n - 1) && RefNode(base, spec, mode, env).Ok?
    ensures Annotated(env, spec, RefNode(base, spec, mode, env).value, n)
  {
    hide TrimSpace, Accepts, KindsOk, LiteralsOk, EnumTightens, BoundsTighten;
  }

  lemma ReferenceKeepsParts(env: Env, spec: Spec, base: Schema, mode: Mode)
    requires RefNode(base, spec, mode, env).Ok?
    ensures SameParts(base, RefNode(base, spec, mode, env).value)
  {
    hide TrimSpace, NarrowedOk, Accepts, KindsOk, LiteralsOk, EnumTightens, BoundsTighten;
  }

  lemma ReferenceCarries(env: Env, spec: Spec, base: Schema, mode: Mode, n: nat)
    requires !spec.jsonValue && spec.ref != "" && n > 0 && spec.ref in env.specs
    requires Carries(env, env.specs[spec.ref], base, n - 1) && RefNode(base, spec, mode, env).Ok?
    ensures Carries(env, spec, RefNode(base, spec, mode, env).value, n)
  {
    hide OptionCarried, ListCarried, FieldsCarried, RefNode, Annotated, SameParts;
    ReferenceIsAnnotated(env, spec, base, mode, n);
    ReferenceKeepsParts(env, spec, base, mode);
    PartsStayCarried(env, env.specs[spec.ref], base, RefNode(base, spec, mode, env).value, n - 1);
  }

  /** Every node of a compiled tree carries the default, the description, the unit and the name
      that its specification asks for, after references and overrides. */
  lemma {:induction false} CompiledTreeCarries(env: Env, spec: Spec, mode: Mode, timestamps: bool, n: nat)
    requires Expand(env, spec, mode, timestamps, n).Ok?
    ensures Carries(env, spec, Expand(env, spec, mode, timestamps, n).value, n)
    decreases n, 1, spec, 2
  {
    hide Carries, InlineNode, RefNode, ChildrenExpand, ExpandedChildren, ChildrenCarried, HasStructure;
    if spec.jsonValue {
      AnythingCarries(env, spec, n);
    } else if spec.ref != "" {
      CompiledTreeCarries(env, env.specs[spec.ref], Shared, spec.ref == "Timestamp", n - 1);
      ReferenceCarries(env, spec, ExpandDef(env, spec.ref, n).value, mode, n);
    } else {
      ChildrenAreCarried(env, spec, mode, n);
      InlineCarries(env, spec, ExpandedChildren(env, spec, mode, n), mode, timestamps, n);
    }
  }

  lemma AnythingCarries(env: Env, spec: Spec, n: nat)
    requires spec.jsonValue && JsonValueOnly(spec)
    ensures Carries(env, spec, Blank().(jsonValue := true, description := spec.description), n)
  {
  }

  /** The same for a shared definition. */
  lemma DefinitionKeepsMeaning(env: Env, name: string, n: nat)
    requires ExpandDef(env, name, n).Ok?
    ensures n > 0 && name in env.specs
    ensures MeansSame(env, env.specs[name], ExpandDef(env, name, n).value, n - 1)
    ensures Carries(env, env.specs[name], ExpandDef(env, name, n).value, n - 1)
  {
    hide Expand, MeansSame, Carries;
    CompilingKeepsMeaning(env, env.specs[name], Shared, name == "Timestamp", n - 1);
    CompiledTreeCarries(env, env.specs[name], Shared, name == "Timestamp", n - 1);
  }
}
