/** Compiled action-contract schemas and what it means for a JSON value to satisfy one. */
module Schemas {
  import opened Json
  import Calendar

  /** Whether a text contains a match of a pattern. The regular-expression engine is not
      modelled: every statement holds for any such relation. */
  type Matcher = (string, string) -> bool

  const FORMAT_TIMESTAMP := "gtw-timestamp"

  datatype Schema = Schema(
    kind: string,
    jsonValue: bool,
    refName: string,
    description: string,
    properties: map<string, Schema>,
    required: seq<string>,
    items: Option<Schema>,
    additionalProperties: Option<bool>,
    additionalPropertySchema: Option<Schema>,
    enum: seq<Json>,
    pattern: string,
    minLength: Option<int>,
    maxLength: Option<int>,
    minimum: Option<real>,
    maximum: Option<real>,
    minItems: Option<int>,
    maxItems: Option<int>,
    uniqueItems: Option<bool>,
    format: string,
    unit: string,
    default: Option<Json>,
    overrideReason: string,
    constant: Option<Json>,
    allOf: seq<Schema>,
    oneOf: seq<Schema>,
    anyOf: seq<Schema>,
    notSchema: Option<Schema>,
    ifSchema: Option<Schema>,
    thenSchema: Option<Schema>)

  /** The zero value: no keyword present. */
  function Blank(): Schema {
    Schema("", false, "", "", map[], [], None, None, None, [], "", None, None, None, None,
           None, None, None, "", "", None, "", None, [], [], [], None, None, None)
  }

  predicate TypeMatches(kind: string, v: Json) {
    if kind == "null" then v.Null?
    else if kind == "object" then v.Obj?
    else if kind == "array" then v.Arr?
    else if kind == "string" then v.Str?
    else if kind == "boolean" then v.Bool?
    else if kind == "integer" then v.Num? && IsWhole(v.n)
    else if kind == "number" then v.Num?
    else false
  }

  predicate WithinBounds(s: Schema, n: real) {
    && (s.minimum.Some? ==> s.minimum.value <= n)
    && (s.maximum.Some? ==> n <= s.maximum.value)
  }

  predicate TextAccepted(s: Schema, text: string, re: Matcher) {
    && (s.pattern != "" ==> re(s.pattern, text))
    && (s.format == FORMAT_TIMESTAMP ==> Calendar.ValidTimestamp(text))
    && (s.minLength.Some? ==> s.minLength.value <= |text|)
    && (s.maxLength.Some? ==> |text| <= s.maxLength.value)
  }

  predicate AllDistinct(items: seq<Json>) {
    forall i, j | 0 <= j < i < |items| :: !SchemaEqual(items[i], items[j])
  }

  predicate SizeAccepted(s: Schema, items: seq<Json>) {
    && (s.minItems.Some? ==> s.minItems.value <= |items|)
    && (s.maxItems.Some? ==> |items| <= s.maxItems.value)
    && (s.uniqueItems == Some(true) ==> AllDistinct(items))
  }

  /** The keywords that need no subschema. */
  predicate PlainAccepts(s: Schema, v: Json, re: Matcher) {
    && (s.kind != "" ==> TypeMatches(s.kind, v))
    && (v.Num? ==> WithinBounds(s, v.n))
    && (s.enum != [] ==> ContainsSchemaValue(s.enum, v))
    && (s.constant.Some? ==> SchemaEqual(s.constant.value, v))
    && (v.Str? ==> TextAccepted(s, v.s, re))
    && (v.Arr? ==> SizeAccepted(s, v.items))
  }

  /** A node that only combines other schemas leaves the keys of an object to them. */
  predicate ComposedOnly(s: Schema) {
    && s.properties == map[] && s.required == [] && s.additionalPropertySchema.None?
    && (s.allOf != [] || s.oneOf != [] || s.anyOf != [])
  }

  /** Exactly one of the verdicts holds. */
  predicate UniquelyTrue(verdicts: seq<bool>) {
    exists i | 0 <= i < |verdicts| :: verdicts[i] && forall j | 0 <= j < |verdicts| && j != i :: !verdicts[j]
  }

  predicate Accepts(s: Schema, v: Json, re: Matcher)
    decreases s, 2
  {
    s.jsonValue || (CompositionAccepts(s, v, re) && PlainAccepts(s, v, re) && ChildrenAccept(s, v, re))
  }

  predicate AllAccept(branches: seq<Schema>, v: Json, re: Matcher)
    decreases branches, 0
  {
    forall i | 0 <= i < |branches| :: Accepts(branches[i], v, re)
  }

  predicate AnyAccepts(branches: seq<Schema>, v: Json, re: Matcher)
    decreases branches, 0
  {
    exists i | 0 <= i < |branches| :: Accepts(branches[i], v, re)
  }

  predicate ExactlyOneAccepts(branches: seq<Schema>, v: Json, re: Matcher)
    decreases branches, 0
  {
    UniquelyTrue(seq(|branches|, i requires 0 <= i < |branches| => Accepts(branches[i], v, re)))
  }

  predicate CompositionAccepts(s: Schema, v: Json, re: Matcher)
    decreases s, 1
  {
    && (s.notSchema.Some? ==> !Accepts(s.notSchema.value, v, re))
    && AllAccept(s.allOf, v, re)
    && (s.anyOf != [] ==> AnyAccepts(s.anyOf, v, re))
    && (s.oneOf != [] ==> ExactlyOneAccepts(s.oneOf, v, re))
    && (s.ifSchema.Some? && Accepts(s.ifSchema.value, v, re) ==>
          s.thenSchema.Some? && Accepts(s.thenSchema.value, v, re))
  }

  predicate ChildrenAccept(s: Schema, v: Json, re: Matcher)
    decreases s, 1
  {
    && (v.Obj? && !ComposedOnly(s) ==>
          && (forall i | 0 <= i < |s.required| :: s.required[i] in v.fields)
          && (forall k | k in v.fields :: FieldAccepts(s, k, v.fields[k], re)))
    && (v.Arr? && s.items.Some? ==>
          forall i | 0 <= i < |v.items| :: Accepts(s.items.value, v.items[i], re))
  }

  predicate FieldAccepts(s: Schema, key: string, v: Json, re: Matcher)
    decreases s, 0
  {
    if key in s.properties then Accepts(s.properties[key], v, re)
    else if s.additionalPropertySchema.Some? then Accepts(s.additionalPropertySchema.value, v, re)
    else s.additionalProperties == Some(true)
  }

  // -------------------------------------------------------------- the validator

  function TrueCount(verdicts: seq<bool>): nat {
    if verdicts == [] then 0
    else TrueCount(verdicts[..|verdicts| - 1]) + if verdicts[|verdicts| - 1] then 1 else 0
  }

  lemma {:induction false} NoneTrue(verdicts: seq<bool>)
    ensures TrueCount(verdicts) == 0 <==> forall i | 0 <= i < |verdicts| :: !verdicts[i]
  {
    if verdicts != [] {
      var init := verdicts[..|verdicts| - 1];
      NoneTrue(init);
      assert forall i | 0 <= i < |init| :: init[i] == verdicts[i];
    }
  }

  lemma UniquelyTrueOfInit(verdicts: seq<bool>)
    requires verdicts != []
    ensures var n := |verdicts| - 1;
            UniquelyTrue(verdicts) <==>
            if verdicts[n] then (forall i | 0 <= i < n :: !verdicts[i]) else UniquelyTrue(verdicts[..n])
  {
    var n := |verdicts| - 1;
    var init := verdicts[..n];
    if !verdicts[n] {
      if i :| 0 <= i < n && init[i] && forall j | 0 <= j < n && j != i :: !init[j] {
        assert verdicts[i] && forall j | 0 <= j < |verdicts| && j != i :: !verdicts[j];
      }
      if i :| 0 <= i < |verdicts| && verdicts[i] && forall j | 0 <= j < |verdicts| && j != i :: !verdicts[j] {
        assert init[i] && forall j | 0 <= j < n && j != i :: !init[j];
      }
    }
  }

  /** A count of one is the same as exactly one index holding. */
  lemma {:induction false} OneTrue(verdicts: seq<bool>)
    ensures TrueCount(verdicts) == 1 <==> UniquelyTrue(verdicts)
  {
    if verdicts != [] {
      var init := verdicts[..|verdicts| - 1];
      OneTrue(init);
      NoneTrue(init);
      UniquelyTrueOfInit(verdicts);
    }
  }

  method CountMatches(branches: seq<Schema>, v: Json, re: Matcher) returns (matches: nat)
    ensures matches == 1 <==> ExactlyOneAccepts(branches, v, re)
    decreases branches, 0
  {
    matches := 0;
    ghost var verdicts := [];
    for i := 0 to |branches|
      invariant |verdicts| == i && matches == TrueCount(verdicts)
      invariant forall j | 0 <= j < i :: verdicts[j] == Accepts(branches[j], v, re)
    {
      var ok := Validate(branches[i], v, re);
      assert (verdicts + [ok])[..i] == verdicts;
      verdicts := verdicts + [ok];
      if ok {
        matches := matches + 1;
      }
    }
    assert verdicts == seq(|branches|, i requires 0 <= i < |branches| => Accepts(branches[i], v, re));
    OneTrue(verdicts);
  }

  method ValidateAll(branches: seq<Schema>, v: Json, re: Matcher) returns (ok: bool)
    ensures ok == AllAccept(branches, v, re)
    decreases branches, 0
  {
    for i := 0 to |branches|
      invariant forall j | 0 <= j < i :: Accepts(branches[j], v, re)
    {
      var holds := Validate(branches[i], v, re);
      if !holds {
        return false;
      }
    }
    return true;
  }

  method ValidateAny(branches: seq<Schema>, v: Json, re: Matcher) returns (matched: bool)
    ensures matched == AnyAccepts(branches, v, re)
    decreases branches, 0
  {
    matched := false;
    for i := 0 to |branches|
      invariant !matched
      invariant forall j | 0 <= j < i :: !Accepts(branches[j], v, re)
    {
      var holds := Validate(branches[i], v, re);
      if holds {
        matched := true;
        break;
      }
    }
  }

  method ValidateComposition(s: Schema, v: Json, re: Matcher) returns (ok: bool)
    ensures ok == CompositionAccepts(s, v, re)
    decreases s, 0
  {
    if s.notSchema.Some? {
      var excluded := Validate(s.notSchema.value, v, re);
      if excluded {
        return false;
      }
    }
    var all := ValidateAll(s.allOf, v, re);
    if !all {
      return false;
    }
    if |s.anyOf| > 0 {
      var matched := ValidateAny(s.anyOf, v, re);
      if !matched {
        return false;
      }
    }
    if |s.oneOf| > 0 {
      var matches := CountMatches(s.oneOf, v, re);
      if matches != 1 {
        return false;
      }
    }
    if s.ifSchema.Some? {
      var condition := Validate(s.ifSchema.value, v, re);
      if condition {
        if s.thenSchema.None? {
          return false;
        }
        var consequence := Validate(s.thenSchema.value, v, re);
        return consequence;
      }
    }
    return true;
  }

  method ValidatePlain(s: Schema, v: Json, re: Matcher) returns (ok: bool)
    ensures ok == PlainAccepts(s, v, re)
  {
    if s.kind != "" && !TypeMatches(s.kind, v) {
      return false;
    }
    if v.Num? && !WithinBounds(s, v.n) {
      return false;
    }
    if |s.enum| > 0 {
      var matched := false;
      for i := 0 to |s.enum|
        invariant !matched
        invariant forall j | 0 <= j < i :: !SchemaEqual(s.enum[j], v)
      {
        if SchemaEqual(s.enum[i], v) {
          matched := true;
          break;
        }
      }
      if !matched {
        return false;
      }
    }
    if s.constant.Some? && !SchemaEqual(s.constant.value, v) {
      return false;
    }
    if v.Str? && !TextAccepted(s, v.s, re) {
      return false;
    }
    if v.Arr? {
      var sized := ValidateSize(s, v.items);
      return sized;
    }
    return true;
  }

  method ValidateSize(s: Schema, items: seq<Json>) returns (ok: bool)
    ensures ok == SizeAccepted(s, items)
  {
    if s.minItems.Some? && |items| < s.minItems.value {
      return false;
    }
    if s.maxItems.Some? && |items| > s.maxItems.value {
      return false;
    }
    if s.uniqueItems == Some(true) {
      for index := 0 to |items|
        invariant forall i, j | 0 <= j < i < index :: !SchemaEqual(items[i], items[j])
      {
        for other := 0 to index
          invariant forall j | 0 <= j < other :: !SchemaEqual(items[index], items[j])
        {
          if SchemaEqual(items[index], items[other]) {
            return false;
          }
        }
      }
    }
    return true;
  }

  method ValidateChildren(s: Schema, v: Json, re: Matcher) returns (ok: bool)
    ensures ok == ChildrenAccept(s, v, re)
    decreases s, 0
  {
    if v.Obj? {
      if s.properties == map[] && |s.required| == 0 && s.additionalPropertySchema.None?
         && (|s.allOf| > 0 || |s.oneOf| > 0 || |s.anyOf| > 0) {
        return true;
      }
      for i := 0 to |s.required|
        invariant forall j | 0 <= j < i :: s.required[j] in v.fields
      {
        if s.required[i] !in v.fields {
          return false;
        }
      }
      var keys := v.fields.Keys;
      while keys != {}
        invariant keys <= v.fields.Keys
        invariant forall k | k in v.fields && k !in keys :: FieldAccepts(s, k, v.fields[k], re)
        decreases |keys|
      {
        var key :| key in keys;
        var accepted := false;
        if key in s.properties {
          accepted := Validate(s.properties[key], v.fields[key], re);
        } else if s.additionalPropertySchema.Some? {
          accepted := Validate(s.additionalPropertySchema.value, v.fields[key], re);
        } else {
          accepted := s.additionalProperties == Some(true);
        }
        if !accepted {
          return false;
        }
        keys := keys - {key};
      }
    }
    if v.Arr? && s.items.Some? {
      for i := 0 to |v.items|
        invariant forall j | 0 <= j < i :: Accepts(s.items.value, v.items[j], re)
      {
        var accepted := Validate(s.items.value, v.items[i], re);
        if !accepted {
          return false;
        }
      }
    }
    return true;
  }

  /** The validator decides Accepts: its loops and counters agree with the quantifiers. */
  method Validate(s: Schema, v: Json, re: Matcher) returns (ok: bool)
    ensures ok == Accepts(s, v, re)
    decreases s, 1
  {
    if s.jsonValue {
      return true;
    }
    var composed := ValidateComposition(s, v, re);
    if !composed {
      return false;
    }
    var plain := ValidatePlain(s, v, re);
    if !plain {
      return false;
    }
    ok := ValidateChildren(s, v, re);
  }
}
