/** How deeply specifications nest, through their parts and the definitions they refer to. */
module Nesting {
  import opened Json
  import opened Contracts

  const MAX_DEPTH: nat := 64

  function LevelsLeft(depth: nat): nat {
    if depth > MAX_DEPTH then 0 else MAX_DEPTH + 1 - depth
  }

  /** Some chain of parts and references from a specification at this depth passes the bound. */
  predicate NestsBeyond(env: Env, spec: Spec, depth: nat)
    decreases LevelsLeft(depth), 0
  {
    || depth > MAX_DEPTH
    || (!spec.jsonValue && if spec.ref != "" then DefNestsBeyond(env, spec.ref, depth + 1) else PartNestsBeyond(env, spec, depth + 1))
  }

  predicate DefNestsBeyond(env: Env, name: string, depth: nat)
    decreases LevelsLeft(depth), 0
  {
    depth > MAX_DEPTH || (name in env.specs && NestsBeyond(env, env.specs[name], depth + 1))
  }

  predicate OptionNestsBeyond(env: Env, spec: Option<Spec>, depth: nat)
    decreases LevelsLeft(depth), 1
  {
    spec.Some? && NestsBeyond(env, spec.value, depth)
  }

  predicate ListNestsBeyond(env: Env, specs: Specs, depth: nat)
    decreases LevelsLeft(depth), 1
  {
    specs.SpecList? && exists i | 0 <= i < |specs.list| :: NestsBeyond(env, specs.list[i], depth)
  }

  predicate FieldsNestBeyond(env: Env, fields: Fields, depth: nat)
    decreases LevelsLeft(depth), 1
  {
    fields.SpecFields? && exists k | k in fields.fields :: NestsBeyond(env, fields.fields[k], depth)
  }

  predicate PartNestsBeyond(env: Env, spec: Spec, depth: nat)
    decreases LevelsLeft(depth), 2
  {
    || FieldsNestBeyond(env, spec.properties, depth)
    || OptionNestsBeyond(env, spec.items, depth) || OptionNestsBeyond(env, spec.additionalPropertySpec, depth)
    || ListNestsBeyond(env, spec.allOf, depth) || ListNestsBeyond(env, spec.oneOf, depth) || ListNestsBeyond(env, spec.anyOf, depth)
    || OptionNestsBeyond(env, spec.notSpec, depth) || OptionNestsBeyond(env, spec.ifSpec, depth)
    || OptionNestsBeyond(env, spec.thenSpec, depth)
  }

  lemma DefinitionNestsBeyond(env: Env, name: string, depth: nat)
    requires name in env.specs && NestsBeyond(env, env.specs[name], depth + 1)
    ensures DefNestsBeyond(env, name, depth)
  {
  }

  lemma ItemNestsBeyond(env: Env, specs: Specs, i: int, depth: nat)
    requires specs.SpecList? && 0 <= i < |specs.list| && NestsBeyond(env, specs.list[i], depth)
    ensures ListNestsBeyond(env, specs, depth)
  {
  }

  lemma FieldNestsBeyond(env: Env, fields: Fields, key: string, depth: nat)
    requires fields.SpecFields? && key in fields.fields && NestsBeyond(env, fields.fields[key], depth)
    ensures FieldsNestBeyond(env, fields, depth)
  {
  }

  // -------------------------------------------------------------- the same as chains

  /** A place in the descent: a specification, or a definition that is about to be looked up. */
  datatype Place = At(spec: Spec) | Named(name: string)

  predicate IsOption(spec: Option<Spec>, part: Spec) {
    spec == Some(part)
  }

  predicate InList(specs: Specs, part: Spec) {
    specs.SpecList? && part in specs.list
  }

  predicate InFields(fields: Fields, part: Spec) {
    fields.SpecFields? && exists k | k in fields.fields :: fields.fields[k] == part
  }

  predicate IsPart(spec: Spec, part: Spec) {
    || InFields(spec.properties, part) || IsOption(spec.items, part) || IsOption(spec.additionalPropertySpec, part)
    || InList(spec.allOf, part) || InList(spec.oneOf, part) || InList(spec.anyOf, part)
    || IsOption(spec.notSpec, part) || IsOption(spec.ifSpec, part) || IsOption(spec.thenSpec, part)
  }

  /** One level further down: to a part, to the name of a reference, to the definition of a name. */
  predicate LeadsTo(env: Env, a: Place, b: Place) {
    match a
    case Named(name) => name in env.specs && b == At(env.specs[name])
    case At(spec) =>
      !spec.jsonValue && if spec.ref != "" then b == Named(spec.ref) else b.At? && IsPart(spec, b.spec)
  }

  predicate Chain(env: Env, path: seq<Place>) {
    forall i | 0 < i < |path| :: LeadsTo(env, path[i - 1], path[i])
  }

  lemma ChainLonger(env: Env, a: Place, path: seq<Place>)
    requires path != [] && LeadsTo(env, a, path[0]) && Chain(env, path)
    ensures Chain(env, [a] + path)
  {
    hide LeadsTo;
    forall i | 0 < i < |[a] + path|
      ensures LeadsTo(env, ([a] + path)[i - 1], ([a] + path)[i])
    {
      if i > 1 {
        assert LeadsTo(env, path[i - 2], path[i - 1]);
      }
    }
  }

  lemma ChainShorter(env: Env, path: seq<Place>)
    requires |path| > 1 && Chain(env, path)
    ensures Chain(env, path[1..]) && LeadsTo(env, path[0], path[1..][0])
  {
    hide LeadsTo;
    forall i | 0 < i < |path[1..]|
      ensures LeadsTo(env, path[1..][i - 1], path[1..][i])
    {
      assert LeadsTo(env, path[i], path[i + 1]);
    }
    assert LeadsTo(env, path[1 - 1], path[1]);
  }

  predicate PlaceNestsBeyond(env: Env, place: Place, depth: nat) {
    match place
    case At(spec) => NestsBeyond(env, spec, depth)
    case Named(name) => DefNestsBeyond(env, name, depth)
  }

  /** The part through which a specification nests beyond. */
  lemma NestingPart(env: Env, spec: Spec, depth: nat) returns (part: Spec)
    requires PartNestsBeyond(env, spec, depth)
    ensures IsPart(spec, part) && NestsBeyond(env, part, depth)
  {
    hide NestsBeyond;
    if FieldsNestBeyond(env, spec.properties, depth) {
      var k :| k in spec.properties.fields && NestsBeyond(env, spec.properties.fields[k], depth);
      part := spec.properties.fields[k];
    } else if OptionNestsBeyond(env, spec.items, depth) {
      part := spec.items.value;
    } else if OptionNestsBeyond(env, spec.additionalPropertySpec, depth) {
      part := spec.additionalPropertySpec.value;
    } else if ListNestsBeyond(env, spec.allOf, depth) {
      part := NestingItem(env, spec.allOf, depth);
    } else if ListNestsBeyond(env, spec.oneOf, depth) {
      part := NestingItem(env, spec.oneOf, depth);
    } else if ListNestsBeyond(env, spec.anyOf, depth) {
      part := NestingItem(env, spec.anyOf, depth);
    } else if OptionNestsBeyond(env, spec.notSpec, depth) {
      part := spec.notSpec.value;
    } else if OptionNestsBeyond(env, spec.ifSpec, depth) {
      part := spec.ifSpec.value;
    } else {
      part := spec.thenSpec.value;
    }
  }

  lemma NestingItem(env: Env, specs: Specs, depth: nat) returns (part: Spec)
    requires ListNestsBeyond(env, specs, depth)
    ensures InList(specs, part) && NestsBeyond(env, part, depth)
  {
    hide NestsBeyond;
    var i :| 0 <= i < |specs.list| && NestsBeyond(env, specs.list[i], depth);
    part := specs.list[i];
  }

  lemma PartNests(env: Env, spec: Spec, part: Spec, depth: nat)
    requires IsPart(spec, part) && NestsBeyond(env, part, depth)
    ensures PartNestsBeyond(env, spec, depth)
  {
    hide NestsBeyond;
    if InFields(spec.properties, part) {
      var k :| k in spec.properties.fields && spec.properties.fields[k] == part;
      FieldNestsBeyond(env, spec.properties, k, depth);
    }
    InListNests(env, spec.allOf, part, depth);
    InListNests(env, spec.oneOf, part, depth);
    InListNests(env, spec.anyOf, part, depth);
  }

  lemma InListNests(env: Env, specs: Specs, part: Spec, depth: nat)
    requires NestsBeyond(env, part, depth)
    ensures InList(specs, part) ==> ListNestsBeyond(env, specs, depth)
  {
    hide NestsBeyond;
    if InList(specs, part) {
      var i :| 0 <= i < |specs.list| && specs.list[i] == part;
      ItemNestsBeyond(env, specs, i, depth);
    }
  }

  /** Nesting beyond the bound from some depth means that a chain of parts and references leads
      from there to a level past the bound. */
  lemma {:induction false} NestingIsAChain(env: Env, place: Place, depth: nat) returns (path: seq<Place>)
    requires PlaceNestsBeyond(env, place, depth)
    ensures path != [] && path[0] == place && Chain(env, path) && depth + |path| - 1 == (if depth > MAX_DEPTH then depth else MAX_DEPTH + 1)
    decreases LevelsLeft(depth)
  {
    hide PartNestsBeyond, IsPart;
    if depth > MAX_DEPTH {
      path := [place];
    } else {
      var next;
      match place {
        case Named(name) => next := At(env.specs[name]);
        case At(spec) =>
          if spec.ref != "" {
            next := Named(spec.ref);
          } else {
            var part := NestingPart(env, spec, depth + 1);
            next := At(part);
          }
      }
      var rest := NestingIsAChain(env, next, depth + 1);
      ChainLonger(env, place, rest);
      path := [place] + rest;
    }
  }

  /** And the other way round. */
  lemma {:induction false} ChainsNest(env: Env, path: seq<Place>, depth: nat)
    requires path != [] && Chain(env, path) && depth + |path| - 1 > MAX_DEPTH
    ensures PlaceNestsBeyond(env, path[0], depth)
    decreases |path|
  {
    hide PartNestsBeyond, IsPart;
    if depth <= MAX_DEPTH {
      ChainShorter(env, path);
      ChainsNest(env, path[1..], depth + 1);
      if path[0].At? && path[0].spec.ref == "" {
        PartNests(env, path[0].spec, path[1..][0].spec, depth + 1);
      }
    }
  }
}
