/** Compiling the field mappings of an action from their dotted paths. */
module FieldMappings {
  import opened Json
  import opened Mappings
  import Contracts

  datatype MappingSpec = MappingSpec(from: string, to: string)

  /** What was wrong with the mapping at an index. */
  datatype MappingError =
    | InvalidPath(index: nat)
    | NotOneField(index: nat)
    | Duplicate(index: nat)

  const MAX_MAPPING_PATH := 256

  // -------------------------------------------------------------- dotted paths

  function IndexOfDot(text: string): (i: nat)
    ensures i <= |text| && (i < |text| ==> text[i] == '.') && forall k | 0 <= k < i :: text[k] != '.'
  {
    if text == "" || text[0] == '.' then 0 else IndexOfDot(text[1..]) + 1
  }

  /** The parts between dots; there is always at least one. */
  function Split(text: string): (parts: FieldPath)
    ensures parts != [] && forall k | 0 <= k < |parts| :: '.' !in parts[k]
    decreases |text|
  {
    var i := IndexOfDot(text);
    if i == |text| then [text] else [text[..i]] + Split(text[i + 1..])
  }

  function Join(parts: FieldPath): string
    requires parts != []
  {
    if |parts| == 1 then parts[0] else parts[0] + "." + Join(parts[1..])
  }

  /** Splitting loses nothing, so different texts have different paths. */
  lemma {:induction false} JoinSplit(text: string)
    ensures Join(Split(text)) == text
    decreases |text|
  {
    var i := IndexOfDot(text);
    if i < |text| {
      JoinSplit(text[i + 1..]);
      JoinOne(text[..i], Split(text[i + 1..]));
      CutAtDot(text, i);
    }
  }

  lemma JoinOne(part: string, rest: FieldPath)
    requires rest != []
    ensures Join([part] + rest) == part + "." + Join(rest)
  {
    assert ([part] + rest)[1..] == rest;
  }

  lemma CutAtDot(text: string, i: nat)
    requires i < |text| && text[i] == '.'
    ensures text == text[..i] + "." + text[i + 1..]
  {
  }

  predicate ValidMappingPath(path: string) {
    && path != "" && Contracts.ByteLength(path) <= MAX_MAPPING_PATH
    && forall k | 0 <= k < |Split(path)| :: Split(path)[k] == "*" || Contracts.ValidPropertyName(Split(path)[k])
  }

  /** Both paths name one field of the same object, and not the same field. */
  predicate RenamesOneField(from: FieldPath, to: FieldPath)
    requires from != [] && |from| == |to|
  {
    && (forall k | 0 <= k < |from| :: PartAgrees(from, to, k))
    && Last(from) != Last(to)
  }

  predicate PartAgrees(from: FieldPath, to: FieldPath, k: nat)
    requires k < |from| == |to|
  {
    (from[k] == "*" <==> to[k] == "*") && (k < |from| - 1 ==> from[k] == to[k])
  }

  function Trimmed(spec: MappingSpec): MappingSpec {
    MappingSpec(Contracts.TrimSpace(spec.from), Contracts.TrimSpace(spec.to))
  }

  predicate ValidPaths(spec: MappingSpec) {
    && ValidMappingPath(Trimmed(spec).from) && ValidMappingPath(Trimmed(spec).to)
    && |Split(Trimmed(spec).from)| == |Split(Trimmed(spec).to)|
  }

  predicate GoodSpec(spec: MappingSpec) {
    ValidPaths(spec) && RenamesOneField(Split(Trimmed(spec).from), Split(Trimmed(spec).to))
  }

  /** An earlier mapping has the same source or the same target. */
  predicate Repeats(specs: seq<MappingSpec>, i: nat)
    requires i < |specs|
  {
    exists k | 0 <= k < i :: Trimmed(specs[k]).from == Trimmed(specs[i]).from || Trimmed(specs[k]).to == Trimmed(specs[i]).to
  }

  predicate Acceptable(specs: seq<MappingSpec>, i: nat)
    requires i < |specs|
  {
    GoodSpec(specs[i]) && !Repeats(specs, i)
  }

  function CompiledMapping(spec: MappingSpec): FieldMapping {
    FieldMapping(Split(Trimmed(spec).from), Split(Trimmed(spec).to))
  }

  /** A mapping that passes the checks renames one field of an object to another. */
  lemma GoodSpecIsProper(spec: MappingSpec)
    requires GoodSpec(spec)
    ensures Proper(CompiledMapping(spec)) && |CompiledMapping(spec).from| == |CompiledMapping(spec).to|
    ensures Last(CompiledMapping(spec).from) != "*" && Last(CompiledMapping(spec).to) != "*"
  {
    var from, to := Split(Trimmed(spec).from), Split(Trimmed(spec).to);
    forall k | 0 <= k < |from| - 1
      ensures Init(from)[k] == Init(to)[k]
    {
      assert PartAgrees(from, to, k);
    }
    assert PartAgrees(from, to, |from| - 1);
  }

  method AgreesUpToLast(from: FieldPath, to: FieldPath) returns (agrees: bool)
    requires from != [] && |from| == |to|
    ensures agrees <==> forall k | 0 <= k < |from| :: PartAgrees(from, to, k)
  {
    for part := 0 to |from|
      invariant forall k | 0 <= k < part :: PartAgrees(from, to, k)
    {
      if ((from[part] == "*") != (to[part] == "*")) || (part < |from| - 1 && from[part] != to[part]) {
        assert !PartAgrees(from, to, part);
        return false;
      }
    }
    return true;
  }

  method CheckMappingPath(path: string) returns (ok: bool)
    ensures ok == ValidMappingPath(path)
  {
    hide Contracts.ByteLength, Contracts.ValidPropertyName, Split;
    var bytes := Contracts.CountBytes(path);
    if path == "" || bytes > 256 {
      return false;
    }
    var parts := Split(path);
    for k := 0 to |parts|
      invariant forall j | 0 <= j < k :: parts[j] == "*" || Contracts.ValidPropertyName(parts[j])
    {
      var named := Contracts.MatchesName(parts[k]);
      if parts[k] != "*" && !named {
        return false;
      }
    }
    return true;
  }

  /** Compiles mappings in order, remembering the sources and targets seen. It succeeds exactly
      when every mapping renames one field and no source or target repeats; otherwise it reports
      the first that does not. */
  method CompileFieldMappings(specs: seq<MappingSpec>) returns (r: Result<seq<FieldMapping>, MappingError>)
    ensures r.Ok? <==> forall i | 0 <= i < |specs| :: Acceptable(specs, i)
    ensures r.Ok? ==> |r.value| == |specs| && AllProper(r.value)
                      && forall i | 0 <= i < |specs| :: r.value[i] == CompiledMapping(specs[i])
    ensures r.Err? ==> r.error.index < |specs| && !Acceptable(specs, r.error.index)
                       && forall i | 0 <= i < r.error.index :: Acceptable(specs, i)
    ensures r.Err? && r.error.InvalidPath? ==> !ValidPaths(specs[r.error.index])
  {
    hide ValidMappingPath, Split, Contracts.TrimSpace;
    var mappings: seq<FieldMapping> := [];
    var fromSeen: set<string>, toSeen: set<string> := {}, {};
    for index := 0 to |specs|
      invariant |mappings| == index && AllProper(mappings)
      invariant forall i | 0 <= i < index :: Acceptable(specs, i) && mappings[i] == CompiledMapping(specs[i])
      invariant forall name :: name in fromSeen <==> SeenFrom(specs, index, name)
      invariant forall name :: name in toSeen <==> SeenTo(specs, index, name)
    {
      var from, to := Contracts.TrimSpace(specs[index].from), Contracts.TrimSpace(specs[index].to);
      var fromParts, toParts := Split(from), Split(to);
      var fromValid := CheckMappingPath(from);
      var toValid := CheckMappingPath(to);
      if !fromValid || !toValid || |fromParts| != |toParts| {
        assert !Acceptable(specs, index);
        return Err(InvalidPath(index));
      }
      var agrees := AgreesUpToLast(fromParts, toParts);
      if !agrees {
        assert !Acceptable(specs, index);
        return Err(NotOneField(index));
      }
      SeenMeans(specs, index);
      if fromParts[|fromParts| - 1] == toParts[|toParts| - 1] || from in fromSeen || to in toSeen {
        assert !Acceptable(specs, index);
        return Err(Duplicate(index));
      }
      fromSeen, toSeen := fromSeen + {from}, toSeen + {to};
      GoodSpecIsProper(specs[index]);
      mappings := mappings + [FieldMapping(fromParts, toParts)];
    }
    return Ok(mappings);
  }

  predicate SeenFrom(specs: seq<MappingSpec>, n: nat, name: string)
    requires n <= |specs|
  {
    exists k | 0 <= k < n :: Trimmed(specs[k]).from == name
  }

  predicate SeenTo(specs: seq<MappingSpec>, n: nat, name: string)
    requires n <= |specs|
  {
    exists k | 0 <= k < n :: Trimmed(specs[k]).to == name
  }

  lemma SeenMeans(specs: seq<MappingSpec>, i: nat)
    requires i < |specs|
    ensures Repeats(specs, i) <==> SeenFrom(specs, i, Trimmed(specs[i]).from) || SeenTo(specs, i, Trimmed(specs[i]).to)
  {
  }
}
