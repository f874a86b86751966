/** Concrete inputs on which the engine does less than one might expect. */
module Witnesses {
  import opened Json
  import opened Digits
  import opened Schemas
  import opened Contracts
  import Rendering
  import Procedure
  import ProcedureRoundTrip
  import SafeInteger

  // -------------------------------------------------------------- contracts that compile but render unfaithfully

  function BlankSpec(): Spec {
    Spec("", false, "", "", NoFields, None, None, None, None, None, "", None, None, None, None,
         None, None, None, "", "", None, None, None, NoSpecs, NoSpecs, NoSpecs, None, None, None)
  }

  const TEXT_SPEC := BlankSpec().(kind := "string")
  const NEGATION_SPEC := BlankSpec().(notSpec := Some(TEXT_SPEC))
  const OPEN_SPEC := BlankSpec().(kind := "object", additionalProperties := Some(true))
  const CLOSED_SPEC := BlankSpec().(kind := "object", additionalProperties := Some(false), allOf := SpecList([OPEN_SPEC]))

  const NO_CHILDREN := Children(map[], None, None, [], [], [], None, None, None)

  /** A leaf without literals, names or references compiles to the keywords it states. */
  lemma LeafCompiles(env: Env, spec: Spec, timestamps: bool, n: nat)
    requires spec == TEXT_SPEC || spec == OPEN_SPEC
    ensures Expand(env, spec, Shared, timestamps, n) ==
            Ok(if spec == TEXT_SPEC then Blank().(kind := "string") else Blank().(kind := "object", additionalProperties := Some(true)))
  {
    assert spec.properties.NoFields? && spec.allOf.NoSpecs? && spec.oneOf.NoSpecs? && spec.anyOf.NoSpecs?;
    assert spec.items.None? && spec.additionalPropertySpec.None? && spec.notSpec.None? && spec.ifSpec.None? && spec.thenSpec.None?;
    assert FieldsExpand(env, NoFields, Shared, n) && OptionExpands(env, None, Shared, n) && ListExpands(env, NoSpecs, Shared, n);
    assert ChildrenExpand(env, spec, Shared, n) && ExpandedChildren(env, spec, Shared, n) == NO_CHILDREN;
    assert HeaderOk(spec, Shared, timestamps) && ObjectRulesOk(spec, NO_CHILDREN);
    var s := InlineSchema(spec, NO_CHILDREN);
    assert KindsOk(s, env) && LiteralsOk(s, env.matches);
  }

  /** The schema that is only a negation is what the contract "not a string" compiles to. */
  lemma NegationCompiles(env: Env, n: nat)
    ensures Expand(env, NEGATION_SPEC, Shared, false, n) == Ok(Blank().(notSchema := Some(Blank().(kind := "string"))))
  {
    hide Accepts, KindsOk, LiteralsOk, HeaderOk;
    LeafCompiles(env, TEXT_SPEC, false, n);
    var c := NO_CHILDREN.(notSchema := Some(Blank().(kind := "string")));
    assert ChildrenExpand(env, NEGATION_SPEC, Shared, n) && ExpandedChildren(env, NEGATION_SPEC, Shared, n) == c;
    NegationInOrder(env);
  }

  lemma NegationInOrder(env: Env)
    ensures HeaderOk(NEGATION_SPEC, Shared, false)
    ensures var s := Blank().(notSchema := Some(Blank().(kind := "string"))); KindsOk(s, env) && LiteralsOk(s, env.matches)
  {
  }

  /** The closed combination is what an object contract with one all-of branch compiles to. */
  lemma ClosedCompositionCompiles(env: Env, n: nat)
    ensures Expand(env, CLOSED_SPEC, Shared, false, n) ==
            Ok(Blank().(kind := "object", additionalProperties := Some(false),
                        allOf := [Blank().(kind := "object", additionalProperties := Some(true))]))
  {
    hide Accepts, KindsOk, LiteralsOk, HeaderOk;
    LeafCompiles(env, OPEN_SPEC, false, n);
    var open := Blank().(kind := "object", additionalProperties := Some(true));
    assert ExpandedList(env, CLOSED_SPEC.allOf, Shared, n) == [open];
    assert ChildrenExpand(env, CLOSED_SPEC, Shared, n) && ExpandedChildren(env, CLOSED_SPEC, Shared, n) == NO_CHILDREN.(allOf := [open]);
    ClosedInOrder(env, open);
  }

  lemma ClosedInOrder(env: Env, open: Schema)
    ensures HeaderOk(CLOSED_SPEC, Shared, false)
    ensures var s := Blank().(kind := "object", additionalProperties := Some(false), allOf := [open]);
            KindsOk(s, env) && LiteralsOk(s, env.matches)
  {
  }

  /** So there are contracts whose published document and validator differ on an object. */
  lemma CompiledContractsCanRenderUnfaithfully(env: Env, n: nat)
    ensures var negation, closed := Expand(env, NEGATION_SPEC, Shared, false, n), Expand(env, CLOSED_SPEC, Shared, false, n);
            var v := Obj(map["a" := Null]);
            && negation.Ok? && Rendering.Valid(Rendering.Render(negation.value), v, env.matches) && !Accepts(negation.value, v, env.matches)
            && closed.Ok? && !Rendering.Valid(Rendering.Render(closed.value), v, env.matches) && Accepts(closed.value, v, env.matches)
  {
    hide *;
    NegationCompiles(env, n);
    ClosedCompositionCompiles(env, n);
    Rendering.NegationLosesMeaning(env.matches);
    Rendering.ClosedCompositionLosesMeaning(env.matches);
  }

  // -------------------------------------------------------------- an object without properties

  const EMPTY_OBJECT := Obj(map["type" := Str("object"), "properties" := Obj(map[]), "additionalProperties" := Bool(false)])

  /** The empty closed object compiles, but what it renders to does not. */
  lemma EmptyObjectDoesNotComeBack(definitions: Procedure.Definitions)
    ensures var s := Blank().(kind := "object", additionalProperties := Some(false));
            && Procedure.Compiled(definitions, EMPTY_OBJECT, false) == Some(s)
            && Procedure.Acceptable(definitions, EMPTY_OBJECT) && !Procedure.Acceptable(definitions, Rendering.Render(s))
  {
    hide Rendering.RenderFields;
    var s := Blank().(kind := "object", additionalProperties := Some(false));
    EmptyObjectCompiles(definitions);
    assert !ProcedureRoundTrip.EveryObjectDeclares(s);
    ProcedureRoundTrip.RenderingRecompiles(definitions, EMPTY_OBJECT, s);
  }

  lemma EmptyObjectCompiles(definitions: Procedure.Definitions)
    ensures Procedure.Compiled(definitions, EMPTY_OBJECT, false) == Some(Blank().(kind := "object", additionalProperties := Some(false)))
    ensures Procedure.Acceptable(definitions, EMPTY_OBJECT) && ProcedureRoundTrip.RefFree(EMPTY_OBJECT)
  {
    var fields := EMPTY_OBJECT.fields;
    assert Procedure.ObjectShape(fields);
    Procedure.ObjectByParts(definitions, EMPTY_OBJECT, false);
    assert Procedure.PropertiesCompile(definitions, fields["properties"]);
    assert Procedure.CompiledProperties(definitions, fields["properties"]) == map[];
    assert Procedure.RequiredNames(Rendering.Get(fields, "required"), {}) == Some([]);
    assert Procedure.Children(EMPTY_OBJECT) == map[];
  }

  // -------------------------------------------------------------- zeros that are refused

  const NEGATIVE_ZERO := SafeInteger.Literal(true, "0", None, None)
  const LARGE_ZERO := SafeInteger.Literal(false, "0", None, Some(SafeInteger.Exponent('e', "", "99")))

  /** Minus zero, and zero times ten to the 99 in four bytes, denote zero and are refused. */
  lemma SomeZerosAreRefused()
    ensures SafeInteger.WellFormed(NEGATIVE_ZERO) && SafeInteger.Text(NEGATIVE_ZERO) == "-0" && SafeInteger.Value(NEGATIVE_ZERO) == 0.0
    ensures SafeInteger.Decoded("-0", 2 + SafeInteger.EXPONENT_SLACK).Err?
    ensures SafeInteger.WellFormed(LARGE_ZERO) && SafeInteger.Text(LARGE_ZERO) == "0e99" && SafeInteger.Value(LARGE_ZERO) == 0.0
    ensures SafeInteger.Decoded("0e99", 4 + SafeInteger.EXPONENT_SLACK).Err?
  {
    hide SafeInteger.Decoded, SafeInteger.Pow10;
    ZeroDigit();
    NinetyNine();
    SafeInteger.DecodingIsExact(NEGATIVE_ZERO, 2);
    SafeInteger.DecodingIsExact(LARGE_ZERO, 4);
  }

  lemma ZeroDigit()
    ensures AllDigits("0") && DigitsValue("0") == 0
  {
    assert "0"[..0] == "";
  }

  lemma NinetyNine()
    ensures AllDigits("99") && DigitsValue("99") == 99
  {
    assert "99"[..1] == "9" && "9"[..0] == "";
    assert DigitsValue("9") == 9;
  }
}
