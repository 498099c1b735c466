/**
 * The Flask middleware's input validator (`_validate_inputs`): every declared
 * input is checked for presence, then for its declared type, then against its
 * validation rules, and every error is collected. The regular-expression
 * engine (`re.match`) is the parameter `reMatch`.
 */
module ServerValidation {
  import opened Wrappers
  import opened Json
  import opened Manifest
  import opened SeqLemmas

  /** `data.get(name)`; a JSON null reads as None as well. */
  function Lookup(data: map<string, Value>, name: string): (r: Option<Value>)
    ensures r.Some? <==> name in data && data[name] != Null
    ensures r.Some? ==> r.value == data[name]
  {
    if name in data && data[name] != Null then Some(data[name]) else None
  }

  /** The type names the validator has an `isinstance` check for. */
  predicate KnownType(t: string) {
    t == "string" || t == "integer" || t == "number" || t == "boolean" || t == "array" || t == "object"
  }

  /** `isinstance(v, expected_type)`. A bool is an instance of `int`, so it passes
      both the `integer` and the `number` check. */
  predicate PyIsInstance(v: Value, t: string)
    requires KnownType(t)
  {
    if t == "string" then v.Str?
    else if t == "integer" || t == "number" then v.Int? || v.Bool?
    else if t == "boolean" then v.Bool?
    else if t == "array" then v.Arr?
    else v.Obj?
  }

  /** `input_def.get('type', 'string')` */
  function DeclaredType(input: InputDef): string {
    input.paramType.GetOr("string")
  }

  /** `isinstance(v, (str, list))`, the values `len` is applied to. */
  predicate PyHasLength(v: Value) {
    v.Str? || v.Arr?
  }

  function PyLen(v: Value): nat
    requires PyHasLength(v)
  {
    if v.Str? then |v.s| else |v.items|
  }

  /** Reference definitions: the value satisfies each kind of rule that applies to its type. */
  predicate PatternHolds(v: Value, rules: Rules, reMatch: (string, string) -> bool) {
    rules.pattern.Some? && v.Str? ==> reMatch(rules.pattern.value, v.s)
  }

  predicate RangeHolds(v: Value, rules: Rules) {
    && (rules.min.Some? && PyIsNumber(v) ==> PyNumber(v) >= rules.min.value)
    && (rules.max.Some? && PyIsNumber(v) ==> PyNumber(v) <= rules.max.value)
  }

  predicate LengthHolds(v: Value, rules: Rules) {
    && (rules.minLength.Some? && PyHasLength(v) ==> PyLen(v) >= rules.minLength.value)
    && (rules.maxLength.Some? && PyHasLength(v) ==> PyLen(v) <= rules.maxLength.value)
  }

  predicate EnumHolds(v: Value, rules: Rules) {
    rules.enumValues.Some? ==> PyIn(v, rules.enumValues.value)
  }

  predicate RulesHold(v: Value, rules: Rules, reMatch: (string, string) -> bool) {
    PatternHolds(v, rules, reMatch) && RangeHolds(v, rules) && LengthHolds(v, rules) && EnumHolds(v, rules)
  }

  /** Reference definitions: `e` reports a rule of `rules` that the value of `name` violates. */
  predicate PatternViolation(e: ParamError, name: string, v: Value, rules: Rules, reMatch: (string, string) -> bool) {
    e == PatternMismatch(name) && rules.pattern.Some? && v.Str? && !reMatch(rules.pattern.value, v.s)
  }

  predicate RangeViolation(e: ParamError, name: string, v: Value, rules: Rules) {
    || (e.BelowMin? && e == BelowMin(name, e.min) && rules.min == Some(e.min) && PyIsNumber(v) && PyNumber(v) < e.min)
    || (e.AboveMax? && e == AboveMax(name, e.max) && rules.max == Some(e.max) && PyIsNumber(v) && PyNumber(v) > e.max)
  }

  predicate LengthViolation(e: ParamError, name: string, v: Value, rules: Rules) {
    || (e.TooShort? && e == TooShort(name, e.minLength) && rules.minLength == Some(e.minLength)
        && PyHasLength(v) && PyLen(v) < e.minLength)
    || (e.TooLong? && e == TooLong(name, e.maxLength) && rules.maxLength == Some(e.maxLength)
        && PyHasLength(v) && PyLen(v) > e.maxLength)
  }

  predicate EnumViolation(e: ParamError, name: string, v: Value, rules: Rules) {
    e.NotInEnum? && e == NotInEnum(name, e.allowed) && rules.enumValues == Some(e.allowed) && !PyIn(v, e.allowed)
  }

  predicate RuleViolation(e: ParamError, name: string, v: Value, rules: Rules, reMatch: (string, string) -> bool) {
    || PatternViolation(e, name, v, rules, reMatch)
    || RangeViolation(e, name, v, rules)
    || LengthViolation(e, name, v, rules)
    || EnumViolation(e, name, v, rules)
  }

  /** The pattern check: only a string is matched against the pattern. */
  function PatternErrors(name: string, v: Value, rules: Rules, reMatch: (string, string) -> bool): (r: seq<ParamError>)
    ensures r == [] <==> PatternHolds(v, rules, reMatch)
    ensures forall e :: e in r <==> PatternViolation(e, name, v, rules, reMatch)
  {
    if rules.pattern.Some? && v.Str? && !reMatch(rules.pattern.value, v.s) then [PatternMismatch(name)] else []
  }

  /** The range check on an int or bool: a value can violate `min` and `max` at once. */
  function RangeErrors(name: string, v: Value, rules: Rules): (r: seq<ParamError>)
    ensures r == [] <==> RangeHolds(v, rules)
    ensures forall e :: e in r <==> RangeViolation(e, name, v, rules)
  {
    if !PyIsNumber(v) then []
    else
      (if rules.min.Some? && PyNumber(v) < rules.min.value then [BelowMin(name, rules.min.value)] else [])
      + (if rules.max.Some? && PyNumber(v) > rules.max.value then [AboveMax(name, rules.max.value)] else [])
  }

  /** The length check on a string or list: both bounds can be violated at once. */
  function LengthErrors(name: string, v: Value, rules: Rules): (r: seq<ParamError>)
    ensures r == [] <==> LengthHolds(v, rules)
    ensures forall e :: e in r <==> LengthViolation(e, name, v, rules)
  {
    if !PyHasLength(v) then []
    else
      (if rules.minLength.Some? && PyLen(v) < rules.minLength.value then [TooShort(name, rules.minLength.value)] else [])
      + (if rules.maxLength.Some? && PyLen(v) > rules.maxLength.value then [TooLong(name, rules.maxLength.value)] else [])
  }

  /** The enum check, which applies to a value of any type, with Python's `==`. */
  function EnumErrors(name: string, v: Value, rules: Rules): (r: seq<ParamError>)
    ensures r == [] <==> EnumHolds(v, rules)
    ensures forall e :: e in r <==> EnumViolation(e, name, v, rules)
  {
    if rules.enumValues.Some? && !PyIn(v, rules.enumValues.value) then [NotInEnum(name, rules.enumValues.value)] else []
  }

  /** The rule errors of one present, well-typed value: every violated rule is
      reported, once, in the order pattern, min, max, minLength, maxLength, enum. */
  function RuleErrors(name: string, v: Value, rules: Rules, reMatch: (string, string) -> bool): (r: seq<ParamError>)
    ensures r == [] <==> RulesHold(v, rules, reMatch)
    ensures forall e :: e in r ==> e.RuleError() && e.param == name
  {
    var p := PatternErrors(name, v, rules, reMatch);
    var q := RangeErrors(name, v, rules);
    var l := LengthErrors(name, v, rules);
    var x := EnumErrors(name, v, rules);
    assert forall e :: e in p + q + l + x ==> e in p || e in q || e in l || e in x;
    p + q + l + x
  }

  /** Rule errors accumulate: exactly the violated rules are reported, each once,
      in the order pattern, min, max, minLength, maxLength, enum. */
  lemma RuleErrorsExact(name: string, v: Value, rules: Rules, reMatch: (string, string) -> bool)
    ensures forall e :: e in RuleErrors(name, v, rules, reMatch) <==> RuleViolation(e, name, v, rules, reMatch)
    ensures InRuleOrder(RuleErrors(name, v, rules, reMatch))
  {
    RuleErrorsReportViolations(name, v, rules, reMatch);
    RuleErrorsInOrder(name, v, rules, reMatch);
  }

  lemma RuleErrorsReportViolations(name: string, v: Value, rules: Rules, reMatch: (string, string) -> bool)
    ensures forall e :: e in RuleErrors(name, v, rules, reMatch) <==> RuleViolation(e, name, v, rules, reMatch)
  {
    var p := PatternErrors(name, v, rules, reMatch);
    var q := RangeErrors(name, v, rules);
    var l := LengthErrors(name, v, rules);
    var x := EnumErrors(name, v, rules);
    assert forall e :: e in p + q + l + x <==> e in p || e in q || e in l || e in x;
  }

  lemma RuleErrorsInOrder(name: string, v: Value, rules: Rules, reMatch: (string, string) -> bool)
    ensures InRuleOrder(RuleErrors(name, v, rules, reMatch))
  {
    PatternErrorsRanked(name, v, rules, reMatch);
    RangeErrorsRanked(name, v, rules);
    LengthErrorsRanked(name, v, rules);
    EnumErrorsRanked(name, v, rules);
    InRuleOrderConcat(PatternErrors(name, v, rules, reMatch), RangeErrors(name, v, rules),
                      LengthErrors(name, v, rules), EnumErrors(name, v, rules));
  }

  lemma PatternErrorsRanked(name: string, v: Value, rules: Rules, reMatch: (string, string) -> bool)
    ensures InRuleOrder(PatternErrors(name, v, rules, reMatch))
    ensures forall e :: e in PatternErrors(name, v, rules, reMatch) ==> e.RuleRank() < 2
  {
  }

  lemma RangeErrorsRanked(name: string, v: Value, rules: Rules)
    ensures InRuleOrder(RangeErrors(name, v, rules))
    ensures forall e :: e in RangeErrors(name, v, rules) ==> 2 <= e.RuleRank() < 4
  {
  }

  lemma LengthErrorsRanked(name: string, v: Value, rules: Rules)
    ensures InRuleOrder(LengthErrors(name, v, rules))
    ensures forall e :: e in LengthErrors(name, v, rules) ==> 4 <= e.RuleRank() < 6
  {
  }

  lemma EnumErrorsRanked(name: string, v: Value, rules: Rules)
    ensures InRuleOrder(EnumErrors(name, v, rules))
    ensures forall e :: e in EnumErrors(name, v, rules) ==> 6 <= e.RuleRank()
  {
  }

  /** Rule errors accumulate: a short string outside the enum that fails its
      pattern gets all three errors, in rule order. */
  lemma StringRuleErrorsAccumulate(reMatch: (string, string) -> bool)
    requires !reMatch("^[a-z]+$", "AB")
    ensures RuleErrors("code", Str("AB"), Rules(Some("^[a-z]+$"), None, None, Some(3), None, Some([Str("xyz")])), reMatch)
            == [PatternMismatch("code"), TooShort("code", 3), NotInEnum("code", [Str("xyz")])]
  {
    var rules := Rules(Some("^[a-z]+$"), None, None, Some(3), None, Some([Str("xyz")]));
    assert PatternErrors("code", Str("AB"), rules, reMatch) == [PatternMismatch("code")];
    assert LengthErrors("code", Str("AB"), rules) == [TooShort("code", 3)];
    assert !PyIn(Str("AB"), [Str("xyz")]);
  }

  /** With `min` above `max`, a number can violate both bounds and gets both errors. */
  lemma RangeErrorsAccumulate(reMatch: (string, string) -> bool)
    ensures RuleErrors("n", Int(5), Rules(None, Some(10), Some(1), None, None, None), reMatch)
            == [BelowMin("n", 10), AboveMax("n", 1)]
  {
    var rules := Rules(None, Some(10), Some(1), None, None, None);
    assert RangeErrors("n", Int(5), rules) == [BelowMin("n", 10), AboveMax("n", 1)];
  }

  /** Reference definition: one declared input is satisfied by `data`. */
  predicate InputConforms(input: InputDef, data: map<string, Value>, reMatch: (string, string) -> bool) {
    match Lookup(data, input.name)
    case None => !input.required
    case Some(v) =>
      && (KnownType(DeclaredType(input)) ==> PyIsInstance(v, DeclaredType(input)))
      && (input.validation.Some? ==> RulesHold(v, input.validation.value, reMatch))
  }

  /** Reference definition: every declared input is satisfied. */
  predicate Conforms(inputs: seq<InputDef>, data: map<string, Value>, reMatch: (string, string) -> bool) {
    forall i :: 0 <= i < |inputs| ==> InputConforms(inputs[i], data, reMatch)
  }

  /** The type and rule checks of a value that is present: a type error is
      reported alone, otherwise every violated rule is. */
  function PresentErrors(input: InputDef, v: Value, reMatch: (string, string) -> bool): (r: seq<ParamError>)
    ensures r == [] <==>
              (KnownType(DeclaredType(input)) ==> PyIsInstance(v, DeclaredType(input)))
              && (input.validation.Some? ==> RulesHold(v, input.validation.value, reMatch))
    // a type mismatch is reported alone, and no rule is checked
    ensures KnownType(DeclaredType(input)) && !PyIsInstance(v, DeclaredType(input)) ==>
              r == [WrongType(input.name, DeclaredType(input))]
    // a well-typed value gets every rule it violates
    ensures (KnownType(DeclaredType(input)) ==> PyIsInstance(v, DeclaredType(input))) && input.validation.Some? ==>
              forall e :: e in r <==> RuleViolation(e, input.name, v, input.validation.value, reMatch)
    ensures forall e :: e in r && e.WrongType? ==> r == [e] && e.expected == DeclaredType(input)
    ensures forall e :: e in r ==> (e.WrongType? || e.RuleError()) && e.param == input.name
    // each error once, in rule order: pattern, min, max, minLength, maxLength, enum
    ensures InRuleOrder(r)
  {
    var t := DeclaredType(input);
    if KnownType(t) && !PyIsInstance(v, t) then [WrongType(input.name, t)]
    else if input.validation.None? then []
    else
      RuleErrorsReportViolations(input.name, v, input.validation.value, reMatch);
      RuleErrorsInOrder(input.name, v, input.validation.value, reMatch);
      RuleErrors(input.name, v, input.validation.value, reMatch)
  }

  /** The errors of one declared input (one iteration of the loop in `_validate_inputs`). */
  function InputErrorsOf(input: InputDef, data: map<string, Value>, reMatch: (string, string) -> bool): (r: seq<ParamError>)
    ensures r == [] <==> InputConforms(input, data, reMatch)
    // a missing value gets at most the one "is required" error, and no further checks
    ensures Lookup(data, input.name).None? ==> r == (if input.required then [Required(input.name)] else [])
    // a type mismatch of a present value is the only error reported for its input
    ensures Lookup(data, input.name).Some? && KnownType(DeclaredType(input))
            && !PyIsInstance(Lookup(data, input.name).value, DeclaredType(input)) ==>
              r == [WrongType(input.name, DeclaredType(input))]
    ensures forall e :: e in r && e.WrongType? ==> r == [e] && e.expected == DeclaredType(input)
    // a present value its declared type accepts gets exactly the errors of the rules it violates
    ensures Lookup(data, input.name).Some?
            && (KnownType(DeclaredType(input)) ==> PyIsInstance(Lookup(data, input.name).value, DeclaredType(input))) ==>
              r == PresentErrors(input, Lookup(data, input.name).value, reMatch)
    ensures Required(input.name) in r <==> input.required && Lookup(data, input.name).None?
    ensures forall e :: e in r ==> !e.ActionNotFound? && e.param == input.name
  {
    match Lookup(data, input.name)
    case None => if input.required then [Required(input.name)] else []
    case Some(v) => PresentErrors(input, v, reMatch)
  }

  /** The errors of all declared inputs, in declaration order. */
  function InputErrors(inputs: seq<InputDef>, data: map<string, Value>, reMatch: (string, string) -> bool): (r: seq<ParamError>)
    ensures r == [] <==> Conforms(inputs, data, reMatch)
  {
    if |inputs| == 0 then []
    else
      var init := inputs[..|inputs| - 1];
      var last := inputs[|inputs| - 1];
      assert forall i :: 0 <= i < |init| ==> init[i] == inputs[i];
      assert Conforms(inputs, data, reMatch) <==> Conforms(init, data, reMatch) && InputConforms(last, data, reMatch);
      InputErrors(init, data, reMatch) + InputErrorsOf(last, data, reMatch)
  }

  /** Every reported error names a declared input. */
  lemma {:induction false} ErrorsNameDeclaredInputs(inputs: seq<InputDef>, data: map<string, Value>, reMatch: (string, string) -> bool)
    ensures forall e :: e in InputErrors(inputs, data, reMatch) ==>
              !e.ActionNotFound? && exists i :: 0 <= i < |inputs| && inputs[i].name == e.param
  {
    if |inputs| > 0 {
      var init := inputs[..|inputs| - 1];
      ErrorsNameDeclaredInputs(init, data, reMatch);
      forall e | e in InputErrors(inputs, data, reMatch)
        ensures !e.ActionNotFound? && exists i :: 0 <= i < |inputs| && inputs[i].name == e.param
      {
        if e in InputErrors(init, data, reMatch) {
          var i :| 0 <= i < |init| && init[i].name == e.param;
          assert inputs[i] == init[i];
        } else {
          assert inputs[|inputs| - 1].name == e.param;
        }
      }
    }
  }

  /** Errors appear in input order: the errors of a concatenation of input lists
      are the errors of the first list followed by those of the second. */
  lemma {:induction false} InputErrorsAppend(a: seq<InputDef>, b: seq<InputDef>, data: map<string, Value>, reMatch: (string, string) -> bool)
    ensures InputErrors(a + b, data, reMatch) == InputErrors(a, data, reMatch) + InputErrors(b, data, reMatch)
    decreases |b|
  {
    if |b| == 0 {
      assert a + b == a;
    } else {
      var b', last := b[..|b| - 1], b[|b| - 1];
      SplitLast(a, b);
      InputErrorsAppend(a, b', data, reMatch);
      InputErrorsSnoc(a + b', last, data, reMatch);
      InputErrorsSnoc(b', last, data, reMatch);
      ConcatAssoc(InputErrors(a, data, reMatch), InputErrors(b', data, reMatch), InputErrorsOf(last, data, reMatch));
    }
  }

  /** One unfolding of `InputErrors` on a list that ends in `last`. */
  lemma InputErrorsSnoc(init: seq<InputDef>, last: InputDef, data: map<string, Value>, reMatch: (string, string) -> bool)
    ensures InputErrors(init + [last], data, reMatch) == InputErrors(init, data, reMatch) + InputErrorsOf(last, data, reMatch)
  {
    assert (init + [last])[..|init|] == init;
  }

  lemma InputErrorsSingle(input: InputDef, data: map<string, Value>, reMatch: (string, string) -> bool)
    ensures InputErrors([input], data, reMatch) == InputErrorsOf(input, data, reMatch)
  {
    assert [input][..0] == [];
  }

  lemma InputErrorsOfThree(a: InputDef, b: InputDef, c: InputDef, data: map<string, Value>, reMatch: (string, string) -> bool)
    ensures InputErrors([a, b, c], data, reMatch)
            == InputErrorsOf(a, data, reMatch) + InputErrorsOf(b, data, reMatch) + InputErrorsOf(c, data, reMatch)
  {
    InputErrorsSingle(a, data, reMatch);
    InputErrorsSnoc([a], b, data, reMatch);
    InputErrorsSnoc([a, b], c, data, reMatch);
    assert [a] + [b] == [a, b] && [a, b] + [c] == [a, b, c];
  }

  /** A declared input is missing while required. */
  predicate MissingRequired(input: InputDef, data: map<string, Value>) {
    input.required && Lookup(data, input.name).None?
  }

  function CountMissingRequired(inputs: seq<InputDef>, data: map<string, Value>): nat {
    if |inputs| == 0 then 0
    else CountMissingRequired(inputs[..|inputs| - 1], data)
         + (if MissingRequired(inputs[|inputs| - 1], data) then 1 else 0)
  }

  function CountRequiredErrors(errors: seq<ParamError>): nat {
    if |errors| == 0 then 0
    else CountRequiredErrors(errors[..|errors| - 1]) + (if errors[|errors| - 1].Required? then 1 else 0)
  }

  lemma {:induction false} CountRequiredErrorsAppend(a: seq<ParamError>, b: seq<ParamError>)
    ensures CountRequiredErrors(a + b) == CountRequiredErrors(a) + CountRequiredErrors(b)
    decreases |b|
  {
    if |b| == 0 {
      assert a + b == a;
    } else {
      assert (a + b)[..|a + b| - 1] == a + b[..|b| - 1];
      CountRequiredErrorsAppend(a, b[..|b| - 1]);
    }
  }

  /** Exactly one "is required" error is reported per missing required input. */
  lemma {:induction false} OneErrorPerMissingRequired(inputs: seq<InputDef>, data: map<string, Value>, reMatch: (string, string) -> bool)
    ensures CountRequiredErrors(InputErrors(inputs, data, reMatch)) == CountMissingRequired(inputs, data)
  {
    if |inputs| > 0 {
      var init, last := inputs[..|inputs| - 1], inputs[|inputs| - 1];
      OneErrorPerMissingRequired(init, data, reMatch);
      var own := InputErrorsOf(last, data, reMatch);
      assert InputErrors(inputs, data, reMatch) == InputErrors(init, data, reMatch) + own;
      CountRequiredErrorsAppend(InputErrors(init, data, reMatch), own);
      assert CountRequiredErrors(own) == (if MissingRequired(last, data) then 1 else 0) by {
        if !MissingRequired(last, data) {
          assert forall e :: e in own ==> !e.Required?;
          NoRequiredCountsZero(own);
        } else {
          assert own == [Required(last.name)];
          assert own[..0] == [];
        }
      }
    }
  }

  lemma {:induction false} NoRequiredCountsZero(errors: seq<ParamError>)
    requires forall e :: e in errors ==> !e.Required?
    ensures CountRequiredErrors(errors) == 0
  {
    if |errors| > 0 {
      assert errors[|errors| - 1] in errors;
      NoRequiredCountsZero(errors[..|errors| - 1]);
    }
  }

  /** One iteration of the loop in `_validate_inputs`: presence, then type, then rules. */
  method CheckInput(input: InputDef, data: map<string, Value>, reMatch: (string, string) -> bool)
    returns (own: seq<ParamError>)
    ensures own == InputErrorsOf(input, data, reMatch)
  {
    var t := DeclaredType(input);
    var value := Lookup(data, input.name);
    own := [];
    if value.None? {
      if input.required {
        own := [Required(input.name)];
      }
    } else if KnownType(t) && !PyIsInstance(value.value, t) {
      own := [WrongType(input.name, t)];
    } else if input.validation.Some? {
      own := RuleErrors(input.name, value.value, input.validation.value, reMatch);
    }
  }

  /** `_validate_inputs`: walks the declared inputs, appending to `errors`. */
  method ValidateInputs(action: ActionDef, data: map<string, Value>, reMatch: (string, string) -> bool)
    returns (result: ValidationResult)
    ensures result.errors == InputErrors(action.inputs.GetOr([]), data, reMatch)
    ensures result.valid <==> result.errors == []
    ensures result.valid <==> Conforms(action.inputs.GetOr([]), data, reMatch)
  {
    var inputs := action.inputs.GetOr([]);
    var errors: seq<ParamError> := [];
    var i := 0;
    while i < |inputs|
      invariant 0 <= i <= |inputs|
      invariant errors == InputErrors(inputs[..i], data, reMatch)
    {
      var own := CheckInput(inputs[i], data, reMatch);
      PrefixSnoc(inputs, i);
      InputErrorsSnoc(inputs[..i], inputs[i], data, reMatch);
      errors := errors + own;
      i := i + 1;
    }
    assert inputs[..i] == inputs;
    result := ValidationResult(|errors| == 0, errors);
  }

  // -----------------------------------------------------------------------
  // The add_to_cart action of the example manifest

  const CartPattern := "^PROD-[A-Z0-9]+$"

  const AddToCartInputs := [
    InputDef("product_id", Some("string"), true, None,
             Some(Rules(Some(CartPattern), None, None, None, None, None))),
    InputDef("quantity", Some("integer"), false, Some(Int(1)),
             Some(Rules(None, Some(1), Some(100), None, None, None))),
    InputDef("variant_id", Some("string"), false, None, None)]

  /** A well-formed product id alone is valid; the middleware does not fill in
      the quantity default, it is left to the handler. */
  lemma AddToCartAccepts(reMatch: (string, string) -> bool)
    requires reMatch(CartPattern, "PROD-001")
    ensures InputErrors(AddToCartInputs, map["product_id" := Str("PROD-001")], reMatch) == []
  {
    var data := map["product_id" := Str("PROD-001")];
    assert InputConforms(AddToCartInputs[0], data, reMatch);
    assert InputConforms(AddToCartInputs[1], data, reMatch);
    assert InputConforms(AddToCartInputs[2], data, reMatch);
  }

  const BadCartData := map["product_id" := Str("bad-id"), "quantity" := Int(500)]

  lemma AddToCartRejectsEach(reMatch: (string, string) -> bool)
    requires !reMatch(CartPattern, "bad-id")
    ensures InputErrorsOf(AddToCartInputs[0], BadCartData, reMatch) == [PatternMismatch("product_id")]
    ensures InputErrorsOf(AddToCartInputs[1], BadCartData, reMatch) == [AboveMax("quantity", 100)]
    ensures InputErrorsOf(AddToCartInputs[2], BadCartData, reMatch) == []
  {
    CartProductIdRejected(reMatch);
    CartQuantityRejected(reMatch);
    assert Lookup(BadCartData, "variant_id") == None;
  }

  lemma CartProductIdRejected(reMatch: (string, string) -> bool)
    requires !reMatch(CartPattern, "bad-id")
    ensures InputErrorsOf(AddToCartInputs[0], BadCartData, reMatch) == [PatternMismatch("product_id")]
  {
    var rules := Rules(Some(CartPattern), None, None, None, None, None);
    assert Lookup(BadCartData, "product_id") == Some(Str("bad-id"));
    assert PatternErrors("product_id", Str("bad-id"), rules, reMatch) == [PatternMismatch("product_id")];
  }

  lemma CartQuantityRejected(reMatch: (string, string) -> bool)
    ensures InputErrorsOf(AddToCartInputs[1], BadCartData, reMatch) == [AboveMax("quantity", 100)]
  {
    var rules := Rules(None, Some(1), Some(100), None, None, None);
    assert Lookup(BadCartData, "quantity") == Some(Int(500));
    assert RangeErrors("quantity", Int(500), rules) == [AboveMax("quantity", 100)];
  }

  /** A malformed product id and an out-of-range quantity give exactly two errors, in input order. */
  lemma AddToCartRejects(reMatch: (string, string) -> bool)
    requires !reMatch(CartPattern, "bad-id")
    ensures InputErrors(AddToCartInputs, BadCartData, reMatch)
            == [PatternMismatch("product_id"), AboveMax("quantity", 100)]
  {
    AddToCartRejectsEach(reMatch);
    InputErrorsOfThree(AddToCartInputs[0], AddToCartInputs[1], AddToCartInputs[2], BadCartData, reMatch);
  }
}
