/**
 * The browser parser's parameter validator (`validateParams`). It differs
 * from the server's in several ways: the actual type is `typeof` (so a
 * declared `integer` never matches), a type error does not stop the rule
 * checks, the pattern is tested against the value's string form whatever its
 * type, the range applies only to numbers (not to booleans), there are no
 * length rules, and enum membership uses strict equality.
 * The regular-expression engine (`RegExp.prototype.test`) is the parameter `regexTest`.
 */
module ClientValidation {
  import opened Wrappers
  import opened Json
  import opened Manifest
  import ServerValidation

  /** `params[name]` is `null` or `undefined`. */
  predicate Absent(params: Entries, name: string) {
    Get(params, name).None? || Get(params, name).value.Null?
  }

  /** `input.type === actualType || input.type === 'any'`; an input without a
      declared type (undefined) matches no value. */
  predicate TypeAccepts(declared: Option<string>, v: Value)
    requires !v.Null?
  {
    declared == Some("any") || declared == Some(JsTypeOf(v))
  }

  /** Reference definitions of the rules the client enforces. */
  predicate JsPatternHolds(v: Value, rules: Rules, regexTest: (string, string) -> bool) {
    rules.pattern.Some? && rules.pattern.value != "" ==> regexTest(rules.pattern.value, JsToString(v))
  }

  predicate JsRangeHolds(v: Value, rules: Rules) {
    v.Int? ==> (rules.min.Some? ==> v.i >= rules.min.value) && (rules.max.Some? ==> v.i <= rules.max.value)
  }

  predicate JsEnumHolds(v: Value, rules: Rules) {
    rules.enumValues.Some? ==> JsIncludes(rules.enumValues.value, v)
  }

  /** Reference definitions: `e` reports a rule of `rules` that the value of `name` violates. */
  predicate JsPatternViolation(e: ParamError, name: string, v: Value, rules: Rules, regexTest: (string, string) -> bool) {
    e == PatternMismatch(name) && rules.pattern.Some? && rules.pattern.value != ""
    && !regexTest(rules.pattern.value, JsToString(v))
  }

  predicate JsRangeViolation(e: ParamError, name: string, v: Value, rules: Rules) {
    || (e.BelowMin? && e == BelowMin(name, e.min) && rules.min == Some(e.min) && v.Int? && v.i < e.min)
    || (e.AboveMax? && e == AboveMax(name, e.max) && rules.max == Some(e.max) && v.Int? && v.i > e.max)
  }

  predicate JsEnumViolation(e: ParamError, name: string, v: Value, rules: Rules) {
    rules.enumValues.Some? && e == NotInEnum(name, rules.enumValues.value) && !JsIncludes(rules.enumValues.value, v)
  }

  predicate JsRuleViolation(e: ParamError, name: string, v: Value, rules: Rules, regexTest: (string, string) -> bool) {
    JsPatternViolation(e, name, v, rules, regexTest) || JsRangeViolation(e, name, v, rules) || JsEnumViolation(e, name, v, rules)
  }

  /** The pattern check: an empty pattern is skipped, and a non-string value is tested as `String(value)`. */
  function JsPatternErrors(name: string, v: Value, rules: Rules, regexTest: (string, string) -> bool): (r: seq<ParamError>)
    ensures r == [] <==> JsPatternHolds(v, rules, regexTest)
    ensures forall e :: e in r <==> JsPatternViolation(e, name, v, rules, regexTest)
  {
    if rules.pattern.Some? && rules.pattern.value != "" && !regexTest(rules.pattern.value, JsToString(v))
    then [PatternMismatch(name)] else []
  }

  /** The range check, on a `number` only: a boolean is never range-checked. */
  function JsRangeErrors(name: string, v: Value, rules: Rules): (r: seq<ParamError>)
    ensures r == [] <==> JsRangeHolds(v, rules)
    ensures forall e :: e in r <==> JsRangeViolation(e, name, v, rules)
  {
    if !v.Int? then []
    else
      (if rules.min.Some? && v.i < rules.min.value then [BelowMin(name, rules.min.value)] else [])
      + (if rules.max.Some? && v.i > rules.max.value then [AboveMax(name, rules.max.value)] else [])
  }

  /** The enum check, with strict equality; any enum array, even an empty one, is checked. */
  function JsEnumErrors(name: string, v: Value, rules: Rules): (r: seq<ParamError>)
    ensures r == [] <==> JsEnumHolds(v, rules)
    ensures forall e :: e in r <==> JsEnumViolation(e, name, v, rules)
  {
    if rules.enumValues.Some? && !JsIncludes(rules.enumValues.value, v) then [NotInEnum(name, rules.enumValues.value)] else []
  }

  /** Every violated rule, in the order pattern, min, max, enum; no length rule is enforced. */
  function JsRuleErrors(name: string, v: Value, rules: Rules, regexTest: (string, string) -> bool): (r: seq<ParamError>)
    ensures r == [] <==> JsPatternHolds(v, rules, regexTest) && JsRangeHolds(v, rules) && JsEnumHolds(v, rules)
    ensures forall e :: e in r ==> e.RuleError() && e.param == name && !e.TooShort? && !e.TooLong?
  {
    var p := JsPatternErrors(name, v, rules, regexTest);
    var q := JsRangeErrors(name, v, rules);
    var x := JsEnumErrors(name, v, rules);
    assert forall e :: e in p + q ==> e in p || e in q;
    p + q + x
  }

  /** Rule errors accumulate on the client too: exactly the violated rules are
      reported, each once, in the order pattern, min, max, enum. */
  lemma JsRuleErrorsExact(name: string, v: Value, rules: Rules, regexTest: (string, string) -> bool)
    ensures forall e :: e in JsRuleErrors(name, v, rules, regexTest) <==> JsRuleViolation(e, name, v, rules, regexTest)
    ensures InRuleOrder(JsRuleErrors(name, v, rules, regexTest))
  {
    var p := JsPatternErrors(name, v, rules, regexTest);
    var q := JsRangeErrors(name, v, rules);
    var x := JsEnumErrors(name, v, rules);
    assert forall e :: e in p + q + x <==> e in p || e in q || e in x;
    JsRuleErrorsInOrder(name, v, rules, regexTest);
  }

  lemma JsRuleErrorsInOrder(name: string, v: Value, rules: Rules, regexTest: (string, string) -> bool)
    ensures InRuleOrder(JsRuleErrors(name, v, rules, regexTest))
  {
    var p := JsPatternErrors(name, v, rules, regexTest);
    var q := JsRangeErrors(name, v, rules);
    var x := JsEnumErrors(name, v, rules);
    JsPatternErrorsRanked(name, v, rules, regexTest);
    JsRangeErrorsRanked(name, v, rules);
    JsEnumErrorsRanked(name, v, rules);
    InRuleOrderConcat(p, q, [], x);
    assert p + q + [] + x == p + q + x;
  }

  lemma JsPatternErrorsRanked(name: string, v: Value, rules: Rules, regexTest: (string, string) -> bool)
    ensures InRuleOrder(JsPatternErrors(name, v, rules, regexTest))
    ensures forall e :: e in JsPatternErrors(name, v, rules, regexTest) ==> e.RuleRank() < 2
  {
  }

  lemma JsRangeErrorsRanked(name: string, v: Value, rules: Rules)
    ensures InRuleOrder(JsRangeErrors(name, v, rules))
    ensures forall e :: e in JsRangeErrors(name, v, rules) ==> 2 <= e.RuleRank() < 4
  {
  }

  lemma JsEnumErrorsRanked(name: string, v: Value, rules: Rules)
    ensures InRuleOrder(JsEnumErrors(name, v, rules))
    ensures forall e :: e in JsEnumErrors(name, v, rules) ==> 6 <= e.RuleRank()
  {
  }

  /** Reference definition: one declared input is satisfied by `params`. */
  predicate ClientInputConforms(input: InputDef, params: Entries, regexTest: (string, string) -> bool) {
    if Absent(params, input.name) then !input.required
    else
      var v := Get(params, input.name).value;
      && TypeAccepts(input.paramType, v)
      && (input.validation.Some? ==>
            && JsPatternHolds(v, input.validation.value, regexTest)
            && JsRangeHolds(v, input.validation.value)
            && JsEnumHolds(v, input.validation.value))
  }

  /** Reference definition: every declared input is satisfied. */
  predicate ClientConforms(inputs: seq<InputDef>, params: Entries, regexTest: (string, string) -> bool) {
    forall i :: 0 <= i < |inputs| ==> ClientInputConforms(inputs[i], params, regexTest)
  }

  /** The type check of a present value. */
  function TypeErrors(input: InputDef, v: Value): (r: seq<ParamError>)
    requires !v.Null?
    ensures r == [] <==> TypeAccepts(input.paramType, v)
    ensures forall e :: e in r <==> !TypeAccepts(input.paramType, v) && e == TypeMismatch(input.name, input.paramType, JsTypeOf(v))
    ensures |r| <= 1
  {
    if TypeAccepts(input.paramType, v) then [] else [TypeMismatch(input.name, input.paramType, JsTypeOf(v))]
  }

  /** What the client reports about a present value: a type error when its type
      is not accepted, and each violated rule when rules are set. */
  predicate PresentViolation(e: ParamError, input: InputDef, v: Value, regexTest: (string, string) -> bool)
    requires !v.Null?
  {
    || (!TypeAccepts(input.paramType, v) && e == TypeMismatch(input.name, input.paramType, JsTypeOf(v)))
    || (input.validation.Some? && JsRuleViolation(e, input.name, v, input.validation.value, regexTest))
  }

  /** The rule errors of a present value: none when the input sets no rules. */
  function SetRuleErrors(input: InputDef, v: Value, regexTest: (string, string) -> bool): (r: seq<ParamError>)
    ensures r == [] <==> (input.validation.Some? ==> JsPatternHolds(v, input.validation.value, regexTest) &&
                                                     JsRangeHolds(v, input.validation.value) &&
                                                     JsEnumHolds(v, input.validation.value))
    ensures forall e :: e in r <==> input.validation.Some? && JsRuleViolation(e, input.name, v, input.validation.value, regexTest)
    ensures forall e :: e in r ==> e.RuleError() && e.param == input.name
    ensures forall e :: e in r ==> !e.Required? && !e.WrongType? && !e.ActionNotFound? && !e.TypeMismatch?
    ensures InRuleOrder(r)
  {
    if input.validation.Some? then
      JsRuleErrorsExact(input.name, v, input.validation.value, regexTest);
      JsRuleErrors(input.name, v, input.validation.value, regexTest)
    else []
  }

  /** The errors of a value that is present (neither null nor undefined):
      the type error first, then every rule error. */
  function PresentValueErrors(input: InputDef, v: Value, regexTest: (string, string) -> bool): (r: seq<ParamError>)
    requires !v.Null?
    ensures r == [] <==> TypeAccepts(input.paramType, v) &&
                         (input.validation.Some? ==> JsPatternHolds(v, input.validation.value, regexTest) &&
                                                     JsRangeHolds(v, input.validation.value) &&
                                                     JsEnumHolds(v, input.validation.value))
    ensures !TypeAccepts(input.paramType, v) ==> |r| > 0 && r[0] == TypeMismatch(input.name, input.paramType, JsTypeOf(v))
    ensures TypeAccepts(input.paramType, v) ==> forall e :: e in r ==> !e.TypeMismatch?
    // a type error does not suppress the rule errors
    ensures input.validation.Some? ==> forall e :: e in JsRuleErrors(input.name, v, input.validation.value, regexTest) ==> e in r
    ensures forall e :: e in r ==> !e.Required? && !e.WrongType? && !e.ActionNotFound? && e.param == input.name
  {
    var typeErrors := TypeErrors(input, v);
    var ruleErrors := SetRuleErrors(input, v, regexTest);
    assert forall e :: e in typeErrors ==> e.TypeMismatch? && e.param == input.name;
    assert forall e :: e in typeErrors + ruleErrors <==> e in typeErrors || e in ruleErrors;
    typeErrors + ruleErrors
  }

  /** A present value gets exactly its violations and nothing else: the type
      error, if any, then the violated rules, each once and in rule order. */
  lemma PresentValueErrorsExact(input: InputDef, v: Value, regexTest: (string, string) -> bool)
    requires !v.Null?
    ensures forall e :: e in PresentValueErrors(input, v, regexTest) <==> PresentViolation(e, input, v, regexTest)
    ensures InRuleOrder(PresentValueErrors(input, v, regexTest))
    ensures |PresentValueErrors(input, v, regexTest)| == |TypeErrors(input, v)| + |SetRuleErrors(input, v, regexTest)|
  {
    var typeErrors := TypeErrors(input, v);
    var ruleErrors := SetRuleErrors(input, v, regexTest);
    InRuleOrderAppend(typeErrors, ruleErrors, 1);
    assert PresentValueErrors(input, v, regexTest) == typeErrors + ruleErrors;
  }

  /** The errors of one declared input (one `forEach` callback of `validateParams`). */
  function ClientInputErrorsOf(input: InputDef, params: Entries, regexTest: (string, string) -> bool): (r: seq<ParamError>)
    ensures r == [] <==> ClientInputConforms(input, params, regexTest)
    // a null or undefined value gets only the required error, if any
    ensures Absent(params, input.name) ==> r == (if input.required then [Required(input.name)] else [])
    ensures Required(input.name) in r <==> input.required && Absent(params, input.name)
    // a present value of the wrong type gets the type error, listed first
    ensures !Absent(params, input.name) && !TypeAccepts(input.paramType, Get(params, input.name).value) ==>
              |r| > 0 && r[0] == TypeMismatch(input.name, input.paramType, JsTypeOf(Get(params, input.name).value))
    ensures !Absent(params, input.name) && TypeAccepts(input.paramType, Get(params, input.name).value) ==>
              forall e :: e in r ==> !e.TypeMismatch?
    // a type error does not suppress the rule errors
    ensures !Absent(params, input.name) && input.validation.Some? ==>
              forall e :: e in JsRuleErrors(input.name, Get(params, input.name).value, input.validation.value, regexTest)
                          ==> e in r
    ensures forall e :: e in r ==> !e.WrongType? && !e.ActionNotFound? && e.param == input.name
  {
    if Absent(params, input.name) then (if input.required then [Required(input.name)] else [])
    else PresentValueErrors(input, Get(params, input.name).value, regexTest)
  }

  /** One input's errors are exactly what the client checks for: "required" for
      a missing required value, and otherwise the value's violations, each once
      and in rule order. */
  lemma ClientInputErrorsExact(input: InputDef, params: Entries, regexTest: (string, string) -> bool)
    ensures !Absent(params, input.name) ==>
              forall e :: e in ClientInputErrorsOf(input, params, regexTest)
                          <==> PresentViolation(e, input, Get(params, input.name).value, regexTest)
    ensures InRuleOrder(ClientInputErrorsOf(input, params, regexTest))
  {
    if !Absent(params, input.name) {
      PresentValueErrorsExact(input, Get(params, input.name).value, regexTest);
    }
  }

  /** The errors of all declared inputs, in declaration order. */
  function ClientParamErrors(inputs: seq<InputDef>, params: Entries, regexTest: (string, string) -> bool): (r: seq<ParamError>)
    ensures r == [] <==> ClientConforms(inputs, params, regexTest)
  {
    if |inputs| == 0 then []
    else
      var init := inputs[..|inputs| - 1];
      var last := inputs[|inputs| - 1];
      assert forall i :: 0 <= i < |init| ==> init[i] == inputs[i];
      assert ClientConforms(inputs, params, regexTest) <==>
             ClientConforms(init, params, regexTest) && ClientInputConforms(last, params, regexTest);
      ClientParamErrors(init, params, regexTest) + ClientInputErrorsOf(last, params, regexTest)
  }

  /** One unfolding of `ClientParamErrors` on a list that ends in `last`. */
  lemma ClientParamErrorsSnoc(init: seq<InputDef>, last: InputDef, params: Entries, regexTest: (string, string) -> bool)
    ensures ClientParamErrors(init + [last], params, regexTest)
            == ClientParamErrors(init, params, regexTest) + ClientInputErrorsOf(last, params, regexTest)
  {
    assert (init + [last])[..|init|] == init;
  }

  /** `typeof` never yields `integer`, so an input declared `integer` rejects every
      present value, whole numbers included. */
  lemma IntegerNeverMatches(input: InputDef, params: Entries, regexTest: (string, string) -> bool)
    requires input.paramType == Some("integer") && !Absent(params, input.name)
    ensures TypeMismatch(input.name, Some("integer"), JsTypeOf(Get(params, input.name).value))
            in ClientInputErrorsOf(input, params, regexTest)
    ensures ClientInputErrorsOf(input, params, regexTest) != []
  {
    var v := Get(params, input.name).value;
    assert TypeErrors(input, v) == [TypeMismatch(input.name, Some("integer"), JsTypeOf(v))];
  }

  /** A whole number that is out of range for an `integer` input gets both a type
      error and the range error. */
  lemma TypeAndRangeErrorsTogether(name: string, n: int, max: int, regexTest: (string, string) -> bool)
    requires n > max
    ensures ClientInputErrorsOf(InputDef(name, Some("integer"), false, None, Some(Rules(None, None, Some(max), None, None, None))),
                                [(name, Int(n))], regexTest)
            == [TypeMismatch(name, Some("integer"), "number"), AboveMax(name, max)]
  {
    var rules := Rules(None, None, Some(max), None, None, None);
    assert Get([(name, Int(n))], name) == Some(Int(n));
    assert JsRangeErrors(name, Int(n), rules) == [AboveMax(name, max)];
    assert JsRuleErrors(name, Int(n), rules, regexTest) == [AboveMax(name, max)];
  }

  /** A boolean sent for an `integer` input passes the server's check (a Python
      bool is an int) and fails the client's (`typeof true` is `boolean`). */
  lemma BooleanIntegerDisagreement(name: string, b: bool, regexTest: (string, string) -> bool,
                                   reMatch: (string, string) -> bool)
    ensures ServerValidation.InputErrorsOf(InputDef(name, Some("integer"), true, None, None),
                                           map[name := Bool(b)], reMatch) == []
    ensures ClientInputErrorsOf(InputDef(name, Some("integer"), true, None, None), [(name, Bool(b))], regexTest)
            == [TypeMismatch(name, Some("integer"), "boolean")]
  {
    assert Get([(name, Bool(b))], name) == Some(Bool(b));
  }

  /** Enum membership: Python's `in` finds `True` in `[1]`, strict `includes` does not. */
  lemma EnumEqualityDisagreement(name: string, regexTest: (string, string) -> bool, reMatch: (string, string) -> bool)
    ensures ServerValidation.InputErrorsOf(InputDef(name, Some("any"), false, None, Some(Rules(None, None, None, None, None, Some([Int(1)])))),
                                           map[name := Bool(true)], reMatch) == []
    ensures ClientInputErrorsOf(InputDef(name, Some("any"), false, None, Some(Rules(None, None, None, None, None, Some([Int(1)])))),
                                [(name, Bool(true))], regexTest)
            == [NotInEnum(name, [Int(1)])]
  {
    var rules := Rules(None, None, None, None, None, Some([Int(1)]));
    assert Get([(name, Bool(true))], name) == Some(Bool(true));
    assert PyIn(Bool(true), [Int(1)]);
    assert !JsIncludes([Int(1)], Bool(true));
    assert JsRuleErrors(name, Bool(true), rules, regexTest) == [NotInEnum(name, [Int(1)])];
    assert ServerValidation.RuleErrors(name, Bool(true), rules, reMatch) == [];
  }
}
