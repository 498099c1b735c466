/**
 * The action manifest (`.well-known/ai-actions.json`) as both the Flask
 * middleware and the browser parser read it. A key that is absent from the
 * JSON document is `None` here.
 */
module Manifest {
  import opened Wrappers
  import opened Json

  /** The `validation` object of an input. */
  datatype Rules = Rules(
    pattern: Option<string>,
    min: Option<int>,
    max: Option<int>,
    minLength: Option<int>,
    maxLength: Option<int>,
    enumValues: Option<seq<Value>>)

  /** One declared parameter of an action. */
  datatype InputDef = InputDef(
    name: string,
    paramType: Option<string>,
    required: bool,
    default: Option<Value>,
    validation: Option<Rules>)

  /** One declared action. `authenticationRequired` is false when the key is absent. */
  datatype ActionDef = ActionDef(
    id: string,
    actionType: Option<string>,
    name: Option<string>,
    description: Option<string>,
    httpMethod: Option<string>,
    endpoint: Option<string>,
    authenticationRequired: bool,
    inputs: Option<seq<InputDef>>)

  datatype RateLimits = RateLimits(requestsPerMinute: Option<int>, burstLimit: Option<int>)

  datatype Manifest = Manifest(
    version: Option<string>,
    name: Option<string>,
    description: Option<string>,
    actions: Option<seq<ActionDef>>,
    rateLimits: Option<RateLimits>,
    authentication: Option<Value>)

  /** `{"version": "1.0", "actions": []}`, the manifest used when the file is missing or unreadable. */
  const EmptyManifest := Manifest(Some("1.0"), None, None, Some([]), None, None)

  /** One validation failure. The server and the client phrase type errors
      differently, so each has its own constructor. */
  datatype ParamError =
    | Required(param: string)
    | WrongType(param: string, expected: string)
    | TypeMismatch(param: string, declared: Option<string>, actual: string)
    | PatternMismatch(param: string)
    | BelowMin(param: string, min: int)
    | AboveMax(param: string, max: int)
    | TooShort(param: string, minLength: int)
    | TooLong(param: string, maxLength: int)
    | NotInEnum(param: string, allowed: seq<Value>)
    | ActionNotFound(actionId: string)
  {
    /** An error raised by a `validation` rule rather than by presence or type. */
    predicate RuleError() {
      PatternMismatch? || BelowMin? || AboveMax? || TooShort? || TooLong? || NotInEnum?
    }

    /** The position of a rule error in the order both validators check the rules
        (pattern, min, max, minLength, maxLength, enum); 0 for the other errors. */
    function RuleRank(): nat {
      match this
      case PatternMismatch(_) => 1
      case BelowMin(_, _) => 2
      case AboveMax(_, _) => 3
      case TooShort(_, _) => 4
      case TooLong(_, _) => 5
      case NotInEnum(_, _) => 6
      case _ => 0
    }
  }

  /** The errors are listed in strictly increasing rule order (so each rule at most once). */
  predicate InRuleOrder(errors: seq<ParamError>) {
    forall i, j :: 0 <= i < j < |errors| ==> errors[i].RuleRank() < errors[j].RuleRank()
  }

  /** Two lists in rule order, the first holding only earlier rules, concatenate in rule order. */
  lemma InRuleOrderAppend(a: seq<ParamError>, b: seq<ParamError>, bound: nat)
    requires InRuleOrder(a) && InRuleOrder(b)
    requires forall x :: x in a ==> x.RuleRank() < bound
    requires forall y :: y in b ==> y.RuleRank() >= bound
    ensures InRuleOrder(a + b)
  {
    forall i, j | 0 <= i < j < |a + b|
      ensures (a + b)[i].RuleRank() < (a + b)[j].RuleRank()
    {
      if j < |a| {
        assert (a + b)[i] == a[i] && (a + b)[j] == a[j];
      } else if i < |a| {
        assert (a + b)[i] == a[i] && a[i] in a;
        assert (a + b)[j] == b[j - |a|] && b[j - |a|] in b;
      } else {
        assert (a + b)[i] == b[i - |a|] && (a + b)[j] == b[j - |a|];
      }
    }
  }

  /** The errors of the pattern rule, the range rules, the length rules and the
      enum rule, each in rule order, concatenate in rule order. */
  lemma InRuleOrderConcat(p: seq<ParamError>, q: seq<ParamError>, l: seq<ParamError>, x: seq<ParamError>)
    requires InRuleOrder(p) && InRuleOrder(q) && InRuleOrder(l) && InRuleOrder(x)
    requires forall e :: e in p ==> e.RuleRank() < 2
    requires forall e :: e in q ==> 2 <= e.RuleRank() < 4
    requires forall e :: e in l ==> 4 <= e.RuleRank() < 6
    requires forall e :: e in x ==> 6 <= e.RuleRank()
    ensures InRuleOrder(p + q + l + x)
  {
    InRuleOrderAppend(p, q, 2);
    assert forall e :: e in p + q ==> e.RuleRank() < 4;
    InRuleOrderAppend(p + q, l, 4);
    assert forall e :: e in p + q + l ==> e.RuleRank() < 6;
    InRuleOrderAppend(p + q + l, x, 6);
  }

  /** `{valid, errors}`, as both validators return it. */
  datatype ValidationResult = ValidationResult(valid: bool, errors: seq<ParamError>)
}
