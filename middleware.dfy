/**
 * The Flask middleware `AWASMiddleware`: it loads the action manifest once,
 * rate-limits requests flagged as coming from an AI agent (a `before_request`
 * hook), and wraps endpoint handlers with `validate_action`, which resolves the
 * action, checks authentication, validates the inputs, writes an audit entry
 * and only then runs the handler.
 *
 * The clock, the authentication check, the regular-expression engine and the
 * handler's own response are parameters.
 */
module Middleware {
  import opened Wrappers
  import opened Json
  import opened Manifest
  import opened RateLimit
  import opened ServerValidation

  /** The parts of a Flask request the middleware reads. `json` is the body as
      `get_json()` decodes it (None when there is none), `userId` is `g.user_id`. */
  datatype Request = Request(
    httpMethod: string,
    headers: map<string, string>,
    remoteAddr: string,
    args: map<string, string>,
    json: Option<map<string, Value>>,
    userId: Option<string>)

  /** `_is_ai_agent`: the `X-AI-Agent` header is exactly `true`. */
  predicate IsAiAgent(req: Request) {
    "X-AI-Agent" in req.headers && req.headers["X-AI-Agent"] == "true"
  }

  /** `_get_client_id`: the agent's declared name, else the remote address. */
  function ClientId(req: Request): (id: string)
    ensures "X-AI-Agent-Name" in req.headers ==> id == req.headers["X-AI-Agent-Name"]
    ensures "X-AI-Agent-Name" !in req.headers ==> id == req.remoteAddr
  {
    if "X-AI-Agent-Name" in req.headers then req.headers["X-AI-Agent-Name"] else req.remoteAddr
  }

  /** What reading the manifest file gave. */
  datatype ManifestSource = FileNotFound | InvalidJson | Parsed(manifest: Manifest)

  /** `_load_manifest`: a missing or unparsable file degrades to an empty manifest. */
  function LoadManifest(source: ManifestSource): (m: Manifest)
    ensures source.Parsed? ==> m == source.manifest
    ensures !source.Parsed? ==> m.actions == Some([]) && m.version == Some("1.0") && m.rateLimits.None?
  {
    if source.Parsed? then source.manifest else EmptyManifest
  }

  /** `manifest.get('actions', [])` */
  function Actions(m: Manifest): seq<ActionDef> {
    m.actions.GetOr([])
  }

  /** `rate_limits.get('requests_per_minute', 60)` */
  function RequestsPerMinute(m: Manifest): int {
    if m.rateLimits.Some? then m.rateLimits.value.requestsPerMinute.GetOr(DefaultRequestsPerMinute)
    else DefaultRequestsPerMinute
  }

  /** `rate_limits.get('burst_limit', 10)` */
  function BurstLimit(m: Manifest): int {
    if m.rateLimits.Some? then m.rateLimits.value.burstLimit.GetOr(DefaultBurstLimit)
    else DefaultBurstLimit
  }

  /** The first action whose id is `id`, or None when there is none. */
  function FindAction(actions: seq<ActionDef>, id: string): (r: Option<ActionDef>)
    ensures r.None? <==> forall i :: 0 <= i < |actions| ==> actions[i].id != id
    ensures r.Some? ==> exists i :: 0 <= i < |actions| && actions[i] == r.value && actions[i].id == id
                           && forall j :: 0 <= j < i ==> actions[j].id != id
  {
    if |actions| == 0 then None
    else if actions[0].id == id then Some(actions[0])
    else
      var r := FindAction(actions[1..], id);
      assert forall i :: 1 <= i < |actions| ==> actions[i] == actions[1..][i - 1];
      r
  }

  /** With the fallback manifest every lookup fails. */
  lemma FallbackFindsNothing(source: ManifestSource, id: string)
    requires !source.Parsed?
    ensures FindAction(Actions(LoadManifest(source)), id).None?
  {
  }

  /** The methods whose parameters come from the JSON body; every other method uses the query string. */
  predicate HasBody(httpMethod: string) {
    httpMethod == "POST" || httpMethod == "PUT" || httpMethod == "PATCH"
  }

  /** `request.get_json() or {}` for POST, PUT and PATCH, else `request.args.to_dict()`. */
  function RequestData(req: Request): (data: map<string, Value>)
    ensures HasBody(req.httpMethod) && req.json.None? ==> data == map[]
    ensures HasBody(req.httpMethod) && req.json.Some? ==> data == req.json.value
    ensures !HasBody(req.httpMethod) ==>
              data.Keys == req.args.Keys && forall k :: k in req.args ==> data[k] == Str(req.args[k])
  {
    if HasBody(req.httpMethod) then req.json.GetOr(map[])
    else map k | k in req.args :: Str(req.args[k])
  }

  /** Query-string values are always strings, so an input declared with a non-string
      type that is sent in the query string of a GET always fails its type check. */
  lemma QueryValuesFailTypedInputs(req: Request, input: InputDef, reMatch: (string, string) -> bool)
    requires !HasBody(req.httpMethod) && input.name in req.args
    requires KnownType(DeclaredType(input)) && DeclaredType(input) != "string"
    ensures InputErrorsOf(input, RequestData(req), reMatch) == [WrongType(input.name, DeclaredType(input))]
  {
    assert Lookup(RequestData(req), input.name) == Some(Str(req.args[input.name]));
  }

  /** What the wrapped handler `f` returns. */
  datatype HandlerResponse = HandlerResponse(status: int, body: Value)

  /** The response a request to a gated endpoint receives. */
  datatype Outcome =
    | RateLimited(error: string, retryAfter: int)
    | UnknownAction(actionId: string)
    | AuthenticationRequired
    | ValidationFailed(details: seq<ParamError>)
    | Handled(response: HandlerResponse)

  function Status(o: Outcome): int {
    match o
    case RateLimited(_, _) => 429
    case UnknownAction(_) => 400
    case AuthenticationRequired => 401
    case ValidationFailed(_) => 400
    case Handled(r) => r.status
  }

  /** The entry `_log_action` writes to the audit log. */
  datatype AuditEntry = AuditEntry(
    timestamp: int,
    actionId: string,
    aiAgent: string,
    ipAddress: string,
    params: map<string, Value>,
    userId: string)

  function AuditOf(now: int, actionId: string, req: Request): AuditEntry {
    AuditEntry(now, actionId,
               if "X-AI-Agent-Name" in req.headers then req.headers["X-AI-Agent-Name"] else "Unknown",
               req.remoteAddr, RequestData(req), req.userId.GetOr("anonymous"))
  }

  /**
   * The decision of `validate_action`'s wrapper: an unknown action, then a
   * failed authentication, then failed validation each stop the request; the
   * handler runs exactly when all three gates pass.
   */
  function Gate(m: Manifest, actionId: string, req: Request, authenticated: bool,
                reMatch: (string, string) -> bool, response: HandlerResponse): (o: Outcome)
    ensures o.Handled? <==>
              && FindAction(Actions(m), actionId).Some?
              && (FindAction(Actions(m), actionId).value.authenticationRequired ==> authenticated)
              && Conforms(FindAction(Actions(m), actionId).value.inputs.GetOr([]), RequestData(req), reMatch)
    ensures o.Handled? ==> o.response == response
    ensures o.UnknownAction? <==> FindAction(Actions(m), actionId).None?
    ensures o.UnknownAction? ==> o.actionId == actionId
    ensures o.AuthenticationRequired? <==>
              FindAction(Actions(m), actionId).Some?
              && FindAction(Actions(m), actionId).value.authenticationRequired && !authenticated
    ensures o.ValidationFailed? ==>
              o.details == InputErrors(FindAction(Actions(m), actionId).value.inputs.GetOr([]), RequestData(req), reMatch)
              && o.details != []
    ensures !o.RateLimited?
  {
    match FindAction(Actions(m), actionId)
    case None => UnknownAction(actionId)
    case Some(action) =>
      if action.authenticationRequired && !authenticated then AuthenticationRequired
      else
        var errors := InputErrors(action.inputs.GetOr([]), RequestData(req), reMatch);
        if errors != [] then ValidationFailed(errors) else Handled(response)
  }

  /** Under the fallback manifest every gated endpoint answers "unknown action" (400). */
  lemma FallbackRejectsEveryAction(source: ManifestSource, actionId: string, req: Request, authenticated: bool,
                                   reMatch: (string, string) -> bool, response: HandlerResponse)
    requires !source.Parsed?
    ensures Gate(LoadManifest(source), actionId, req, authenticated, reMatch, response) == UnknownAction(actionId)
    ensures Status(Gate(LoadManifest(source), actionId, req, authenticated, reMatch, response)) == 400
  {
  }

  class AwasMiddleware {
    const manifest: Manifest
    const enableRateLimiting: bool
    const enableLogging: bool
    /** client id -> timestamps of its admitted requests (`rate_limit_store[c]['requests']`) */
    var rateLimitStore: map<string, seq<int>>
    /** what `_log_action` has logged, oldest first */
    var auditLog: seq<AuditEntry>

    /** No client's list is longer than the per-minute cap (or than 0 when the cap is not positive). */
    ghost predicate Valid()
      reads this
    {
      forall c :: c in rateLimitStore ==> |rateLimitStore[c]| <= Max(0, RequestsPerMinute(manifest))
    }

    constructor (source: ManifestSource, enableRateLimiting: bool, enableLogging: bool)
      ensures manifest == LoadManifest(source)
      ensures this.enableRateLimiting == enableRateLimiting && this.enableLogging == enableLogging
      ensures rateLimitStore == map[] && auditLog == []
      ensures Valid()
    {
      manifest := LoadManifest(source);
      this.enableRateLimiting := enableRateLimiting;
      this.enableLogging := enableLogging;
      rateLimitStore := map[];
      auditLog := [];
    }

    /** A client's stored timestamps; a client never seen has none. */
    function Requests(client: string): seq<int>
      reads this
    {
      if client in rateLimitStore then rateLimitStore[client] else []
    }

    /**
     * `_check_rate_limit`. Ordinary traffic passes untouched. For an agent, the
     * client's list is pruned to the minute window and stored; the request is
     * then denied by the per-minute cap or the burst cap, or admitted with
     * `now` appended. No other client's entry changes.
     */
    method CheckRateLimit(req: Request, now: int) returns (denial: Option<Outcome>)
      requires Valid()
      modifies this`rateLimitStore
      ensures Valid()
      ensures !IsAiAgent(req) ==> denial.None? && rateLimitStore == old(rateLimitStore)
      ensures IsAiAgent(req) ==>
                var step := RateStep(old(Requests(ClientId(req))), now, RequestsPerMinute(manifest), BurstLimit(manifest));
                && rateLimitStore == old(rateLimitStore)[ClientId(req) := step.requests]
                && (denial.None? <==> step.decision.Admit?)
                && (step.decision.Deny? ==> denial == Some(RateLimited(step.decision.error, step.decision.retryAfter)))
    {
      if !IsAiAgent(req) {
        return None;
      }
      var clientId := ClientId(req);
      if clientId !in rateLimitStore {
        rateLimitStore := rateLimitStore[clientId := []];
      }
      var pruned := Window(rateLimitStore[clientId], now, MinuteWindow);
      rateLimitStore := rateLimitStore[clientId := pruned];
      var perMinute := RequestsPerMinute(manifest);
      var burst := BurstLimit(manifest);
      if |pruned| >= perMinute {
        return Some(RateLimited("Rate limit exceeded", MinuteWindow));
      }
      var recent := Window(pruned, now, BurstWindow);
      if |recent| >= burst {
        return Some(RateLimited("Burst limit exceeded", BurstWindow));
      }
      rateLimitStore := rateLimitStore[clientId := pruned + [now]];
      denial := None;
    }

    /** `_get_action`: a linear search of the manifest's actions. */
    method GetAction(actionId: string) returns (action: Option<ActionDef>)
      ensures action == FindAction(Actions(manifest), actionId)
    {
      var actions := Actions(manifest);
      var i := 0;
      while i < |actions|
        invariant 0 <= i <= |actions|
        invariant FindAction(actions, actionId) == FindAction(actions[i..], actionId)
      {
        if actions[i].id == actionId {
          return Some(actions[i]);
        }
        assert actions[i..][1..] == actions[i + 1..];
        i := i + 1;
      }
      return None;
    }

    /** The wrapper `validate_action(actionId)` puts around a handler, run on one request.
        The audit entry is written only when the handler is about to run. */
    method ValidateAction(actionId: string, req: Request, now: int, authenticated: bool,
                          reMatch: (string, string) -> bool, response: HandlerResponse)
      returns (o: Outcome)
      modifies this`auditLog
      ensures o == Gate(manifest, actionId, req, authenticated, reMatch, response)
      ensures auditLog == old(auditLog) + (if o.Handled? && enableLogging then [AuditOf(now, actionId, req)] else [])
    {
      var action := GetAction(actionId);
      if action.None? {
        return UnknownAction(actionId);
      }
      if action.value.authenticationRequired && !authenticated {
        return AuthenticationRequired;
      }
      var data := RequestData(req);
      var result := ValidateInputs(action.value, data, reMatch);
      if !result.valid {
        return ValidationFailed(result.errors);
      }
      if enableLogging {
        auditLog := auditLog + [AuditOf(now, actionId, req)];
      }
      o := Handled(response);
    }

    /**
     * One request to an endpoint wrapped by `validate_action(actionId)`: the
     * rate-limit hook runs first (when enabled) for every request, before the
     * action is even looked up, and then the wrapper.
     */
    method HandleRequest(actionId: string, req: Request, now: int, authenticated: bool,
                         reMatch: (string, string) -> bool, response: HandlerResponse)
      returns (o: Outcome)
      requires Valid()
      modifies this`rateLimitStore, this`auditLog
      ensures Valid()
      ensures !(enableRateLimiting && IsAiAgent(req)) ==>
                rateLimitStore == old(rateLimitStore)
                && o == Gate(manifest, actionId, req, authenticated, reMatch, response)
      ensures enableRateLimiting && IsAiAgent(req) ==>
                var step := RateStep(old(Requests(ClientId(req))), now, RequestsPerMinute(manifest), BurstLimit(manifest));
                && rateLimitStore == old(rateLimitStore)[ClientId(req) := step.requests]
                && o == (if step.decision.Deny? then RateLimited(step.decision.error, step.decision.retryAfter)
                         else Gate(manifest, actionId, req, authenticated, reMatch, response))
      ensures auditLog == old(auditLog) + (if o.Handled? && enableLogging then [AuditOf(now, actionId, req)] else [])
    {
      if enableRateLimiting {
        var denial := CheckRateLimit(req, now);
        if denial.Some? {
          return denial.value;
        }
      }
      o := ValidateAction(actionId, req, now, authenticated, reMatch, response);
    }
  }

  /**
   * The limiter trusts the self-declared agent name: an agent that has used up
   * its minute under one name is denied under that name, yet the same agent
   * sending a name not yet in the store gets an empty history, whatever its
   * address, and is admitted.
   */
  lemma RenamedAgentStartsFresh(m: AwasMiddleware, req: Request, renamed: Request, now: int)
    requires IsAiAgent(req) && "X-AI-Agent-Name" in req.headers && ClientId(req) in m.rateLimitStore
    requires forall i :: 0 <= i < |m.rateLimitStore[ClientId(req)]| ==> now - m.rateLimitStore[ClientId(req)][i] < MinuteWindow
    requires |m.rateLimitStore[ClientId(req)]| >= RequestsPerMinute(m.manifest)
    requires IsAiAgent(renamed) && "X-AI-Agent-Name" in renamed.headers
    requires renamed.headers["X-AI-Agent-Name"] !in m.rateLimitStore
    requires RequestsPerMinute(m.manifest) >= 1 && BurstLimit(m.manifest) >= 1
    ensures RateStep(m.Requests(ClientId(req)), now, RequestsPerMinute(m.manifest), BurstLimit(m.manifest)).decision
            == Deny("Rate limit exceeded", MinuteWindow)
    ensures RateStep(m.Requests(ClientId(renamed)), now, RequestsPerMinute(m.manifest), BurstLimit(m.manifest))
            == RateCheck([now], Admit)
  {
    WindowKeepsAll(m.rateLimitStore[ClientId(req)], now, MinuteWindow);
    ResumesAfterWindow([], now, RequestsPerMinute(m.manifest), BurstLimit(m.manifest));
  }
}
