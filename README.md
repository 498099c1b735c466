# AWAS middleware and client parser, modelled in Dafny

AWAS (AI Web Action Standard) lets a web site publish the actions an AI agent
may perform. It publishes them in a JSON manifest (`/.well-known/ai-actions.json`)
and in `data-ai-*` HTML attributes. This project models two parts of the
reference implementation:

- **The Flask middleware `AWASMiddleware`** (`script_7.py`, which writes
  `examples/implementations/python/awas_middleware.py`). It covers:
  - the manifest fallback when the file is missing or is invalid JSON;
  - the per-client sliding-window rate limiter. It applies only to requests
    flagged `X-AI-Agent: true`, with a 60-second window and a 10-second burst
    window;
  - the `validate_action` gate: an unknown action, then missing
    authentication, then failed input validation stop the request;
  - the input validator `_validate_inputs`;
  - the audit entry written before the handler runs.
- **The browser client `AWASParser`** (`examples/awas-parser.js`). It covers:
  - loading the manifest;
  - building the action registry from the manifest and from inline HTML
    actions. The registry is a JavaScript `Map`: insertion-ordered, last `set`
    wins, and manifest actions are never overridden by inline ones;
  - the lookups;
  - preparing the HTTP request of `executeAction`;
  - the client-side `validateParams`;
  - `exportForAI`.

Files:

| file | module | what |
|---|---|---|
| `wrappers.dfy` | `Wrappers` | `Option`, `Result` |
| `seq_lemmas.dfy` | `SeqLemmas` | generic sequence facts |
| `json.dfy` | `Json` | JSON values, with Python's and JavaScript's views of them (`isinstance`, `==`, `in`, `typeof`, `String()`, `includes`) |
| `manifest.dfy` | `Manifest` | manifest, action, input and validation-rule records; validation errors |
| `rate_limit.dfy` | `RateLimit` | one client's sliding window (`_check_rate_limit`) |
| `server_validation.dfy` | `ServerValidation` | `_validate_inputs` |
| `middleware.dfy` | `Middleware` | request data, action lookup, the gate, class `AwasMiddleware` |
| `client_validation.dfy` | `ClientValidation` | `validateParams`' per-input checks |
| `parser.dfy` | `Parser` | the registry, inline-action parsing, request preparation, export, class `AwasParser` |

How the model is organised:

- Pure logic is written as functions that state their meaning in `ensures`.
- The loops of the source are methods, proved equal to those functions:
  - `_get_action`, `_validate_inputs`, `parseManifest`, `parseInlineActions`,
    `parseInputs`, `executeAction`'s checks and `validateParams`.
- The two stateful objects are classes:
  - `AwasMiddleware`, whose per-client request lists and audit log change;
  - `AwasParser`, whose manifest and action registry change.

Behaviour worth knowing, which the model follows as the code has it:

- **Rate limiting runs first.** It is a `before_request` hook, so it runs
  before the action is even looked up. A denied request gets 429 whatever the
  action.
- **No defaults are applied.** The middleware never fills in an input's
  `default`; a missing input is only reported if it is required.
- **Typed inputs fail over GET.** For anything other than POST, PUT and PATCH,
  the data is `request.args`, whose values are strings. So an input declared
  `integer`, `number`, `boolean`, `array` or `object` and sent that way always
  fails its type check (`Middleware.QueryValuesFailTypedInputs`).
- **On the client, `integer` never matches.** The type check compares the
  declared type with `typeof`, which has no `"integer"`. An input declared
  `integer` therefore always gets a type error, and its rule errors are still
  added, because the client does not stop at a type error.
- **Server and client disagree in places:**
  - A Python `bool` is an `int`, so the server accepts `true` for an `integer`
    input; the client rejects it.
  - Python's `in` uses `==`, so `True in [1]` holds; JavaScript's `includes`
    is strict.
  - The server checks `minLength` and `maxLength`; the client does not.
- **Every request from the client is one agent.** Each request the client
  prepares carries `X-AI-Agent-Name: AWAS-Parser/1.0`. The middleware
  therefore counts all clients using this library in one rate-limit bucket.

## Model

| member | source | states |
|---|---|---|
| Json.Get | examples/awas-parser.js:225 | reading `params[name]` yields nothing exactly when the key is absent, and otherwise a value stored under that key |
| Json.GetStored | examples/awas-parser.js:225 | in an object, whose keys are distinct, reading a key yields exactly the value stored under it |
| Json.JsTypeOf | examples/awas-parser.js:234 | the client's type name of a value (`array` for arrays, else `typeof`) is one of the five JSON kinds, and is `number` exactly for numbers |
| Json.NatToStringRoundTrip | examples/awas-parser.js:245 | the decimal form a number gets when `test` coerces it to a string reads back as that number and has no leading zero |
| ServerValidation.PatternErrors | script_7.py:268-272 | a pattern error is reported exactly when a pattern is set, the value is a string and the pattern does not match it |
| ServerValidation.RangeErrors | script_7.py:274-279 | a `min` or `max` error is reported exactly when that bound is set, the value is numeric (booleans included) and outside it, and it carries the bound |
| ServerValidation.LengthErrors | script_7.py:281-286 | a `minLength` or `maxLength` error is reported exactly when that bound is set, the value is a string or list, and its length is outside it |
| ServerValidation.EnumErrors | script_7.py:288-290 | an enum error is reported exactly when an enum is set and the value is not `in` it by Python equality |
| ServerValidation.RuleErrors | script_7.py:266-290 | the rule checks report nothing exactly when every rule holds, and every error is a rule error naming the parameter |
| ServerValidation.RuleErrorsExact | script_7.py:266-290 | the rule checks report exactly the violated rules (pattern, range, length and enum, each as its own check defines) and list them in rule order: pattern, `min`, `max`, `minLength`, `maxLength`, enum |
| ServerValidation.StringRuleErrorsAccumulate | script_7.py:266-290 | rule checks do not stop at the first failure: a short string outside the enum that fails its pattern gets all three errors, in rule order |
| ServerValidation.RangeErrorsAccumulate | script_7.py:274-279 | with `min` above `max` both bound errors are reported |
| ServerValidation.PresentErrors | script_7.py:251-290 | for a present value: no errors exactly when the declared type (if known) accepts it and its rules hold; a value of the wrong known type gets exactly one type error and nothing else; a value of the right type with rules gets exactly the errors of the rules it violates, each once and in rule order (pattern, `min`, `max`, `minLength`, `maxLength`, enum) |
| ServerValidation.InputErrorsOf | script_7.py:235-290 | one input: no errors exactly when it conforms; a missing value gets only the "required" error if required and nothing otherwise; a present value of the wrong known type gets exactly one type error; a present value its type accepts gets the present-value errors, that is exactly the rules it violates; "required" is reported exactly for a missing required input |
| ServerValidation.InputErrors | script_7.py:230-295 | the errors of all inputs, in declaration order; empty exactly when the data conforms to every input |
| ServerValidation.ErrorsNameDeclaredInputs | script_7.py:230-295 | every reported error names a declared input |
| ServerValidation.InputErrorsAppend | script_7.py:235-290 | validation is input by input: the errors of a concatenation are the concatenation of the errors |
| ServerValidation.OneErrorPerMissingRequired | script_7.py:243-246 | there is exactly one "required" error per missing required input |
| ServerValidation.CheckInput | script_7.py:236-290 | one loop iteration computes the errors of that input |
| ServerValidation.ValidateInputs | script_7.py:230-295 | the loop returns exactly the errors of all inputs, and `valid` holds exactly when there are none and exactly when the data conforms |
| ServerValidation.AddToCartAccepts | script_7.py:230-295 | the `add_to_cart` example inputs accept `{"product_id": "PROD-001"}` |
| ServerValidation.AddToCartRejectsEach | script_7.py:230-295 | per input of that example, a bad id gets a pattern error, quantity 500 gets a `max` error, and the absent optional input gets nothing |
| ServerValidation.AddToCartRejects | script_7.py:230-295 | the example's bad request gets exactly those two errors, in order |
| RateLimit.Window | script_7.py:125-129 | pruning keeps exactly the timestamps younger than the window, in order |
| RateLimit.WindowAppend | script_7.py:125-129 | pruning distributes over concatenation |
| RateLimit.WindowKeepsAll | script_7.py:125-129 | a list already inside the window is kept whole |
| RateLimit.WindowDropsAll | script_7.py:125-129 | a list entirely outside the window is dropped |
| RateLimit.WindowNested | script_7.py:144-147 | pruning to 60 s first does not change the 10 s burst window |
| RateLimit.RateStep | script_7.py:108-155 | denied with "Rate limit exceeded"/60 exactly when the pruned list has reached the per-minute cap; denied with "Burst limit exceeded"/10 exactly when under that cap but the burst cap is reached; otherwise `now` is appended; a denial stores the pruned list; every stored time is inside the minute |
| RateLimit.StoredLengthBounded | script_7.py:137-155 | the stored list never grows past the per-minute cap |
| RateLimit.ResumesAfterWindow | script_7.py:124-155 | once every earlier request is a minute old, the client is admitted again and the list restarts from `now` |
| RateLimit.Run | script_7.py:108-155 | feeding a sequence of requests gives one decision per request |
| RateLimit.AdmitStep | script_7.py:137-155 | under both caps the request is admitted and appended |
| RateLimit.RunAdmitsClose | script_7.py:108-155 | requests within one minute, each under the burst cap, are all admitted while their number stays within the per-minute cap, and the stored list is exactly those requests |
| RateLimit.BurstScenario | script_7.py:144-152 | `burst + 1` requests inside 10 s (per-minute cap higher): the first `burst` are admitted, the next is denied with retry-after 10 |
| RateLimit.MinuteScenario | script_7.py:132-141 | with the defaults 60/10, one request per second for a minute is always admitted, and a 61st in that minute is denied with retry-after 60 |
| Middleware.RenamedAgentStartsFresh | script_7.py:103-141 | the client id is the self-declared agent name: an agent that has used up its minute under one name is denied under it, yet sending a name not yet in the store it gets an empty history and is admitted |
| Middleware.LoadManifest | script_7.py:51-61 | a parsed manifest is used as is; a missing or invalid file gives version 1.0, no actions and no rate limits |
| Middleware.FindAction | script_7.py:218-223 | no action found exactly when no action has the id; otherwise the first action with that id |
| Middleware.FallbackFindsNothing | script_7.py:51-61 | under the fallback manifest no action is found |
| Middleware.RequestData | script_7.py:186-189 | POST/PUT/PATCH give the JSON body when there is one and `{}` otherwise; other methods give the query arguments, each as a string |
| Middleware.QueryValuesFailTypedInputs | script_7.py:186-189 | a query value for an input declared with a known non-string type gets exactly one type error |
| Middleware.Gate | script_7.py:170-203 | the handler runs exactly when the action exists, authentication is satisfied if required, and the data conforms; unknown action, authentication and validation failures are reported exactly in their cases, in that order, validation with all the errors |
| Middleware.FallbackRejectsEveryAction | script_7.py:51-61 | under the fallback manifest every gated endpoint answers "unknown action" with 400 |
| Middleware.AwasMiddleware.constructor | script_7.py:24-47 | the manifest is loaded once, the flags are kept, the rate-limit store and audit log start empty |
| Middleware.AwasMiddleware.CheckRateLimit | script_7.py:108-155 | a request not from an AI agent changes nothing; otherwise the client's list becomes the limiter's stored list and the request is refused exactly when the limiter denies it, with its message and retry-after |
| Middleware.AwasMiddleware.GetAction | script_7.py:218-223 | the loop returns the first action with the id |
| Middleware.AwasMiddleware.ValidateAction | script_7.py:157-216 | the outcome is the gate's, and one audit entry is appended exactly when the handler runs and logging is on |
| Middleware.AwasMiddleware.HandleRequest | script_7.py:46-47 | with rate limiting on, an AI agent's request is limited first and a denial never reaches the gate; otherwise the gate decides; the per-client bound is kept |
| ClientValidation.JsPatternErrors | examples/awas-parser.js:242-248 | a pattern error is reported exactly when a non-empty pattern does not match the value's string form |
| ClientValidation.JsRangeErrors | examples/awas-parser.js:251-258 | a `min` or `max` error is reported exactly when that bound is set, the value is a number and outside it |
| ClientValidation.JsEnumErrors | examples/awas-parser.js:261-263 | an enum error is reported exactly when an enum array is set (even an empty one) and does not strictly include the value |
| ClientValidation.JsRuleErrors | examples/awas-parser.js:240-264 | no rule errors exactly when pattern, range and enum hold; every error is a pattern, range or enum error naming the parameter, so length rules are never checked |
| ClientValidation.JsRuleErrorsExact | examples/awas-parser.js:240-264 | the client's rule checks report exactly the violated pattern, range and enum rules, in that order |
| ClientValidation.TypeErrors | examples/awas-parser.js:232-238 | a type error is reported exactly when the declared type is neither `any` nor the value's type name |
| ClientValidation.PresentValueErrors | examples/awas-parser.js:232-264 | a present value: no errors exactly when its type is accepted and, if rules are set, they hold; a type error comes first; every rule error is kept |
| ClientValidation.PresentValueErrorsExact | examples/awas-parser.js:232-263 | a present value gets exactly its violations and nothing else: the type error when its type is not accepted, then each violated rule, each once and in rule order; the count is the type errors plus the rule errors |
| ClientValidation.ClientInputErrorsOf | examples/awas-parser.js:224-264 | one input: no errors exactly when it conforms; a null or absent value gets only "required" if required, and "required" appears exactly then; a present value of the wrong type gets the type error first, a value of the right type gets none; a type error does not suppress the rule errors |
| ClientValidation.ClientInputErrorsExact | examples/awas-parser.js:224-264 | one input's errors are in rule order, and for a present value they are exactly its violations |
| ClientValidation.ClientParamErrors | examples/awas-parser.js:223-265 | the errors of all inputs, empty exactly when every input conforms |
| ClientValidation.IntegerNeverMatches | examples/awas-parser.js:232-238 | a present value for an input declared `integer` always gets a type error |
| ClientValidation.TypeAndRangeErrorsTogether | examples/awas-parser.js:232-258 | an integer input over its maximum gets a type error and then a `max` error |
| ClientValidation.BooleanIntegerDisagreement | examples/awas-parser.js:232-238 | a boolean for a required `integer` input passes on the server and fails on the client |
| ClientValidation.EnumEqualityDisagreement | examples/awas-parser.js:261-263 | `true` against the enum `[1]` passes on the server and fails on the client |
| Parser.Registry.Values | examples/awas-parser.js:129-131 | the values come out in insertion order |
| Parser.SetKeepsWellFormed | examples/awas-parser.js:65 | setting an action under its own id keeps the registry well formed |
| Parser.RegisterAll | examples/awas-parser.js:64-69 | the keys become the old keys plus every manifest action id; existing keys keep their order |
| Parser.RegisterAllKeepsOthers | examples/awas-parser.js:64-69 | keys no manifest action uses keep their entry |
| Parser.RegisterAllLastWins | examples/awas-parser.js:64-69 | every manifest id ends up as a manifest entry, and the last action with an id is the one kept |
| Parser.RegisterAllWellFormed | examples/awas-parser.js:64-69 | registering manifest actions keeps the registry well formed |
| Parser.RegisterManifest | examples/awas-parser.js:61-62 | without a manifest, or without its `actions`, nothing changes |
| Parser.InputFromElement | examples/awas-parser.js:111-118 | a parameter element gives its name; the type attribute when it is non-empty, else `string`; `required` exactly when the attribute is `"true"`; the default attribute as a string exactly when it is present; and no validation rules |
| Parser.InputFromElementRoundTrip | examples/awas-parser.js:111-118 | parsing reads back every input a parameter element can express (non-empty type, string default, no rules) from the element a page author writes for it |
| Parser.InlineAction | examples/awas-parser.js:88-96 | an inline action has the element's id, type defaulting to `unknown`, method defaulting to `GET`, the endpoint attribute and the parsed inputs |
| Parser.RegisterInline | examples/awas-parser.js:77-102 | an existing action is never overridden; the keys become the old keys plus every inline id; existing keys keep their order |
| Parser.RegisterInlineFirstWins | examples/awas-parser.js:84-98 | a new id is registered from its first element |
| Parser.RegisterInlineWellFormed | examples/awas-parser.js:77-102 | inline registration keeps the registry well formed |
| Parser.ManifestWinsOverInline | examples/awas-parser.js:83-86 | after both passes every manifest action is still registered from the manifest |
| Parser.ByType | examples/awas-parser.js:143-145 | filtering keeps exactly the actions of that type |
| Parser.ByTypeAppend | examples/awas-parser.js:143-145 | filtering distributes over concatenation, so it keeps order |
| Parser.AsciiUpperIdempotent | examples/awas-parser.js:169 | upper-casing twice is upper-casing once |
| Parser.FirstMissing | examples/awas-parser.js:159-165 | nothing is missing exactly when every required input's name is a key of the parameters; otherwise the first required input whose name is absent |
| Parser.QueryParams | examples/awas-parser.js:182-188 | the query holds exactly the non-null parameters, each as its string form |
| Parser.Prepare | examples/awas-parser.js:150-193 | "not found" exactly when the id is unregistered; for a registered id, the first missing required input is reported when there is one; "no method" exactly when nothing is missing and no method is declared; otherwise a request is prepared, with the upper-cased method, the endpoint and the agent headers, sending the parameters as a query for GET and as the body otherwise |
| Parser.ParserRequestsShareOneBucket | examples/awas-parser.js:172-177 | every request the client prepares is an AI-agent request whose rate-limit client is `AWAS-Parser/1.0` |
| Parser.AwasParser.constructor | examples/awas-parser.js:9-21 | a new parser has no manifest and an empty registry |
| Parser.AwasParser.Init | examples/awas-parser.js:26-56 | a failed load leaves the state unchanged and yields false; otherwise the manifest is replaced only when one was loaded, and the registry gets the manifest pass and then the inline pass |
| Parser.AwasParser.ParseManifest | examples/awas-parser.js:61-72 | the loop registers the manifest's actions as `RegisterManifest` does and keeps the registry well formed |
| Parser.AwasParser.ParseInlineActions | examples/awas-parser.js:77-102 | the loop registers inline actions as `RegisterInline` does and keeps the registry well formed |
| Parser.AwasParser.ParseInputs | examples/awas-parser.js:107-124 | the loop collects `InputsOf` the element |
| Parser.AwasParser.GetActions | examples/awas-parser.js:129-131 | the registered actions in insertion order |
| Parser.AwasParser.GetAction | examples/awas-parser.js:136-138 | an action is found exactly when its id is registered, and it carries that id |
| Parser.AwasParser.GetActionsByType | examples/awas-parser.js:143-145 | exactly the registered actions of that type |
| Parser.AwasParser.ExecuteAction | examples/awas-parser.js:150-193 | the required-parameter and query loops produce exactly `Prepare`'s request or error |
| Parser.AwasParser.ValidateParams | examples/awas-parser.js:215-272 | an unknown id gives only "not found"; otherwise the errors of all inputs, and `valid` exactly when there are none and the parameters conform |
| Parser.AwasParser.ExportForAI | examples/awas-parser.js:295-319 | one exported action per registered action, in order, each the action with its name falling back to its id; version, name and description fall back to `1.0`, `Unknown` and the empty string; rate limits and authentication are the manifest's, or absent without one |
| Parser.CheckParam | examples/awas-parser.js:224-264 | one `forEach` iteration computes the errors of that input |
| Parser.ExportFollowsRegistry | examples/awas-parser.js:295-319 | the exported actions' ids are the registry's keys, in insertion order |

## Left out

- The Flask plumbing is not modelled: the `app`, the discovery routes of `_register_routes`, `g`, `jsonify` and the logger's output. The `X-AI-Action-*` response headers added after the handler are also left out, because they only decorate the handler's own response.
- `_check_authentication` is not modelled. Its result is the parameter `authenticated`, because it is meant to be overridden by applications.
- `time.time()` and `datetime.utcnow()` are replaced by a caller-supplied integer `now`, because the model has no clock or floating point. Fractional seconds and float-valued inputs, bounds and timestamps are not modelled.
- Regular expressions are not modelled. Python's `re.match` and JavaScript's `RegExp.test` are the parameters `reMatch` and `regexTest`. An invalid pattern, which raises in both languages, is not modelled.
- Error message texts are not modelled. Errors are the `ParamError` datatype, which carries the message's ingredients.
- A request's JSON body is modelled as an object or as no body. A falsy non-object body (`[]`, `0`, `""`, `false`) becomes `{}` through `or {}` in the source, which the model covers only as "no body". A truthy non-object body (a non-empty list or string, a non-zero number, `true`) makes `data.get` raise as soon as the action declares an input, which is not modelled.
- `request.get_json()` raising on a missing or wrong `Content-Type` or on an unparsable body is not modelled: Flask answers those with its own 400/415 error before validation.
- Header lookups are exact-key map lookups. Flask's case-insensitive headers are not modelled.
- `_load_manifest` errors other than a missing file or invalid JSON are not modelled. Examples are `PermissionError`, `IsADirectoryError` and `UnicodeDecodeError`. They propagate out of the constructor and the application never starts, so `ManifestSource` has no case for them.
- Concurrency is not modelled: the model is sequential, and each request's rate-limit check runs to completion before the next. The source reads, prunes and appends `rate_limit_store` without a lock. Under a threaded server, two requests from one client can both pass the check, and the per-minute or burst cap can be exceeded.
- `burst_count` is not modelled, because the middleware initialises it and never reads or updates it.
- `_load_manifest` receives the outcome of reading the file, not a path. Manifests whose JSON has the wrong shape are not modelled, because they make the source raise. Examples are `actions` that is not a list, or `rate_limits: null`.
- Action ids are modelled as strings. An action without an `id` (which `_get_action` reads as `None` and never matches) and ids of other JSON types are not modelled.
- Missing JSON keys, nulls and declared-but-null fields collapse into `None` in the manifest records. In particular, on the server an input declared with `"type": null` is checked as a `string` input. The source looks up `None` in its type table, finds nothing and skips the type check. On the client, a `"min": null` or `"max": null` passes the `!== undefined` test and `value < null` compares with 0, so the client enforces a bound of 0 where the model checks none. On the server, a null `pattern`, `min`, `max`, `minLength`, `maxLength` or `enum` makes the rule check raise `TypeError`, where the model skips that rule.
- On the client, the `fetch` of the manifest is the `ManifestLoad` parameter: no link, a failed load, or a parsed manifest.
- On the client, the DOM is a list of element records, one per `[data-ai-action]` element, each with its attributes and the `[data-ai-param]` elements `querySelectorAll` finds under it, taken as given. That search returns all descendants, including those inside a nested action element. The DOM `element` references stored in actions are dropped.
- `executeAction` stops at the prepared request. The `fetch`, the response decoding and the error it throws on a non-OK response are not modelled, because they are network I/O.
- `URLSearchParams` percent-encoding and `JSON.stringify` are not modelled. The query is a list of key/value strings and the body is the parameter entries.
- Parser.AsciiUpper: upper-cases ASCII letters only, not the full Unicode mapping of `toUpperCase`.
- Json.NatToString: renders an unbounded integer in plain decimal. JavaScript's `String(n)` switches to exponent form from 1e21 up, and numbers above 2^53 lose precision; neither is modelled.
- Inherited `Object.prototype` keys in `in params` and `params[name]` are not modelled. Parameters are a plain list of entries.
- `getCapabilities`, `log` and the `debug` option are not modelled, because they are logging or a second fetch. The `autoInit` fire-and-forget call is not modelled either: the constructor and `Init` are separate steps.
- `getActionsByType(undefined)` is not modelled, because the type is a string.
- `exportForAI` is modelled without the `inputs` re-mapping: its per-input copy of name, type, required, default and validation is the identity on the input records, which carry only those fields.
- The generator scripts, the other implementations, the manifest schema and the documentation of the repository are not part of this model.
