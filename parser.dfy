/**
 * The browser-side `AWASParser`: it registers the manifest's actions and the
 * actions declared inline in the page's HTML in one ordered registry (a
 * JavaScript `Map`), answers queries on it, validates parameters, prepares
 * the HTTP request of an action and exports the registry for an AI agent.
 *
 * The DOM is abstracted to the attributes of the elements the parser selects;
 * `fetch` and the network are left out, so `ExecuteAction` stops at the
 * request it would send.
 */
module Parser {
  import opened Wrappers
  import opened Json
  import opened Manifest
  import opened ClientValidation
  import opened SeqLemmas
  import Middleware

  /** Where a registered action came from (its `source` field). */
  datatype Source = FromManifest | Inline

  /** An entry of `this.actions`: the action's fields plus its `source`. */
  datatype RegisteredAction = RegisteredAction(def: ActionDef, source: Source)

  /** A JavaScript `Map` from action id to action: its keys in insertion order and its entries. */
  datatype Registry = Registry(order: seq<string>, entries: map<string, RegisteredAction>)
  {
    /** Each key occurs once in the order, the order and the entries have the same
        keys, and every action is filed under its own id. */
    ghost predicate WellFormed() {
      && (forall i, j :: 0 <= i < j < |order| ==> order[i] != order[j])
      && (forall k :: k in entries <==> k in order)
      && (forall k :: k in entries ==> entries[k].def.id == k)
    }

    /** `map.set(key, value)`: a new key goes to the end, an existing key keeps its place. */
    function Set(key: string, value: RegisteredAction): (r: Registry)
      ensures r.entries == entries[key := value]
      ensures key in entries ==> r.order == order
      ensures key !in entries ==> r.order == order + [key]
    {
      Registry(if key in entries then order else order + [key], entries[key := value])
    }

    /** `Array.from(map.values())`: the entries in insertion order. */
    function Values(): (r: seq<RegisteredAction>)
      ensures WellFormed() ==> |r| == |order| && forall i :: 0 <= i < |order| ==> r[i] == entries[order[i]]
    {
      ValuesOf(order, entries)
    }
  }

  const EmptyRegistry := Registry([], map[])

  /** The entries of `keys`, in the order of `keys`, skipping a key that has none. */
  function ValuesOf(keys: seq<string>, entries: map<string, RegisteredAction>): (r: seq<RegisteredAction>)
    ensures (forall k :: k in keys ==> k in entries) ==>
              |r| == |keys| && forall i :: 0 <= i < |keys| ==> r[i] == entries[keys[i]]
  {
    if |keys| == 0 then []
    else
      var init := keys[..|keys| - 1];
      var last := keys[|keys| - 1];
      assert forall k :: k in init ==> k in keys;
      ValuesOf(init, entries) + (if last in entries then [entries[last]] else [])
  }

  /** Filing an action under its own id keeps the registry well formed. */
  lemma SetKeepsWellFormed(reg: Registry, value: RegisteredAction)
    requires reg.WellFormed()
    ensures reg.Set(value.def.id, value).WellFormed()
  {
    var r := reg.Set(value.def.id, value);
    if value.def.id !in reg.entries {
      forall i, j | 0 <= i < j < |r.order|
        ensures r.order[i] != r.order[j]
      {
        if j == |reg.order| {
          assert r.order[i] == reg.order[i];
          assert reg.order[i] in reg.entries;
        }
      }
    }
  }

  // -----------------------------------------------------------------------
  // parseManifest

  function ManifestEntry(action: ActionDef): RegisteredAction {
    RegisteredAction(action, FromManifest)
  }

  /** The `forEach` of `parseManifest` over `acts`: each action is set under its id.
      The registry gains exactly the ids of `acts`, and known ids keep their place. */
  function RegisterAll(reg: Registry, acts: seq<ActionDef>): (r: Registry)
    ensures forall k :: k in r.entries <==> k in reg.entries || exists i :: 0 <= i < |acts| && acts[i].id == k
    ensures |reg.order| <= |r.order| && r.order[..|reg.order|] == reg.order
  {
    if |acts| == 0 then reg
    else
      var init := acts[..|acts| - 1];
      var last := acts[|acts| - 1];
      var prev := RegisterAll(reg, init);
      assert forall i :: 0 <= i < |init| ==> init[i] == acts[i];
      var r := prev.Set(last.id, ManifestEntry(last));
      assert r.order[..|prev.order|] == prev.order;
      r
  }

  /** An id no manifest action uses keeps its entry. */
  lemma {:induction false} RegisterAllKeepsOthers(reg: Registry, acts: seq<ActionDef>, k: string)
    requires k in reg.entries && forall i :: 0 <= i < |acts| ==> acts[i].id != k
    ensures RegisterAll(reg, acts).entries[k] == reg.entries[k]
  {
    if |acts| > 0 {
      var init := acts[..|acts| - 1];
      assert forall i :: 0 <= i < |init| ==> init[i] == acts[i];
      RegisterAllKeepsOthers(reg, init, k);
    }
  }

  /** Each manifest action ends up registered with source `manifest`; among actions
      sharing an id, the last one is the one registered. */
  lemma {:induction false} RegisterAllLastWins(reg: Registry, acts: seq<ActionDef>, i: int)
    requires 0 <= i < |acts|
    ensures RegisterAll(reg, acts).entries[acts[i].id].source == FromManifest
    ensures (forall j :: i < j < |acts| ==> acts[j].id != acts[i].id) ==>
              RegisterAll(reg, acts).entries[acts[i].id] == ManifestEntry(acts[i])
  {
    var init := acts[..|acts| - 1];
    var last := acts[|acts| - 1];
    if i < |acts| - 1 && acts[i].id != last.id {
      assert init[i] == acts[i];
      RegisterAllLastWins(reg, init, i);
      assert forall j :: i < j < |init| ==> init[j] == acts[j];
    }
  }

  /** One unfolding of `RegisterAll` on a list that ends in `last`. */
  lemma RegisterAllSnoc(reg: Registry, init: seq<ActionDef>, last: ActionDef)
    ensures RegisterAll(reg, init + [last]) == RegisterAll(reg, init).Set(last.id, ManifestEntry(last))
  {
    assert (init + [last])[..|init|] == init;
  }

  lemma {:induction false} RegisterAllWellFormed(reg: Registry, acts: seq<ActionDef>)
    requires reg.WellFormed()
    ensures RegisterAll(reg, acts).WellFormed()
  {
    if |acts| > 0 {
      RegisterAllWellFormed(reg, acts[..|acts| - 1]);
      SetKeepsWellFormed(RegisterAll(reg, acts[..|acts| - 1]), ManifestEntry(acts[|acts| - 1]));
    }
  }

  /** `parseManifest`: nothing happens without a manifest or without its `actions`. */
  function RegisterManifest(reg: Registry, manifest: Option<Manifest>): (r: Registry)
    ensures manifest.None? || manifest.value.actions.None? ==> r == reg
  {
    if manifest.None? || manifest.value.actions.None? then reg
    else RegisterAll(reg, manifest.value.actions.value)
  }

  // -----------------------------------------------------------------------
  // parseInlineActions and parseInputs

  /** An element carrying `data-ai-param`, with its other attributes. */
  datatype ParamElement = ParamElement(name: string, attrs: map<string, string>)

  /** An element carrying `data-ai-action`, with its other attributes and the
      `data-ai-param` elements inside it, in document order. */
  datatype ActionElement = ActionElement(actionId: string, attrs: map<string, string>, paramElements: seq<ParamElement>)

  /** `element.getAttribute(key)`, None standing for `null`. */
  function Attr(attrs: map<string, string>, key: string): Option<string> {
    if key in attrs then Some(attrs[key]) else None
  }

  /** `element.getAttribute(key) || fallback`: a missing or empty attribute gives the fallback. */
  function AttrOr(attrs: map<string, string>, key: string, fallback: string): (r: string)
    ensures key in attrs && attrs[key] != "" ==> r == attrs[key]
    ensures !(key in attrs && attrs[key] != "") ==> r == fallback
  {
    if key in attrs && attrs[key] != "" then attrs[key] else fallback
  }

  /** The input `parseInputs` builds from one parameter element. */
  function InputFromElement(p: ParamElement): (input: InputDef)
    ensures input.name == p.name
    ensures input.required <==> Attr(p.attrs, "data-ai-param-required") == Some("true")
    ensures input.paramType.Some? && input.paramType.value != ""
    ensures Attr(p.attrs, "data-ai-param-type") in {None, Some("")} ==> input.paramType == Some("string")
    ensures Attr(p.attrs, "data-ai-param-type") !in {None, Some("")} ==> input.paramType == Attr(p.attrs, "data-ai-param-type")
    ensures input.default.Some? <==> "data-ai-param-default" in p.attrs
    ensures "data-ai-param-default" in p.attrs ==> input.default == Some(Str(p.attrs["data-ai-param-default"]))
    ensures input.validation.None?
  {
    InputDef(p.name,
             Some(AttrOr(p.attrs, "data-ai-param-type", "string")),
             Attr(p.attrs, "data-ai-param-required") == Some("true"),
             if "data-ai-param-default" in p.attrs then Some(Str(p.attrs["data-ai-param-default"])) else None,
             None)
  }

  /** The inputs an HTML parameter element can express: a non-empty type, no
      validation rules, and a string default if any. */
  predicate Expressible(input: InputDef) {
    && input.paramType.Some? && input.paramType.value != ""
    && input.validation.None?
    && (input.default.Some? ==> input.default.value.Str?)
  }

  /** The parameter element a page author writes for an input. */
  function ElementOf(input: InputDef): ParamElement
    requires Expressible(input)
  {
    var required: map<string, string> := if input.required then map["data-ai-param-required" := "true"] else map[];
    var default: map<string, string> := if input.default.Some? then map["data-ai-param-default" := input.default.value.s] else map[];
    ParamElement(input.name, map["data-ai-param-type" := input.paramType.value] + required + default)
  }

  /** Parsing reads back every input an element can express. */
  lemma InputFromElementRoundTrip(input: InputDef)
    requires Expressible(input)
    ensures InputFromElement(ElementOf(input)) == input
  {
  }

  function InputsOf(element: ActionElement): (inputs: seq<InputDef>)
    ensures |inputs| == |element.paramElements|
    ensures forall i :: 0 <= i < |inputs| ==> inputs[i] == InputFromElement(element.paramElements[i])
  {
    seq(|element.paramElements|, i requires 0 <= i < |element.paramElements| => InputFromElement(element.paramElements[i]))
  }

  /** The action `parseInlineActions` builds from an element: type `unknown` and
      method `GET` unless the attributes say otherwise. */
  function InlineAction(element: ActionElement): (a: ActionDef)
    ensures a.id == element.actionId
    ensures a.actionType == Some(AttrOr(element.attrs, "data-ai-action-type", "unknown"))
    ensures a.httpMethod == Some(AttrOr(element.attrs, "data-ai-method", "GET"))
    ensures a.endpoint == Attr(element.attrs, "data-ai-endpoint")
    ensures a.inputs == Some(InputsOf(element))
    ensures a.name.None? && a.description.None? && !a.authenticationRequired
  {
    ActionDef(element.actionId,
              Some(AttrOr(element.attrs, "data-ai-action-type", "unknown")),
              None, None,
              Some(AttrOr(element.attrs, "data-ai-method", "GET")),
              Attr(element.attrs, "data-ai-endpoint"),
              false,
              Some(InputsOf(element)))
  }

  function InlineEntry(element: ActionElement): RegisteredAction {
    RegisteredAction(InlineAction(element), Inline)
  }

  /** The `forEach` of `parseInlineActions`: an element whose id is already
      registered is skipped, so no entry is ever replaced. The registry gains
      exactly the ids of the elements, and known ids keep their place. */
  function RegisterInline(reg: Registry, elements: seq<ActionElement>): (r: Registry)
    ensures forall k :: k in reg.entries ==> k in r.entries && r.entries[k] == reg.entries[k]
    ensures forall k :: k in r.entries <==> k in reg.entries || exists i :: 0 <= i < |elements| && elements[i].actionId == k
    ensures |reg.order| <= |r.order| && r.order[..|reg.order|] == reg.order
  {
    if |elements| == 0 then reg
    else
      var init := elements[..|elements| - 1];
      var last := elements[|elements| - 1];
      var prev := RegisterInline(reg, init);
      assert forall i :: 0 <= i < |init| ==> init[i] == elements[i];
      if last.actionId in prev.entries then prev
      else
        var r := prev.Set(last.actionId, InlineEntry(last));
        assert r.order[..|prev.order|] == prev.order;
        r
  }

  /** Among inline elements sharing a new id, the first one is the one registered. */
  lemma {:induction false} RegisterInlineFirstWins(reg: Registry, elements: seq<ActionElement>, i: int)
    requires 0 <= i < |elements| && elements[i].actionId !in reg.entries
    requires forall j :: 0 <= j < i ==> elements[j].actionId != elements[i].actionId
    ensures RegisterInline(reg, elements).entries[elements[i].actionId] == InlineEntry(elements[i])
  {
    var init := elements[..|elements| - 1];
    if i < |elements| - 1 {
      assert init[i] == elements[i];
      assert forall j :: 0 <= j < i ==> init[j] == elements[j];
      RegisterInlineFirstWins(reg, init, i);
    } else {
      assert forall j :: 0 <= j < |init| ==> init[j] == elements[j];
      assert elements[i].actionId !in RegisterInline(reg, init).entries;
    }
  }

  /** One unfolding of `RegisterInline` on a list that ends in `last`. */
  lemma RegisterInlineSnoc(reg: Registry, init: seq<ActionElement>, last: ActionElement)
    ensures var prev := RegisterInline(reg, init);
            RegisterInline(reg, init + [last])
            == if last.actionId in prev.entries then prev else prev.Set(last.actionId, InlineEntry(last))
  {
    assert (init + [last])[..|init|] == init;
  }

  lemma {:induction false} RegisterInlineWellFormed(reg: Registry, elements: seq<ActionElement>)
    requires reg.WellFormed()
    ensures RegisterInline(reg, elements).WellFormed()
  {
    if |elements| > 0 {
      var prev := RegisterInline(reg, elements[..|elements| - 1]);
      RegisterInlineWellFormed(reg, elements[..|elements| - 1]);
      if elements[|elements| - 1].actionId !in prev.entries {
        SetKeepsWellFormed(prev, InlineEntry(elements[|elements| - 1]));
      }
    }
  }

  /** Manifest actions win: after both passes every action of the manifest is
      registered with source `manifest`, whatever the page declares inline. */
  lemma ManifestWinsOverInline(manifest: Manifest, elements: seq<ActionElement>)
    requires manifest.actions.Some?
    ensures var r := RegisterInline(RegisterManifest(EmptyRegistry, Some(manifest)), elements);
            forall i :: 0 <= i < |manifest.actions.value| ==>
              manifest.actions.value[i].id in r.entries
              && r.entries[manifest.actions.value[i].id].source == FromManifest
  {
    var acts := manifest.actions.value;
    forall i | 0 <= i < |acts|
      ensures acts[i].id in RegisterManifest(EmptyRegistry, Some(manifest)).entries
      ensures RegisterManifest(EmptyRegistry, Some(manifest)).entries[acts[i].id].source == FromManifest
    {
      RegisterAllLastWins(EmptyRegistry, acts, i);
    }
  }

  // -----------------------------------------------------------------------
  // getActionsByType

  /** `actions.filter(action => action.type === t)` */
  function ByType(actions: seq<RegisteredAction>, t: string): (r: seq<RegisteredAction>)
    ensures |r| <= |actions|
    ensures forall a :: a in r <==> a in actions && a.def.actionType == Some(t)
  {
    if |actions| == 0 then []
    else (if actions[0].def.actionType == Some(t) then [actions[0]] else []) + ByType(actions[1..], t)
  }

  /** The filter keeps the relative order of the actions it keeps. */
  lemma {:induction false} ByTypeAppend(a: seq<RegisteredAction>, b: seq<RegisteredAction>, t: string)
    ensures ByType(a + b, t) == ByType(a, t) + ByType(b, t)
  {
    if |a| == 0 {
      assert a + b == b;
    } else {
      assert (a + b)[1..] == a[1..] + b;
      ByTypeAppend(a[1..], b, t);
    }
  }

  // -----------------------------------------------------------------------
  // executeAction

  datatype ExecError =
    | NotFound(actionId: string)
    | MissingParameter(name: string)
    /** `action.method.toUpperCase()` on an action without a method throws a TypeError */
    | MethodMissing

  /** The request `executeAction` hands to `fetch`: the endpoint, the upper-cased
      method, the headers, and either the query parameters (GET) or the JSON body. */
  datatype HttpRequest = HttpRequest(
    endpoint: Option<string>,
    httpMethod: string,
    headers: map<string, string>,
    query: Option<seq<(string, string)>>,
    body: Option<Entries>)

  /** The name the parser announces itself with. */
  const AgentName := "AWAS-Parser/1.0"

  const AgentHeaders: map<string, string> :=
    map["Content-Type" := "application/json", "X-AI-Agent" := "true", "X-AI-Agent-Name" := AgentName]

  function UpperChar(c: char): (u: char)
    ensures 'a' <= c <= 'z' ==> 'A' <= u <= 'Z' && u as int == c as int - 32
    ensures !('a' <= c <= 'z') ==> u == c
  {
    if 'a' <= c <= 'z' then (c as int - 32) as char else c
  }

  /** `s.toUpperCase()` on ASCII letters. */
  function AsciiUpper(s: string): (r: string)
    ensures |r| == |s|
    ensures forall i :: 0 <= i < |s| ==> r[i] == UpperChar(s[i])
  {
    seq(|s|, i requires 0 <= i < |s| => UpperChar(s[i]))
  }

  lemma AsciiUpperIdempotent(s: string)
    ensures AsciiUpper(AsciiUpper(s)) == AsciiUpper(s)
  {
    var u := AsciiUpper(s);
    assert forall i :: 0 <= i < |u| ==> !('a' <= u[i] <= 'z');
  }

  /** The name of the first required input that is not a key of `params`, if any. */
  function FirstMissing(inputs: seq<InputDef>, params: Entries): (r: Option<string>)
    ensures r.None? <==> forall i :: 0 <= i < |inputs| && inputs[i].required ==> HasKey(params, inputs[i].name)
    ensures r.Some? ==> exists i :: 0 <= i < |inputs| && inputs[i].required && !HasKey(params, inputs[i].name)
                          && inputs[i].name == r.value
                          && forall j :: 0 <= j < i && inputs[j].required ==> HasKey(params, inputs[j].name)
  {
    if |inputs| == 0 then None
    else if inputs[0].required && !HasKey(params, inputs[0].name) then Some(inputs[0].name)
    else
      var r := FirstMissing(inputs[1..], params);
      assert forall i :: 1 <= i < |inputs| ==> inputs[i] == inputs[1..][i - 1];
      r
  }

  /** The query parameters of a GET: every entry whose value is not null, as `String(value)`. */
  function QueryParams(params: Entries): (q: seq<(string, string)>)
    ensures |q| <= |params|
    ensures forall p :: p in q <==> exists i :: 0 <= i < |params| && !params[i].1.Null?
                                               && p == (params[i].0, JsToString(params[i].1))
  {
    if |params| == 0 then []
    else
      var init := params[..|params| - 1];
      var last := params[|params| - 1];
      assert forall i :: 0 <= i < |init| ==> init[i] == params[i];
      QueryParams(init) + (if last.1.Null? then [] else [(last.0, JsToString(last.1))])
  }

  /**
   * What `executeAction` does before the network: an unknown id and then the
   * first required input whose name is not a key of `params` are errors; a GET
   * carries the non-null parameters in its query string, any other method
   * carries all of them as its JSON body.
   */
  function Prepare(reg: Registry, actionId: string, params: Entries): (r: Result<HttpRequest, ExecError>)
    ensures r == Err(NotFound(actionId)) <==> actionId !in reg.entries
    ensures r.Err? && r.error.MissingParameter? ==>
              actionId in reg.entries && FirstMissing(reg.entries[actionId].def.inputs.GetOr([]), params) == Some(r.error.name)
    ensures actionId in reg.entries && FirstMissing(reg.entries[actionId].def.inputs.GetOr([]), params).Some? ==>
              r == Err(MissingParameter(FirstMissing(reg.entries[actionId].def.inputs.GetOr([]), params).value))
    // every required parameter present, but no HTTP method declared
    ensures r == Err(MethodMissing) <==>
              && actionId in reg.entries
              && FirstMissing(reg.entries[actionId].def.inputs.GetOr([]), params).None?
              && reg.entries[actionId].def.httpMethod.None?
    ensures && actionId in reg.entries
            && FirstMissing(reg.entries[actionId].def.inputs.GetOr([]), params).None?
            && reg.entries[actionId].def.httpMethod.Some?
            ==> r.Ok?
    ensures r.Ok? ==>
              && actionId in reg.entries
              && (forall i :: 0 <= i < |reg.entries[actionId].def.inputs.GetOr([])|
                    && reg.entries[actionId].def.inputs.GetOr([])[i].required
                    ==> HasKey(params, reg.entries[actionId].def.inputs.GetOr([])[i].name))
              && reg.entries[actionId].def.httpMethod.Some?
              && r.value.httpMethod == AsciiUpper(reg.entries[actionId].def.httpMethod.value)
              && r.value.endpoint == reg.entries[actionId].def.endpoint
              && r.value.headers == AgentHeaders
    ensures r.Ok? && r.value.httpMethod == "GET" ==> r.value.query == Some(QueryParams(params)) && r.value.body.None?
    ensures r.Ok? && r.value.httpMethod != "GET" ==> r.value.query.None? && r.value.body == Some(params)
  {
    if actionId !in reg.entries then Err(NotFound(actionId))
    else
      var action := reg.entries[actionId].def;
      var missing := FirstMissing(action.inputs.GetOr([]), params);
      if missing.Some? then Err(MissingParameter(missing.value))
      else if action.httpMethod.None? then Err(MethodMissing)
      else
        var m := AsciiUpper(action.httpMethod.value);
        if m == "GET" then Ok(HttpRequest(action.endpoint, m, AgentHeaders, Some(QueryParams(params)), None))
        else Ok(HttpRequest(action.endpoint, m, AgentHeaders, None, Some(params)))
  }

  /** Every request the parser sends is an AI-agent request, and the server's rate
      limiter files all of them under the one client id `AWAS-Parser/1.0`, whatever
      address they come from. */
  lemma ParserRequestsShareOneBucket(reg: Registry, actionId: string, params: Entries, remoteAddr: string,
                                     args: map<string, string>, json: Option<map<string, Value>>, userId: Option<string>)
    requires Prepare(reg, actionId, params).Ok?
    ensures var r := Prepare(reg, actionId, params).value;
            var req := Middleware.Request(r.httpMethod, r.headers, remoteAddr, args, json, userId);
            Middleware.IsAiAgent(req) && Middleware.ClientId(req) == AgentName
  {
  }

  // -----------------------------------------------------------------------
  // exportForAI

  /** JavaScript truthiness of an optional string: present and not empty. */
  predicate Truthy(s: Option<string>) {
    s.Some? && s.value != ""
  }

  /** `s || fallback` on an optional string. */
  function OrElse(s: Option<string>, fallback: string): (r: string)
    ensures Truthy(s) ==> r == s.value
    ensures !Truthy(s) ==> r == fallback
  {
    if Truthy(s) then s.value else fallback
  }

  datatype ExportedAction = ExportedAction(
    id: string,
    actionType: Option<string>,
    name: string,
    description: Option<string>,
    httpMethod: Option<string>,
    endpoint: Option<string>,
    authenticationRequired: bool,
    inputs: Option<seq<InputDef>>)

  datatype Export = Export(
    version: string,
    name: string,
    description: string,
    actions: seq<ExportedAction>,
    rateLimits: Option<RateLimits>,
    authentication: Option<Value>)

  /** One exported action: its name falls back to its id. */
  function ExportAction(a: RegisteredAction): (e: ExportedAction)
    ensures e.id == a.def.id && e.actionType == a.def.actionType && e.inputs == a.def.inputs
    ensures e.name == (if Truthy(a.def.name) then a.def.name.value else a.def.id)
    ensures e.description == a.def.description && e.httpMethod == a.def.httpMethod && e.endpoint == a.def.endpoint
    ensures e.authenticationRequired == a.def.authenticationRequired
  {
    ExportedAction(a.def.id, a.def.actionType, OrElse(a.def.name, a.def.id), a.def.description,
                   a.def.httpMethod, a.def.endpoint, a.def.authenticationRequired, a.def.inputs)
  }

  /** Where the parser's manifest came from in `init`. */
  datatype ManifestLoad = NoLink | LoadFailed | Loaded(manifest: Manifest)

  class AwasParser {
    var manifest: Option<Manifest>
    var actions: Registry

    ghost predicate Valid()
      reads this
    {
      actions.WellFormed()
    }

    /** `new AWASParser({autoInit: false})`: no manifest and an empty registry. */
    constructor ()
      ensures manifest.None? && actions == EmptyRegistry
      ensures Valid()
    {
      manifest := None;
      actions := EmptyRegistry;
    }

    /** `init`: load the manifest, then register its actions, then the inline ones.
        A failed load stops `init` before either pass and reports false. */
    method Init(load: ManifestLoad, elements: seq<ActionElement>) returns (ok: bool)
      requires Valid()
      modifies this
      ensures Valid()
      ensures load.LoadFailed? ==> !ok && manifest == old(manifest) && actions == old(actions)
      ensures !load.LoadFailed? ==>
                && ok
                && manifest == (if load.Loaded? then Some(load.manifest) else old(manifest))
                && actions == RegisterInline(RegisterManifest(old(actions), manifest), elements)
    {
      if load.LoadFailed? {
        return false;
      }
      if load.Loaded? {
        manifest := Some(load.manifest);
      }
      ParseManifest();
      ParseInlineActions(elements);
      ok := true;
    }

    /** `parseManifest` */
    method ParseManifest()
      requires Valid()
      modifies this`actions
      ensures Valid()
      ensures actions == RegisterManifest(old(actions), manifest)
    {
      if manifest.None? || manifest.value.actions.None? {
        return;
      }
      var acts := manifest.value.actions.value;
      var i := 0;
      while i < |acts|
        invariant 0 <= i <= |acts|
        invariant actions == RegisterAll(old(actions), acts[..i])
        invariant actions.WellFormed()
      {
        PrefixSnoc(acts, i);
        RegisterAllSnoc(old(actions), acts[..i], acts[i]);
        SetKeepsWellFormed(actions, ManifestEntry(acts[i]));
        actions := actions.Set(acts[i].id, ManifestEntry(acts[i]));
        i := i + 1;
      }
      assert acts[..i] == acts;
    }

    /** `parseInlineActions`, on the elements carrying `data-ai-action`, in document order. */
    method ParseInlineActions(elements: seq<ActionElement>)
      requires Valid()
      modifies this`actions
      ensures Valid()
      ensures actions == RegisterInline(old(actions), elements)
    {
      var i := 0;
      while i < |elements|
        invariant 0 <= i <= |elements|
        invariant actions == RegisterInline(old(actions), elements[..i])
        invariant actions.WellFormed()
      {
        PrefixSnoc(elements, i);
        RegisterInlineSnoc(old(actions), elements[..i], elements[i]);
        var element := elements[i];
        if element.actionId !in actions.entries {
          var inputs := ParseInputs(element);
          var action := RegisteredAction(InlineAction(element).(inputs := Some(inputs)), Inline);
          SetKeepsWellFormed(actions, action);
          actions := actions.Set(element.actionId, action);
        }
        i := i + 1;
      }
      assert elements[..i] == elements;
    }

    /** `parseInputs`: one input per `data-ai-param` element, in document order. */
    method ParseInputs(element: ActionElement) returns (inputs: seq<InputDef>)
      ensures inputs == InputsOf(element)
    {
      inputs := [];
      var i := 0;
      while i < |element.paramElements|
        invariant 0 <= i <= |element.paramElements|
        invariant |inputs| == i
        invariant forall j :: 0 <= j < i ==> inputs[j] == InputFromElement(element.paramElements[j])
      {
        var p := element.paramElements[i];
        var required := "data-ai-param-required" in p.attrs && p.attrs["data-ai-param-required"] == "true";
        var default := if "data-ai-param-default" in p.attrs then Some(Str(p.attrs["data-ai-param-default"])) else None;
        inputs := inputs + [InputDef(p.name, Some(AttrOr(p.attrs, "data-ai-param-type", "string")), required, default, None)];
        i := i + 1;
      }
    }

    /** `getActions` */
    function GetActions(): (r: seq<RegisteredAction>)
      reads this
      ensures actions.WellFormed() ==>
                |r| == |actions.order| && forall i :: 0 <= i < |r| ==> r[i] == actions.entries[actions.order[i]]
    {
      actions.Values()
    }

    /** `getAction` */
    function GetAction(actionId: string): (r: Option<RegisteredAction>)
      reads this
      ensures r.Some? <==> actionId in actions.entries
      ensures r.Some? ==> r.value == actions.entries[actionId] && (actions.WellFormed() ==> r.value.def.id == actionId)
    {
      if actionId in actions.entries then Some(actions.entries[actionId]) else None
    }

    /** `getActionsByType`: exactly the registered actions of type `t`, in insertion order. */
    function GetActionsByType(t: string): (r: seq<RegisteredAction>)
      reads this
      ensures forall a :: a in r <==> a in GetActions() && a.def.actionType == Some(t)
    {
      ByType(GetActions(), t)
    }

    /** `executeAction` up to the `fetch` call. */
    method ExecuteAction(actionId: string, params: Entries) returns (r: Result<HttpRequest, ExecError>)
      ensures r == Prepare(actions, actionId, params)
    {
      if actionId !in actions.entries {
        return Err(NotFound(actionId));
      }
      var action := actions.entries[actionId].def;
      var inputs := action.inputs.GetOr([]);
      var i := 0;
      while i < |inputs|
        invariant 0 <= i <= |inputs|
        invariant FirstMissing(inputs, params) == FirstMissing(inputs[i..], params)
      {
        if inputs[i].required && !HasKey(params, inputs[i].name) {
          return Err(MissingParameter(inputs[i].name));
        }
        assert inputs[i..][1..] == inputs[i + 1..];
        i := i + 1;
      }
      if action.httpMethod.None? {
        return Err(MethodMissing);
      }
      var m := AsciiUpper(action.httpMethod.value);
      if m == "GET" {
        var query: seq<(string, string)> := [];
        var j := 0;
        while j < |params|
          invariant 0 <= j <= |params|
          invariant query == QueryParams(params[..j])
        {
          assert params[..j + 1][..j] == params[..j];
          if !params[j].1.Null? {
            query := query + [(params[j].0, JsToString(params[j].1))];
          }
          j := j + 1;
        }
        assert params[..j] == params;
        r := Ok(HttpRequest(action.endpoint, m, AgentHeaders, Some(query), None));
      } else {
        r := Ok(HttpRequest(action.endpoint, m, AgentHeaders, None, Some(params)));
      }
    }

    /** `validateParams` */
    method ValidateParams(actionId: string, params: Entries, regexTest: (string, string) -> bool)
      returns (result: ValidationResult)
      ensures actionId !in actions.entries ==> result == ValidationResult(false, [ActionNotFound(actionId)])
      ensures actionId in actions.entries ==>
                result.errors == ClientParamErrors(actions.entries[actionId].def.inputs.GetOr([]), params, regexTest)
                && (result.valid <==> ClientConforms(actions.entries[actionId].def.inputs.GetOr([]), params, regexTest))
      ensures result.valid <==> result.errors == []
    {
      var action := GetAction(actionId);
      if action.None? {
        return ValidationResult(false, [ActionNotFound(actionId)]);
      }
      var inputs := action.value.def.inputs.GetOr([]);
      var errors: seq<ParamError> := [];
      var i := 0;
      while i < |inputs|
        invariant 0 <= i <= |inputs|
        invariant errors == ClientParamErrors(inputs[..i], params, regexTest)
      {
        var own := CheckParam(inputs[i], params, regexTest);
        PrefixSnoc(inputs, i);
        ClientParamErrorsSnoc(inputs[..i], inputs[i], params, regexTest);
        errors := errors + own;
        i := i + 1;
      }
      assert inputs[..i] == inputs;
      result := ValidationResult(|errors| == 0, errors);
    }

    /** `exportForAI` */
    function ExportForAI(): (e: Export)
      reads this
      ensures |e.actions| == |GetActions()|
      ensures forall i :: 0 <= i < |e.actions| ==> e.actions[i] == ExportAction(GetActions()[i])
      ensures e.version == (if manifest.Some? then OrElse(manifest.value.version, "1.0") else "1.0")
      ensures e.name == (if manifest.Some? then OrElse(manifest.value.name, "Unknown") else "Unknown")
      ensures e.description == (if manifest.Some? then OrElse(manifest.value.description, "") else "")
      ensures manifest.None? ==> e.rateLimits.None? && e.authentication.None?
      ensures manifest.Some? ==> e.rateLimits == manifest.value.rateLimits && e.authentication == manifest.value.authentication
    {
      var acts := GetActions();
      Export(if manifest.Some? then OrElse(manifest.value.version, "1.0") else "1.0",
             if manifest.Some? then OrElse(manifest.value.name, "Unknown") else "Unknown",
             if manifest.Some? then OrElse(manifest.value.description, "") else "",
             seq(|acts|, i requires 0 <= i < |acts| => ExportAction(acts[i])),
             if manifest.Some? then manifest.value.rateLimits else None,
             if manifest.Some? then manifest.value.authentication else None)
    }
  }

  /** The `forEach` callback of `validateParams`: the errors of one declared input. */
  method CheckParam(input: InputDef, params: Entries, regexTest: (string, string) -> bool) returns (own: seq<ParamError>)
    ensures own == ClientInputErrorsOf(input, params, regexTest)
  {
    var value := Get(params, input.name);
    own := [];
    if input.required && (value.None? || value.value.Null?) {
      own := own + [Required(input.name)];
    }
    if value.Some? && !value.value.Null? {
      var v := value.value;
      var actualType := JsTypeOf(v);
      if input.paramType != Some(actualType) && input.paramType != Some("any") {
        own := own + [TypeMismatch(input.name, input.paramType, actualType)];
      }
      assert own == TypeErrors(input, v);
      if input.validation.Some? {
        own := own + JsRuleErrors(input.name, v, input.validation.value, regexTest);
      }
    }
  }

  /** The export lists the registry's ids in insertion order. */
  lemma ExportFollowsRegistry(p: AwasParser)
    requires p.Valid()
    ensures |p.ExportForAI().actions| == |p.actions.order|
    ensures forall i :: 0 <= i < |p.actions.order| ==> p.ExportForAI().actions[i].id == p.actions.order[i]
  {
  }
}
