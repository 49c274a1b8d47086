/**
 The proxy orchestrator. Plugins are functions of the request context and the
 internal data; every one returns the context it left behind together with its
 result, so a plugin may change the context even when it fails.
 */
module Proxies {
  import opened Wrappers
  import opened Sessions
  import opened Internal

  const BASE: string := "TUNNELBANA_BASE"
  const KEY_REQUESTER: string := "requester"
  const KEY_TARGET_FRONTEND: string := "target_frontend"
  const KEY_ERROR_REDIRECT: string := "error_redirect"

  datatype Request = Request(path: string, httpMethod: string, query: map<string, string>, form: map<string, string>)

  datatype Http = Text(status: nat, body: string) | Redirect(url: string)

  datatype Failure = NoBoundEndpoint | UnknownModule(name: string) | StateFailure
    | ConfigFailure | Authn(message: string)

  datatype Ctx = Ctx(
    request: Request,
    targetBackend: Option<string>,
    targetFrontend: Option<string>,
    data: Data,
    delete: bool,
    decorations: map<string, Json>)

  datatype Outcome<T> = Outcome(ctx: Ctx, result: Result<T, Failure>)

  datatype FrontendAction = Answer(http: Http) | StartAuth(request: InternalData, backend: Option<string>)
  datatype BackendAction = Reply(http: Http) | AuthResponse(response: InternalData)
  datatype EndpointAction = Serve(http: Http) | ResumeRequest(request: InternalData)
    | ResumeResponse(response: InternalData)
  datatype ResponseAction = Continue(data: InternalData) | Interrupt(http: Http)

  datatype Frontend = Frontend(
    onEndpoint: (Ctx, string) -> Outcome<FrontendAction>,
    onAuthnResponse: (Ctx, InternalData) -> Outcome<Http>,
    onError: (Ctx, Failure) -> Outcome<Http>)

  datatype Backend = Backend(
    startAuth: (Ctx, InternalData) -> Outcome<Http>,
    onEndpoint: (Ctx, string) -> Outcome<BackendAction>)

  datatype Service = Service(
    name: string,
    onRequest: (Ctx, InternalData) -> Outcome<InternalData>,
    onResponse: (Ctx, InternalData) -> Outcome<ResponseAction>,
    onEndpoint: (Ctx, string) -> Outcome<EndpointAction>)

  datatype ModuleKind = IsFrontend | IsService | IsBackend
  datatype Endpoint = Endpoint(kind: ModuleKind, owner: string, routeId: string)

  datatype Proxy = Proxy(
    frontends: map<string, Frontend>,
    backends: map<string, Backend>,
    services: seq<Service>,
    routes: map<string, Endpoint>,
    defaultBackend: Option<string>,
    statusHint: Failure -> nat)

  function Requester(c: Ctx): Option<string> {
    GetStr(c.data, BASE, KEY_REQUESTER)
  }

  function BaseFrontend(c: Ctx): Option<string> {
    GetStr(c.data, BASE, KEY_TARGET_FRONTEND)
  }

  function SetBase(c: Ctx, key: string, value: string): Ctx {
    c.(data := SetStr(c.data, BASE, key, value))
  }

  /** Records the requester, when there is one, and the originating frontend. */
  function RecordFlow(c: Ctx, requester: Option<string>, frontend: string): Ctx {
    var c1 := if requester.Some? then SetBase(c, KEY_REQUESTER, requester.value) else c;
    SetBase(c1, KEY_TARGET_FRONTEND, frontend)
  }

  // ---- The two pipelines ----

  function RequestChain(ss: seq<Service>, c: Ctx, d: InternalData): Outcome<InternalData>
    decreases |ss|
  {
    if ss == [] then Outcome(c, Ok(d)) else
    var o := ss[0].onRequest(c, d);
    if o.result.Err? then o else RequestChain(ss[1..], o.ctx, o.result.value)
  }

  /** Runs response services until one interrupts; `Continue` is a full pass. */
  function ResponseChain(ss: seq<Service>, c: Ctx, d: InternalData): Outcome<ResponseAction>
    decreases |ss|
  {
    if ss == [] then Outcome(c, Ok(Continue(d))) else
    var o := ss[0].onResponse(c, d);
    if o.result.Ok? && o.result.value.Continue? then ResponseChain(ss[1..], o.ctx, o.result.value.data) else o
  }

  /** The services a response pass applies, in order of application. */
  function Visited(ss: seq<Service>, c: Ctx, d: InternalData): seq<string>
    decreases |ss|
  {
    if ss == [] then [] else
    var o := ss[0].onResponse(c, d);
    [ss[0].name] + if o.result.Ok? && o.result.value.Continue?
                   then Visited(ss[1..], o.ctx, o.result.value.data) else []
  }

  function StartBackend(p: Proxy, c: Ctx, request: InternalData, pinned: Option<string>): Outcome<Http> {
    var name := OrElse(pinned, OrElse(c.targetBackend, p.defaultBackend));
    if name.None? then Outcome(c, Err(ConfigFailure)) else
    var c1 := c.(targetBackend := name);
    if name.value !in p.backends then Outcome(c1, Err(UnknownModule(name.value)))
    else p.backends[name.value].startAuth(c1, request)
  }

  function FinishRequest(p: Proxy, c: Ctx, request: InternalData, start: nat, pinned: Option<string>): Outcome<Http>
    requires start <= |p.services|
  {
    var o := RequestChain(p.services[start..], c, request);
    if o.result.Err? then Outcome(o.ctx, Err(o.result.error))
    else StartBackend(p, o.ctx, o.result.value, pinned)
  }

  /** Renders a finished response through the originating frontend and marks the
      session complete. */
  function Render(p: Proxy, c: Ctx, response: InternalData): Outcome<Http> {
    var name := OrElse(c.targetFrontend, BaseFrontend(c));
    if name.None? then Outcome(c, Err(StateFailure)) else
    var c1 := c.(targetFrontend := name);
    if name.value !in p.frontends then Outcome(c1, Err(UnknownModule(name.value))) else
    var o := p.frontends[name.value].onAuthnResponse(c1, response);
    if o.result.Err? then o else Outcome(o.ctx.(delete := true), o.result)
  }

  function FinishResponse(p: Proxy, c: Ctx, response: InternalData, start: nat): Outcome<Http>
    requires start <= |p.services|
  {
    var o := ResponseChain(p.services[start..], c, response);
    match o.result
    case Err(e) => Outcome(o.ctx, Err(e))
    case Ok(Interrupt(http)) => Outcome(o.ctx, Ok(http))
    case Ok(Continue(d)) => Render(p, o.ctx, d)
  }

  // ---- Dispatch ----

  function DispatchFrontend(p: Proxy, c: Ctx, owner: string, route: string): Outcome<Http> {
    var c1 := c.(targetFrontend := Some(owner));
    if owner !in p.frontends then Outcome(c1, Err(UnknownModule(owner))) else
    var o := p.frontends[owner].onEndpoint(c1, route);
    match o.result
    case Err(e) => Outcome(o.ctx, Err(e))
    case Ok(Answer(http)) => Outcome(o.ctx, Ok(http))
    case Ok(StartAuth(request, backend)) =>
      FinishRequest(p, RecordFlow(o.ctx, request.requester, owner), request, 0, backend)
  }

  function DispatchBackend(p: Proxy, c: Ctx, owner: string, route: string): Outcome<Http> {
    var c1 := c.(targetBackend := Some(owner));
    if owner !in p.backends then Outcome(c1, Err(UnknownModule(owner))) else
    var o := p.backends[owner].onEndpoint(c1, route);
    match o.result
    case Err(e) => Outcome(o.ctx, Err(e))
    case Ok(Reply(http)) => Outcome(o.ctx, Ok(http))
    case Ok(AuthResponse(response)) => ReturnResponse(p, o.ctx, response)
  }

  /** Recovers the originating frontend and requester, then runs the response
      services from the first one. */
  function ReturnResponse(p: Proxy, c: Ctx, response: InternalData): Outcome<Http> {
    var name := OrElse(BaseFrontend(c), c.targetFrontend);
    if name.None? then Outcome(c, Err(StateFailure)) else
    var c1 := c.(targetFrontend := name);
    var r := if response.requester.None? then response.(requester := Requester(c1)) else response;
    FinishResponse(p, c1, r, 0)
  }

  /** The first service of that name. */
  function Position(ss: seq<Service>, name: string): (i: nat)
    ensures i <= |ss|
    ensures i < |ss| ==> ss[i].name == name
    ensures forall j :: 0 <= j < i ==> ss[j].name != name
  {
    if ss == [] || ss[0].name == name then 0 else 1 + Position(ss[1..], name)
  }

  function DispatchService(p: Proxy, c: Ctx, owner: string, route: string): Outcome<Http> {
    var idx := Position(p.services, owner);
    if idx == |p.services| then Outcome(c, Err(UnknownModule(owner))) else
    var o := p.services[idx].onEndpoint(c, route);
    match o.result
    case Err(e) => Outcome(o.ctx, Err(e))
    case Ok(Serve(http)) => Outcome(o.ctx, Ok(http))
    case Ok(ResumeRequest(request)) => ContinueRequest(p, o.ctx, request, idx + 1)
    case Ok(ResumeResponse(response)) => FinishResponse(p, o.ctx, response, idx + 1)
  }

  /** Resumes a suspended request after the service that owns the endpoint. */
  function ContinueRequest(p: Proxy, c: Ctx, request: InternalData, start: nat): Outcome<Http>
    requires start <= |p.services|
  {
    var name := OrElse(c.targetFrontend, BaseFrontend(c));
    if name.None? then Outcome(c, Err(StateFailure)) else
    var c1 := SetBase(c.(targetFrontend := name), KEY_TARGET_FRONTEND, name.value);
    var c2 := if request.requester.Some? then SetBase(c1, KEY_REQUESTER, request.requester.value) else c1;
    FinishRequest(p, c2, request, start, None)
  }

  function Dispatch(p: Proxy, c: Ctx): Outcome<Http> {
    if c.request.path !in p.routes then Outcome(c, Err(NoBoundEndpoint)) else
    var e := p.routes[c.request.path];
    match e.kind
    case IsFrontend => DispatchFrontend(p, c, e.owner, e.routeId)
    case IsBackend => DispatchBackend(p, c, e.owner, e.routeId)
    case IsService => DispatchService(p, c, e.owner, e.routeId)
  }

  function Lower(ch: char): char {
    if 'A' <= ch <= 'Z' then ch - 'A' + 'a' else ch
  }

  predicate StartsWithIgnoreCase(url: string, scheme: string) {
    |scheme| <= |url| && forall i :: 0 <= i < |scheme| ==> Lower(url[i]) == scheme[i]
  }

  predicate IsValidErrorRedirect(url: string) {
    && ((StartsWithIgnoreCase(url, "https://") && |url| > 8) || (StartsWithIgnoreCase(url, "http://") && |url| > 7))
    && forall i :: 0 <= i < |url| ==> url[i] > ' ' && url[i] != 127 as char
  }

  function RenderError(p: Proxy, c: Ctx, e: Failure): (Http, Ctx) {
    var redirect := if KEY_ERROR_REDIRECT in c.decorations then c.decorations[KEY_ERROR_REDIRECT] else Null;
    if redirect.String? && IsValidErrorRedirect(redirect.s) then (Redirect(redirect.s), c) else
    var name := OrElse(c.targetFrontend, BaseFrontend(c));
    var generic := Text(p.statusHint(e), "request failed");
    if name.None? || name.value !in p.frontends then (generic, c) else
    var o := p.frontends[name.value].onError(c, e);
    (if o.result.Ok? then o.result.value else generic, o.ctx)
  }

  /** One request, from the unsealed state to the state that will be sealed. */
  function Serves(p: Proxy, data: Data, request: Request): (Http, Ctx) {
    var o := Dispatch(p, Ctx(request, None, None, data, false, map[]));
    match o.result
    case Ok(http) => (http, o.ctx)
    case Err(e) => RenderError(p, o.ctx, e)
  }
}
