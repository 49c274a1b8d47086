/**
 The orchestrator in its own form: a request context whose fields the proxy
 updates in place, and loops that reassign the request or response while they
 walk the services. Every method is proved against the functions of `Proxies`.
 */
module ProxyServers {
  import opened Wrappers
  import opened Sessions
  import opened Internal
  import opened Proxies

  class Context {
    const request: Request
    var targetBackend: Option<string>
    var targetFrontend: Option<string>
    var data: Data
    var delete: bool
    var decorations: map<string, Json>

    constructor (request: Request, data: Data)
      ensures View() == Ctx(request, None, None, data, false, map[])
    {
      this.request, this.data := request, data;
      targetBackend, targetFrontend, delete, decorations := None, None, false, map[];
    }

    function View(): Ctx
      reads this
    {
      Ctx(request, targetBackend, targetFrontend, data, delete, decorations)
    }

    /** Takes over what a plugin did to the context; the request is immutable. */
    method Adopt(c: Ctx)
      modifies this
      ensures View() == c.(request := request)
    {
      targetBackend, targetFrontend, data, delete, decorations :=
        c.targetBackend, c.targetFrontend, c.data, c.delete, c.decorations;
    }

    method SetBaseValue(key: string, value: string)
      modifies this`data
      ensures View() == SetBase(old(View()), key, value)
    {
      data := SetStr(data, BASE, key, value);
    }
  }

  /** No plugin replaces the HTTP request it was handed. */
  ghost predicate KeepRequest(p: Proxy) {
    && (forall s, c, d :: s in p.services ==> s.onRequest(c, d).ctx.request == c.request)
    && (forall s, c, d :: s in p.services ==> s.onResponse(c, d).ctx.request == c.request)
    && (forall s, c, r :: s in p.services ==> s.onEndpoint(c, r).ctx.request == c.request)
    && (forall f, c, r :: f in p.frontends ==> p.frontends[f].onEndpoint(c, r).ctx.request == c.request)
    && (forall f, c, d :: f in p.frontends ==> p.frontends[f].onAuthnResponse(c, d).ctx.request == c.request)
    && (forall f, c, e :: f in p.frontends ==> p.frontends[f].onError(c, e).ctx.request == c.request)
    && (forall b, c, r :: b in p.backends ==> p.backends[b].onEndpoint(c, r).ctx.request == c.request)
    && (forall b, c, d :: b in p.backends ==> p.backends[b].startAuth(c, d).ctx.request == c.request)
  }

  method FinishRequestInPlace(p: Proxy, ctx: Context, first: InternalData, start: nat, pinned: Option<string>)
    returns (result: Result<Http, Failure>)
    requires start <= |p.services| && KeepRequest(p)
    modifies ctx
    ensures Outcome(ctx.View(), result) == FinishRequest(p, old(ctx.View()), first, start, pinned)
  {
    var request := first;
    var i := start;
    while i < |p.services|
      invariant start <= i <= |p.services|
      invariant RequestChain(p.services[i..], ctx.View(), request)
                == RequestChain(p.services[start..], old(ctx.View()), first)
    {
      assert p.services[i..][0] == p.services[i] && p.services[i..][1..] == p.services[i + 1..];
      var o := p.services[i].onRequest(ctx.View(), request);
      ctx.Adopt(o.ctx);
      if o.result.Err? {
        return Err(o.result.error);
      }
      request := o.result.value;
      i := i + 1;
    }
    var name := OrElse(pinned, OrElse(ctx.targetBackend, p.defaultBackend));
    if name.None? {
      return Err(ConfigFailure);
    }
    ctx.targetBackend := name;
    if name.value !in p.backends {
      return Err(UnknownModule(name.value));
    }
    var started := p.backends[name.value].startAuth(ctx.View(), request);
    ctx.Adopt(started.ctx);
    result := started.result;
  }

  method FinishResponseInPlace(p: Proxy, ctx: Context, first: InternalData, start: nat)
    returns (result: Result<Http, Failure>)
    requires start <= |p.services| && KeepRequest(p)
    modifies ctx
    ensures Outcome(ctx.View(), result) == FinishResponse(p, old(ctx.View()), first, start)
  {
    var response := first;
    var i := start;
    while i < |p.services|
      invariant start <= i <= |p.services|
      invariant ResponseChain(p.services[i..], ctx.View(), response)
                == ResponseChain(p.services[start..], old(ctx.View()), first)
    {
      assert p.services[i..][0] == p.services[i] && p.services[i..][1..] == p.services[i + 1..];
      var o := p.services[i].onResponse(ctx.View(), response);
      ctx.Adopt(o.ctx);
      match o.result {
        case Err(e) => return Err(e);
        case Ok(Interrupt(http)) => return Ok(http);
        case Ok(Continue(next)) => response := next;
      }
      i := i + 1;
    }
    result := RenderInPlace(p, ctx, response);
  }

  method RenderInPlace(p: Proxy, ctx: Context, response: InternalData) returns (result: Result<Http, Failure>)
    requires KeepRequest(p)
    modifies ctx
    ensures Outcome(ctx.View(), result) == Render(p, old(ctx.View()), response)
  {
    var name := OrElse(ctx.targetFrontend, BaseFrontend(ctx.View()));
    if name.None? {
      return Err(StateFailure);
    }
    ctx.targetFrontend := name;
    if name.value !in p.frontends {
      return Err(UnknownModule(name.value));
    }
    var rendered := p.frontends[name.value].onAuthnResponse(ctx.View(), response);
    ctx.Adopt(rendered.ctx);
    if rendered.result.Ok? {
      ctx.delete := true;
    }
    result := rendered.result;
  }

  method DispatchFrontendInPlace(p: Proxy, ctx: Context, owner: string, route: string)
    returns (result: Result<Http, Failure>)
    requires KeepRequest(p)
    modifies ctx
    ensures Outcome(ctx.View(), result) == DispatchFrontend(p, old(ctx.View()), owner, route)
  {
    ctx.targetFrontend := Some(owner);
    if owner !in p.frontends {
      return Err(UnknownModule(owner));
    }
    var o := p.frontends[owner].onEndpoint(ctx.View(), route);
    ctx.Adopt(o.ctx);
    match o.result {
      case Err(e) => result := Err(e);
      case Ok(Answer(http)) => result := Ok(http);
      case Ok(StartAuth(request, backend)) =>
        if request.requester.Some? {
          ctx.SetBaseValue(KEY_REQUESTER, request.requester.value);
        }
        ctx.SetBaseValue(KEY_TARGET_FRONTEND, owner);
        result := FinishRequestInPlace(p, ctx, request, 0, backend);
    }
  }

  method DispatchBackendInPlace(p: Proxy, ctx: Context, owner: string, route: string)
    returns (result: Result<Http, Failure>)
    requires KeepRequest(p)
    modifies ctx
    ensures Outcome(ctx.View(), result) == DispatchBackend(p, old(ctx.View()), owner, route)
  {
    ctx.targetBackend := Some(owner);
    if owner !in p.backends {
      return Err(UnknownModule(owner));
    }
    var o := p.backends[owner].onEndpoint(ctx.View(), route);
    ctx.Adopt(o.ctx);
    match o.result {
      case Err(e) => result := Err(e);
      case Ok(Reply(http)) => result := Ok(http);
      case Ok(AuthResponse(response)) =>
        var name := OrElse(BaseFrontend(ctx.View()), ctx.targetFrontend);
        if name.None? {
          return Err(StateFailure);
        }
        ctx.targetFrontend := name;
        var returned := response;
        if returned.requester.None? {
          returned := returned.(requester := Requester(ctx.View()));
        }
        result := FinishResponseInPlace(p, ctx, returned, 0);
    }
  }

  method DispatchServiceInPlace(p: Proxy, ctx: Context, owner: string, route: string)
    returns (result: Result<Http, Failure>)
    requires KeepRequest(p)
    modifies ctx
    ensures Outcome(ctx.View(), result) == DispatchService(p, old(ctx.View()), owner, route)
  {
    var idx := Position(p.services, owner);
    if idx == |p.services| {
      return Err(UnknownModule(owner));
    }
    var o := p.services[idx].onEndpoint(ctx.View(), route);
    ctx.Adopt(o.ctx);
    match o.result {
      case Err(e) => result := Err(e);
      case Ok(Serve(http)) => result := Ok(http);
      case Ok(ResumeRequest(request)) =>
        var name := OrElse(ctx.targetFrontend, BaseFrontend(ctx.View()));
        if name.None? {
          return Err(StateFailure);
        }
        ctx.targetFrontend := name;
        ctx.SetBaseValue(KEY_TARGET_FRONTEND, name.value);
        if request.requester.Some? {
          ctx.SetBaseValue(KEY_REQUESTER, request.requester.value);
        }
        result := FinishRequestInPlace(p, ctx, request, idx + 1, None);
      case Ok(ResumeResponse(response)) =>
        result := FinishResponseInPlace(p, ctx, response, idx + 1);
    }
  }

  /** One request from the unsealed state to the state to be sealed. */
  method Run(p: Proxy, data: Data, request: Request) returns (http: Http, ctx: Context)
    requires KeepRequest(p)
    ensures fresh(ctx) && (http, ctx.View()) == Serves(p, data, request)
  {
    ctx := new Context(request, data);
    var result: Result<Http, Failure>;
    if request.path !in p.routes {
      result := Err(NoBoundEndpoint);
    } else {
      var e := p.routes[request.path];
      match e.kind {
        case IsFrontend => result := DispatchFrontendInPlace(p, ctx, e.owner, e.routeId);
        case IsBackend => result := DispatchBackendInPlace(p, ctx, e.owner, e.routeId);
        case IsService => result := DispatchServiceInPlace(p, ctx, e.owner, e.routeId);
      }
    }
    match result {
      case Ok(answer) => http := answer;
      case Err(error) =>
        var (rendered, left) := RenderError(p, ctx.View(), error);
        assert left.request == ctx.request;
        http := rendered;
        ctx.Adopt(left);
    }
  }
}
