/**
 Suspending the response chain and resuming it from the callback of the service
 that suspended it: the two legs together do what one uninterrupted pass does.
 */
module Resume {
  import opened Wrappers
  import opened Sessions
  import opened Internal
  import opened Proxies

  function Rebase<T>(o: Outcome<T>, r: Request): Outcome<T> {
    Outcome(o.ctx.(request := r), o.result)
  }

  /** The service answers the same whatever HTTP request brought it about. */
  ghost predicate RequestBlind(s: Service) {
    forall c: Ctx, d: InternalData, r: Request :: s.onResponse(c.(request := r), d) == Rebase(s.onResponse(c, d), r)
  }

  ghost predicate FrontendBlind(f: Frontend) {
    forall c: Ctx, d: InternalData, r: Request ::
      f.onAuthnResponse(c.(request := r), d) == Rebase(f.onAuthnResponse(c, d), r)
  }

  ghost predicate LaterBlind(p: Proxy, j: nat) {
    && (forall i :: j < i < |p.services| ==> RequestBlind(p.services[i]))
    && (forall f :: f in p.frontends ==> FrontendBlind(p.frontends[f]))
  }

  lemma {:induction false} ChainBlind(ss: seq<Service>, c: Ctx, d: InternalData, r: Request)
    requires forall i :: 0 <= i < |ss| ==> RequestBlind(ss[i])
    ensures ResponseChain(ss, c.(request := r), d) == Rebase(ResponseChain(ss, c, d), r)
    ensures Visited(ss, c.(request := r), d) == Visited(ss, c, d)
    decreases |ss|
  {
    if ss != [] {
      var o := ss[0].onResponse(c, d);
      assert RequestBlind(ss[0]);
      assert ss[0].onResponse(c.(request := r), d) == Rebase(o, r);
      if o.result.Ok? && o.result.value.Continue? {
        ChainBlind(ss[1..], o.ctx, o.result.value.data, r);
      }
    }
  }

  lemma RenderBlind(p: Proxy, c: Ctx, d: InternalData, r: Request)
    requires forall f :: f in p.frontends ==> FrontendBlind(p.frontends[f])
    ensures Render(p, c.(request := r), d) == Rebase(Render(p, c, d), r)
  {
    var name := OrElse(c.targetFrontend, BaseFrontend(c));
    if name.Some? && name.value in p.frontends {
      var f := p.frontends[name.value];
      var c1 := c.(targetFrontend := name);
      assert FrontendBlind(f);
      assert f.onAuthnResponse(c1.(request := r), d) == Rebase(f.onAuthnResponse(c1, d), r);
      assert c.(request := r).(targetFrontend := name) == c1.(request := r);
    }
  }

  lemma FinishBlind(p: Proxy, c: Ctx, d: InternalData, start: nat, r: Request)
    requires start <= |p.services|
    requires forall i :: start <= i < |p.services| ==> RequestBlind(p.services[i])
    requires forall f :: f in p.frontends ==> FrontendBlind(p.frontends[f])
    ensures FinishResponse(p, c.(request := r), d, start) == Rebase(FinishResponse(p, c, d, start), r)
  {
    ChainBlind(p.services[start..], c, d, r);
    var o := ResponseChain(p.services[start..], c, d);
    if o.result.Ok? && o.result.value.Continue? {
      RenderBlind(p, o.ctx, o.result.value.data, r);
    }
  }

  // ---- A pass is a prefix of the configured order ----

  function Names(ss: seq<Service>): (names: seq<string>)
    ensures |names| == |ss| && forall i :: 0 <= i < |ss| ==> names[i] == ss[i].name
  {
    seq(|ss|, i requires 0 <= i < |ss| => ss[i].name)
  }

  predicate ReachesEnd(o: Outcome<ResponseAction>) {
    o.result.Ok? && o.result.value.Continue?
  }

  /** A pass applies services in configured order without skipping or repeating
      any; a pass that reaches its end has applied all of them. */
  lemma {:induction false} VisitedInOrder(ss: seq<Service>, c: Ctx, d: InternalData)
    ensures Visited(ss, c, d) <= Names(ss)
    ensures ReachesEnd(ResponseChain(ss, c, d)) ==> Visited(ss, c, d) == Names(ss)
    decreases |ss|
  {
    if ss != [] {
      assert Names(ss) == [ss[0].name] + Names(ss[1..]);
      var o := ss[0].onResponse(c, d);
      if o.result.Ok? && o.result.value.Continue? {
        VisitedInOrder(ss[1..], o.ctx, o.result.value.data);
      }
    }
  }

  ghost predicate Completes(ss: seq<Service>, c: Ctx, d: InternalData, c': Ctx, d': InternalData) {
    ResponseChain(ss, c, d) == Outcome(c', Ok(Continue(d')))
  }

  lemma {:induction false} ChainSplits(a: seq<Service>, b: seq<Service>, c: Ctx, d: InternalData,
                                     c': Ctx, d': InternalData)
    requires Completes(a, c, d, c', d')
    ensures ResponseChain(a + b, c, d) == ResponseChain(b, c', d')
    ensures Visited(a + b, c, d) == Names(a) + Visited(b, c', d')
    decreases |a|
  {
    if a == [] {
      assert a + b == b;
    } else {
      var o := a[0].onResponse(c, d);
      assert o.result.Ok? && o.result.value.Continue?;
      assert (a + b)[1..] == a[1..] + b;
      ChainSplits(a[1..], b, o.ctx, o.result.value.data, c', d');
      assert Names(a) == [a[0].name] + Names(a[1..]);
    }
  }

  // ---- Suspension ----

  /** The context of the callback: a fresh request with only the state left. */
  function Callback(c: Ctx, r: Request): Ctx {
    Ctx(r, None, None, c.data, false, map[])
  }

  /** At `(c, d)` the service suspends the response; its endpoint, called back with
      nothing but the stored state, hands on what `whole`, the same service not
      needing to suspend, would have handed on directly. */
  ghost predicate SuspendsAs(s: Service, whole: Service, c: Ctx, d: InternalData, r: Request, route: string) {
    var suspended := s.onResponse(c, d);
    && s.name == whole.name
    && suspended.result.Ok? && suspended.result.value.Interrupt?
    && (var back := s.onEndpoint(Callback(suspended.ctx, r), route);
        var direct := whole.onResponse(c, d);
        && back.result.Ok? && back.result.value.ResumeResponse?
        && direct.result == Ok(Continue(back.result.value.response))
        && direct.ctx == back.ctx.(request := direct.ctx.request))
  }

  ghost predicate OwnsName(ss: seq<Service>, j: nat)
    requires j < |ss|
  {
    forall i :: 0 <= i < j ==> ss[i].name != ss[j].name
  }

  /** Resuming finds its own service again exactly when no earlier service shares
      its name; configuration rejects such lists. */
  lemma {:induction false} ResumeFindsOwner(ss: seq<Service>, j: nat)
    requires j < |ss|
    ensures Position(ss, ss[j].name) == j <==> OwnsName(ss, j)
  {
    if j > 0 && ss[0].name != ss[j].name {
      ResumeFindsOwner(ss[1..], j - 1);
    }
  }

  /** A pass that gets past the first `j` services continues with service `j`. */
  lemma ChainFrom(ss: seq<Service>, j: nat, c: Ctx, d: InternalData, cj: Ctx, dj: InternalData)
    requires j < |ss| && Completes(ss[..j], c, d, cj, dj)
    ensures ResponseChain(ss, c, d) == ResponseChain([ss[j]] + ss[j + 1..], cj, dj)
    ensures Visited(ss, c, d) == Names(ss[..j]) + Visited([ss[j]] + ss[j + 1..], cj, dj)
  {
    var rest := [ss[j]] + ss[j + 1..];
    assert ss[..j] + rest == ss;
    ChainSplits(ss[..j], rest, c, d, cj, dj);
  }

  lemma NamesOneMore(ss: seq<Service>, j: nat)
    requires j < |ss|
    ensures Names(ss[..j + 1]) == Names(ss[..j]) + [ss[j].name]
  {
  }

  lemma ChainOfOne(s: Service, rest: seq<Service>, c: Ctx, d: InternalData)
    ensures var o := s.onResponse(c, d);
            && ResponseChain([s] + rest, c, d) ==
                 (if ReachesEnd(o) then ResponseChain(rest, o.ctx, o.result.value.data) else o)
            && Visited([s] + rest, c, d) == [s.name] +
                 (if ReachesEnd(o) then Visited(rest, o.ctx, o.result.value.data) else [])
  {
    assert ([s] + rest)[1..] == rest;
  }

  /** What the interrupted leg does: it ends at the suspending service. */
  lemma InterruptedLeg(p: Proxy, j: nat, c: Ctx, d: InternalData, cj: Ctx, dj: InternalData)
    requires j < |p.services| && Completes(p.services[..j], c, d, cj, dj)
    requires p.services[j].onResponse(cj, dj).result.Ok? && p.services[j].onResponse(cj, dj).result.value.Interrupt?
    ensures var o := p.services[j].onResponse(cj, dj);
            FinishResponse(p, c, d, 0) == Outcome(o.ctx, Ok(o.result.value.http))
    ensures Visited(p.services, c, d) == Names(p.services[..j + 1])
  {
    assert p.services[0..] == p.services;
    ChainFrom(p.services, j, c, d, cj, dj);
    NamesOneMore(p.services, j);
    ChainOfOne(p.services[j], p.services[j + 1..], cj, dj);
  }

  /** What an uninterrupted pass does from the same point on. */
  lemma UninterruptedPass(p: Proxy, j: nat, c: Ctx, d: InternalData, cj: Ctx, dj: InternalData)
    requires j < |p.services| && Completes(p.services[..j], c, d, cj, dj)
    requires ReachesEnd(p.services[j].onResponse(cj, dj))
    ensures var o := p.services[j].onResponse(cj, dj);
            && FinishResponse(p, c, d, 0) == FinishResponse(p, o.ctx, o.result.value.data, j + 1)
            && Visited(p.services, c, d) == Names(p.services[..j + 1])
                 + Visited(p.services[j + 1..], o.ctx, o.result.value.data)
  {
    assert p.services[0..] == p.services;
    ChainFrom(p.services, j, c, d, cj, dj);
    NamesOneMore(p.services, j);
    ChainOfOne(p.services[j], p.services[j + 1..], cj, dj);
  }

  lemma SameTailSameFinish(p: Proxy, p': Proxy, c: Ctx, d: InternalData, start: nat)
    requires start <= |p.services| == |p'.services|
    requires p'.services[start..] == p.services[start..] && p'.frontends == p.frontends
    ensures FinishResponse(p', c, d, start) == FinishResponse(p, c, d, start)
  {
    var o := ResponseChain(p.services[start..], c, d);
    if ReachesEnd(o) {
      assert Render(p', o.ctx, o.result.value.data) == Render(p, o.ctx, o.result.value.data);
    }
  }

  /** What the second leg does: it resumes right after the owner of the endpoint. */
  lemma SecondLeg(p: Proxy, j: nat, c: Ctx, r: Request, route: string)
    requires j < |p.services| && OwnsName(p.services, j)
    requires r.path in p.routes && p.routes[r.path] == Endpoint(IsService, p.services[j].name, route)
    ensures var back := p.services[j].onEndpoint(Callback(c, r), route);
            back.result.Ok? && back.result.value.ResumeResponse? ==>
              Dispatch(p, Callback(c, r)) == FinishResponse(p, back.ctx, back.result.value.response, j + 1)
  {
    ResumeFindsOwner(p.services, j);
  }

  /** The main theorem. Suspend the response at any service `j`, let the browser
      come back to that service's endpoint, and the second leg renders exactly
      the answer of one uninterrupted pass and leaves the same context behind. */
  lemma ResumeEqualsUninterrupted(p: Proxy, j: nat, whole: Service, c: Ctx, d: InternalData,
                                  cj: Ctx, dj: InternalData, r: Request, route: string)
    requires j < |p.services| && OwnsName(p.services, j) && LaterBlind(p, j)
    requires r.path in p.routes && p.routes[r.path] == Endpoint(IsService, p.services[j].name, route)
    requires Completes(p.services[..j], c, d, cj, dj)
    requires SuspendsAs(p.services[j], whole, cj, dj, r, route)
    ensures var direct := FinishResponse(p.(services := p.services[j := whole]), c, d, 0);
            var leg1 := FinishResponse(p, c, d, 0);
            var leg2 := Dispatch(p, Callback(leg1.ctx, r));
            && leg1.result == Ok(p.services[j].onResponse(cj, dj).result.value.http)
            && leg2.result == direct.result
            && leg2.ctx == direct.ctx.(request := leg2.ctx.request)
  {
    var p' := p.(services := p.services[j := whole]);
    assert p'.services[..j] == p.services[..j] && p'.services[j + 1..] == p.services[j + 1..];
    var suspended := p.services[j].onResponse(cj, dj).ctx;
    var back := p.services[j].onEndpoint(Callback(suspended, r), route);
    var direct := whole.onResponse(cj, dj);
    var d2 := back.result.value.response;
    assert Completes(p'.services[..j], c, d, cj, dj);
    InterruptedLeg(p, j, c, d, cj, dj);
    SecondLeg(p, j, suspended, r, route);
    UninterruptedPass(p', j, c, d, cj, dj);
    SameTailSameFinish(p, p', direct.ctx, d2, j + 1);
    FinishBlind(p, back.ctx, d2, j + 1, direct.ctx.request);
  }

  /** Between them the two legs apply every service of the uninterrupted pass
      exactly once, in configured order. */
  lemma LegsVisitEachOnce(p: Proxy, j: nat, whole: Service, c: Ctx, d: InternalData,
                          cj: Ctx, dj: InternalData, r: Request, route: string)
    requires j < |p.services| && LaterBlind(p, j)
    requires Completes(p.services[..j], c, d, cj, dj)
    requires SuspendsAs(p.services[j], whole, cj, dj, r, route)
    ensures var back := p.services[j].onEndpoint(Callback(p.services[j].onResponse(cj, dj).ctx, r), route);
            && Visited(p.services, c, d) == Names(p.services[..j + 1])
            && Visited(p.services, c, d) + Visited(p.services[j + 1..], back.ctx, back.result.value.response)
                 == Visited(p.services[j := whole], c, d)
  {
    var p' := p.(services := p.services[j := whole]);
    assert p'.services[..j] == p.services[..j] && p'.services[j + 1..] == p.services[j + 1..];
    var back := p.services[j].onEndpoint(Callback(p.services[j].onResponse(cj, dj).ctx, r), route);
    var direct := whole.onResponse(cj, dj);
    assert Completes(p'.services[..j], c, d, cj, dj);
    InterruptedLeg(p, j, c, d, cj, dj);
    UninterruptedPass(p', j, c, d, cj, dj);
    ChainBlind(p.services[j + 1..], back.ctx, back.result.value.response, direct.ctx.request);
    assert Names(p'.services[..j + 1]) == Names(p.services[..j + 1]);
  }

  // ---- Any number of suspensions ----

  /** One suspension of a flow: where, what the service would have done directly,
      and the request with which the browser comes back. */
  datatype Suspension = Suspension(at: nat, whole: Service, callback: Request, route: string)

  /** The proxy whose suspending services never need to suspend. */
  function Smoothed(p: Proxy, sus: seq<Suspension>): (q: Proxy)
    requires forall n :: 0 <= n < |sus| ==> sus[n].at < |p.services|
    ensures q.frontends == p.frontends && q.routes == p.routes && |q.services| == |p.services|
    decreases |sus|
  {
    if sus == [] then p else
    var last := sus[|sus| - 1];
    var q := Smoothed(p, sus[..|sus| - 1]);
    q.(services := q.services[last.at := last.whole])
  }

  /** The outcome of the last leg of a flow with these suspensions. */
  function LastLeg(p: Proxy, c: Ctx, d: InternalData, sus: seq<Suspension>): Outcome<Http>
    decreases |sus|
  {
    if sus == [] then FinishResponse(p, c, d, 0)
    else Dispatch(p, Callback(LastLeg(p, c, d, sus[..|sus| - 1]).ctx, sus[|sus| - 1].callback))
  }

  ghost predicate SuspendsThere(q: Proxy, c: Ctx, d: InternalData, s: Suspension)
    requires s.at < |q.services|
  {
    var o := ResponseChain(q.services[..s.at], c, d);
    ReachesEnd(o) && SuspendsAs(q.services[s.at], s.whole, o.ctx, o.result.value.data, s.callback, s.route)
  }

  /** Each suspension replaces a service by one of the same name, further down the
      chain than the suspension before. */
  ghost predicate Descends(p: Proxy, sus: seq<Suspension>) {
    && (forall n :: 0 <= n < |sus| ==> sus[n].at < |p.services| && sus[n].whole.name == p.services[sus[n].at].name)
    && (forall m, n :: 0 <= m < n < |sus| ==> sus[m].at < sus[n].at)
  }

  /** The callback of a suspension reaches the endpoint of the service itself. */
  ghost predicate Reaches(p: Proxy, s: Suspension)
    requires s.at < |p.services|
  {
    && OwnsName(p.services, s.at) && LaterBlind(p, s.at)
    && s.callback.path in p.routes
    && p.routes[s.callback.path] == Endpoint(IsService, p.services[s.at].name, s.route)
  }

  /** Every suspension happens in its turn: it is reached once the ones before it
      are over, and its callback finds the service again. */
  ghost predicate SuspendsInTurn(p: Proxy, c: Ctx, d: InternalData, sus: seq<Suspension>)
    requires Descends(p, sus)
    decreases |sus|
  {
    sus == [] ||
    (var last := sus[|sus| - 1];
     var fewer := sus[..|sus| - 1];
     SuspendsInTurn(p, c, d, fewer) && Reaches(p, last) && SuspendsThere(Smoothed(p, fewer), c, d, last))
  }

  /** Smoothing keeps every name, and every service after the last suspension. */
  lemma {:induction false} SmoothingIsLocal(p: Proxy, sus: seq<Suspension>, from: nat)
    requires Descends(p, sus)
    requires forall n :: 0 <= n < |sus| ==> sus[n].at < from
    ensures var q := Smoothed(p, sus);
            && (forall i :: 0 <= i < |p.services| ==> q.services[i].name == p.services[i].name)
            && (forall i :: from <= i < |p.services| ==> q.services[i] == p.services[i])
    decreases |sus|
  {
    if sus != [] {
      SmoothingIsLocal(p, sus[..|sus| - 1], from);
    }
  }

  lemma SmoothedReaches(p: Proxy, q: Proxy, s: Suspension)
    requires s.at < |p.services| == |q.services| && Reaches(p, s)
    requires q.frontends == p.frontends && q.routes == p.routes
    requires forall i :: 0 <= i < |p.services| ==> q.services[i].name == p.services[i].name
    requires forall i :: s.at <= i < |p.services| ==> q.services[i] == p.services[i]
    ensures Reaches(q, s)
  {
  }

  /** A flow suspended any number of times ends in the answer and the state of
      one uninterrupted pass. */
  lemma {:induction false} ManySuspensions(p: Proxy, c: Ctx, d: InternalData, sus: seq<Suspension>)
    requires Descends(p, sus) && SuspendsInTurn(p, c, d, sus)
    ensures var direct := FinishResponse(Smoothed(p, sus), c, d, 0);
            var last := LastLeg(p, c, d, sus);
            last.result == direct.result && last.ctx == direct.ctx.(request := last.ctx.request)
    decreases |sus|
  {
    if sus != [] {
      var n := |sus| - 1;
      var fewer, s := sus[..n], sus[n];
      ManySuspensions(p, c, d, fewer);
      SmoothingIsLocal(p, fewer, s.at);
      var q := Smoothed(p, fewer);
      SmoothedReaches(p, q, s);
      OneMoreSuspension(p, q, s, c, d, LastLeg(p, c, d, fewer).ctx);
    }
  }

  lemma OneMoreSuspension(p: Proxy, q: Proxy, s: Suspension, c: Ctx, d: InternalData, left: Ctx)
    requires s.at < |p.services| == |q.services| && Reaches(p, s) && Reaches(q, s)
    requires q.frontends == p.frontends && q.routes == p.routes
    requires forall i :: s.at <= i < |p.services| ==> q.services[i] == p.services[i]
    requires SuspendsThere(q, c, d, s)
    requires left.data == FinishResponse(q, c, d, 0).ctx.data
    ensures var direct := FinishResponse(q.(services := q.services[s.at := s.whole]), c, d, 0);
            var next := Dispatch(p, Callback(left, s.callback));
            next.result == direct.result && next.ctx == direct.ctx.(request := next.ctx.request)
  {
    var o := ResponseChain(q.services[..s.at], c, d);
    var d' := o.result.value.data;
    ResumeEqualsUninterrupted(q, s.at, s.whole, c, d, o.ctx, d', s.callback, s.route);
    InterruptedLeg(q, s.at, c, d, o.ctx, d');
    SmoothedCallback(p, q, s, left, FinishResponse(q, c, d, 0).ctx, o.ctx, d');
  }

  /** The callback of a later suspension meets the same services either way. */
  lemma SmoothedCallback(p: Proxy, q: Proxy, s: Suspension, left: Ctx, left': Ctx, c: Ctx, d: InternalData)
    requires s.at < |p.services| == |q.services| && OwnsName(p.services, s.at) && OwnsName(q.services, s.at)
    requires q.frontends == p.frontends && q.routes == p.routes
    requires forall i :: s.at <= i < |p.services| ==> q.services[i] == p.services[i]
    requires s.callback.path in p.routes
    requires p.routes[s.callback.path] == Endpoint(IsService, p.services[s.at].name, s.route)
    requires left.data == left'.data
    requires left'.data == q.services[s.at].onResponse(c, d).ctx.data
    requires SuspendsAs(q.services[s.at], s.whole, c, d, s.callback, s.route)
    ensures Dispatch(p, Callback(left, s.callback)) == Dispatch(q, Callback(left', s.callback))
  {
    assert Callback(left, s.callback) == Callback(left', s.callback)
        == Callback(q.services[s.at].onResponse(c, d).ctx, s.callback);
    SecondLeg(p, s.at, left, s.callback, s.route);
    SecondLeg(q, s.at, left, s.callback, s.route);
    var back := q.services[s.at].onEndpoint(Callback(left, s.callback), s.route);
    assert p.services[s.at + 1..] == q.services[s.at + 1..];
    SameTailSameFinish(p, q, back.ctx, back.result.value.response, s.at + 1);
  }

  // ---- A service that suspends this way ----

  const KEY_SNAPSHOT: string := "snapshot"
  const KEY_INITIAL_POLICY: string := "stepup_initial_policy"

  /**
   * The step-up service: its own namespace and that of the SAML backend it delegates to. `challenge` is
   * what starting the delegated login stores there and answers; `answer` is what its callback makes of
   * the request and that state; `complete` merges the answer into the stored response, or refuses it.
   */
  datatype StepUp = StepUp(
    name: string,
    namespace: string,
    delegated: string,
    challenge: (Ctx, InternalData) -> (Json, Http),
    answer: Ctx -> Result<InternalData, Failure>,
    complete: (InternalData, InternalData) -> Result<InternalData, Failure>)

  /** The context with the policy of the first exchange taken out, as both outcomes leave it. */
  function WithoutPolicy(c: Ctx): Ctx {
    c.(decorations := c.decorations - {KEY_INITIAL_POLICY})
  }

  /** Stores the response and the request-local context, starts the delegated login, sends the browser away. */
  function Suspend(s: StepUp, c: Ctx, d: InternalData): Outcome<ResponseAction> {
    var c1 := WithoutPolicy(c);
    var (pending, http) := s.challenge(c1, d);
    Outcome(c1.(data := SetValue(c1.data, s.namespace, KEY_SNAPSHOT, SnapshotOf(c1, d))[s.delegated := pending]),
            Ok(Interrupt(http)))
  }

  /** The callback: a verified answer consumes both namespaces, even when completing it fails. */
  function Restore(s: StepUp, c: Ctx): Outcome<EndpointAction> {
    match ParseSnapshot(GetValue(c.data, s.namespace, KEY_SNAPSHOT))
    case None => Outcome(c, Err(StateFailure))
    case Some(snapshot) =>
      match s.answer(c)
      case Err(e) => Outcome(c, Err(e))
      case Ok(answer) =>
        var cleared := c.(data := ClearNamespace(ClearNamespace(c.data, s.delegated), s.namespace));
        match s.complete(snapshot.response, answer)
        case Err(e) => Outcome(cleared, Err(e))
        case Ok(d) =>
          Outcome(cleared.(targetBackend := snapshot.backend, targetFrontend := snapshot.frontend,
                           decorations := snapshot.decorations),
                  Ok(ResumeResponse(d)))
  }

  function AsService(s: StepUp): Service {
    Service(s.name, (c: Ctx, d: InternalData) => Outcome(c, Ok(d)),
            (c: Ctx, d: InternalData) => Suspend(s, c, d), (c: Ctx, route: string) => Restore(s, c))
  }

  /** The same service when the login already satisfies it and `result` is what it hands on. */
  function Satisfied(s: StepUp, result: InternalData): Service {
    Service(s.name, (c: Ctx, d: InternalData) => Outcome(c, Ok(d)),
            (c: Ctx, d: InternalData) =>
              Outcome(WithoutPolicy(c).(data := ClearNamespace(c.data, s.namespace)), Ok(Continue(result))),
            (c: Ctx, route: string) => Restore(s, c))
  }

  function SnapshotOf(c: Ctx, d: InternalData): Json {
    Object(map["response" := Encode(d),
               "target_backend" := OptionalName(c.targetBackend),
               "target_frontend" := OptionalName(c.targetFrontend),
               "decorations" := Object(c.decorations)])
  }

  datatype Snapshot = Snapshot(
    response: InternalData,
    backend: Option<string>,
    frontend: Option<string>,
    decorations: map<string, Json>)

  function ParseSnapshot(j: Option<Json>): Option<Snapshot> {
    if j.None? || !j.value.Object? then None else
    var f := j.value.fields;
    if "response" !in f || "target_backend" !in f || "target_frontend" !in f
       || "decorations" !in f || !f["decorations"].Object?
    then None
    else match Decode(f["response"])
      case Err(_) => None
      case Ok(d) => Some(Snapshot(d, NameOf(f["target_backend"]), NameOf(f["target_frontend"]),
                                  f["decorations"].fields))
  }

  lemma SnapshotParses(c: Ctx, d: InternalData)
    ensures ParseSnapshot(Some(SnapshotOf(c, d))) == Some(Snapshot(d, c.targetBackend, c.targetFrontend, c.decorations))
  {
    assert |"response"| == 8 && |"target_backend"| == 14 && |"target_frontend"| == 15 && |"decorations"| == 11;
    DecodeInvertsEncode(d);
  }

  /** Only this service writes its namespace, as an object, and no earlier delegated login was abandoned. */
  ghost predicate Undisturbed(s: StepUp, c: Ctx) {
    && s.namespace != s.delegated
    && (s.namespace in c.data ==> c.data[s.namespace].Object?)
    && s.delegated !in c.data && !c.delete
  }

  /** Whatever the delegated login answers, once it is completed the service has suspended transparently:
      the theorems above apply to it wherever it stands. */
  lemma StepUpSuspends(s: StepUp, c: Ctx, d: InternalData, r: Request, route: string,
                       answer: InternalData, result: InternalData)
    requires Undisturbed(s, c)
    requires s.answer(Callback(Suspend(s, c, d).ctx, r)) == Ok(answer) && s.complete(d, answer) == Ok(result)
    ensures SuspendsAs(AsService(s), Satisfied(s, result), c, d, r, route)
  {
    var callback := Callback(Suspend(s, c, d).ctx, r);
    StoredSnapshot(s, c, d);
    SnapshotParses(WithoutPolicy(c), d);
    assert Restore(s, callback)
        == Outcome(WithoutPolicy(c).(request := r, data := ClearNamespace(c.data, s.namespace)),
                   Ok(ResumeResponse(result)));
  }

  lemma StoredSnapshot(s: StepUp, c: Ctx, d: InternalData)
    requires Undisturbed(s, c)
    ensures var sent := Suspend(s, c, d).ctx.data;
            && GetValue(sent, s.namespace, KEY_SNAPSHOT) == Some(SnapshotOf(WithoutPolicy(c), d))
            && ClearNamespace(ClearNamespace(sent, s.delegated), s.namespace) == ClearNamespace(c.data, s.namespace)
  {
  }

  /** An answer that cannot be completed ends the flow: no later callback finds the snapshot again. */
  lemma RefusedStepUpIsConsumed(s: StepUp, c: Ctx, answer: InternalData, e: Failure)
    requires ParseSnapshot(GetValue(c.data, s.namespace, KEY_SNAPSHOT)).Some?
    requires s.answer(c) == Ok(answer)
    requires s.complete(ParseSnapshot(GetValue(c.data, s.namespace, KEY_SNAPSHOT)).value.response, answer) == Err(e)
    ensures var o := Restore(s, c);
            && o.result == Err(e)
            && forall r: Request :: Restore(s, Callback(o.ctx, r)).result == Err(StateFailure)
  {
  }

  // ---- Unique names ----

  /** Configuration loading rejects a list in which two services share a name. */
  method NamesAreUnique(ss: seq<Service>) returns (unique: bool)
    ensures unique <==> forall j :: 0 <= j < |ss| ==> OwnsName(ss, j)
  {
    var seen: set<string> := {};
    for n := 0 to |ss|
      invariant seen == set i | 0 <= i < n :: ss[i].name
      invariant forall j :: 0 <= j < n ==> OwnsName(ss, j)
    {
      if ss[n].name in seen {
        assert !OwnsName(ss, n);
        return false;
      }
      seen := seen + {ss[n].name};
    }
    unique := true;
  }
}
