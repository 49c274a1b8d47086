/**
 A browser that follows the session cookie through the proxy. The only memory
 between requests is the sealed state, so what holds of a flow is proved over
 every sequence of requests.
 */
module Browser {
  import opened Wrappers
  import opened Sessions
  import opened Words
  import opened Internal
  import opened Proxies
  import opened Disco
  import StateSeal

  /** One request. The browser presents the newest cookie unless it expired or was
      lost, and the proxy clears the cookie when the new state cannot be sealed. */
  datatype Leg = Leg(request: Request, presents: bool, sealable: bool)

  const NOTHING: Data := map[]

  function Presented(jar: Data, leg: Leg): Data {
    if leg.presents then jar else NOTHING
  }

  function Start(jar: Data, leg: Leg): Ctx {
    Ctx(leg.request, None, None, Presented(jar, leg), false, map[])
  }

  function Final(p: Proxy, jar: Data, leg: Leg): Ctx {
    Serves(p, Presented(jar, leg), leg.request).1
  }

  function JarAfter(p: Proxy, jar: Data, leg: Leg): Data {
    if Final(p, jar, leg).delete || !leg.sealable then NOTHING else Final(p, jar, leg).data
  }

  /** Why a leg presents the newest state or nothing: whatever the proxy sealed
      last is what the next request unseals, or an empty session. */
  lemma SealedStateIsAllThereIs(w: StateSeal.Primitives, s: StateSeal.Sealer, s': StateSeal.Sealer,
                                sealed: State, now: u64, nonce: nat, later: u64)
    requires StateSeal.Ideal(w) && s.Valid() && s'.Valid()
    requires StateSeal.Seal(w, s, sealed, now, nonce).Ok?
    ensures var next := StateSeal.Unseal(w, s', Some(StateSeal.Seal(w, s, sealed, now, nonce).value.value), later);
            next.data == NOTHING || (!sealed.delete && next.data == sealed.data)
  {
    if !sealed.delete {
      StateSeal.SealThenUnseal(w, s, s', sealed, now, nonce, later);
    }
  }

  // ---- Where a request enters the request pipeline ----

  /** A flow starts at a frontend or resumes at a service: the context and request
      with which the pipeline is entered, and at which service. */
  datatype Entry = Entry(ctx: Ctx, request: InternalData, frontend: string, start: nat, pinned: Option<string>)

  function FrontendEntry(p: Proxy, c: Ctx, owner: string, route: string): Option<Entry>
    requires owner in p.frontends
  {
    var o := p.frontends[owner].onEndpoint(c.(targetFrontend := Some(owner)), route);
    if o.result.Ok? && o.result.value.StartAuth? then
      var a := o.result.value;
      Some(Entry(RecordFlow(o.ctx, a.request.requester, owner), a.request, owner, 0, a.backend))
    else None
  }

  function ResumeEntry(p: Proxy, c: Ctx, request: InternalData, start: nat): Option<Entry> {
    var name := OrElse(c.targetFrontend, BaseFrontend(c));
    if name.None? then None else
    var c1 := SetBase(c.(targetFrontend := name), KEY_TARGET_FRONTEND, name.value);
    Some(Entry(if request.requester.Some? then SetBase(c1, KEY_REQUESTER, request.requester.value) else c1,
               request, name.value, start, None))
  }

  function ServiceEntry(p: Proxy, c: Ctx, owner: string, route: string): Option<Entry> {
    var idx := Position(p.services, owner);
    if idx == |p.services| then None else
    var o := p.services[idx].onEndpoint(c, route);
    if o.result.Ok? && o.result.value.ResumeRequest?
    then ResumeEntry(p, o.ctx, o.result.value.request, idx + 1) else None
  }

  function EntryOf(p: Proxy, c: Ctx): (e: Option<Entry>)
    ensures e.Some? ==> e.value.start <= |p.services|
  {
    if c.request.path !in p.routes then None else
    var r := p.routes[c.request.path];
    if r.kind.IsFrontend? && r.owner in p.frontends then FrontendEntry(p, c, r.owner, r.routeId)
    else if r.kind.IsService? then ServiceEntry(p, c, r.owner, r.routeId)
    else None
  }

  lemma EntryDispatches(p: Proxy, c: Ctx)
    requires EntryOf(p, c).Some?
    ensures var e := EntryOf(p, c).value;
            Dispatch(p, c) == FinishRequest(p, e.ctx, e.request, e.start, e.pinned)
  {
  }

  // ---- Namespaces nobody else writes ----

  ghost predicate Keeps(ns: string, c: Ctx, c': Ctx) {
    (ns in c.data <==> ns in c'.data) && (ns in c.data ==> c.data[ns] == c'.data[ns])
  }

  ghost predicate ServiceKeeps(ns: string, s: Service) {
    && (forall c, d :: Keeps(ns, c, s.onRequest(c, d).ctx))
    && (forall c, d :: Keeps(ns, c, s.onResponse(c, d).ctx))
    && (forall c, r :: Keeps(ns, c, s.onEndpoint(c, r).ctx))
  }

  /** Service `k` is the discovery service, and every other plugin writes only
      namespaces of its own. */
  ghost predicate Installed(p: Proxy, cfg: Config, k: nat) {
    var ns := cfg.Namespace();
    && k < |p.services| && p.services[k] == AsService(cfg) && ns != BASE
    && (forall i :: 0 <= i < |p.services| && i != k ==>
          ServiceKeeps(ns, p.services[i]) && p.services[i].name != cfg.name)
    && (forall f, c, r :: f in p.frontends ==> Keeps(ns, c, p.frontends[f].onEndpoint(c, r).ctx))
    && (forall f, c, d :: f in p.frontends ==> Keeps(ns, c, p.frontends[f].onAuthnResponse(c, d).ctx))
    && (forall f, c, e :: f in p.frontends ==> Keeps(ns, c, p.frontends[f].onError(c, e).ctx))
    && (forall b, c, r :: b in p.backends ==> Keeps(ns, c, p.backends[b].onEndpoint(c, r).ctx))
    && (forall b, c, d :: b in p.backends ==> Keeps(ns, c, p.backends[b].startAuth(c, d).ctx))
  }

  lemma {:induction false} RequestChainKeeps(ns: string, ss: seq<Service>, c: Ctx, d: InternalData)
    requires forall i :: 0 <= i < |ss| ==> ServiceKeeps(ns, ss[i])
    ensures Keeps(ns, c, RequestChain(ss, c, d).ctx)
    decreases |ss|
  {
    if ss != [] {
      assert ServiceKeeps(ns, ss[0]);
      var o := ss[0].onRequest(c, d);
      if o.result.Ok? {
        RequestChainKeeps(ns, ss[1..], o.ctx, o.result.value);
      }
    }
  }

  lemma {:induction false} ResponseChainKeeps(ns: string, ss: seq<Service>, c: Ctx, d: InternalData)
    requires forall i, c, d :: 0 <= i < |ss| ==> Keeps(ns, c, ss[i].onResponse(c, d).ctx)
    ensures Keeps(ns, c, ResponseChain(ss, c, d).ctx)
    decreases |ss|
  {
    if ss != [] {
      var o := ss[0].onResponse(c, d);
      if o.result.Ok? && o.result.value.Continue? {
        ResponseChainKeeps(ns, ss[1..], o.ctx, o.result.value.data);
      }
    }
  }

  lemma FinishResponseKeeps(p: Proxy, cfg: Config, k: nat, c: Ctx, d: InternalData, start: nat)
    requires Installed(p, cfg, k) && start <= |p.services|
    ensures Keeps(cfg.Namespace(), c, FinishResponse(p, c, d, start).ctx)
  {
    var ns := cfg.Namespace();
    forall i, c, d | 0 <= i < |p.services|
      ensures Keeps(ns, c, p.services[i].onResponse(c, d).ctx)
    {
      if i != k {
        assert ServiceKeeps(ns, p.services[i]);
      }
    }
    ResponseChainKeeps(ns, p.services[start..], c, d);
  }

  // ---- Suspension ----

  lemma {:induction false} RequestChainSplits(a: seq<Service>, b: seq<Service>, c: Ctx, d: InternalData)
    ensures var o := RequestChain(a, c, d);
            RequestChain(a + b, c, d) == if o.result.Ok? then RequestChain(b, o.ctx, o.result.value) else o
    decreases |a|
  {
    if a == [] {
      assert a + b == b;
    } else {
      assert (a + b)[1..] == a[1..] + b;
      var o := a[0].onRequest(c, d);
      if o.result.Ok? {
        RequestChainSplits(a[1..], b, o.ctx, o.result.value);
      }
    }
  }

  /** What a pipeline entry makes the discovery service remember, if it gets there. */
  function SuspendedBy(p: Proxy, cfg: Config, k: nat, e: Entry): Option<Suspended>
    requires k < |p.services|
  {
    if e.start > k then None else
    var o := RequestChain(p.services[e.start..k], e.ctx, e.request);
    if o.result.Ok? && ProcessRequest(cfg, o.ctx, o.result.value).result.Ok?
    then Some(Suspended(o.ctx.targetFrontend, o.result.value)) else None
  }

  lemma SliceKeeps(p: Proxy, cfg: Config, k: nat, a: nat, b: nat, c: Ctx, d: InternalData)
    requires Installed(p, cfg, k) && a <= b <= |p.services| && (k < a || b <= k)
    ensures Keeps(cfg.Namespace(), c, RequestChain(p.services[a..b], c, d).ctx)
  {
    forall i | 0 <= i < b - a
      ensures ServiceKeeps(cfg.Namespace(), p.services[a..b][i])
    {
      assert p.services[a..b][i] == p.services[a + i];
    }
    RequestChainKeeps(cfg.Namespace(), p.services[a..b], c, d);
  }

  lemma BackendKeeps(p: Proxy, cfg: Config, k: nat, c: Ctx, d: InternalData, pinned: Option<string>)
    requires Installed(p, cfg, k)
    ensures Keeps(cfg.Namespace(), c, StartBackend(p, c, d, pinned).ctx)
  {
  }

  lemma LaterServicesKeep(p: Proxy, cfg: Config, k: nat, c: Ctx, d: InternalData, start: nat, pinned: Option<string>)
    requires Installed(p, cfg, k) && k < start <= |p.services|
    ensures Keeps(cfg.Namespace(), c, FinishRequest(p, c, d, start, pinned).ctx)
  {
    assert p.services[start..] == p.services[start..|p.services|];
    SliceKeeps(p, cfg, k, start, |p.services|, c, d);
    var o := RequestChain(p.services[start..], c, d);
    if o.result.Ok? {
      BackendKeeps(p, cfg, k, o.ctx, o.result.value, pinned);
    }
  }

  /** A pass from at or before the discovery service runs the services before it,
      then the service itself, then the rest. */
  lemma PassThrough(p: Proxy, cfg: Config, k: nat, e: Entry)
    requires Installed(p, cfg, k) && e.start <= k
    ensures var o := RequestChain(p.services[e.start..k], e.ctx, e.request);
            var pass := FinishRequest(p, e.ctx, e.request, e.start, e.pinned);
            if o.result.Err? then pass.ctx == o.ctx
            else var taken := ProcessRequest(cfg, o.ctx, o.result.value);
                 if taken.result.Err? then pass.ctx == taken.ctx
                 else pass == FinishRequest(p, taken.ctx, o.result.value, k + 1, e.pinned)
  {
    var before, rest := p.services[e.start..k], p.services[k..];
    assert before + rest == p.services[e.start..];
    RequestChainSplits(before, rest, e.ctx, e.request);
    assert rest[0] == AsService(cfg) && rest[1..] == p.services[k + 1..];
  }

  /** What the discovery service itself leaves in its namespace. */
  lemma TakenSnapshot(cfg: Config, c: Ctx, d: InternalData)
    ensures var o := ProcessRequest(cfg, c, d);
            if o.result.Ok? then SnapshotIn(cfg, o.ctx.data).Some? ==>
              SnapshotIn(cfg, o.ctx.data) == Some(SnapshotJson(Suspended(c.targetFrontend, d)))
              && o.result.value == d
            else o.ctx == c
  {
  }

  lemma KeptSnapshot(cfg: Config, c: Ctx, c': Ctx)
    requires Keeps(cfg.Namespace(), c, c')
    ensures SnapshotIn(cfg, c'.data) == SnapshotIn(cfg, c.data)
  {
  }

  /** A pass from at or before the discovery service stores its snapshot, if the service is reached. */
  lemma EarlyPassSnapshot(p: Proxy, cfg: Config, k: nat, e: Entry)
    requires Installed(p, cfg, k) && e.start <= k
    ensures var after := SnapshotIn(cfg, FinishRequest(p, e.ctx, e.request, e.start, e.pinned).ctx.data);
            var o := RequestChain(p.services[e.start..k], e.ctx, e.request);
            if o.result.Err? || ProcessRequest(cfg, o.ctx, o.result.value).result.Err?
            then after == SnapshotIn(cfg, e.ctx.data)
            else after.Some? ==> after == Some(SnapshotJson(Suspended(o.ctx.targetFrontend, o.result.value)))
  {
    PassThrough(p, cfg, k, e);
    SliceKeeps(p, cfg, k, e.start, k, e.ctx, e.request);
    var o := RequestChain(p.services[e.start..k], e.ctx, e.request);
    KeptSnapshot(cfg, e.ctx, o.ctx);
    if o.result.Ok? {
      var taken := ProcessRequest(cfg, o.ctx, o.result.value);
      TakenSnapshot(cfg, o.ctx, o.result.value);
      if taken.result.Ok? {
        LaterServicesKeep(p, cfg, k, taken.ctx, o.result.value, k + 1, e.pinned);
        KeptSnapshot(cfg, taken.ctx, FinishRequest(p, taken.ctx, o.result.value, k + 1, e.pinned).ctx);
      }
    }
  }

  /** After a pipeline pass the stored snapshot is the one just taken, or the one
      that was there before. */
  lemma PassSnapshot(p: Proxy, cfg: Config, k: nat, e: Entry)
    requires Installed(p, cfg, k) && e.start <= |p.services|
    ensures var after := SnapshotIn(cfg, FinishRequest(p, e.ctx, e.request, e.start, e.pinned).ctx.data);
            var taken := SuspendedBy(p, cfg, k, e);
            after.Some? ==>
              after == if taken.Some? then Some(SnapshotJson(taken.value)) else SnapshotIn(cfg, e.ctx.data)
  {
    if e.start > k {
      LaterServicesKeep(p, cfg, k, e.ctx, e.request, e.start, e.pinned);
      KeptSnapshot(cfg, e.ctx, FinishRequest(p, e.ctx, e.request, e.start, e.pinned).ctx);
    } else {
      EarlyPassSnapshot(p, cfg, k, e);
    }
  }

  // ---- One leg ----

  datatype Event = Suspends(what: Suspended) | Resumes(what: Suspended, issuer: string) | Quiet

  /** The request reaches the discovery endpoint and resumes a flow. */
  predicate ResumesHere(p: Proxy, cfg: Config, c: Ctx) {
    && c.request.path in p.routes
    && p.routes[c.request.path].kind.IsService? && p.routes[c.request.path].owner == cfg.name
    && HandleEndpoint(cfg, c).result.Ok?
  }

  function EventOf(p: Proxy, cfg: Config, k: nat, c: Ctx): Event
    requires k < |p.services|
  {
    if ResumesHere(p, cfg, c) then
      var o := HandleEndpoint(cfg, c);
      Resumes(Suspended(o.ctx.targetFrontend, o.result.value.request), ReturnedIssuer(c).value)
    else
      var e := EntryOf(p, c);
      if e.Some? && SuspendedBy(p, cfg, k, e.value).Some?
      then Suspends(SuspendedBy(p, cfg, k, e.value).value) else Quiet
  }

  lemma OwnPosition(p: Proxy, cfg: Config, k: nat)
    requires Installed(p, cfg, k)
    ensures Position(p.services, cfg.name) == k
  {
  }

  /** Entering the pipeline leaves the snapshot alone, unless it consumes it. */
  lemma EntryKeeps(p: Proxy, cfg: Config, k: nat, c: Ctx)
    requires Installed(p, cfg, k) && EntryOf(p, c).Some?
    ensures if ResumesHere(p, cfg, c)
            then SnapshotIn(cfg, EntryOf(p, c).value.ctx.data) == None && EntryOf(p, c).value.start == k + 1
            else Keeps(cfg.Namespace(), c, EntryOf(p, c).value.ctx)
  {
    OwnPosition(p, cfg, k);
    var r := p.routes[c.request.path];
    if r.kind.IsService? {
      var idx := Position(p.services, r.owner);
      if idx != k {
        assert ServiceKeeps(cfg.Namespace(), p.services[idx]);
      }
    }
  }

  lemma BackendLegKeeps(p: Proxy, cfg: Config, k: nat, c: Ctx, owner: string, route: string)
    requires Installed(p, cfg, k)
    ensures Keeps(cfg.Namespace(), c, DispatchBackend(p, c, owner, route).ctx)
  {
    if owner in p.backends {
      var o := p.backends[owner].onEndpoint(c.(targetBackend := Some(owner)), route);
      if o.result.Ok? && o.result.value.AuthResponse? {
        ReturnKeeps(p, cfg, k, o.ctx, o.result.value.response);
      }
    }
  }

  lemma OtherServiceLegKeeps(p: Proxy, cfg: Config, k: nat, c: Ctx, owner: string, route: string)
    requires Installed(p, cfg, k) && owner != cfg.name && ServiceEntry(p, c, owner, route).None?
    ensures Keeps(cfg.Namespace(), c, DispatchService(p, c, owner, route).ctx)
  {
    var idx := Position(p.services, owner);
    if idx < |p.services| {
      assert ServiceKeeps(cfg.Namespace(), p.services[idx]);
      var o := p.services[idx].onEndpoint(c, route);
      if o.result.Ok? && o.result.value.ResumeResponse? {
        FinishResponseKeeps(p, cfg, k, o.ctx, o.result.value.response, idx + 1);
      }
    }
  }

  lemma FrontendLegKeeps(p: Proxy, cfg: Config, k: nat, c: Ctx, owner: string, route: string)
    requires Installed(p, cfg, k) && (owner in p.frontends ==> FrontendEntry(p, c, owner, route).None?)
    ensures Keeps(cfg.Namespace(), c, DispatchFrontend(p, c, owner, route).ctx)
  {
  }

  /** A request that does not enter the pipeline takes no snapshot. */
  lemma NoEntryKeeps(p: Proxy, cfg: Config, k: nat, c: Ctx)
    requires Installed(p, cfg, k) && EntryOf(p, c).None? && !ResumesHere(p, cfg, c)
    ensures var after := SnapshotIn(cfg, Dispatch(p, c).ctx.data);
            after.Some? ==> after == SnapshotIn(cfg, c.data)
  {
    if c.request.path in p.routes {
      var r := p.routes[c.request.path];
      if r.kind.IsFrontend? {
        FrontendLegKeeps(p, cfg, k, c, r.owner, r.routeId);
      } else if r.kind.IsBackend? {
        BackendLegKeeps(p, cfg, k, c, r.owner, r.routeId);
      } else if r.owner != cfg.name {
        OtherServiceLegKeeps(p, cfg, k, c, r.owner, r.routeId);
      } else {
        OwnPosition(p, cfg, k);
      }
    }
  }

  lemma ReturnKeeps(p: Proxy, cfg: Config, k: nat, c: Ctx, d: InternalData)
    requires Installed(p, cfg, k)
    ensures Keeps(cfg.Namespace(), c, ReturnResponse(p, c, d).ctx)
  {
    var name := OrElse(BaseFrontend(c), c.targetFrontend);
    if name.Some? {
      var c1 := c.(targetFrontend := name);
      FinishResponseKeeps(p, cfg, k, c1, if d.requester.None? then d.(requester := Requester(c1)) else d, 0);
    }
  }

  lemma ErrorKeeps(p: Proxy, cfg: Config, k: nat, c: Ctx, e: Failure)
    requires Installed(p, cfg, k)
    ensures Keeps(cfg.Namespace(), c, RenderError(p, c, e).1)
  {
  }

  /** After an event the stored snapshot is the one it took, none, or the one that was there before. */
  ghost predicate Allows(e: Event, before: Option<Json>, after: Option<Json>) {
    after.Some? ==>
      match e
      case Suspends(s) => after == Some(SnapshotJson(s))
      case Resumes(_, _) => false
      case Quiet => after == before
  }

  ghost predicate SnapshotAllowed(p: Proxy, cfg: Config, k: nat, c: Ctx, after: Option<Json>)
    requires k < |p.services|
  {
    Allows(EventOf(p, cfg, k, c), SnapshotIn(cfg, c.data), after)
  }

  lemma EntrySnapshot(p: Proxy, cfg: Config, k: nat, c: Ctx)
    requires Installed(p, cfg, k) && EntryOf(p, c).Some?
    ensures SnapshotAllowed(p, cfg, k, c, SnapshotIn(cfg, Dispatch(p, c).ctx.data))
  {
    EntryDispatches(p, c);
    EntryKeeps(p, cfg, k, c);
    PassSnapshot(p, cfg, k, EntryOf(p, c).value);
  }

  lemma DispatchSnapshot(p: Proxy, cfg: Config, k: nat, c: Ctx)
    requires Installed(p, cfg, k)
    ensures SnapshotAllowed(p, cfg, k, c, SnapshotIn(cfg, Dispatch(p, c).ctx.data))
  {
    if EntryOf(p, c).Some? {
      EntrySnapshot(p, cfg, k, c);
    } else if ResumesHere(p, cfg, c) {
      OwnPosition(p, cfg, k);
      ReturnResumesOnlyAllowed(cfg, c);
    } else {
      NoEntryKeeps(p, cfg, k, c);
    }
  }

  /** The snapshot in the browser's cookie after a request is the one the request
      took, none when it resumed one, and otherwise at most the one before. */
  lemma LegSnapshot(p: Proxy, cfg: Config, k: nat, jar: Data, leg: Leg)
    requires Installed(p, cfg, k)
    ensures SnapshotAllowed(p, cfg, k, Start(jar, leg), SnapshotIn(cfg, JarAfter(p, jar, leg)))
    ensures SnapshotIn(cfg, Presented(jar, leg)).Some? ==> SnapshotIn(cfg, Presented(jar, leg)) == SnapshotIn(cfg, jar)
  {
    var o := Dispatch(p, Start(jar, leg));
    DispatchSnapshot(p, cfg, k, Start(jar, leg));
    if o.result.Err? {
      ErrorKeeps(p, cfg, k, o.ctx, o.result.error);
    }
  }

  // ---- Every run ----

  function JarAt(p: Proxy, legs: seq<Leg>, n: nat): Data
    requires n <= |legs|
  {
    if n == 0 then NOTHING else JarAfter(p, JarAt(p, legs, n - 1), legs[n - 1])
  }

  function EventAt(p: Proxy, cfg: Config, k: nat, legs: seq<Leg>, n: nat): Event
    requires n < |legs| && k < |p.services|
  {
    EventOf(p, cfg, k, Start(JarAt(p, legs, n), legs[n]))
  }

  /** What is pending after an event: the flow it suspended, nothing once it resumed one, or as before. */
  function Next(e: Event, pending: Option<Suspended>): Option<Suspended> {
    match e
    case Suspends(s) => Some(s)
    case Resumes(_, _) => None
    case Quiet => pending
  }

  /** The flow suspended last and not resumed since, in a history of events. */
  function Pending(history: seq<Event>): Option<Suspended> {
    if history == [] then None else Next(history[|history| - 1], Pending(history[..|history| - 1]))
  }

  function History(p: Proxy, cfg: Config, k: nat, legs: seq<Leg>, n: nat): seq<Event>
    requires n <= |legs| && k < |p.services|
  {
    seq(n, i requires 0 <= i < n => EventAt(p, cfg, k, legs, i))
  }

  function PendingAt(p: Proxy, cfg: Config, k: nat, legs: seq<Leg>, n: nat): Option<Suspended>
    requires n <= |legs| && k < |p.services|
  {
    Pending(History(p, cfg, k, legs, n))
  }

  lemma PendingUnfolds(p: Proxy, cfg: Config, k: nat, legs: seq<Leg>, n: nat)
    requires 0 < n <= |legs| && k < |p.services|
    ensures PendingAt(p, cfg, k, legs, n) == Next(EventAt(p, cfg, k, legs, n - 1), PendingAt(p, cfg, k, legs, n - 1))
  {
    var h := History(p, cfg, k, legs, n);
    assert h[..n - 1] == History(p, cfg, k, legs, n - 1);
  }

  /** A stored snapshot is that of the pending flow. */
  ghost predicate Holds(snapshot: Option<Json>, pending: Option<Suspended>) {
    snapshot.Some? ==> pending.Some? && snapshot.value == SnapshotJson(pending.value)
  }

  lemma EventKeepsPending(e: Event, before: Option<Json>, after: Option<Json>, pending: Option<Suspended>)
    requires Holds(before, pending) && Allows(e, before, after)
    ensures Holds(after, Next(e, pending))
  {
  }

  lemma {:induction false} CookieHoldsPending(p: Proxy, cfg: Config, k: nat, legs: seq<Leg>, n: nat)
    requires Installed(p, cfg, k) && n <= |legs|
    ensures Holds(SnapshotIn(cfg, JarAt(p, legs, n)), PendingAt(p, cfg, k, legs, n))
  {
    if n > 0 {
      var jar, leg := JarAt(p, legs, n - 1), legs[n - 1];
      CookieHoldsPending(p, cfg, k, legs, n - 1);
      PendingUnfolds(p, cfg, k, legs, n);
      LegSnapshot(p, cfg, k, jar, leg);
      EventKeepsPending(EventAt(p, cfg, k, legs, n - 1), SnapshotIn(cfg, Presented(jar, leg)),
                        SnapshotIn(cfg, JarAfter(p, jar, leg)), PendingAt(p, cfg, k, legs, n - 1));
    }
  }

  /** Whenever a run resumes, it restores exactly the frontend and the request of
      the flow suspended last, under an issuer that flow's requester may use. */
  lemma ResumeRestoresSuspended(p: Proxy, cfg: Config, k: nat, legs: seq<Leg>, n: nat)
    requires Installed(p, cfg, k) && n < |legs|
    requires EventAt(p, cfg, k, legs, n).Resumes?
    ensures var e := EventAt(p, cfg, k, legs, n);
            && PendingAt(p, cfg, k, legs, n) == Some(e.what)
            && IssuerAllowed(cfg, e.what.request.requester, e.issuer)
            && PARAM_ENTITY_ID in legs[n].request.query && e.issuer == legs[n].request.query[PARAM_ENTITY_ID]
            && SnapshotIn(cfg, JarAt(p, legs, n + 1)).None?
  {
    var jar := JarAt(p, legs, n);
    var c := Start(jar, legs[n]);
    ReturnResumesOnlyAllowed(cfg, c);
    CookieHoldsPending(p, cfg, k, legs, n);
    LegSnapshot(p, cfg, k, jar, legs[n]);
    ParseInvertsSnapshot(PendingAt(p, cfg, k, legs, n).value);
  }

  /** What a leg does to the stored snapshot: it is the one just taken, or the one the leg presented. */
  ghost predicate Stores(e: Event, presents: bool, before: Option<Json>, after: Option<Json>) {
    after.Some? ==> if e.Suspends? then after == Some(SnapshotJson(e.what)) else presents && before == after
  }

  lemma LegStores(p: Proxy, cfg: Config, k: nat, legs: seq<Leg>, n: nat)
    requires Installed(p, cfg, k) && n < |legs|
    ensures Stores(EventAt(p, cfg, k, legs, n), legs[n].presents,
                   SnapshotIn(cfg, JarAt(p, legs, n)), SnapshotIn(cfg, JarAt(p, legs, n + 1)))
  {
    var jar, leg := JarAt(p, legs, n), legs[n];
    LegSnapshot(p, cfg, k, jar, leg);
    AllowedIsStored(cfg, EventAt(p, cfg, k, legs, n), jar, leg, SnapshotIn(cfg, JarAfter(p, jar, leg)));
  }

  lemma AllowedIsStored(cfg: Config, e: Event, jar: Data, leg: Leg, after: Option<Json>)
    requires Allows(e, SnapshotIn(cfg, Presented(jar, leg)), after)
    ensures Stores(e, leg.presents, SnapshotIn(cfg, jar), after)
  {
  }

  /** Each leg does to the stored snapshot what its event says. */
  ghost predicate IsChronicle(events: seq<Event>, presents: seq<bool>, snapshots: seq<Option<Json>>) {
    && |presents| == |events| && |snapshots| == |events| + 1 && snapshots[0] == None
    && forall i :: 0 <= i < |events| ==> Stores(events[i], presents[i], snapshots[i], snapshots[i + 1])
  }

  /** A snapshot stored at the end of a history was taken by one of its events, and every leg since
      presented its state. */
  lemma {:induction false} StoredWasTaken(events: seq<Event>, presents: seq<bool>, snapshots: seq<Option<Json>>, n: nat)
    returns (m: nat)
    requires IsChronicle(events, presents, snapshots) && n <= |events| && snapshots[n].Some?
    ensures m < n && events[m].Suspends? && snapshots[n] == Some(SnapshotJson(events[m].what))
    ensures forall i :: m < i < n ==> presents[i]
  {
    assert n > 0 && Stores(events[n - 1], presents[n - 1], snapshots[n - 1], snapshots[n]);
    if events[n - 1].Suspends? {
      m := n - 1;
    } else {
      m := StoredWasTaken(events, presents, snapshots, n - 1);
    }
  }

  ghost predicate PresentBetween(legs: seq<Leg>, m: nat, n: nat)
    requires n <= |legs|
  {
    forall i :: m < i < n ==> legs[i].presents
  }

  function Presence(legs: seq<Leg>, n: nat): seq<bool>
    requires n <= |legs|
  {
    seq(n, i requires 0 <= i < n => legs[i].presents)
  }

  function Snapshots(p: Proxy, cfg: Config, legs: seq<Leg>, n: nat): seq<Option<Json>>
    requires n <= |legs|
  {
    seq(n + 1, i requires 0 <= i <= n => SnapshotIn(cfg, JarAt(p, legs, i)))
  }

  lemma RunIsChronicle(p: Proxy, cfg: Config, k: nat, legs: seq<Leg>, n: nat)
    requires Installed(p, cfg, k) && n <= |legs|
    ensures IsChronicle(History(p, cfg, k, legs, n), Presence(legs, n), Snapshots(p, cfg, legs, n))
  {
    forall i | 0 <= i < n
      ensures Stores(EventAt(p, cfg, k, legs, i), legs[i].presents,
                     SnapshotIn(cfg, JarAt(p, legs, i)), SnapshotIn(cfg, JarAt(p, legs, i + 1)))
    {
      LegStores(p, cfg, k, legs, i);
    }
  }

  lemma SnapshotHasOrigin(p: Proxy, cfg: Config, k: nat, legs: seq<Leg>, n: nat) returns (m: nat)
    requires Installed(p, cfg, k) && n <= |legs| && SnapshotIn(cfg, JarAt(p, legs, n)).Some?
    ensures m < n && EventAt(p, cfg, k, legs, m).Suspends? && PresentBetween(legs, m, n)
    ensures SnapshotIn(cfg, JarAt(p, legs, n)) == Some(SnapshotJson(EventAt(p, cfg, k, legs, m).what))
  {
    RunIsChronicle(p, cfg, k, legs, n);
    m := StoredWasTaken(History(p, cfg, k, legs, n), Presence(legs, n), Snapshots(p, cfg, legs, n), n);
    PresenceIsPresent(legs, m, n);
  }

  lemma PresenceIsPresent(legs: seq<Leg>, m: nat, n: nat)
    requires n <= |legs| && forall i :: m < i < n ==> Presence(legs, n)[i]
    ensures PresentBetween(legs, m, n)
  {
    forall i | m < i < n ensures legs[i].presents {
      assert Presence(legs, n)[i];
    }
  }

  /** A resumption restores what one earlier leg suspended, and every leg in between presented its state. */
  lemma ResumptionHasOrigin(p: Proxy, cfg: Config, k: nat, legs: seq<Leg>, j: nat) returns (m: nat, what: Suspended)
    requires Installed(p, cfg, k) && j < |legs| && EventAt(p, cfg, k, legs, j).Resumes?
    ensures m < j && EventAt(p, cfg, k, legs, m) == Suspends(what) && EventAt(p, cfg, k, legs, j).what == what
    ensures PresentBetween(legs, m, j + 1)
  {
    ResumedWasStored(p, cfg, k, legs, j);
    m := SnapshotHasOrigin(p, cfg, k, legs, j);
    what := EventAt(p, cfg, k, legs, m).what;
    ParseInvertsSnapshot(what);
    ParseInvertsSnapshot(EventAt(p, cfg, k, legs, j).what);
    PresentOneMore(legs, m, j);
  }

  lemma PresentOneMore(legs: seq<Leg>, m: nat, n: nat)
    requires m <= n < |legs| && PresentBetween(legs, m, n) && (m < n ==> legs[n].presents)
    ensures PresentBetween(legs, m, n + 1)
  {
  }

  /** What a resumption restores is the snapshot in the cookie, which its leg presented. */
  lemma ResumedWasStored(p: Proxy, cfg: Config, k: nat, legs: seq<Leg>, j: nat)
    requires Installed(p, cfg, k) && j < |legs| && EventAt(p, cfg, k, legs, j).Resumes?
    ensures legs[j].presents
    ensures SnapshotIn(cfg, JarAt(p, legs, j)) == Some(SnapshotJson(EventAt(p, cfg, k, legs, j).what))
  {
    var jar := JarAt(p, legs, j);
    ReturnResumesOnlyAllowed(cfg, Start(jar, legs[j]));
    LegSnapshot(p, cfg, k, jar, legs[j]);
    CookieHoldsPending(p, cfg, k, legs, j);
    ParseInvertsSnapshot(PendingAt(p, cfg, k, legs, j).value);
  }

  lemma {:induction false} NothingPendingUntilSuspended(history: seq<Event>, i: nat)
    requires i < |history| && history[i].Resumes?
    requires forall m :: i < m < |history| ==> !history[m].Suspends?
    ensures Pending(history).None?
  {
    if i + 1 < |history| {
      NothingPendingUntilSuspended(history[..|history| - 1], i);
    }
  }

  /** A snapshot is resumed at most once: between two resumptions the run always
      suspends a flow anew. */
  lemma ResumedAtMostOnce(p: Proxy, cfg: Config, k: nat, legs: seq<Leg>, i: nat, j: nat)
    requires Installed(p, cfg, k) && i < j < |legs|
    requires EventAt(p, cfg, k, legs, i).Resumes? && EventAt(p, cfg, k, legs, j).Resumes?
    ensures exists m :: i < m < j && EventAt(p, cfg, k, legs, m).Suspends?
  {
    ResumeRestoresSuspended(p, cfg, k, legs, j);
    if forall m :: i < m < j ==> !EventAt(p, cfg, k, legs, m).Suspends? {
      NothingPendingUntilSuspended(History(p, cfg, k, legs, j), i);
    }
  }

  // ---- Which backend a resumed flow starts ----

  /** The backend a pipeline entry starts: its own pin, else what the services chose, else the default. */
  function Chosen(p: Proxy, e: Entry): Option<string>
    requires e.start <= |p.services|
  {
    var o := RequestChain(p.services[e.start..], e.ctx, e.request);
    if o.result.Err? then None else OrElse(e.pinned, OrElse(o.ctx.targetBackend, p.defaultBackend))
  }

  function ChosenAt(p: Proxy, legs: seq<Leg>, n: nat): Option<string>
    requires n < |legs|
  {
    match EntryOf(p, Start(JarAt(p, legs, n), legs[n]))
    case None => None
    case Some(e) => Chosen(p, e)
  }

  /** A resumption enters the pipeline after the discovery service, without a pin. */
  lemma ResumedEntry(p: Proxy, cfg: Config, k: nat, c: Ctx)
    requires Installed(p, cfg, k) && ResumesHere(p, cfg, c) && EntryOf(p, c).Some?
    ensures EntryOf(p, c).value.start == k + 1 && EntryOf(p, c).value.pinned == None
  {
    OwnPosition(p, cfg, k);
  }

  /**
   * A discovery return forgets the pin of the frontend that started the flow: whichever backend `b` that
   * was, the resumed flow starts `b` exactly when the later services choose it, or choose none and it is
   * the default.
   */
  lemma ResumedFlowForgetsPin(p: Proxy, cfg: Config, k: nat, legs: seq<Leg>, n: nat, b: string)
    requires Installed(p, cfg, k) && n < |legs| && EventAt(p, cfg, k, legs, n).Resumes?
    requires EntryOf(p, Start(JarAt(p, legs, n), legs[n])).Some?
    ensures var e := EntryOf(p, Start(JarAt(p, legs, n), legs[n])).value;
            var o := RequestChain(p.services[k + 1..], e.ctx, e.request);
            ChosenAt(p, legs, n) == Some(b)
            <==> o.result.Ok?
                 && (o.ctx.targetBackend == Some(b) || (o.ctx.targetBackend == None && p.defaultBackend == Some(b)))
  {
    ResumedEntry(p, cfg, k, Start(JarAt(p, legs, n), legs[n]));
  }

  /** A rejected discovery return keeps the snapshot, so the user can choose again. */
  lemma RejectionKeepsSnapshot(p: Proxy, cfg: Config, k: nat, jar: Data, leg: Leg)
    requires Installed(p, cfg, k) && leg.request.path in p.routes
    requires p.routes[leg.request.path].kind.IsService? && p.routes[leg.request.path].owner == cfg.name
    requires HandleEndpoint(cfg, Start(jar, leg)).result.Err?
             && HandleEndpoint(cfg, Start(jar, leg)).result.error.Authn?
    requires leg.presents && leg.sealable && !Final(p, jar, leg).delete
    ensures SnapshotIn(cfg, JarAfter(p, jar, leg)) == SnapshotIn(cfg, jar)
  {
    OwnPosition(p, cfg, k);
    var c := Start(jar, leg);
    ReturnResumesOnlyAllowed(cfg, c);
    ErrorKeeps(p, cfg, k, c, HandleEndpoint(cfg, c).result.error);
  }

  // ---- Who a backend's answer is for ----

  ghost predicate BaseSound(d: Data) {
    BASE in d ==> d[BASE].Object?
  }

  ghost predicate KeepsRouting(c: Ctx, c': Ctx) {
    && Requester(c') == Requester(c) && BaseFrontend(c') == BaseFrontend(c)
    && (BaseSound(c.data) ==> BaseSound(c'.data))
  }

  /** No plugin rewrites the requester and the originating frontend that the proxy
      keeps in the base namespace, and response services leave the target frontend. */
  ghost predicate RoutingKept(p: Proxy) {
    && (forall s, c, d :: s in p.services ==> KeepsRouting(c, s.onRequest(c, d).ctx))
    && (forall s, c, d :: s in p.services ==>
          KeepsRouting(c, s.onResponse(c, d).ctx) && s.onResponse(c, d).ctx.targetFrontend == c.targetFrontend)
    && (forall s, c, r :: s in p.services ==> KeepsRouting(c, s.onEndpoint(c, r).ctx))
    && (forall f, c, r :: f in p.frontends ==> KeepsRouting(c, p.frontends[f].onEndpoint(c, r).ctx))
    && (forall f, c, d :: f in p.frontends ==> KeepsRouting(c, p.frontends[f].onAuthnResponse(c, d).ctx))
    && (forall f, c, e :: f in p.frontends ==> KeepsRouting(c, p.frontends[f].onError(c, e).ctx))
    && (forall b, c, r :: b in p.backends ==> KeepsRouting(c, p.backends[b].onEndpoint(c, r).ctx))
    && (forall b, c, d :: b in p.backends ==> KeepsRouting(c, p.backends[b].startAuth(c, d).ctx))
  }

  lemma {:induction false} RequestChainRouting(p: Proxy, ss: seq<Service>, c: Ctx, d: InternalData)
    requires RoutingKept(p) && forall s :: s in ss ==> s in p.services
    ensures KeepsRouting(c, RequestChain(ss, c, d).ctx)
    decreases |ss|
  {
    if ss != [] {
      assert ss[0] in p.services;
      var o := ss[0].onRequest(c, d);
      if o.result.Ok? {
        RequestChainRouting(p, ss[1..], o.ctx, o.result.value);
      }
    }
  }

  lemma {:induction false} ResponseChainRouting(p: Proxy, ss: seq<Service>, c: Ctx, d: InternalData)
    requires RoutingKept(p) && forall s :: s in ss ==> s in p.services
    ensures KeepsRouting(c, ResponseChain(ss, c, d).ctx)
    ensures ResponseChain(ss, c, d).ctx.targetFrontend == c.targetFrontend
    decreases |ss|
  {
    if ss != [] {
      assert ss[0] in p.services;
      var o := ss[0].onResponse(c, d);
      if o.result.Ok? && o.result.value.Continue? {
        ResponseChainRouting(p, ss[1..], o.ctx, o.result.value.data);
      }
    }
  }

  lemma FinishRequestRouting(p: Proxy, c: Ctx, d: InternalData, start: nat, pinned: Option<string>)
    requires RoutingKept(p) && start <= |p.services|
    ensures KeepsRouting(c, FinishRequest(p, c, d, start, pinned).ctx)
  {
    RequestChainRouting(p, p.services[start..], c, d);
  }

  lemma FinishResponseRouting(p: Proxy, c: Ctx, d: InternalData, start: nat)
    requires RoutingKept(p) && start <= |p.services|
    ensures KeepsRouting(c, FinishResponse(p, c, d, start).ctx)
  {
    ResponseChainRouting(p, p.services[start..], c, d);
  }

  lemma ServiceLegRouting(p: Proxy, c: Ctx, owner: string, route: string)
    requires RoutingKept(p) && ServiceEntry(p, c, owner, route).None?
    ensures KeepsRouting(c, DispatchService(p, c, owner, route).ctx)
  {
    var idx := Position(p.services, owner);
    if idx < |p.services| {
      assert p.services[idx] in p.services;
      var o := p.services[idx].onEndpoint(c, route);
      if o.result.Ok? && o.result.value.ResumeResponse? {
        FinishResponseRouting(p, o.ctx, o.result.value.response, idx + 1);
      }
    }
  }

  lemma BackendLegRouting(p: Proxy, c: Ctx, owner: string, route: string)
    requires RoutingKept(p)
    ensures KeepsRouting(c, DispatchBackend(p, c, owner, route).ctx)
  {
    if owner in p.backends {
      var o := p.backends[owner].onEndpoint(c.(targetBackend := Some(owner)), route);
      if o.result.Ok? && o.result.value.AuthResponse? {
        var d := o.result.value.response;
        var name := OrElse(BaseFrontend(o.ctx), o.ctx.targetFrontend);
        if name.Some? {
          var c1 := o.ctx.(targetFrontend := name);
          FinishResponseRouting(p, c1, if d.requester.None? then d.(requester := Requester(c1)) else d, 0);
        }
      }
    }
  }

  lemma NoEntryRouting(p: Proxy, c: Ctx)
    requires RoutingKept(p) && EntryOf(p, c).None?
    ensures KeepsRouting(c, Dispatch(p, c).ctx)
  {
    if c.request.path in p.routes {
      var r := p.routes[c.request.path];
      match r.kind {
        case IsFrontend =>
        case IsBackend => BackendLegRouting(p, c, r.owner, r.routeId);
        case IsService => ServiceLegRouting(p, c, r.owner, r.routeId);
      }
    }
  }

  /** A start that names no requester runs under its own requester, none, exactly when the cookie held none. */
  lemma RecordedFlow(c: Ctx, requester: Option<string>, frontend: string)
    requires BaseSound(c.data)
    ensures var c' := RecordFlow(c, requester, frontend);
            && BaseFrontend(c') == Some(frontend)
            && (Requester(c') == requester <==> requester.Some? || Requester(c).None?)
  {
    FlowRecords(c, requester, frontend);
  }

  /** The entry's context names its frontend, and its requester or else the one that was there before. */
  ghost predicate Recorded(c: Ctx, e: Entry) {
    && BaseSound(e.ctx.data)
    && BaseFrontend(e.ctx) == Some(e.frontend)
    && Requester(e.ctx) == OrElse(e.request.requester, Requester(c))
  }

  lemma ResumeRecords(p: Proxy, c: Ctx, request: InternalData, start: nat)
    requires BaseSound(c.data) && ResumeEntry(p, c, request, start).Some?
    ensures Recorded(c, ResumeEntry(p, c, request, start).value)
  {
    assert KEY_REQUESTER[0] != KEY_TARGET_FRONTEND[0];
  }

  lemma FlowRecords(c: Ctx, requester: Option<string>, frontend: string)
    requires BaseSound(c.data)
    ensures var c' := RecordFlow(c, requester, frontend);
            BaseSound(c'.data) && BaseFrontend(c') == Some(frontend) && Requester(c') == OrElse(requester, Requester(c))
  {
    assert KEY_REQUESTER[0] != KEY_TARGET_FRONTEND[0];
  }

  lemma EntryRecords(p: Proxy, c: Ctx)
    requires RoutingKept(p) && BaseSound(c.data) && EntryOf(p, c).Some?
    ensures Recorded(c, EntryOf(p, c).value)
  {
    var r := p.routes[c.request.path];
    if r.kind.IsFrontend? {
      var c1 := c.(targetFrontend := Some(r.owner));
      var o := p.frontends[r.owner].onEndpoint(c1, r.routeId);
      assert KeepsRouting(c1, o.ctx);
      FlowRecords(o.ctx, o.result.value.request.requester, r.owner);
    } else {
      var idx := Position(p.services, r.owner);
      assert p.services[idx] in p.services;
      var o := p.services[idx].onEndpoint(c, r.routeId);
      ResumeRecords(p, o.ctx, o.result.value.request, idx + 1);
    }
  }

  /** The frontend of a flow, and the requester it runs under. */
  datatype Flow = Flow(frontend: string, requester: Option<string>)

  /** The flow after a leg that came in with `before`. One that names no requester runs under the one
      that was there. */
  function NextFlow(p: Proxy, jar: Data, leg: Leg, before: Option<Flow>): Option<Flow> {
    if Final(p, jar, leg).delete || !leg.sealable then None else
    match EntryOf(p, Start(jar, leg))
    case Some(e) => Some(Flow(e.frontend, OrElse(e.request.requester, RequesterOf(before))))
    case None => before
  }

  /** The flow started or resumed last, as long as the browser still carries it. */
  function FlowAt(p: Proxy, legs: seq<Leg>, n: nat): Option<Flow>
    requires n <= |legs|
  {
    if n == 0 then None
    else NextFlow(p, JarAt(p, legs, n - 1), legs[n - 1], if legs[n - 1].presents then FlowAt(p, legs, n - 1) else None)
  }

  function RequesterOf(flow: Option<Flow>): Option<string> {
    if flow.Some? then flow.value.requester else None
  }

  function FrontendOf(flow: Option<Flow>): Option<string> {
    if flow.Some? then Some(flow.value.frontend) else None
  }

  /** The browser still holds the proxy's state after leg `k`. */
  predicate KeepsCookie(p: Proxy, legs: seq<Leg>, k: nat)
    requires k < |legs|
  {
    !Final(p, JarAt(p, legs, k), legs[k]).delete && legs[k].sealable
  }

  /** The requester named by the flow that leg `k` started or resumed, if it named one. */
  function NamedAt(p: Proxy, legs: seq<Leg>, k: nat): Option<string>
    requires k < |legs|
  {
    var e := EntryOf(p, Start(JarAt(p, legs, k), legs[k]));
    if KeepsCookie(p, legs, k) && e.Some? then e.value.request.requester else None
  }

  lemma FlowUnfolds(p: Proxy, legs: seq<Leg>, n: nat)
    requires 0 < n <= |legs|
    ensures RequesterOf(FlowAt(p, legs, n))
              == Inherit(LinkAt(p, legs, n - 1), RequesterOf(FlowAt(p, legs, n - 1)))
  {
  }

  /** One leg as far as requesters go: the one it named, and whether an older one survives it. */
  datatype Link = Link(named: Option<string>, survives: bool)

  function LinkAt(p: Proxy, legs: seq<Leg>, k: nat): Link
    requires k < |legs|
  {
    Link(NamedAt(p, legs, k), legs[k].presents && KeepsCookie(p, legs, k))
  }

  function Inherit(link: Link, older: Option<string>): Option<string> {
    if link.named.Some? then link.named else if link.survives then older else None
  }

  function Inherited(links: seq<Link>): Option<string> {
    if links == [] then None else Inherit(links[|links| - 1], Inherited(links[..|links| - 1]))
  }

  /** Link `m` named `q`, and no later link named another one or lost it. */
  ghost predicate LastNamed(links: seq<Link>, m: nat, q: string) {
    && m < |links| && links[m].named == Some(q)
    && forall k: nat :: m < k < |links| ==> links[k].survives && links[k].named.None?
  }

  lemma {:induction false} InheritedIsLastNamed(links: seq<Link>, q: string)
    ensures Inherited(links) == Some(q) <==> exists m: nat :: LastNamed(links, m, q)
  {
    if links != [] {
      var k := |links| - 1;
      var init := links[..k];
      InheritedIsLastNamed(init, q);
      if links[k].named == Some(q) {
        assert LastNamed(links, k, q);
      }
      forall m: nat | m < k
        ensures LastNamed(links, m, q) <==> LastNamed(init, m, q) && links[k].survives && links[k].named.None? {
        assert forall i: nat :: i < k ==> links[i] == init[i];
      }
    }
  }

  function Links(p: Proxy, legs: seq<Leg>, n: nat): seq<Link>
    requires n <= |legs|
  {
    seq(n, k requires 0 <= k < n => LinkAt(p, legs, k))
  }

  lemma LinksUnfold(p: Proxy, legs: seq<Leg>, n: nat)
    requires 0 < n <= |legs|
    ensures Inherited(Links(p, legs, n)) == Inherit(LinkAt(p, legs, n - 1), Inherited(Links(p, legs, n - 1)))
  {
    assert Links(p, legs, n)[..n - 1] == Links(p, legs, n - 1);
  }

  lemma {:induction false} FlowInherits(p: Proxy, legs: seq<Leg>, n: nat)
    requires n <= |legs|
    ensures RequesterOf(FlowAt(p, legs, n)) == Inherited(Links(p, legs, n))
  {
    if n > 0 {
      FlowInherits(p, legs, n - 1);
      FlowUnfolds(p, legs, n);
      LinksUnfold(p, legs, n);
    }
  }

  /** Exactly when a run's flow is under requester `q`: some flow named it, and neither was another one
      named nor the cookie lost since. So a flow that names none inherits that of an earlier flow. */
  lemma RequesterIsLastNamed(p: Proxy, legs: seq<Leg>, n: nat, q: string)
    requires n <= |legs|
    ensures RequesterOf(FlowAt(p, legs, n)) == Some(q) <==> exists m: nat :: LastNamed(Links(p, legs, n), m, q)
  {
    FlowInherits(p, legs, n);
    InheritedIsLastNamed(Links(p, legs, n), q);
  }

  /** What the base namespace says after a request that came in as `c`. */
  ghost predicate RoutedFrom(p: Proxy, c: Ctx, c': Ctx) {
    && BaseSound(c'.data)
    && match EntryOf(p, c)
       case None => KeepsRouting(c, c')
       case Some(e) => BaseFrontend(c') == Some(e.frontend)
                       && Requester(c') == OrElse(e.request.requester, Requester(c))
  }

  lemma DispatchRouting(p: Proxy, c: Ctx)
    requires RoutingKept(p) && BaseSound(c.data)
    ensures RoutedFrom(p, c, Dispatch(p, c).ctx)
  {
    if EntryOf(p, c).Some? {
      var e := EntryOf(p, c).value;
      EntryDispatches(p, c);
      EntryRecords(p, c);
      FinishRequestRouting(p, e.ctx, e.request, e.start, e.pinned);
    } else {
      NoEntryRouting(p, c);
    }
  }

  lemma ErrorRouting(p: Proxy, c: Ctx, e: Failure)
    requires RoutingKept(p)
    ensures KeepsRouting(c, RenderError(p, c, e).1)
  {
  }

  lemma LegRouting(p: Proxy, jar: Data, leg: Leg)
    requires RoutingKept(p) && BaseSound(Presented(jar, leg))
    ensures RoutedFrom(p, Start(jar, leg), Final(p, jar, leg))
  {
    var o := Dispatch(p, Start(jar, leg));
    DispatchRouting(p, Start(jar, leg));
    if o.result.Err? {
      ErrorRouting(p, o.ctx, o.result.error);
    }
  }

  /** The base namespace holds the flow's frontend and the requester it runs under, and no others. */
  ghost predicate Carries(d: Data, flow: Option<Flow>) {
    && BaseSound(d)
    && GetStr(d, BASE, KEY_TARGET_FRONTEND) == FrontendOf(flow)
    && GetStr(d, BASE, KEY_REQUESTER) == RequesterOf(flow)
  }

  lemma LegCarries(p: Proxy, jar: Data, leg: Leg, before: Option<Flow>)
    requires RoutingKept(p) && Carries(Presented(jar, leg), before)
    ensures Carries(JarAfter(p, jar, leg), NextFlow(p, jar, leg, before))
  {
    LegRouting(p, jar, leg);
  }

  /** The cookie says exactly what the run so far determines: the frontend of the flow started or resumed
      last, and the requester it runs under, which may be that of an earlier flow. */
  lemma {:induction false} CookieCarriesFlow(p: Proxy, legs: seq<Leg>, n: nat)
    requires RoutingKept(p) && n <= |legs|
    ensures Carries(JarAt(p, legs, n), FlowAt(p, legs, n))
  {
    if n > 0 {
      CookieCarriesFlow(p, legs, n - 1);
      LegCarries(p, JarAt(p, legs, n - 1), legs[n - 1], if legs[n - 1].presents then FlowAt(p, legs, n - 1) else None);
    }
  }

  /** A backend's answer that names no requester runs the response services under the requester of the
      flow started or resumed last, and whatever they do, a finished pass is rendered by that flow's
      frontend. */
  lemma AnswersGoHome(p: Proxy, legs: seq<Leg>, n: nat, answer: InternalData)
    requires RoutingKept(p) && n < |legs| && FlowAt(p, legs, n).Some?
    requires legs[n].presents && legs[n].request.path in p.routes
    requires p.routes[legs[n].request.path].kind.IsBackend?
    requires var r := p.routes[legs[n].request.path];
             var c := Start(JarAt(p, legs, n), legs[n]).(targetBackend := Some(r.owner));
             r.owner in p.backends && p.backends[r.owner].onEndpoint(c, r.routeId).result == Ok(AuthResponse(answer))
    requires answer.requester.None?
    ensures var r := p.routes[legs[n].request.path];
            var start := Start(JarAt(p, legs, n), legs[n]);
            var flow := FlowAt(p, legs, n).value;
            var home := p.backends[r.owner].onEndpoint(start.(targetBackend := Some(r.owner)), r.routeId).ctx.(
                          targetFrontend := Some(flow.frontend));
            var pass := ResponseChain(p.services, home, answer.(requester := flow.requester));
            && pass.ctx.targetFrontend == Some(flow.frontend)
            && (pass.result.Ok? && pass.result.value.Continue? ==>
                  Dispatch(p, start) == Render(p, pass.ctx, pass.result.value.data))
  {
    CookieCarriesFlow(p, legs, n);
    var r := p.routes[legs[n].request.path];
    var start := Start(JarAt(p, legs, n), legs[n]);
    var flow := FlowAt(p, legs, n).value;
    var o := p.backends[r.owner].onEndpoint(start.(targetBackend := Some(r.owner)), r.routeId);
    assert p.services[0..] == p.services;
    ResponseChainRouting(p, p.services, o.ctx.(targetFrontend := Some(flow.frontend)),
                         answer.(requester := flow.requester));
  }
}
