/**
 A proxy with one pinned frontend, one discovery service and two backends, and a run that suspends and
 resumes twice: the theorems about discovery flows speak of runs that exist, and a pin does not survive.
 */
module DiscoveryExample {
  import opened Wrappers
  import opened Sessions
  import opened Internal
  import opened Proxies
  import opened Disco
  import opened Browser
  import opened Words
  import SealedBrowser
  import StateSeal

  const CONFIG: Config := Config("disco", None, (j: Json) => 0)

  const REQUEST: InternalData :=
    InternalData(AuthInfo(None, None, None), Some("sp"), [], None, Persistent, map[], false, false)

  const FRONTEND: Frontend := Frontend(
    (c: Ctx, route: string) => Outcome(c, Ok(StartAuth(REQUEST, Some("pinned")))),
    (c: Ctx, d: InternalData) => Outcome(c, Ok(Text(200, ""))),
    (c: Ctx, e: Failure) => Outcome(c, Ok(Text(200, ""))))

  const BACKEND: Backend := Backend(
    (c: Ctx, d: InternalData) => Outcome(c, Ok(Text(200, ""))),
    (c: Ctx, route: string) => Outcome(c, Ok(Reply(Text(200, "")))))

  /** The backend tables are parameters, for what follows depends only on what they hold. */
  function Example(frontends: map<string, Frontend>, backends: map<string, Backend>,
                   routes: map<string, Endpoint>): Proxy {
    Proxy(frontends, backends, [AsService(CONFIG)], routes, Some("default"), (e: Failure) => 500)
  }

  ghost predicate IsExample(p: Proxy) {
    && p == Example(p.frontends, p.backends, p.routes)
    && "f" in p.frontends && (forall f :: f in p.frontends ==> p.frontends[f] == FRONTEND)
    && "pinned" in p.backends && "default" in p.backends && (forall b :: b in p.backends ==> p.backends[b] == BACKEND)
    && "/start" in p.routes && p.routes["/start"] == Endpoint(IsFrontend, "f", "start")
    && "/disco" in p.routes && p.routes["/disco"] == Endpoint(IsService, "disco", "disco")
  }

  lemma ExampleExists() returns (p: Proxy)
    ensures IsExample(p)
  {
    p := Example(map["f" := FRONTEND], map["pinned" := BACKEND, "default" := BACKEND],
                 map["/start" := Endpoint(IsFrontend, "f", "start"),
                     "/disco" := Endpoint(IsService, "disco", "disco")]);
    assert "/start"[1] != "/disco"[1];
    assert "pinned"[0] != "default"[0];
  }

  const STARTS: Leg := Leg(Request("/start", "GET", map[], map[]), true, true)
  const RETURNS: Leg := Leg(Request("/disco", "GET", map["entityID" := "idp"], map[]), true, true)

  const FLOW: Suspended := Suspended(Some("f"), REQUEST)

  lemma ExampleIsInstalled(p: Proxy)
    requires IsExample(p)
    ensures Installed(p, CONFIG, 0)
  {
    assert |BASE| == 15 && |NAMESPACE_PREFIX| == 23;
  }

  /** The namespaces the proxy and the service write hold objects, if anything. */
  ghost predicate Tidy(d: Data) {
    && (BASE in d ==> d[BASE].Object?)
    && (CONFIG.Namespace() in d ==> d[CONFIG.Namespace()].Object?)
  }

  lemma NamespacesDiffer()
    ensures BASE != CONFIG.Namespace()
  {
    assert |BASE| == 15 && |CONFIG.Namespace()| == 28;
  }

  function Entered(jar: Data): Ctx {
    RecordFlow(Start(jar, STARTS).(targetFrontend := Some("f")), Some("sp"), "f")
  }

  lemma StartEnters(p: Proxy, jar: Data)
    requires IsExample(p) && Tidy(jar)
    ensures EntryOf(p, Start(jar, STARTS)) == Some(Entry(Entered(jar), REQUEST, "f", 0, Some("pinned")))
    ensures Tidy(Entered(jar).data)
  {
    NamespacesDiffer();
  }

  /** The one service of the example passes the request on and stores the flow. */
  lemma ServicePasses(p: Proxy, c: Ctx)
    requires IsExample(p) && Tidy(c.data) && c.targetFrontend == Some("f")
    ensures var o := RequestChain(p.services, c, REQUEST);
            && o.result == Ok(REQUEST) && o.ctx.targetBackend == c.targetBackend && o.ctx.delete == c.delete
            && SnapshotIn(CONFIG, o.ctx.data) == Some(SnapshotJson(FLOW)) && Tidy(o.ctx.data)
  {
    NamespacesDiffer();
    assert p.services[1..] == [];
    assert p.services[0] == AsService(CONFIG);
  }

  lemma StartSuspends(p: Proxy, jar: Data)
    requires IsExample(p) && Tidy(jar)
    ensures EventOf(p, CONFIG, 0, Start(jar, STARTS)) == Suspends(FLOW)
    ensures Chosen(p, EntryOf(p, Start(jar, STARTS)).value) == Some("pinned")
    ensures SnapshotIn(CONFIG, JarAfter(p, jar, STARTS)) == Some(SnapshotJson(FLOW)) && Tidy(JarAfter(p, jar, STARTS))
  {
    var c := Start(jar, STARTS);
    StartEnters(p, jar);
    var e := EntryOf(p, c).value;
    assert p.services[0..] == p.services && p.services[0..0] == [];
    ServicePasses(p, e.ctx);
    EntryDispatches(p, c);
  }

  lemma ReturnResumes(p: Proxy, jar: Data)
    requires IsExample(p) && Tidy(jar) && SnapshotIn(CONFIG, jar) == Some(SnapshotJson(FLOW))
    ensures EventOf(p, CONFIG, 0, Start(jar, RETURNS)) == Resumes(FLOW, "idp")
    ensures EntryOf(p, Start(jar, RETURNS)).Some? && Chosen(p, EntryOf(p, Start(jar, RETURNS)).value) == Some("default")
  {
    ParseInvertsSnapshot(FLOW);
    ReturnedIs(jar);
    ExampleIsInstalled(p);
    OwnPosition(p, CONFIG, 0);
    assert p.services[1..] == [];
  }

  lemma ReturnedIs(jar: Data)
    ensures ReturnedIssuer(Start(jar, RETURNS)) == Some("idp")
  {
  }

  lemma ReturnLeavesTidy(p: Proxy, jar: Data)
    requires IsExample(p) && Tidy(jar) && SnapshotIn(CONFIG, jar) == Some(SnapshotJson(FLOW))
    ensures Tidy(JarAfter(p, jar, RETURNS))
  {
    NamespacesDiffer();
    ReturnResumes(p, jar);
    EntryDispatches(p, Start(jar, RETURNS));
    assert p.services[1..] == [];
  }

  ghost predicate Happens(p: Proxy, legs: seq<Leg>, n: nat, e: Event, backend: string)
    requires n < |legs| && |p.services| > 0
  {
    EventAt(p, CONFIG, 0, legs, n) == e && ChosenAt(p, legs, n) == Some(backend)
  }

  ghost predicate HoldsFlow(jar: Data) {
    Tidy(jar) && SnapshotIn(CONFIG, jar) == Some(SnapshotJson(FLOW))
  }

  lemma StartAt(p: Proxy, legs: seq<Leg>, n: nat)
    requires IsExample(p) && n < |legs| && legs[n] == STARTS && Tidy(JarAt(p, legs, n))
    ensures Happens(p, legs, n, Suspends(FLOW), "pinned") && HoldsFlow(JarAt(p, legs, n + 1))
  {
    StartEnters(p, JarAt(p, legs, n));
    StartSuspends(p, JarAt(p, legs, n));
  }

  lemma ReturnAt(p: Proxy, legs: seq<Leg>, n: nat)
    requires IsExample(p) && n < |legs| && legs[n] == RETURNS && HoldsFlow(JarAt(p, legs, n))
    ensures Happens(p, legs, n, Resumes(FLOW, "idp"), "default") && Tidy(JarAt(p, legs, n + 1))
  {
    ReturnResumes(p, JarAt(p, legs, n));
    ReturnLeavesTidy(p, JarAt(p, legs, n));
  }

  lemma Round(p: Proxy, legs: seq<Leg>, n: nat)
    requires IsExample(p) && n + 1 < |legs| && legs[n] == STARTS && legs[n + 1] == RETURNS
    requires Tidy(JarAt(p, legs, n))
    ensures Happens(p, legs, n, Suspends(FLOW), "pinned")
    ensures Happens(p, legs, n + 1, Resumes(FLOW, "idp"), "default")
    ensures Tidy(JarAt(p, legs, n + 2))
  {
    StartAt(p, legs, n);
    ReturnAt(p, legs, n + 1);
  }

  /** A run that suspends, resumes, suspends and resumes again. Each time the pinned backend is asked first
      and the default one after the return, so the pin of the frontend does not survive discovery. */
  lemma PinIsLost() returns (p: Proxy, legs: seq<Leg>)
    ensures Installed(p, CONFIG, 0) && |legs| == 4
    ensures Happens(p, legs, 0, Suspends(FLOW), "pinned") && Happens(p, legs, 1, Resumes(FLOW, "idp"), "default")
    ensures Happens(p, legs, 2, Suspends(FLOW), "pinned") && Happens(p, legs, 3, Resumes(FLOW, "idp"), "default")
  {
    p := ExampleExists();
    ExampleIsInstalled(p);
    legs := [STARTS, RETURNS, STARTS, RETURNS];
    Round(p, legs, 0);
    Round(p, legs, 2);
  }

  // ---- The same over sealed cookies ----

  /** Two sealed legs that mirror a plain start and a plain return. */
  lemma TwoLegsAreATrace(p: Proxy, a: StateSeal.Leg, b: StateSeal.Leg, legs: seq<Leg>)
    returns (found: seq<State>, seals: seq<bool>)
    requires |legs| == 2 && SealedBrowser.Handles(p, a, legs[0].request) && SealedBrowser.Handles(p, b, legs[1].request)
    requires !legs[0].presents && legs[1].presents && legs[0].sealable && legs[1].sealable
    requires !a.delete(NOTHING) && a.sealedAt == 0 && b.unsealedAt == 60
    ensures StateSeal.IsTrace(Some(1800), [a, b], found, seals)
    ensures SealedBrowser.IsPlainRun(p, [a, b], found, seals, legs)
  {
    found := [FRESH, State(a.change(NOTHING), Some(0), false)];
    seals := [true, true];
    assert StateSeal.Linked(a, found[0], seals[0], found[1]);
    assert StateSeal.FoundAt(Some(1800), [a, b], found, seals, 1);
    assert SealedBrowser.Mirrors(p, a, found[0], seals[0], legs[0]);
    assert SealedBrowser.Mirrors(p, b, found[1], seals[1], legs[1]);
  }

  const FIRST: Leg := STARTS.(presents := false)

  lemma FirstIsAStart(p: Proxy)
    requires IsExample(p)
    ensures HoldsFlow(JarAfter(p, NOTHING, FIRST)) && !Serves(p, NOTHING, FIRST.request).1.delete
  {
    StartSuspends(p, NOTHING);
    assert JarAfter(p, NOTHING, FIRST) == JarAfter(p, NOTHING, STARTS);
  }

  /** Any two sealed legs that serve a start at 0 and a return at 60 make a run, with a lifetime of 1800
      seconds, in which the return resumes. */
  lemma SealedReturnResumes(p: Proxy, a: StateSeal.Leg, b: StateSeal.Leg)
    returns (found: seq<State>, seals: seq<bool>, legs: seq<Leg>)
    requires IsExample(p) && a.sealedAt == 0 && b.unsealedAt == 60
    requires SealedBrowser.Handles(p, a, FIRST.request) && SealedBrowser.Handles(p, b, RETURNS.request)
    ensures Installed(p, CONFIG, 0) && |legs| == 2
    ensures StateSeal.IsTrace(Some(1800), [a, b], found, seals)
    ensures SealedBrowser.IsPlainRun(p, [a, b], found, seals, legs)
    ensures EventAt(p, CONFIG, 0, legs, 1) == Resumes(FLOW, "idp")
  {
    ExampleIsInstalled(p);
    legs := [FIRST, RETURNS];
    FirstThenReturn(p, legs);
    assert !a.delete(NOTHING);
    found, seals := TwoLegsAreATrace(p, a, b, legs);
  }

  lemma FirstThenReturn(p: Proxy, legs: seq<Leg>)
    requires IsExample(p) && legs == [FIRST, RETURNS]
    ensures EventAt(p, CONFIG, 0, legs, 1) == Resumes(FLOW, "idp")
    ensures !Serves(p, NOTHING, legs[0].request).1.delete
  {
    FirstIsAStart(p);
    assert JarAt(p, legs, 1) == JarAfter(p, NOTHING, FIRST);
    ReturnResumes(p, JarAt(p, legs, 1));
  }
}
