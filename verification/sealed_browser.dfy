/**
 Runs of a browser over sealed cookies: keys, clocks and lifetimes included. Each is one of the plain
 runs of `Browser`, so what holds of those holds here, and the lifetime of the cookie bounds the flow.
 */
module SealedBrowser {
  import opened Wrappers
  import opened Sessions
  import opened Words
  import opened Proxies
  import opened Disco
  import opened Browser
  import StateSeal

  /** The sealed leg changes its state as the proxy does when it serves the request. */
  ghost predicate Handles(p: Proxy, sealed: StateSeal.Leg, request: Request) {
    forall d: Data ::
      && sealed.change(d) == Serves(p, d, request).1.data
      && sealed.delete(d) == Serves(p, d, request).1.delete
  }

  /** The plain leg carries the same request, presents the newest state exactly when the cookie was
      accepted, and keeps it exactly when the new state could be sealed. */
  ghost predicate Mirrors(p: Proxy, sealed: StateSeal.Leg, found: State, seals: bool, leg: Leg) {
    && Handles(p, sealed, leg.request)
    && (leg.presents <==> found.issuedAt.Some?)
    && leg.sealable == seals
  }

  ghost predicate IsPlainRun(p: Proxy, run: seq<StateSeal.Leg>, found: seq<State>, seals: seq<bool>, legs: seq<Leg>) {
    && |legs| == |run| == |found| == |seals|
    && forall n :: 0 <= n < |run| ==> Mirrors(p, run[n], found[n], seals[n], legs[n])
  }

  /** Every run over sealed cookies has its plain run. */
  lemma PlainRunExists(w: StateSeal.Primitives, s: StateSeal.Sealer, p: Proxy, run: seq<StateSeal.Leg>,
                       requests: seq<Request>)
    returns (found: seq<State>, seals: seq<bool>, legs: seq<Leg>)
    requires StateSeal.Ideal(w) && s.Valid() && |requests| == |run|
    requires forall n :: 0 <= n < |run| ==> Handles(p, run[n], requests[n])
    ensures StateSeal.AreFound(w, s, run, found, seals) && StateSeal.IsTrace(s.ttl, run, found, seals)
    ensures IsPlainRun(p, run, found, seals, legs)
  {
    found, seals := StateSeal.FindStates(w, s, run);
    StateSeal.FoundStatesAreATrace(w, s, run, found, seals);
    legs := MirrorRun(p, run, found, seals, requests);
  }

  lemma MirrorRun(p: Proxy, run: seq<StateSeal.Leg>, found: seq<State>, seals: seq<bool>, requests: seq<Request>)
    returns (legs: seq<Leg>)
    requires |requests| == |run| == |found| == |seals|
    requires forall n :: 0 <= n < |run| ==> Handles(p, run[n], requests[n])
    ensures IsPlainRun(p, run, found, seals, legs)
  {
    legs := [];
    for i := 0 to |run|
      invariant |legs| == i
      invariant forall n :: 0 <= n < i ==> Mirrors(p, run[n], found[n], seals[n], legs[n])
    {
      legs := legs + [Leg(requests[i], found[i].issuedAt.Some?, seals[i])];
    }
  }

  /** The plain leg leaves in the jar what the sealed one sealed. */
  lemma PlainStep(p: Proxy, sealed: StateSeal.Leg, before: State, seals: bool, after: State, jar: Data, leg: Leg)
    requires Mirrors(p, sealed, before, seals, leg) && Presented(jar, leg) == before.data
    requires StateSeal.Linked(sealed, before, seals, after)
    ensures JarAfter(p, jar, leg) == after.data
  {
  }

  /** Each leg of the sealed run works on exactly what the plain run presents to it. */
  lemma {:induction false} SealedRunIsPlain(ttl: Option<u64>, p: Proxy, run: seq<StateSeal.Leg>, found: seq<State>,
                                            seals: seq<bool>, legs: seq<Leg>, n: nat)
    requires StateSeal.IsTrace(ttl, run, found, seals) && IsPlainRun(p, run, found, seals, legs) && n < |run|
    ensures found[n].data == Presented(JarAt(p, legs, n), legs[n])
  {
    assert Mirrors(p, run[n], found[n], seals[n], legs[n]);
    assert StateSeal.FoundAt(ttl, run, found, seals, n);
    if found[n] != FRESH {
      SealedRunIsPlain(ttl, p, run, found, seals, legs, n - 1);
      PlainStep(p, run[n - 1], found[n - 1], seals[n - 1], found[n], JarAt(p, legs, n - 1), legs[n - 1]);
    }
  }

  /** Legs that all present their state belong to one session, and the last is within its lifetime. */
  lemma PresentedIsOneSession(ttl: Option<u64>, p: Proxy, run: seq<StateSeal.Leg>, found: seq<State>,
                              seals: seq<bool>, legs: seq<Leg>, m: nat, j: nat)
    returns (i: nat)
    requires StateSeal.IsTrace(ttl, run, found, seals) && IsPlainRun(p, run, found, seals, legs) && m < j < |run|
    requires PresentBetween(legs, m, j + 1)
    ensures i <= m && StateSeal.SessionFrom(found, j, i)
    ensures ttl.Some? ==> run[j].unsealedAt < run[i].sealedAt + ttl.value
  {
    i := StateSeal.SessionBegins(ttl, run, found, seals, m);
    forall n | m < n <= j ensures found[n].issuedAt.Some? {
      assert Mirrors(p, run[n], found[n], seals[n], legs[n]);
    }
    StateSeal.SessionKeepsIssueTime(ttl, run, found, seals, i, j);
  }

  /**
   * A discovery return over sealed cookies resumes a flow that was suspended in the same session, and
   * does so less than the TTL after that session was first sealed, however often the cookie was resealed
   * and the keys rotated in between.
   */
  lemma ResumedWithinLifetime(ttl: Option<u64>, p: Proxy, cfg: Config, k: nat, run: seq<StateSeal.Leg>,
                              found: seq<State>, seals: seq<bool>, legs: seq<Leg>, j: nat)
    returns (i: nat, m: nat)
    requires StateSeal.IsTrace(ttl, run, found, seals) && IsPlainRun(p, run, found, seals, legs)
    requires Installed(p, cfg, k) && j < |run| && EventAt(p, cfg, k, legs, j).Resumes?
    ensures i <= m < j && StateSeal.SessionFrom(found, j, i)
    ensures EventAt(p, cfg, k, legs, m) == Suspends(EventAt(p, cfg, k, legs, j).what)
    ensures ttl.Some? ==> run[j].unsealedAt < run[i].sealedAt + ttl.value
  {
    var what;
    m, what := ResumptionHasOrigin(p, cfg, k, legs, j);
    i := PresentedIsOneSession(ttl, p, run, found, seals, legs, m, j);
  }
}
