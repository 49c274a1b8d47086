/**
 Negotiation of the authentication context class (the level of assurance): what is
 asked of the upstream provider, and what its answer may become for the requester.
 */
module AccrNegotiation {
  import opened Wrappers
  import opened Sessions
  import opened Internal
  import opened Proxies
  import opened ProxyServers

  const KEY_REQUESTED := "requested_accr"
  const KEY_REQUESTED_COMPARISON := "requested_accr_comparison"
  const KEY_TARGET_ACCR := "target_authn_context_class_ref"
  const KEY_TARGET_COMPARISON := "target_accr_comparison"
  const NAMESPACE_PREFIX := "accr:"

  datatype Config = Config(
    supported: seq<string>,
    lowest: map<string, string>,
    rewrite: map<string, string>,
    defaultComparison: Option<string>,
    allowStrongerFallback: bool)

  datatype Accr = Accr(name: string, cfg: Config, reverse: map<string, string>) {
    function Namespace(): string {
      NAMESPACE_PREFIX + name
    }
  }

  datatype ConfigError = NothingSupported | UnsupportedMinimum(frontend: string) | Ambiguous(rewritten: string)

  // ---- Building the service ----

  ghost predicate Injective(m: map<string, string>) {
    forall x, y :: x in m && y in m && m[x] == m[y] ==> x == y
  }

  /** `inverse` undoes `m` on every key, and on nothing else. */
  ghost predicate Inverts(inverse: map<string, string>, m: map<string, string>) {
    && (forall x :: x in m ==> m[x] in inverse && inverse[m[x]] == x)
    && (forall y :: y in inverse ==> inverse[y] in m && m[inverse[y]] == y)
  }

  /** Fills the reverse map entry by entry; succeeds exactly for one-to-one maps, in any order. */
  method Invert(m: map<string, string>) returns (r: Result<map<string, string>, string>)
    ensures r.Ok? <==> Injective(m)
    ensures r.Ok? ==> Inverts(r.value, m)
    ensures r.Err? ==> exists x, y :: x in m && y in m && x != y && m[x] == m[y] == r.error
  {
    var reverse: map<string, string> := map[];
    var left := m.Keys;
    while left != {}
      invariant left <= m.Keys
      invariant forall x :: x in m && x !in left ==> m[x] in reverse && reverse[m[x]] == x
      invariant forall y :: y in reverse ==> reverse[y] in m && reverse[y] !in left && m[reverse[y]] == y
    {
      var origin :| origin in left;
      var rewritten := m[origin];
      if rewritten in reverse {
        assert reverse[rewritten] != origin;
        return Err(rewritten);
      }
      reverse := reverse[rewritten := origin];
      left := left - {origin};
    }
    assert Injective(m);
    return Ok(reverse);
  }

  predicate Buildable(cfg: Config) {
    cfg.supported != [] && forall f <- cfg.lowest :: cfg.lowest[f] in cfg.supported
  }

  method Build(name: string, cfg: Config) returns (r: Result<Accr, ConfigError>)
    ensures r.Ok? <==> Buildable(cfg) && Injective(cfg.rewrite)
    ensures r.Ok? ==> r.value.name == name && r.value.cfg == cfg && Inverts(r.value.reverse, cfg.rewrite)
  {
    if cfg.supported == [] {
      return Err(NothingSupported);
    }
    var left := cfg.lowest.Keys;
    while left != {}
      invariant forall f <- cfg.lowest :: f !in left ==> cfg.lowest[f] in cfg.supported
      invariant left <= cfg.lowest.Keys
    {
      var f :| f in left;
      if cfg.lowest[f] !in cfg.supported {
        return Err(UnsupportedMinimum(f));
      }
      left := left - {f};
    }
    var reverse := Invert(cfg.rewrite);
    match reverse {
      case Err(y) => return Err(Ambiguous(y));
      case Ok(map_) => return Ok(Accr(name, cfg, map_));
    }
  }

  function Rewrite(a: Accr, x: string): string {
    if x in a.cfg.rewrite then a.cfg.rewrite[x] else x
  }

  function Reverse(a: Accr, y: string): string {
    if y in a.reverse then a.reverse[y] else y
  }

  /** Exactly the values that survive the trip to the upstream vocabulary and back. */
  lemma ReverseUndoesRewrite(a: Accr, x: string)
    requires Inverts(a.reverse, a.cfg.rewrite)
    ensures Reverse(a, Rewrite(a, x)) == x
            <==> x in a.cfg.rewrite || forall z :: z in a.cfg.rewrite ==> a.cfg.rewrite[z] != x
  {
    if x !in a.cfg.rewrite && x in a.reverse {
      assert a.cfg.rewrite[a.reverse[x]] == x;
    }
  }

  /** Every supported value survives exactly when no unmapped supported value is a rewriting of another. */
  lemma SupportedValuesSurvive(a: Accr)
    requires Inverts(a.reverse, a.cfg.rewrite)
    ensures (forall x <- a.cfg.supported :: Reverse(a, Rewrite(a, x)) == x)
            <==> forall x <- a.cfg.supported :: x in a.cfg.rewrite || x !in a.reverse
  {
    forall x <- a.cfg.supported
      ensures Reverse(a, Rewrite(a, x)) == x <==> x in a.cfg.rewrite || x !in a.reverse
    {
      if x !in a.cfg.rewrite && x in a.reverse {
        assert a.cfg.rewrite[a.reverse[x]] == x;
      }
    }
  }

  // ---- The strength order ----

  /** The first index of `x`, and none when it does not occur. */
  function Position(xs: seq<string>, x: string): (p: Option<nat>)
    ensures p.None? <==> x !in xs
    ensures p.Some? ==> p.value < |xs| && xs[p.value] == x && forall i | 0 <= i < p.value :: xs[i] != x
  {
    if xs == [] then None
    else if xs[0] == x then Some(0)
    else
      var p := Position(xs[1..], x);
      if p.Some? then
        assert forall i | 0 < i < p.value + 1 :: xs[i] == xs[1..][i - 1];
        Some(p.value + 1)
      else None
  }

  /** The list is sorted from strongest to weakest: a lower position is a stronger level. */
  predicate NoStronger(supported: seq<string>, x: string, y: string) {
    && Position(supported, x).Some? && Position(supported, y).Some?
    && Position(supported, x).value >= Position(supported, y).value
  }

  /** `iter().find(..)`: the first of `xs` that was requested. */
  function FirstRequested(xs: seq<string>, requested: seq<string>): (r: Option<string>)
    ensures r.None? <==> forall x <- xs :: x !in requested
    ensures r.Some? ==>
              && r.value in requested
              && exists i | 0 <= i < |xs| :: xs[i] == r.value && forall j | 0 <= j < i :: xs[j] !in requested
  {
    if xs == [] then None
    else if xs[0] in requested then
      assert xs[0] == xs[0];
      Some(xs[0])
    else
      var r := FirstRequested(xs[1..], requested);
      assert r.Some? ==> exists i | 0 <= i < |xs| ::
          xs[i] == r.value && forall j | 0 <= j < i :: xs[j] !in requested by {
        if r.Some? {
          var i :| 0 <= i < |xs[1..]| && xs[1..][i] == r.value && forall j | 0 <= j < i :: xs[1..][j] !in requested;
          assert xs[i + 1] == r.value;
          assert forall j | 0 < j < i + 1 :: xs[j] == xs[1..][j - 1];
        }
      }
      r
  }

  function SafeFallback(supported: seq<string>, requested: seq<string>, received: string): Option<string> {
    match Position(supported, received)
    case None => None
    case Some(p) => FirstRequested(supported[p..], requested)
  }

  /** No requested level that is no stronger than the received one is stronger than the fallback. */
  lemma FallbackIsStrongest(supported: seq<string>, requested: seq<string>, received: string)
    requires received in supported
    ensures SafeFallback(supported, requested, received).None?
            ==> forall q <- requested :: !NoStronger(supported, q, received)
    ensures SafeFallback(supported, requested, received).Some?
            ==> forall q <- requested :: NoStronger(supported, q, received)
                  ==> NoStronger(supported, q, SafeFallback(supported, requested, received).value)
  {
    var p := Position(supported, received).value;
    var weaker := supported[p..];
    var r := FirstRequested(weaker, requested);
    forall q <- requested | NoStronger(supported, q, received)
      ensures r.Some? && NoStronger(supported, q, r.value)
    {
      var at := Position(supported, q).value;
      assert weaker[at - p] == q;
      var i :| 0 <= i < |weaker| && weaker[i] == r.value && forall j | 0 <= j < i :: weaker[j] !in requested;
      assert i <= at - p;
      FirstPositionIsLeast(supported, p + i);
    }
  }

  lemma FirstPositionIsLeast(xs: seq<string>, i: nat)
    requires i < |xs|
    ensures Position(xs, xs[i]).Some? && Position(xs, xs[i]).value <= i
  {
    var p := Position(xs, xs[i]);
    assert p.Some?;
  }

  /** Equal entries of the list stand next to each other; a list without duplicates is a special case. */
  ghost predicate Contiguous(xs: seq<string>) {
    forall i, j, k :: 0 <= i <= j <= k < |xs| && xs[i] == xs[k] ==> xs[j] == xs[i]
  }

  ghost predicate NeverInflates(supported: seq<string>) {
    forall requested, received ::
      SafeFallback(supported, requested, received).Some?
      ==> NoStronger(supported, SafeFallback(supported, requested, received).value, received)
  }

  /** A fallback never exceeds what was asserted, for any request, exactly when no entry is scattered. */
  lemma FallbackIsSafe(supported: seq<string>)
    ensures NeverInflates(supported) <==> Contiguous(supported)
  {
    if Contiguous(supported) {
      forall requested, received | SafeFallback(supported, requested, received).Some?
        ensures NoStronger(supported, SafeFallback(supported, requested, received).value, received)
      {
        ContiguousIsSafe(supported, requested, received);
      }
    } else {
      var i, j, k :| 0 <= i <= j <= k < |supported| && supported[i] == supported[k] && supported[j] != supported[i];
      ScatteredInflates(supported, i, j, k);
    }
  }

  lemma ContiguousIsSafe(supported: seq<string>, requested: seq<string>, received: string)
    requires Contiguous(supported) && SafeFallback(supported, requested, received).Some?
    ensures NoStronger(supported, SafeFallback(supported, requested, received).value, received)
  {
    var p := Position(supported, received).value;
    var weaker := supported[p..];
    var f := FirstRequested(weaker, requested).value;
    var i :| 0 <= i < |weaker| && weaker[i] == f;
    assert supported[p + i] == f;
    FirstPositionIsLeast(supported, p + i);
    assert supported[Position(supported, f).value] == supported[p + i];
  }

  lemma ScatteredInflates(supported: seq<string>, i: nat, j: nat, k: nat)
    requires i <= j <= k < |supported| && supported[i] == supported[k] && supported[j] != supported[i]
    ensures !NeverInflates(supported)
  {
    var x, y := supported[i], supported[j];
    FirstPositionIsLeast(supported, i);
    FirstPositionIsLeast(supported, j);
    if Position(supported, x).value < Position(supported, y).value {
      OnlyRequestIsFound(supported, x, y, k);
    } else {
      OnlyRequestIsFound(supported, y, x, j);
    }
  }

  lemma OnlyRequestIsFound(supported: seq<string>, wanted: string, received: string, at: nat)
    requires at < |supported| && supported[at] == wanted
    requires received in supported && Position(supported, received).value <= at
    ensures SafeFallback(supported, [wanted], received) == Some(wanted)
  {
    var p := Position(supported, received).value;
    assert supported[p..][at - p] == wanted;
    assert wanted in supported[p..] && wanted in [wanted];
  }

  // ---- The request leg ----

  function Filter(xs: seq<string>, supported: seq<string>): seq<string> {
    if xs == [] then []
    else
      var k := |xs| - 1;
      Filter(xs[..k], supported) + (if xs[k] in supported then [xs[k]] else [])
  }

  lemma {:induction false} FilterKeepsSupported(xs: seq<string>, supported: seq<string>)
    ensures forall x :: x in Filter(xs, supported) <==> x in xs && x in supported
  {
    if xs != [] {
      var k := |xs| - 1;
      FilterKeepsSupported(xs[..k], supported);
      assert xs == xs[..k] + [xs[k]];
    }
  }

  function RewriteAll(a: Accr, xs: seq<string>): (r: seq<string>)
    ensures |r| == |xs|
  {
    seq(|xs|, i requires 0 <= i < |xs| => Rewrite(a, xs[i]))
  }

  /** The minimum of the frontend the flow started at, when it has one. */
  function Minimum(a: Accr, c: Ctx): Option<string> {
    var frontend := OrElse(c.targetFrontend, BaseFrontend(c));
    if frontend.Some? && frontend.value in a.cfg.lowest then Some(a.cfg.lowest[frontend.value]) else None
  }

  function ToForward(a: Accr, c: Ctx, filtered: seq<string>): seq<string> {
    match Minimum(a, c)
    case None => RewriteAll(a, filtered)
    case Some(minimum) =>
      match Position(a.cfg.supported, minimum)
      case None => RewriteAll(a, filtered)
      case Some(p) => a.cfg.supported[..p + 1]
  }

  /** The strings of a JSON array; anything else holds none. */
  function JsonStrings(j: Option<Json>): seq<string> {
    if j.Some? && j.value.Array? then StringItems(j.value.items) else []
  }

  function StringItems(items: seq<Json>): seq<string> {
    if items == [] then []
    else (if items[0].String? then [items[0].s] else []) + StringItems(items[1..])
  }

  lemma {:induction false} StringsReadBack(xs: seq<string>)
    ensures JsonStrings(Some(Strings(xs))) == xs
  {
    if xs != [] {
      StringsReadBack(xs[1..]);
      assert Strings(xs).items[1..] == Strings(xs[1..]).items;
      assert xs == [xs[0]] + xs[1..];
    }
  }

  function Decoration(c: Ctx, key: string): Option<Json> {
    if key in c.decorations then Some(c.decorations[key]) else None
  }

  function Comparison(a: Accr, c: Ctx): Option<string> {
    var requested := Decoration(c, KEY_REQUESTED_COMPARISON);
    OrElse(if requested.Some? then NameOf(requested.value) else None, a.cfg.defaultComparison)
  }

  /** The decorations after forwarding; the first writer of the target wins. */
  function Forwarded(a: Accr, c: Ctx, forward: seq<string>): map<string, Json> {
    if KEY_TARGET_ACCR in c.decorations || forward == [] then c.decorations
    else
      var cmp := Comparison(a, c);
      var with := c.decorations[KEY_TARGET_ACCR := Strings(forward)];
      if cmp.Some? then with[KEY_TARGET_COMPARISON := String(cmp.value)] else with
  }

  function RequestedBy(c: Ctx): seq<string> {
    JsonStrings(Decoration(c, KEY_REQUESTED))
  }

  function AfterRequest(a: Accr, c: Ctx): Ctx {
    var filtered := Filter(RequestedBy(c), a.cfg.supported);
    c.(decorations := Forwarded(a, c, ToForward(a, c, filtered)),
       data := SetValue(c.data, a.Namespace(), KEY_REQUESTED, Strings(filtered)))
  }

  /**
   * Refuses a request that names only unsupported levels and leaves the context alone then.
   * Otherwise it forwards the levels and records the filtered request for the way back.
   */
  method ProcessRequest(a: Accr, ctx: Context, d: InternalData) returns (r: Result<InternalData, Failure>)
    modifies ctx
    ensures var requested := RequestedBy(old(ctx.View()));
            && (r.Ok? <==> requested == [] || exists x <- requested :: x in a.cfg.supported)
            && (r.Ok? ==> r.value == d && ctx.View() == AfterRequest(a, old(ctx.View())))
            && (r.Err? ==> ctx.View() == old(ctx.View()))
  {
    ghost var before := ctx.View();
    var requested := RequestedBy(ctx.View());
    var filtered := KeepSupported(a, requested);
    if requested != [] && filtered == [] {
      return Err(Authn("none of the requested AuthnContextClassRef values are supported"));
    }
    var forward := RewriteInPlace(a, filtered);
    var minimum := Minimum(a, ctx.View());
    if minimum.Some? {
      var p := Position(a.cfg.supported, minimum.value);
      if p.Some? {
        forward := a.cfg.supported[..p.value + 1];
      }
    }
    assert forward == ToForward(a, before, filtered);
    if KEY_TARGET_ACCR !in ctx.decorations && forward != [] {
      var cmp := Comparison(a, ctx.View());
      ctx.decorations := ctx.decorations[KEY_TARGET_ACCR := Strings(forward)];
      if cmp.Some? {
        ctx.decorations := ctx.decorations[KEY_TARGET_COMPARISON := String(cmp.value)];
      }
    }
    ctx.data := SetValue(ctx.data, a.Namespace(), KEY_REQUESTED, Strings(filtered));
    return Ok(d);
  }

  method KeepSupported(a: Accr, requested: seq<string>) returns (filtered: seq<string>)
    ensures filtered == Filter(requested, a.cfg.supported)
    ensures filtered == [] <==> forall x <- requested :: x !in a.cfg.supported
  {
    filtered := [];
    for i := 0 to |requested|
      invariant filtered == Filter(requested[..i], a.cfg.supported)
    {
      assert requested[..i + 1][..i] == requested[..i];
      if requested[i] in a.cfg.supported {
        filtered := filtered + [requested[i]];
      }
    }
    assert requested[..|requested|] == requested;
    FilterKeepsSupported(requested, a.cfg.supported);
    assert filtered != [] ==> filtered[0] in filtered;
  }

  method RewriteInPlace(a: Accr, xs: seq<string>) returns (r: seq<string>)
    ensures r == RewriteAll(a, xs)
  {
    r := xs;
    for i := 0 to |r|
      invariant |r| == |xs|
      invariant forall k | 0 <= k < |xs| :: r[k] == if k < i then Rewrite(a, xs[k]) else xs[k]
    {
      if r[i] in a.cfg.rewrite {
        r := r[i := a.cfg.rewrite[r[i]]];
      }
    }
  }

  /** With a configured minimum nothing weaker than it is ever asked for. */
  lemma MinimumIsAsked(a: Accr, c: Ctx, filtered: seq<string>)
    requires Buildable(a.cfg) && Minimum(a, c).Some?
    ensures forall x :: x in ToForward(a, c, filtered) <==> NoStronger(a.cfg.supported, Minimum(a, c).value, x)
  {
    var supported := a.cfg.supported;
    var frontend := OrElse(c.targetFrontend, BaseFrontend(c));
    assert frontend.value in a.cfg.lowest;
    var p := Position(supported, Minimum(a, c).value).value;
    var forward := supported[..p + 1];
    forall x | NoStronger(supported, Minimum(a, c).value, x) ensures x in forward {
      assert forward[Position(supported, x).value] == x;
    }
    forall x <- forward ensures NoStronger(supported, Minimum(a, c).value, x) {
      var i :| 0 <= i < |forward| && forward[i] == x;
      FirstPositionIsLeast(supported, i);
    }
  }

  // ---- The response leg ----

  function Remembered(a: Accr, d: Data): seq<string> {
    JsonStrings(GetValue(d, a.Namespace(), KEY_REQUESTED))
  }

  /** The level the requester gets to see, and none when the answer is refused. */
  function Judge(a: Accr, requested: seq<string>, asserted: Option<string>): Option<Option<string>> {
    if requested == [] then Some(asserted)
    else if asserted.None? then None
    else
      var received := Reverse(a, asserted.value);
      if received in requested then Some(Some(received))
      else if a.cfg.allowStrongerFallback then
        match SafeFallback(a.cfg.supported, requested, received)
        case None => None
        case Some(f) => Some(Some(f))
      else None
  }

  method ProcessResponse(a: Accr, ctx: Context, d: InternalData) returns (r: Result<InternalData, Failure>)
    modifies ctx
    ensures var verdict := Judge(a, Remembered(a, old(ctx.data)), d.authInfo.authClassRef);
            && (r.Ok? <==> verdict.Some?)
            && (r.Ok? ==>
                  && r.value == d.(authInfo := d.authInfo.(authClassRef := verdict.value))
                  && ctx.View() == old(ctx.View()).(data := ClearNamespace(old(ctx.data), a.Namespace())))
            && (r.Err? ==> ctx.View() == old(ctx.View()))
  {
    var verdict := Normalize(a, Remembered(a, ctx.data), d.authInfo.authClassRef);
    if verdict.None? {
      return Err(Authn("upstream AuthnContextClassRef does not satisfy the SP request"));
    }
    ctx.data := ClearNamespace(ctx.data, a.Namespace());
    return Ok(d.(authInfo := d.authInfo.(authClassRef := verdict.value)));
  }

  /** Reverses the rewriting of a non-empty request, then accepts, lowers or refuses the level. */
  method Normalize(a: Accr, requested: seq<string>, asserted: Option<string>) returns (r: Option<Option<string>>)
    ensures r == Judge(a, requested, asserted)
  {
    var received := asserted;
    if requested != [] && received.Some? && received.value in a.reverse {
      received := Some(a.reverse[received.value]);
    }
    if requested == [] || (received.Some? && received.value in requested) {
      return Some(received);
    }
    if received.Some? && a.cfg.allowStrongerFallback {
      var fallback := SafeFallback(a.cfg.supported, requested, received.value);
      if fallback.Some? {
        return Some(fallback);
      }
    }
    return None;
  }

  /**
   * What a requester that asked for something is told: a level it asked for, which is either
   * what the provider asserted or, where allowed, the strongest requested level no stronger than that.
   */
  lemma AcceptedLevels(a: Accr, requested: seq<string>, asserted: Option<string>)
    requires requested != [] && Contiguous(a.cfg.supported)
    requires Judge(a, requested, asserted).Some?
    ensures var r := Judge(a, requested, asserted).value;
            && asserted.Some? && r.Some? && r.value in requested
            && (r.value != Reverse(a, asserted.value) ==>
                  && a.cfg.allowStrongerFallback
                  && NoStronger(a.cfg.supported, r.value, Reverse(a, asserted.value))
                  && forall q <- requested :: NoStronger(a.cfg.supported, q, Reverse(a, asserted.value))
                       ==> NoStronger(a.cfg.supported, q, r.value))
  {
    var received := Reverse(a, asserted.value);
    if received !in requested {
      ContiguousIsSafe(a.cfg.supported, requested, received);
      FallbackIsStrongest(a.cfg.supported, requested, received);
    }
  }

  /** `q` stands at or below the place of `received` in the list; the fallback searches exactly there. */
  ghost predicate AtOrBelow(supported: seq<string>, q: string, received: string) {
    && received in supported
    && exists i | Position(supported, received).value <= i < |supported| :: supported[i] == q
  }

  /** In a list without scattered entries that means being no stronger. */
  lemma AtOrBelowIsNoStronger(supported: seq<string>, q: string, received: string)
    requires Contiguous(supported)
    ensures AtOrBelow(supported, q, received) <==> NoStronger(supported, q, received)
  {
    if NoStronger(supported, q, received) {
      assert supported[Position(supported, q).value] == q;
    }
    if AtOrBelow(supported, q, received) {
      var p := Position(supported, received).value;
      var i :| p <= i < |supported| && supported[i] == q;
      FirstPositionIsLeast(supported, i);
      assert supported[Position(supported, q).value] == supported[i];
    }
  }

  /** What makes an answer acceptable to a requester. */
  ghost predicate Justifies(a: Accr, requested: seq<string>, answer: string) {
    var received := Reverse(a, answer);
    || requested == []
    || received in requested
    || (a.cfg.allowStrongerFallback && exists q <- requested :: AtOrBelow(a.cfg.supported, q, received))
  }

  /** An answer is refused exactly when it is missing or no requested level is justified by it. */
  lemma RefusedLevels(a: Accr, requested: seq<string>, asserted: Option<string>)
    ensures Judge(a, requested, asserted).None?
            <==> requested != [] && (asserted.None? || !Justifies(a, requested, asserted.value))
  {
    if asserted.Some? {
      FallbackExists(a.cfg.supported, requested, Reverse(a, asserted.value));
    }
  }

  lemma FallbackExists(supported: seq<string>, requested: seq<string>, received: string)
    ensures SafeFallback(supported, requested, received).Some?
            <==> exists q <- requested :: AtOrBelow(supported, q, received)
  {
    if received in supported {
      var p := Position(supported, received).value;
      var weaker := supported[p..];
      if q :| q in requested && AtOrBelow(supported, q, received) {
        var i :| p <= i < |supported| && supported[i] == q;
        assert weaker[i - p] == q;
      }
      var r := FirstRequested(weaker, requested);
      if r.Some? {
        var i :| 0 <= i < |weaker| && weaker[i] == r.value;
        assert supported[p + i] == r.value;
      }
    }
  }

  // ---- Both legs together ----

  /** What the provider is asked for once the request leg is over. */
  function Asked(a: Accr, c: Ctx): seq<string> {
    JsonStrings(Decoration(AfterRequest(a, c), KEY_TARGET_ACCR))
  }

  /** What the response leg of the same flow validates against. */
  function RememberedAfter(a: Accr, c: Ctx): seq<string> {
    Remembered(a, AfterRequest(a, c).data)
  }

  /** The request was taken over; only this service writes its namespace, and it writes objects. */
  ghost predicate TakenOver(a: Accr, c: Ctx) {
    && (RequestedBy(c) == [] || exists x <- RequestedBy(c) :: x in a.cfg.supported)
    && (a.Namespace() in c.data ==> c.data[a.Namespace()].Object?)
  }

  lemma WhatIsRemembered(a: Accr, c: Ctx)
    requires TakenOver(a, c)
    ensures var requested := RememberedAfter(a, c);
            && requested == Filter(RequestedBy(c), a.cfg.supported)
            && (forall x :: x in requested <==> x in RequestedBy(c) && x in a.cfg.supported)
            && (requested == [] <==> RequestedBy(c) == [])
  {
    var filtered := Filter(RequestedBy(c), a.cfg.supported);
    FilterKeepsSupported(RequestedBy(c), a.cfg.supported);
    StringsReadBack(filtered);
    if x :| x in RequestedBy(c) && x in a.cfg.supported {
      assert x in filtered;
    }
  }

  /** What is asked for: what an earlier writer fixed, the range down to the minimum, or the rewritten request. */
  lemma WhatIsAsked(a: Accr, c: Ctx)
    requires Buildable(a.cfg)
    ensures Asked(a, c)
            == if KEY_TARGET_ACCR in c.decorations then JsonStrings(Some(c.decorations[KEY_TARGET_ACCR]))
               else if Minimum(a, c).Some?
               then a.cfg.supported[..Position(a.cfg.supported, Minimum(a, c).value).value + 1]
               else RewriteAll(a, Filter(RequestedBy(c), a.cfg.supported))
  {
    var forward := ToForward(a, c, Filter(RequestedBy(c), a.cfg.supported));
    if Minimum(a, c).Some? {
      assert Minimum(a, c).value in a.cfg.supported by {
        var frontend := OrElse(c.targetFrontend, BaseFrontend(c));
        assert frontend.value in a.cfg.lowest;
      }
    }
    if KEY_TARGET_ACCR !in c.decorations && forward != [] {
      StringsReadBack(forward);
      TargetIsKept(a, c, forward);
    }
  }

  /**
   * Both legs together, whatever was asked for: every level the provider was asked for is accepted
   * as its answer exactly when each of them is justified to the requester.
   */
  lemma AskedLevelsAreAccepted(a: Accr, c: Ctx)
    ensures (forall x <- Asked(a, c) :: Judge(a, RememberedAfter(a, c), Some(x)).Some?)
            <==> forall x <- Asked(a, c) :: Justifies(a, RememberedAfter(a, c), x)
  {
    forall x <- Asked(a, c)
      ensures Judge(a, RememberedAfter(a, c), Some(x)).Some? <==> Justifies(a, RememberedAfter(a, c), x)
    {
      RefusedLevels(a, RememberedAfter(a, c), Some(x));
    }
  }

  /**
   * With a configured minimum the two legs agree exactly when every level from the strongest down to
   * the minimum is justified by the request; a request for a weaker level alone is not.
   */
  lemma MinimumIsAnswerable(a: Accr, c: Ctx)
    requires Buildable(a.cfg) && TakenOver(a, c)
    requires KEY_TARGET_ACCR !in c.decorations && Minimum(a, c).Some?
    ensures var p := Position(a.cfg.supported, Minimum(a, c).value).value;
            var requested := Filter(RequestedBy(c), a.cfg.supported);
            (forall x <- Asked(a, c) :: Judge(a, RememberedAfter(a, c), Some(x)).Some?)
            <==> forall x <- a.cfg.supported[..p + 1] :: Justifies(a, requested, x)
  {
    WhatIsAsked(a, c);
    WhatIsRemembered(a, c);
    AskedLevelsAreAccepted(a, c);
  }

  /**
   * Without a minimum the two legs always agree: whichever forwarded level the provider answers, the
   * requester gets a level of its own request in its own vocabulary, namely one whose rewriting was answered.
   */
  lemma RequestAndAnswerAgree(a: Accr, c: Ctx, answer: string)
    requires Inverts(a.reverse, a.cfg.rewrite) && Buildable(a.cfg) && TakenOver(a, c)
    requires forall x <- a.cfg.supported :: Reverse(a, Rewrite(a, x)) == x
    requires KEY_TARGET_ACCR !in c.decorations && Minimum(a, c).None?
    requires answer in Asked(a, c)
    ensures Judge(a, RememberedAfter(a, c), Some(answer)) == Some(Some(Reverse(a, answer)))
    ensures Reverse(a, answer) in RequestedBy(c) && Rewrite(a, Reverse(a, answer)) == answer
  {
    WhatIsAsked(a, c);
    WhatIsRemembered(a, c);
    var filtered := Filter(RequestedBy(c), a.cfg.supported);
    var forward := RewriteAll(a, filtered);
    var i :| 0 <= i < |forward| && forward[i] == answer;
    assert filtered[i] in filtered;
    assert answer == Rewrite(a, filtered[i]);
  }

  /** Whatever the provider answers, an accepted login is at least as strong as `minimum`. */
  ghost predicate NeverUndercuts(a: Accr, requested: seq<string>, minimum: string) {
    forall asserted: Option<string> | Judge(a, requested, asserted).Some? ::
      && Judge(a, requested, asserted).value.Some?
      && NoStronger(a.cfg.supported, minimum, Judge(a, requested, asserted).value.value)
  }

  /**
   * The response leg does not check the minimum. It is kept for every answer exactly when something was
   * requested and no supported requested level is weaker than the minimum.
   */
  lemma MinimumIsKept(a: Accr, c: Ctx, minimum: string)
    requires Inverts(a.reverse, a.cfg.rewrite) && TakenOver(a, c)
    requires forall x <- a.cfg.supported :: Reverse(a, Rewrite(a, x)) == x
    ensures NeverUndercuts(a, RememberedAfter(a, c), minimum)
            <==> RequestedBy(c) != []
                 && forall q <- RequestedBy(c) | q in a.cfg.supported :: NoStronger(a.cfg.supported, minimum, q)
  {
    WhatIsRemembered(a, c);
    UndercutsUnlessRequestedAbove(a, RememberedAfter(a, c), minimum);
  }

  lemma UndercutsUnlessRequestedAbove(a: Accr, requested: seq<string>, minimum: string)
    requires forall q <- requested :: Reverse(a, Rewrite(a, q)) == q
    ensures NeverUndercuts(a, requested, minimum)
            <==> requested != [] && forall q <- requested :: NoStronger(a.cfg.supported, minimum, q)
  {
    if NeverUndercuts(a, requested, minimum) {
      var missing: Option<string> := None;
      assert requested == [] ==> Judge(a, requested, missing).Some?;
      forall q <- requested ensures NoStronger(a.cfg.supported, minimum, q) {
        assert Judge(a, requested, Some(Rewrite(a, q))) == Some(Some(q));
      }
    }
    if requested != [] && forall q <- requested :: NoStronger(a.cfg.supported, minimum, q) {
      forall asserted: Option<string> | Judge(a, requested, asserted).Some?
        ensures Judge(a, requested, asserted).value.Some?
        ensures Judge(a, requested, asserted).value.value in requested
      {
        AcceptedIsRequested(a, requested, asserted);
      }
    }
  }

  lemma AcceptedIsRequested(a: Accr, requested: seq<string>, asserted: Option<string>)
    requires requested != [] && Judge(a, requested, asserted).Some?
    ensures Judge(a, requested, asserted).value.Some? && Judge(a, requested, asserted).value.value in requested
  {
  }

  /**
   * One flow that shows both: the frontend demands MFA and the requester asks for a password only. The
   * provider is asked for MFA; if it answers MFA the login is refused, if it answers a password it is accepted.
   */
  lemma MinimumAndRequestDisagree(a: Accr, c: Ctx)
    requires a.cfg.supported == ["mfa", "pwd"] && a.cfg.rewrite == a.reverse == map[] && !a.cfg.allowStrongerFallback
    requires Minimum(a, c) == Some("mfa") && RequestedBy(c) == ["pwd"]
    requires TakenOver(a, c) && Buildable(a.cfg) && KEY_TARGET_ACCR !in c.decorations
    ensures Asked(a, c) == ["mfa"]
    ensures Judge(a, RememberedAfter(a, c), Some("mfa")) == None
    ensures Judge(a, RememberedAfter(a, c), Some("pwd")) == Some(Some("pwd"))
    ensures !NoStronger(a.cfg.supported, "mfa", "pwd")
  {
    assert "mfa"[0] != "pwd"[0];
    var supported := a.cfg.supported;
    assert supported[0] == "mfa" && supported[1] == "pwd";
    FirstPositionIsLeast(supported, 0);
    FirstPositionIsLeast(supported, 1);
    assert supported[..1] == ["mfa"];
    WhatIsAsked(a, c);
    WhatIsRemembered(a, c);
    var requested := RememberedAfter(a, c);
    assert "pwd" in RequestedBy(c) && "pwd" in supported;
    assert "pwd" in requested && "mfa" !in requested;
  }

  lemma TargetIsKept(a: Accr, c: Ctx, forward: seq<string>)
    requires KEY_TARGET_ACCR !in c.decorations && forward != []
    ensures KEY_TARGET_ACCR in Forwarded(a, c, forward)
    ensures Forwarded(a, c, forward)[KEY_TARGET_ACCR] == Strings(forward)
  {
    assert |KEY_TARGET_ACCR| == 30 && |KEY_TARGET_COMPARISON| == 22;
  }
}
