/**
 Resolution of upstream OpenID providers through the trust anchors, with a cache whose entries
 never outlive the signed decision they came from.
 */
module OpCache {
  import opened Wrappers
  import opened Words
  import opened Sessions

  type Metadata = map<string, Json>

  /** What the trust anchors signed: the subject, when the decision ends, and the provider metadata. */
  datatype Decision = Decision(subject: string, exp: Option<u64>, provider: Option<Metadata>)

  datatype Op = Op(
    entityId: string,
    issuer: string,
    authorizationEndpoint: string,
    tokenEndpoint: string,
    userinfoEndpoint: Option<string>,
    jwksUri: Option<string>,
    metadata: Metadata)

  function Text(m: Metadata, key: string): Option<string> {
    if key in m then NameOf(m[key]) else None
  }

  const ISSUER := "issuer"
  const AUTHORIZATION := "authorization_endpoint"
  const TOKEN := "token_endpoint"
  const USERINFO := "userinfo_endpoint"
  const JWKS := "jwks_uri"

  type IsHttps = string -> bool

  // ---- Which decisions are accepted ----

  predicate Current(d: Decision, now: u64) {
    d.exp.Some? && now < d.exp.value
  }

  /** The metadata names this subject's own issuer and only safe endpoints, the required ones present. */
  predicate Usable(d: Decision, https: IsHttps) {
    && d.provider.Some?
    && (Text(d.provider.value, ISSUER).Some? ==> Text(d.provider.value, ISSUER).value == d.subject)
    && Text(d.provider.value, AUTHORIZATION).Some? && Text(d.provider.value, TOKEN).Some?
    && forall key <- [AUTHORIZATION, TOKEN, USERINFO, JWKS] ::
         Text(d.provider.value, key).Some? ==> https(Text(d.provider.value, key).value)
  }

  function OpOf(d: Decision, https: IsHttps): (op: Op)
    requires Usable(d, https)
    ensures op.issuer == op.entityId == d.subject
  {
    var m := d.provider.value;
    Op(d.subject, if Text(m, ISSUER).Some? then Text(m, ISSUER).value else d.subject,
       Text(m, AUTHORIZATION).value, Text(m, TOKEN).value, Text(m, USERINFO), Text(m, JWKS), m)
  }

  method Accept(d: Decision, https: IsHttps) returns (r: Option<Op>)
    ensures r == if Usable(d, https) then Some(OpOf(d, https)) else None
  {
    if d.provider.None? {
      return None;
    }
    var m := d.provider.value;
    var issuer := Text(m, ISSUER);
    if issuer.None? {
      issuer := Some(d.subject);
    }
    if issuer.value != d.subject {
      return None;
    }
    var authorization, token := Text(m, AUTHORIZATION), Text(m, TOKEN);
    if authorization.None? || token.None? {
      return None;
    }
    var userinfo, jwks := Text(m, USERINFO), Text(m, JWKS);
    var keys := [AUTHORIZATION, TOKEN, USERINFO, JWKS];
    var urls := [authorization, token, userinfo, jwks];
    for i := 0 to |urls|
      invariant forall k | 0 <= k < i :: urls[k].Some? ==> https(urls[k].value)
    {
      if urls[i].Some? && !https(urls[i].value) {
        assert keys[i] in keys && Text(m, keys[i]) == urls[i];
        return None;
      }
    }
    forall key <- keys | Text(m, key).Some? ensures https(Text(m, key).value) {
      var i :| 0 <= i < |keys| && keys[i] == key;
      assert Text(m, key) == urls[i];
    }
    return Some(Op(d.subject, issuer.value, authorization.value, token.value, userinfo, jwks, m));
  }

  // ---- The cache ----

  /** The end of an entry stored at `now`; the sum cannot overflow, for it never exceeds the signed end. */
  function StoredExpiry(d: Decision, now: u64, ttl: u64): (e: u64)
    requires Current(d, now)
    ensures e <= d.exp.value
    ensures e == d.exp.value || e == now + ttl
  {
    now + Min(ttl, d.exp.value - now)
  }

  datatype Entry = Entry(expires: u64, op: Op)

  type Cache = map<string, Entry>

  function Hit(c: Cache, entity: string, now: u64): Option<Op> {
    if entity in c && c[entity].expires > now then Some(c[entity].op) else None
  }

  /**
   * The critical sections of any number of concurrent resolutions: one reads the cache at a time,
   * another fetches a decision meanwhile and stores what it accepts.
   */
  datatype Step = Lookup(entity: string, now: u64) | Fetched(entity: string, decision: Decision, now: u64)

  datatype Settings = Settings(ttl: u64, https: IsHttps)

  predicate Stores(s: Settings, step: Step) {
    step.Fetched? && Current(step.decision, step.now) && Usable(step.decision, s.https)
  }

  function Apply(s: Settings, c: Cache, step: Step): Cache {
    if Stores(s, step) then
      c[step.entity := Entry(StoredExpiry(step.decision, step.now, s.ttl), OpOf(step.decision, s.https))]
    else c
  }

  function After(s: Settings, steps: seq<Step>): Cache {
    if steps == [] then map[]
    else Apply(s, After(s, steps[..|steps| - 1]), steps[|steps| - 1])
  }

  predicate StoresFor(s: Settings, step: Step, entity: string) {
    Stores(s, step) && step.entity == entity
  }

  /** The index of the last step that stored something for `entity`. */
  function LastStore(s: Settings, steps: seq<Step>, entity: string): (r: Option<nat>)
    ensures r.None? ==> forall j | 0 <= j < |steps| :: !StoresFor(s, steps[j], entity)
    ensures r.Some? ==> r.value < |steps| && StoresFor(s, steps[r.value], entity)
                        && forall j | r.value < j < |steps| :: !StoresFor(s, steps[j], entity)
  {
    if steps == [] then None
    else
      var k := |steps| - 1;
      if StoresFor(s, steps[k], entity) then Some(k)
      else
        var r := LastStore(s, steps[..k], entity);
        assert forall j | 0 <= j < k :: steps[j] == steps[..k][j];
        r
  }

  /** The cache remembers exactly the last store of every entity, whatever else happened meanwhile. */
  lemma {:induction false} CacheIsLastStore(s: Settings, steps: seq<Step>, entity: string)
    ensures entity in After(s, steps) <==> LastStore(s, steps, entity).Some?
    ensures entity in After(s, steps) ==>
              var i := LastStore(s, steps, entity).value;
              After(s, steps)[entity] == Entry(StoredExpiry(steps[i].decision, steps[i].now, s.ttl),
                                               OpOf(steps[i].decision, s.https))
  {
    if steps != [] {
      CacheIsLastStore(s, steps[..|steps| - 1], entity);
    }
  }

  /**
   * After any run, a lookup at `now` is answered exactly when the last stored decision for that
   * entity is still signed then and was stored less than the cache lifetime ago; the answer is the
   * provider of that decision.
   */
  lemma HitsAreVouchedFor(s: Settings, steps: seq<Step>, entity: string, now: u64)
    ensures Hit(After(s, steps), entity, now).Some?
            <==> var last := LastStore(s, steps, entity);
                 last.Some? && now < steps[last.value].decision.exp.value && now < steps[last.value].now + s.ttl
    ensures Hit(After(s, steps), entity, now).Some? ==>
              var op, d := Hit(After(s, steps), entity, now).value, steps[LastStore(s, steps, entity).value].decision;
              op == OpOf(d, s.https) && op.issuer == op.entityId == d.subject && now < d.exp.value
  {
    CacheIsLastStore(s, steps, entity);
  }

  /** What the trust anchors answered for an entity, and when. */
  datatype Fetch = Fetch(decision: Option<Decision>, now: u64)

  class FederationBackend {
    const settings: Settings
    var resolved: Cache

    constructor (settings: Settings)
      ensures this.settings == settings && resolved == map[]
    {
      this.settings := settings;
      resolved := map[];
    }

    /**
     * `resolve_op`. The provider returned is a cached one that is still current at `now`, or the one
     * of a decision that is current when it arrives; only the latter changes the cache.
     */
    method ResolveOp(entity: string, now: u64, fetch: Fetch) returns (r: Option<Op>)
      modifies this
      ensures Hit(old(resolved), entity, now).Some? ==>
                r == Hit(old(resolved), entity, now) && resolved == old(resolved)
      ensures Hit(old(resolved), entity, now).None? ==>
                && (r.Some? <==>
                      (fetch.decision.Some? && Stores(settings, Fetched(entity, fetch.decision.value, fetch.now))))
                && (r.Some? ==> r.value == OpOf(fetch.decision.value, settings.https))
                && resolved == (if fetch.decision.Some?
                                then Apply(settings, old(resolved), Fetched(entity, fetch.decision.value, fetch.now))
                                else old(resolved))
    {
      if entity in resolved {
        var Entry(expires, op) := resolved[entity];
        if expires > now {
          return Some(op);
        }
      }
      if fetch.decision.None? {
        return None;
      }
      var d := fetch.decision.value;
      if d.exp.None? {
        return None;
      }
      if !(d.exp.value >= fetch.now && d.exp.value - fetch.now > 0) {
        return None;
      }
      var trustTtl := d.exp.value - fetch.now;
      r := Accept(d, settings.https);
      if r.None? {
        return;
      }
      resolved := resolved[entity := Entry(fetch.now + Min(settings.ttl, trustTtl), r.value)];
    }

    /** `cache_ttl_bounded_by_trust`: a positive lifetime that ends no later than the signed decision. */
    static function BoundedTtl(configured: u64, exp: Option<u64>, now: u64): (r: Option<u64>)
      ensures r.Some? <==> exp.Some? && now < exp.value
      ensures r.Some? ==> now + r.value <= exp.value && r.value <= configured && (configured > 0 ==> r.value > 0)
    {
      if exp.None? || exp.value <= now then None else Some(Min(configured, exp.value - now))
    }
  }
}
