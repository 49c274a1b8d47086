/**
 The discovery micro-service: it snapshots the request in its own namespace of
 the session and resumes it when the discovery service sends the browser back.
 */
module Disco {
  import opened Wrappers
  import opened Sessions
  import opened Internal
  import opened Proxies

  const NAMESPACE_PREFIX: string := "disco_to_target_issuer:"
  const KEY_SNAPSHOT: string := "snapshot"
  const PARAM_ENTITY_ID: string := "entityID"
  const KEY_TARGET_ENTITYID: string := "target_entity_id"
  const MAX_ENTITY_ID_LEN: nat := 1024
  const MAX_SNAPSHOT_BYTES: nat := 2048

  /** `jsonSize` is the length of a serialized value, which depends on an escaping
      this model leaves open. */
  datatype Config = Config(
    name: string,
    allowed: Option<map<string, seq<string>>>,
    jsonSize: Json -> nat)
  {
    function Namespace(): string {
      NAMESPACE_PREFIX + name
    }
  }

  predicate IsValidEntityId(v: string) {
    && v != ""
    && |v| <= MAX_ENTITY_ID_LEN
    && forall i :: 0 <= i < |v| ==> v[i] >= ' ' && v[i] != 127 as char
  }

  /** The exact key, else the empty key, else "default". */
  function Level<T>(m: map<string, T>, key: string): Option<T> {
    if key in m then Some(m[key])
    else if "" in m then Some(m[""])
    else if "default" in m then Some(m["default"])
    else None
  }

  predicate IssuerAllowed(cfg: Config, requester: Option<string>, issuer: string) {
    cfg.allowed.None? ||
    (requester.Some?
     && Level(cfg.allowed.value, requester.value).Some?
     && issuer in Level(cfg.allowed.value, requester.value).value)
  }

  /** What a suspended flow has to remember. */
  datatype Suspended = Suspended(frontend: Option<string>, request: InternalData)

  function SnapshotJson(s: Suspended): Json {
    Object(map["target_frontend" := OptionalName(s.frontend), "internal_data" := Encode(s.request)])
  }

  function SnapshotIn(cfg: Config, d: Data): Option<Json> {
    GetValue(d, cfg.Namespace(), KEY_SNAPSHOT)
  }

  function ProcessRequest(cfg: Config, c: Ctx, d: InternalData): Outcome<InternalData> {
    var snapshot := SnapshotJson(Suspended(c.targetFrontend, d));
    if cfg.jsonSize(snapshot) > MAX_SNAPSHOT_BYTES
    then Outcome(c, Err(Authn("snapshot exceeds the state-cookie budget")))
    else Outcome(c.(data := SetValue(c.data, cfg.Namespace(), KEY_SNAPSHOT, snapshot)), Ok(d))
  }

  function ReturnedIssuer(c: Ctx): Option<string> {
    if PARAM_ENTITY_ID in c.request.query && IsValidEntityId(c.request.query[PARAM_ENTITY_ID])
    then Some(c.request.query[PARAM_ENTITY_ID]) else None
  }

  function ParseSnapshot(snapshot: Json): Result<Suspended, ()> {
    if !snapshot.Object? || "internal_data" !in snapshot.fields then Err(()) else
    match Decode(snapshot.fields["internal_data"])
    case Err(_) => Err(())
    case Ok(request) =>
      Ok(Suspended(if "target_frontend" in snapshot.fields then NameOf(snapshot.fields["target_frontend"])
                   else None, request))
  }

  function HandleEndpoint(cfg: Config, c: Ctx): Outcome<EndpointAction> {
    var issuer := ReturnedIssuer(c);
    if issuer.None? then Outcome(c, Err(Authn("no valid entityID in the discovery response"))) else
    var snapshot := SnapshotIn(cfg, c.data);
    if snapshot.None? then Outcome(c, Err(Authn("no discovery flow in progress"))) else
    var cleared := c.(data := ClearNamespace(c.data, cfg.Namespace()));
    match ParseSnapshot(snapshot.value)
    case Err(_) => Outcome(cleared, Err(StateFailure))
    case Ok(s) =>
      if !IssuerAllowed(cfg, s.request.requester, issuer.value) then
        Outcome(c, Err(Authn("issuer is not in allowed_issuers for this requester")))
      else
        Outcome(cleared.(targetFrontend := s.frontend,
                         decorations := c.decorations[KEY_TARGET_ENTITYID := String(issuer.value)]),
                Ok(ResumeRequest(s.request)))
  }

  /** The service as the proxy sees it. */
  function AsService(cfg: Config): Service {
    Service(cfg.name,
            (c: Ctx, d: InternalData) => ProcessRequest(cfg, c, d),
            (c: Ctx, d: InternalData) => Outcome(c, Ok(Continue(d))),
            (c: Ctx, route: string) => HandleEndpoint(cfg, c))
  }

  /** A snapshot parses back to exactly what was suspended. */
  lemma ParseInvertsSnapshot(s: Suspended)
    ensures ParseSnapshot(SnapshotJson(s)) == Ok(s)
  {
    assert |"internal_data"| == 13 && |"target_frontend"| == 15;
    DecodeInvertsEncode(s.request);
  }

  ghost predicate SameElsewhere(ns: string, d: Data, d': Data) {
    forall k :: k != ns ==> (k in d <==> k in d') && (k in d ==> d[k] == d'[k])
  }

  /** The discovery return resumes exactly when a well-formed snapshot is stored,
      the issuer is well-formed and the requester may use it. Resuming consumes
      the snapshot; a rejected issuer leaves the context as it was; and no outcome
      touches another namespace. */
  lemma ReturnResumesOnlyAllowed(cfg: Config, c: Ctx)
    ensures var o := HandleEndpoint(cfg, c);
            && SameElsewhere(cfg.Namespace(), c.data, o.ctx.data)
            && (o.result.Ok? <==>
                  && ReturnedIssuer(c).Some?
                  && SnapshotIn(cfg, c.data).Some?
                  && ParseSnapshot(SnapshotIn(cfg, c.data).value).Ok?
                  && IssuerAllowed(cfg, ParseSnapshot(SnapshotIn(cfg, c.data).value).value.request.requester,
                                   ReturnedIssuer(c).value))
            && (o.result.Ok? ==> SnapshotIn(cfg, o.ctx.data).None?)
            && (o.result.Err? && o.result.error.Authn? ==> o.ctx == c)
  {
  }
}
