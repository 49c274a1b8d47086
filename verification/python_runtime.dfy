/**
 Calls into the embedded Python runtime: a permit protocol under deadlines, and
 the atomic commit of what a call returned.
 */
module PythonCalls {
  import opened Wrappers
  import opened Sessions
  import opened Internal
  import opened Proxies
  import opened ProxyServers

  // ---- Admission: permits, deadlines and detached calls ----

  type CallId = nat

  /** A call waits for a permit, runs with one, or goes on running detached after
      its deadline released the request that waited for it. */
  datatype Phase = Queued(deadline: nat) | Running(deadline: nat) | Detached | Ended(inTime: bool)

  datatype Runtime = Runtime(now: nat, free: nat, calls: map<CallId, Phase>)

  datatype Step =
    | Tick(to: nat)
    | Arrive(id: CallId, timeout: nat)
    | Admit(id: CallId)
    | GiveUp(id: CallId)
    | Return(id: CallId)
    | Detach(id: CallId)
    | ExitDetached(id: CallId)

  predicate HoldsPermit(ph: Phase) {
    ph.Running? || ph.Detached?
  }

  function Held(r: Runtime): set<CallId> {
    set t | t in r.calls && HoldsPermit(r.calls[t])
  }

  predicate Enabled(r: Runtime, s: Step) {
    match s
    case Tick(to) => r.now <= to
    case Arrive(t, timeout) => t !in r.calls && timeout > 0
    case Admit(t) => t in r.calls && r.calls[t].Queued? && r.free > 0
    case GiveUp(t) => t in r.calls && r.calls[t].Queued? && r.calls[t].deadline <= r.now
    case Return(t) => t in r.calls && r.calls[t].Running?
    case Detach(t) => t in r.calls && r.calls[t].Running? && r.calls[t].deadline <= r.now
    case ExitDetached(t) => t in r.calls && r.calls[t].Detached?
  }

  function Apply(r: Runtime, s: Step): Runtime
    requires Enabled(r, s)
  {
    match s
    case Tick(to) => r.(now := to)
    case Arrive(t, timeout) => r.(calls := r.calls[t := Queued(r.now + timeout)])
    case Admit(t) => r.(free := r.free - 1, calls := r.calls[t := Running(r.calls[t].deadline)])
    case GiveUp(t) => r.(calls := r.calls[t := Ended(false)])
    case Return(t) => r.(free := r.free + 1, calls := r.calls[t := Ended(true)])
    case Detach(t) => r.(calls := r.calls[t := Detached])
    case ExitDetached(t) => r.(free := r.free + 1, calls := r.calls[t := Ended(false)])
  }

  ghost predicate IsRun(max: nat, run: seq<Runtime>, steps: seq<Step>) {
    && |run| == |steps| + 1
    && run[0].free == max && run[0].calls == map[]
    && forall i :: 0 <= i < |steps| ==> Enabled(run[i], steps[i]) && run[i + 1] == Apply(run[i], steps[i])
  }

  lemma StepConserves(r: Runtime, s: Step)
    requires Enabled(r, s)
    ensures Apply(r, s).free + |Held(Apply(r, s))| == r.free + |Held(r)|
  {
    if s.Tick? {
      assert Held(Apply(r, s)) == Held(r);
    } else {
      var ph := Apply(r, s).calls[s.id];
      HeldAfter(r, Apply(r, s), s.id, ph);
      assert s.id in Held(r) <==> s.id in r.calls && HoldsPermit(r.calls[s.id]);
    }
  }

  lemma HeldAfter(r: Runtime, r': Runtime, t: CallId, ph: Phase)
    requires r'.calls == r.calls[t := ph]
    ensures |Held(r')| == |Held(r)| - (if t in Held(r) then 1 else 0) + (if HoldsPermit(ph) then 1 else 0)
  {
    var before, after := Held(r), Held(r');
    forall u ensures u in after <==> if u == t then HoldsPermit(ph) else u in before {
    }
    SetUpdate(before, after, t, HoldsPermit(ph));
  }

  lemma SetUpdate(before: set<CallId>, after: set<CallId>, t: CallId, member: bool)
    requires forall u :: u in after <==> if u == t then member else u in before
    ensures |after| == |before| - (if t in before then 1 else 0) + (if member then 1 else 0)
  {
    var others := before - {t};
    assert before == others + (if t in before then {t} else {});
    assert after == others + (if member then {t} else {});
  }

  /** In every interleaving of admissions, deadlines and detached completions, the
      free permits and those held by Python calls add up to the configured
      maximum: never do more calls run at once, and a permit is free exactly when
      fewer run. */
  lemma {:induction false} PermitsAreConserved(max: nat, run: seq<Runtime>, steps: seq<Step>, i: nat)
    requires IsRun(max, run, steps) && i < |run|
    ensures run[i].free + |Held(run[i])| == max
    ensures |Held(run[i])| <= max && (run[i].free > 0 <==> |Held(run[i])| < max)
  {
    if i == 0 {
      assert Held(run[0]) == {};
    } else {
      PermitsAreConserved(max, run, steps, i - 1);
      StepConserves(run[i - 1], steps[i - 1]);
    }
  }

  /** A timed-out call frees nothing before Python itself is done: it moves no
      permit when it detaches, and gives its permit back exactly once. */
  lemma {:induction false} DetachedKeepsPermit(max: nat, run: seq<Runtime>, steps: seq<Step>, t: CallId, i: nat, j: nat)
    requires IsRun(max, run, steps) && i <= j < |run|
    requires t in run[i].calls && run[i].calls[t].Detached?
    requires forall n :: i <= n < j ==> steps[n] != ExitDetached(t)
    ensures t in Held(run[j]) && run[j].calls[t].Detached?
  {
    if i < j {
      DetachedKeepsPermit(max, run, steps, t, i, j - 1);
    }
  }

  // ---- One call: snapshot, validation, commit ----

  const FIRST_WRITER: set<string> := {
    "target_entity_id", "target_authn_context_class_ref", "target_accr_comparison", "mfa_stepup_accounts"
  }

  const READ_ONLY: set<string> := {
    "provider_scopes", "provider_assurance_certifications", "provider_entity_categories",
    "requester_entity_categories", "requester_assurance_certifications", "stepup_initial_policy"
  }

  datatype Snapshot = Snapshot(
    path: string,
    httpMethod: string,
    query: map<string, string>,
    form: map<string, string>,
    requester: Option<string>,
    targetBackend: Option<string>,
    targetFrontend: Option<string>,
    decorations: map<string, Json>)

  function FromContext(c: Ctx): Snapshot {
    Snapshot(c.request.path, c.request.httpMethod, c.request.query, c.request.form, Requester(c),
             c.targetBackend, c.targetFrontend, c.decorations)
  }

  datatype Output = Output(context: Snapshot, data: InternalData)

  /** What the world does to one call after it is made. */
  datatype World =
    | NoDeadline
    | NoPermitInTime
    | Closed
    | TimedOut
    | TaskFailed
    | PythonFailed
    | Returned(output: Output)

  datatype PythonService = PythonService(hasRequest: bool, hasResponse: bool, backends: set<string>)

  predicate ReadOnlyKept(s: Snapshot, original: Snapshot) {
    && s.path == original.path && s.httpMethod == original.httpMethod
    && s.query == original.query && s.form == original.form
    && s.requester == original.requester && s.targetFrontend == original.targetFrontend
  }

  predicate ReservedKept(s: Snapshot, original: Snapshot) {
    forall k :: k in FIRST_WRITER && k in original.decorations ==>
      k in s.decorations && s.decorations[k] == original.decorations[k]
  }

  predicate SameEntry(k: string, m: map<string, Json>, n: map<string, Json>) {
    (k in m <==> k in n) && (k in m ==> m[k] == n[k])
  }

  predicate ReadOnlyDecorationsKept(s: Snapshot, original: Snapshot) {
    forall k :: k in READ_ONLY ==> SameEntry(k, s.decorations, original.decorations)
  }

  predicate Acceptable(svc: PythonService, s: Snapshot, original: Snapshot) {
    && ReadOnlyKept(s, original)
    && ReservedKept(s, original)
    && ReadOnlyDecorationsKept(s, original)
    && (s.targetBackend.Some? ==> s.targetBackend.value in svc.backends)
  }

  function Execute(svc: PythonService, onRequest: bool, c: Ctx, d: InternalData, w: World): Outcome<InternalData> {
    if !(if onRequest then svc.hasRequest else svc.hasResponse) then Outcome(c, Ok(d))
    else if w.Returned? && Acceptable(svc, w.output.context, FromContext(c)) then
      Outcome(c.(targetBackend := w.output.context.targetBackend, decorations := w.output.context.decorations),
              Ok(w.output.data))
    else Outcome(c, Err(StateFailure))
  }

  method ValidateReserved(s: Snapshot, original: Snapshot) returns (ok: bool)
    ensures ok <==> ReservedKept(s, original)
  {
    var left := FIRST_WRITER;
    while left != {}
      invariant left <= FIRST_WRITER
      invariant forall k :: k in FIRST_WRITER - left && k in original.decorations ==>
                  k in s.decorations && s.decorations[k] == original.decorations[k]
      decreases left
    {
      var k :| k in left;
      if k in original.decorations && !(k in s.decorations && s.decorations[k] == original.decorations[k]) {
        return false;
      }
      left := left - {k};
    }
    ok := true;
  }

  method ValidateReadOnlyDecorations(s: Snapshot, original: Snapshot) returns (ok: bool)
    ensures ok <==> ReadOnlyDecorationsKept(s, original)
  {
    var left := READ_ONLY;
    while left != {}
      invariant left <= READ_ONLY
      invariant forall k :: k in READ_ONLY - left ==> SameEntry(k, s.decorations, original.decorations)
      decreases left
    {
      var k :| k in left;
      if !SameEntry(k, s.decorations, original.decorations) {
        return false;
      }
      left := left - {k};
    }
    ok := true;
  }

  /** The call in place: the context changes only in the two assignments at the
      end, after everything was validated. */
  method ExecuteInPlace(svc: PythonService, onRequest: bool, ctx: Context, d: InternalData, w: World)
    returns (result: Result<InternalData, Failure>)
    modifies ctx`targetBackend, ctx`decorations
    ensures Outcome(ctx.View(), result) == Execute(svc, onRequest, old(ctx.View()), d, w)
    ensures result.Err? ==> ctx.View() == old(ctx.View())
  {
    if !(if onRequest then svc.hasRequest else svc.hasResponse) {
      return Ok(d);
    }
    var original := FromContext(ctx.View());
    if !w.Returned? {
      return Err(StateFailure);
    }
    var output := w.output.context;
    if !ReadOnlyKept(output, original) {
      return Err(StateFailure);
    }
    var reserved := ValidateReserved(output, original);
    if !reserved {
      return Err(StateFailure);
    }
    var readOnly := ValidateReadOnlyDecorations(output, original);
    if !readOnly {
      return Err(StateFailure);
    }
    if output.targetBackend.Some? && output.targetBackend.value !in svc.backends {
      return Err(StateFailure);
    }
    ctx.targetBackend := output.targetBackend;
    ctx.decorations := output.decorations;
    result := Ok(w.output.data);
  }

  // ---- Any sequence of calls ----

  datatype Call = Call(svc: PythonService, onRequest: bool, world: World)

  /** The pipeline stops at the first failing call. */
  function ExecuteAll(calls: seq<Call>, c: Ctx, d: InternalData): Outcome<InternalData>
    decreases |calls|
  {
    if calls == [] then Outcome(c, Ok(d)) else
    var o := Execute(calls[0].svc, calls[0].onRequest, c, d, calls[0].world);
    if o.result.Err? then o else ExecuteAll(calls[1..], o.ctx, o.result.value)
  }

  /** Across any sequence of Python services, whatever they return, a first-writer
      decoration once set never changes, protocol-validated decorations are never
      created, changed or removed, everything but the target backend and the
      decorations is as it was, and a backend they select is a configured one. */
  lemma {:induction false} DecorationsAreProtected(calls: seq<Call>, c: Ctx, d: InternalData)
    ensures var c' := ExecuteAll(calls, c, d).ctx;
            && (forall k :: k in FIRST_WRITER && k in c.decorations ==> SameEntry(k, c.decorations, c'.decorations))
            && (forall k :: k in READ_ONLY ==> SameEntry(k, c.decorations, c'.decorations))
            && c' == c.(targetBackend := c'.targetBackend, decorations := c'.decorations)
            && (c'.targetBackend.Some? && c'.targetBackend != c.targetBackend ==>
                  exists i :: 0 <= i < |calls| && c'.targetBackend.value in calls[i].svc.backends)
    decreases |calls|
  {
    if calls != [] {
      var o := Execute(calls[0].svc, calls[0].onRequest, c, d, calls[0].world);
      if o.result.Ok? {
        DecorationsAreProtected(calls[1..], o.ctx, o.result.value);
        var c' := ExecuteAll(calls, c, d).ctx;
        if c'.targetBackend.Some? && c'.targetBackend != o.ctx.targetBackend {
          var i :| 0 <= i < |calls[1..]| && c'.targetBackend.value in calls[1..][i].svc.backends;
          assert calls[1..][i] == calls[i + 1];
        }
      }
    }
  }

  /** The call commits: it has nothing to run, or Python returned in time what every validation accepts. */
  predicate Commits(call: Call, c: Ctx) {
    || !(if call.onRequest then call.svc.hasRequest else call.svc.hasResponse)
    || (call.world.Returned? && Acceptable(call.svc, call.world.output.context, FromContext(c)))
  }

  lemma PrefixRuns(calls: seq<Call>, c: Ctx, d: InternalData, k: nat)
    requires 0 < k <= |calls|
    ensures var o := Execute(calls[0].svc, calls[0].onRequest, c, d, calls[0].world);
            ExecuteAll(calls[..k], c, d)
            == if o.result.Err? then o else ExecuteAll(calls[1..][..k - 1], o.ctx, o.result.value)
  {
    assert calls[..k][1..] == calls[1..][..k - 1];
  }

  /**
   * A sequence of calls fails exactly when some call, after all before it committed, does not; the
   * context is then the one those left behind, with nothing of the failing call and of the later ones.
   */
  lemma {:induction false} FailureKeepsEarlierCommits(calls: seq<Call>, c: Ctx, d: InternalData)
    ensures var o := ExecuteAll(calls, c, d);
            if o.result.Err? then
              exists k: nat :: k < |calls|
                && ExecuteAll(calls[..k], c, d).result.Ok?
                && !Commits(calls[k], ExecuteAll(calls[..k], c, d).ctx)
                && o.ctx == ExecuteAll(calls[..k], c, d).ctx
            else
              forall k: nat :: k < |calls| ==>
                ExecuteAll(calls[..k], c, d).result.Ok? && Commits(calls[k], ExecuteAll(calls[..k], c, d).ctx)
    decreases |calls|
  {
    if calls != [] {
      assert calls[..0] == [];
      var first := Execute(calls[0].svc, calls[0].onRequest, c, d, calls[0].world);
      if first.result.Err? {
        assert !Commits(calls[0], ExecuteAll(calls[..0], c, d).ctx);
      } else {
        var rest := calls[1..];
        FailureKeepsEarlierCommits(rest, first.ctx, first.result.value);
        if ExecuteAll(calls, c, d).result.Err? {
          var k: nat :| k < |rest|
            && ExecuteAll(rest[..k], first.ctx, first.result.value).result.Ok?
            && !Commits(rest[k], ExecuteAll(rest[..k], first.ctx, first.result.value).ctx)
            && ExecuteAll(calls, c, d).ctx == ExecuteAll(rest[..k], first.ctx, first.result.value).ctx;
          PrefixRuns(calls, c, d, k + 1);
          assert calls[k + 1] == rest[k];
        } else {
          forall k: nat | k < |calls|
            ensures ExecuteAll(calls[..k], c, d).result.Ok? && Commits(calls[k], ExecuteAll(calls[..k], c, d).ctx)
          {
            if k > 0 {
              PrefixRuns(calls, c, d, k);
              assert calls[k] == rest[k - 1];
            }
          }
        }
      }
    }
  }
}
