/**
 The concurrent metadata lookup of the SAML backend, as a state machine.

 Any number of lookups interleave at the granularity of the source's own atomic
 sections: one access of the weak lock table, one acquisition of a per-entity
 lock, the two halves of a reset under the scope mutex, one read or insertion
 of a scope entry, and one hit or fetch of the MDQ client. The MDQ client is a
 cache that may drop any entry at any moment.
 */
module MdqProtocol {
  import opened Wrappers

  type EntityId = string
  type LookupId = nat
  type LockId = nat
  type Bytes = seq<bv8>
  type Scopes = seq<string>

  datatype Descriptor = Descriptor(markup: string)

  /** What the metadata parsers, which are not part of this model, read from an
      accepted document: the entity descriptor and the scopes of one entity. */
  datatype Config = Config(
    capacity: nat,
    entityOf: (Bytes, EntityId) -> Descriptor,
    scopesOf: (Bytes, EntityId) -> Scopes)
  {
    ghost predicate Valid() {
      capacity > 0
    }
  }

  datatype Resolved = Resolved(entity: Descriptor, scopes: Scopes)

  /** How far a lookup has come inside the scope mutex. */
  datatype Stage = Entered | MdqCleared | Ready

  datatype Lookup =
    | Waiting(entity: EntityId, lock: LockId)
    | Locked(entity: EntityId, lock: LockId)
    | InScopes(entity: EntityId, lock: LockId, fetched: Option<Bytes>, stage: Stage)
    | Asking(entity: EntityId, lock: LockId, cached: Scopes)
    | Fetched(entity: EntityId, lock: LockId, bytes: Bytes)
    | Finished(entity: EntityId, outcome: Result<Resolved, ()>)
  {
    /** The lookup keeps a strong reference to its entity's lock. */
    predicate Live() {
      !Finished?
    }

    /** The lookup is past `lookup_lock.lock().await`. */
    predicate Holds() {
      Live() && !Waiting?
    }

    /** The client accepted a fetched document whose scopes are not yet stored. */
    predicate Promoting() {
      Fetched? || (InScopes? && fetched.Some?)
    }

    function Document(): Bytes
      requires Promoting()
    {
      if Fetched? then bytes else fetched.value
    }
  }

  datatype State = State(
    mdq: map<EntityId, Bytes>,
    scopes: map<EntityId, Scopes>,
    mutex: Option<LookupId>,
    table: map<EntityId, LockId>,
    nextLock: LockId,
    lookups: map<LookupId, Lookup>,
    accepted: set<(EntityId, Bytes)>)

  datatype Step =
    | Begin(id: LookupId, entity: EntityId)
    | Acquire(id: LookupId)
    | EnterScopes(id: LookupId)
    | ClearMdq(id: LookupId)
    | ClearScopes(id: LookupId)
    | ReadScopes(id: LookupId)
    | Hit(id: LookupId)
    | Fetch(id: LookupId, document: Bytes, retained: bool)
    | Fail(id: LookupId)
    | Promote(id: LookupId)
    | Drop(entities: set<EntityId>)

  ghost predicate Init(s: State) {
    s == State(map[], map[], None, map[], 0, map[], {})
  }

  function GetScopes(scopes: map<EntityId, Scopes>, e: EntityId): Scopes {
    if e in scopes then scopes[e] else []
  }

  predicate RequiresReset(c: Config, scopes: map<EntityId, Scopes>, e: EntityId) {
    e !in scopes && |scopes| >= c.capacity
  }

  /** Some live lookup keeps lock `l` alive: the strong count of the source. */
  ghost predicate StrongLock(s: State, l: LockId) {
    exists t :: t in s.lookups && s.lookups[t].Live() && s.lookups[t].lock == l
  }

  ghost function Retained(s: State): map<EntityId, LockId> {
    map e | e in s.table && StrongLock(s, s.table[e]) :: s.table[e]
  }

  ghost predicate LockFree(s: State, l: LockId) {
    forall t :: t in s.lookups && s.lookups[t].Holds() ==> s.lookups[t].lock != l
  }

  /** A lookup may leave the mutex once no reset is due. */
  predicate MayLeave(c: Config, s: State, l: Lookup)
    requires l.InScopes?
  {
    l.stage == Ready || (l.stage == Entered && !RequiresReset(c, s.scopes, l.entity))
  }

  ghost predicate Enabled(c: Config, s: State, step: Step) {
    match step
    case Begin(t, _) => t !in s.lookups
    case Acquire(t) =>
      t in s.lookups && s.lookups[t].Waiting? && LockFree(s, s.lookups[t].lock)
    case EnterScopes(t) =>
      t in s.lookups && (s.lookups[t].Locked? || s.lookups[t].Fetched?) && s.mutex == None
    case ClearMdq(t) =>
      t in s.lookups && s.lookups[t].InScopes? && s.lookups[t].stage == Entered
      && RequiresReset(c, s.scopes, s.lookups[t].entity)
    case ClearScopes(t) =>
      t in s.lookups && s.lookups[t].InScopes? && s.lookups[t].stage == MdqCleared
    case ReadScopes(t) =>
      t in s.lookups && s.lookups[t].InScopes? && s.lookups[t].fetched == None
      && MayLeave(c, s, s.lookups[t])
    case Hit(t) => t in s.lookups && s.lookups[t].Asking? && s.lookups[t].entity in s.mdq
    case Fetch(t, _, _) => t in s.lookups && s.lookups[t].Asking?
    case Fail(t) => t in s.lookups && s.lookups[t].Asking?
    case Promote(t) =>
      t in s.lookups && s.lookups[t].InScopes? && s.lookups[t].fetched.Some?
      && MayLeave(c, s, s.lookups[t])
    case Drop(_) => true
  }

  function SetLookup(s: State, t: LookupId, l: Lookup): State {
    s.(lookups := s.lookups[t := l])
  }

  /** The state after an enabled step. */
  ghost function Apply(c: Config, s: State, step: Step): State
    requires Enabled(c, s, step)
  {
    match step
    case Begin(t, e) =>
      var kept := Retained(s);
      if e in kept then
        s.(table := kept, lookups := s.lookups[t := Waiting(e, kept[e])])
      else
        s.(table := kept[e := s.nextLock],
           nextLock := s.nextLock + 1,
           lookups := s.lookups[t := Waiting(e, s.nextLock)])
    case Acquire(t) =>
      SetLookup(s, t, Locked(s.lookups[t].entity, s.lookups[t].lock))
    case EnterScopes(t) =>
      var l := s.lookups[t];
      var fetched := if l.Fetched? then Some(l.bytes) else None;
      SetLookup(s, t, InScopes(l.entity, l.lock, fetched, Entered)).(mutex := Some(t))
    case ClearMdq(t) =>
      SetLookup(s, t, s.lookups[t].(stage := MdqCleared)).(mdq := map[])
    case ClearScopes(t) =>
      SetLookup(s, t, s.lookups[t].(stage := Ready)).(scopes := map[])
    case ReadScopes(t) =>
      var l := s.lookups[t];
      SetLookup(s, t, Asking(l.entity, l.lock, GetScopes(s.scopes, l.entity))).(mutex := None)
    case Hit(t) =>
      var l := s.lookups[t];
      SetLookup(s, t, Finished(l.entity, Ok(Resolved(c.entityOf(s.mdq[l.entity], l.entity), l.cached))))
    case Fetch(t, document, retained) =>
      var l := s.lookups[t];
      SetLookup(s, t, Fetched(l.entity, l.lock, document)).(
        mdq := if retained then s.mdq[l.entity := document] else s.mdq - {l.entity},
        accepted := s.accepted + {(l.entity, document)})
    case Fail(t) =>
      SetLookup(s, t, Finished(s.lookups[t].entity, Err(())))
    case Promote(t) =>
      var l := s.lookups[t];
      var scopes := c.scopesOf(l.fetched.value, l.entity);
      SetLookup(s, t, Finished(l.entity, Ok(Resolved(c.entityOf(l.fetched.value, l.entity), scopes)))).(
        scopes := s.scopes[l.entity := scopes],
        mutex := None)
    case Drop(es) => s.(mdq := s.mdq - es)
  }

  // ---- The inductive invariant ----

  /** The mutex is held exactly by the lookup inside a scope section. */
  ghost predicate MutexOwned(s: State) {
    && (s.mutex.Some? ==> s.mutex.value in s.lookups)
    && forall t :: t in s.lookups ==> (s.lookups[t].InScopes? <==> s.mutex == Some(t))
  }

  /** The weak table knows the lock of every live lookup, so one entity never
      has two live locks; and no two entities share a lock. */
  ghost predicate OneLockPerEntity(s: State) {
    && (forall t :: t in s.lookups && s.lookups[t].Live() ==>
         s.lookups[t].entity in s.table && s.table[s.lookups[t].entity] == s.lookups[t].lock)
    && (forall e :: e in s.table ==> s.table[e] < s.nextLock)
    && (forall e, f :: e in s.table && f in s.table && s.table[e] == s.table[f] ==> e == f)
  }

  /** At most one lookup holds a given entity's lock. */
  ghost predicate Exclusive(s: State) {
    forall t, u :: (t in s.lookups && u in s.lookups && s.lookups[t].Holds() && s.lookups[u].Holds()
                    && s.lookups[t].lock == s.lookups[u].lock) ==> t == u
  }

  /** The scope cache stays within capacity, and a completed reset made room. */
  ghost predicate Bounded(c: Config, s: State) {
    && |s.scopes| <= c.capacity
    && forall t :: t in s.lookups && s.lookups[t].InScopes? && s.lookups[t].stage == Ready ==>
         !RequiresReset(c, s.scopes, s.lookups[t].entity)
  }

  /** A lookup of `e` holds its lock between the fetch and the promotion. */
  ghost predicate BeingPromoted(s: State, e: EntityId) {
    exists t :: t in s.lookups && s.lookups[t].Promoting() && s.lookups[t].entity == e
  }

  ghost predicate ScopesMatch(c: Config, s: State, e: EntityId)
    requires e in s.mdq
  {
    e in s.scopes && s.scopes[e] == c.scopesOf(s.mdq[e], e)
  }

  /** Every entity the MDQ cache retains was accepted, and has the scopes of its
      own document unless that document is just being promoted. */
  ghost predicate Coupled(c: Config, s: State) {
    forall e :: e in s.mdq ==>
      (e, s.mdq[e]) in s.accepted && (ScopesMatch(c, s, e) || BeingPromoted(s, e))
  }

  /** What a lookup has read so far agrees with the MDQ cache. */
  ghost predicate CopiesAgree(c: Config, s: State, l: Lookup) {
    && (l.Asking? && l.entity in s.mdq ==> l.cached == c.scopesOf(s.mdq[l.entity], l.entity))
    && (l.Promoting() ==> (l.entity, l.Document()) in s.accepted)
    && (l.Promoting() && l.entity in s.mdq ==> s.mdq[l.entity] == l.Document())
  }

  ghost predicate LocalCopies(c: Config, s: State) {
    forall t :: t in s.lookups ==> CopiesAgree(c, s, s.lookups[t])
  }

  /** Between the two halves of a reset the MDQ cache holds only documents whose
      promotion is still to come. */
  ghost predicate HalfReset(s: State) {
    (exists t :: t in s.lookups && s.lookups[t].InScopes? && s.lookups[t].stage == MdqCleared) ==>
      forall e :: e in s.mdq ==> BeingPromoted(s, e)
  }

  /** `r` is what one accepted document says about entity `e`. */
  ghost predicate FromOneDocument(c: Config, s: State, e: EntityId, r: Resolved) {
    exists d :: (e, d) in s.accepted && r == Resolved(c.entityOf(d, e), c.scopesOf(d, e))
  }

  /** Every successful lookup answered from one accepted document. */
  ghost predicate AnswersConsistent(c: Config, s: State) {
    forall t :: t in s.lookups && s.lookups[t].Finished? && s.lookups[t].outcome.Ok? ==>
      FromOneDocument(c, s, s.lookups[t].entity, s.lookups[t].outcome.value)
  }

  ghost predicate Inv(c: Config, s: State) {
    && MutexOwned(s)
    && OneLockPerEntity(s)
    && Exclusive(s)
    && Bounded(c, s)
    && Coupled(c, s)
    && LocalCopies(c, s)
    && HalfReset(s)
    && AnswersConsistent(c, s)
  }

  // ---- Every step keeps it ----

  /** A step changes no lookup but its own. */
  lemma StepTouchesOne(c: Config, s: State, step: Step, t: LookupId)
    requires Enabled(c, s, step) && (step.Drop? || t != step.id)
    ensures t in Apply(c, s, step).lookups <==> t in s.lookups
    ensures t in s.lookups ==> Apply(c, s, step).lookups[t] == s.lookups[t]
  {
  }

  /** A step takes or releases the mutex only for its own lookup. */
  lemma StepMovesOwnMutex(c: Config, s: State, step: Step)
    requires MutexOwned(s) && Enabled(c, s, step)
    ensures var s' := Apply(c, s, step);
            if step.Drop? then s'.mutex == s.mutex
            else step.id in s'.lookups
                 && (s'.lookups[step.id].InScopes? <==> s'.mutex == Some(step.id))
                 && (s'.mutex == s.mutex || s.mutex == None || s.mutex == Some(step.id))
                 && (s'.mutex == s.mutex || s'.mutex == None || s'.mutex == Some(step.id))
  {
  }

  lemma StepKeepsMutex(c: Config, s: State, step: Step)
    requires MutexOwned(s) && Enabled(c, s, step)
    ensures MutexOwned(Apply(c, s, step))
  {
    var s' := Apply(c, s, step);
    StepMovesOwnMutex(c, s, step);
    forall t | t in s'.lookups
      ensures s'.lookups[t].InScopes? <==> s'.mutex == Some(t)
    {
      if step.Drop? || t != step.id {
        StepTouchesOne(c, s, step, t);
      }
    }
    if s.mutex.Some? {
      var owner := s.mutex.value;
      if step.Drop? || owner != step.id {
        StepTouchesOne(c, s, step, owner);
      }
    }
  }

  lemma BeginKeepsLocks(c: Config, s: State, t: LookupId, e: EntityId)
    requires OneLockPerEntity(s) && Enabled(c, s, Begin(t, e))
    ensures OneLockPerEntity(Apply(c, s, Begin(t, e)))
  {
    var s' := Apply(c, s, Begin(t, e));
    forall u | u in s'.lookups && s'.lookups[u].Live()
      ensures s'.lookups[u].entity in s'.table && s'.table[s'.lookups[u].entity] == s'.lookups[u].lock
    {
      if u != t {
        assert StrongLock(s, s.lookups[u].lock);
        assert s.lookups[u].entity in Retained(s);
      }
    }
  }

  lemma StepKeepsLocks(c: Config, s: State, step: Step)
    requires OneLockPerEntity(s) && Enabled(c, s, step)
    ensures OneLockPerEntity(Apply(c, s, step))
  {
    if step.Begin? {
      BeginKeepsLocks(c, s, step.id, step.entity);
    } else {
      var s' := Apply(c, s, step);
      assert s'.table == s.table && s'.nextLock == s.nextLock;
      forall u | u in s'.lookups && s'.lookups[u].Live()
        ensures u in s.lookups && s.lookups[u].Live()
        ensures s'.lookups[u].entity == s.lookups[u].entity && s'.lookups[u].lock == s.lookups[u].lock
      {
      }
    }
  }

  lemma StepKeepsExclusive(c: Config, s: State, step: Step)
    requires Exclusive(s) && Enabled(c, s, step)
    ensures Exclusive(Apply(c, s, step))
  {
  }

  lemma InsertFits(scopes: map<EntityId, Scopes>, e: EntityId, v: Scopes, capacity: nat)
    requires |scopes| <= capacity && (e in scopes || |scopes| < capacity)
    ensures |scopes[e := v]| <= capacity
  {
    assert scopes[e := v].Keys == scopes.Keys + {e};
  }

  lemma OnlyTwoStepsChangeScopes(c: Config, s: State, step: Step)
    requires Enabled(c, s, step) && !step.Promote? && !step.ClearScopes?
    ensures Apply(c, s, step).scopes == s.scopes
  {
  }

  lemma StepKeepsCapacity(c: Config, s: State, step: Step)
    requires Bounded(c, s) && Enabled(c, s, step)
    ensures |Apply(c, s, step).scopes| <= c.capacity
  {
    if step.Promote? {
      var l := s.lookups[step.id];
      InsertFits(s.scopes, l.entity, c.scopesOf(l.fetched.value, l.entity), c.capacity);
    } else if !step.ClearScopes? {
      OnlyTwoStepsChangeScopes(c, s, step);
    }
  }

  /** Scopes are stored and cleared only by the lookup that holds the mutex. */
  lemma StepChangesScopesUnderMutex(c: Config, s: State, step: Step)
    requires MutexOwned(s) && Enabled(c, s, step)
    ensures Apply(c, s, step).scopes != s.scopes ==> !step.Drop? && s.mutex == Some(step.id)
    ensures step.ClearScopes? ==> Apply(c, s, step).scopes == map[]
  {
  }

  /** A reset is complete only once the scopes were cleared. */
  lemma StepReadiesByClearing(c: Config, s: State, step: Step)
    requires Enabled(c, s, step) && !step.Drop? && !step.ClearScopes?
    ensures var l := Apply(c, s, step).lookups[step.id];
            !(l.InScopes? && l.stage == Ready)
  {
  }

  lemma StepKeepsBound(c: Config, s: State, step: Step)
    requires c.Valid() && MutexOwned(s) && Bounded(c, s) && Enabled(c, s, step)
    ensures Bounded(c, Apply(c, s, step))
  {
    var s' := Apply(c, s, step);
    StepKeepsCapacity(c, s, step);
    StepChangesScopesUnderMutex(c, s, step);
    forall t | t in s'.lookups && s'.lookups[t].InScopes? && s'.lookups[t].stage == Ready
      ensures !RequiresReset(c, s'.scopes, s'.lookups[t].entity)
    {
      if step.Drop? || t != step.id {
        StepTouchesOne(c, s, step, t);
      } else if !step.ClearScopes? {
        StepReadiesByClearing(c, s, step);
      }
    }
  }

  /** Only its own promotion ends the promotion of an entity. */
  lemma PromotionPersists(c: Config, s: State, step: Step, e: EntityId)
    requires Enabled(c, s, step) && BeingPromoted(s, e)
    requires step.Promote? ==> s.lookups[step.id].entity != e
    ensures BeingPromoted(Apply(c, s, step), e)
  {
    var t :| t in s.lookups && s.lookups[t].Promoting() && s.lookups[t].entity == e;
    var s' := Apply(c, s, step);
    if step.Drop? || t != step.id {
      StepTouchesOne(c, s, step, t);
    } else {
      assert step.EnterScopes? || step.ClearMdq? || step.ClearScopes?;
    }
    assert t in s'.lookups && s'.lookups[t].Promoting() && s'.lookups[t].entity == e;
  }

  lemma StepKeepsCoupling(c: Config, s: State, step: Step)
    requires Inv(c, s) && Enabled(c, s, step)
    ensures Coupled(c, Apply(c, s, step))
  {
    var s' := Apply(c, s, step);
    forall e | e in s'.mdq
      ensures (e, s'.mdq[e]) in s'.accepted && (ScopesMatch(c, s', e) || BeingPromoted(s', e))
    {
      if step.Fetch? && s.lookups[step.id].entity == e {
        assert s'.lookups[step.id].Promoting();
      } else if step.Promote? && s.lookups[step.id].entity == e {
        assert s.mdq[e] == s.lookups[step.id].Document();
      } else if BeingPromoted(s, e) {
        PromotionPersists(c, s, step, e);
      } else {
        assert ScopesMatch(c, s, e);
        assert !step.ClearScopes?;
      }
    }
  }

  /** No other lookup of an entity can be promoting while this one holds its lock. */
  lemma NoOtherPromotes(c: Config, s: State, t: LookupId)
    requires OneLockPerEntity(s) && Exclusive(s)
    requires t in s.lookups && s.lookups[t].Holds() && !s.lookups[t].Promoting()
    ensures !BeingPromoted(s, s.lookups[t].entity)
  {
  }

  lemma ReadingCopiesAgrees(c: Config, s: State, step: Step)
    requires Inv(c, s) && Enabled(c, s, step) && step.ReadScopes?
    ensures CopiesAgree(c, Apply(c, s, step), Apply(c, s, step).lookups[step.id])
  {
    NoOtherPromotes(c, s, step.id);
  }

  lemma StepKeepsOwnCopies(c: Config, s: State, step: Step)
    requires Inv(c, s) && Enabled(c, s, step) && !step.Drop?
    ensures CopiesAgree(c, Apply(c, s, step), Apply(c, s, step).lookups[step.id])
  {
    if step.ReadScopes? {
      ReadingCopiesAgrees(c, s, step);
    } else if step.id in s.lookups {
      assert CopiesAgree(c, s, s.lookups[step.id]);
    }
  }

  lemma StepKeepsOtherCopies(c: Config, s: State, step: Step, t: LookupId)
    requires Inv(c, s) && Enabled(c, s, step) && t in s.lookups && (step.Drop? || t != step.id)
    ensures CopiesAgree(c, Apply(c, s, step), s.lookups[t])
  {
    assert CopiesAgree(c, s, s.lookups[t]);
    if step.Fetch? && s.lookups[t].Holds() {
      assert s.lookups[t].entity != s.lookups[step.id].entity;
    }
  }

  lemma StepKeepsCopies(c: Config, s: State, step: Step)
    requires Inv(c, s) && Enabled(c, s, step)
    ensures LocalCopies(c, Apply(c, s, step))
  {
    var s' := Apply(c, s, step);
    forall t | t in s'.lookups
      ensures CopiesAgree(c, s', s'.lookups[t])
    {
      if !step.Drop? && t == step.id {
        StepKeepsOwnCopies(c, s, step);
      } else {
        StepKeepsOtherCopies(c, s, step, t);
      }
    }
  }

  lemma StepKeepsHalfReset(c: Config, s: State, step: Step)
    requires MutexOwned(s) && HalfReset(s) && Enabled(c, s, step)
    ensures HalfReset(Apply(c, s, step))
  {
    var s' := Apply(c, s, step);
    forall t, e | t in s'.lookups && s'.lookups[t].InScopes? && s'.lookups[t].stage == MdqCleared && e in s'.mdq
      ensures BeingPromoted(s', e)
    {
      if step.Fetch? && s.lookups[step.id].entity == e {
        assert s'.lookups[step.id].Promoting();
      } else {
        assert s.lookups[t].InScopes? && s.lookups[t].stage == MdqCleared;
        PromotionPersists(c, s, step, e);
      }
    }
  }

  /** A lookup that ends with this step answers from a document accepted before. */
  lemma StepAnswersFromOneDocument(c: Config, s: State, step: Step)
    requires Coupled(c, s) && LocalCopies(c, s) && Enabled(c, s, step) && (step.Hit? || step.Promote?)
    ensures var l := Apply(c, s, step).lookups[step.id];
            l.Finished? && l.outcome.Ok? && FromOneDocument(c, s, l.entity, l.outcome.value)
  {
    var l := s.lookups[step.id];
    assert CopiesAgree(c, s, l);
    var document := if step.Hit? then s.mdq[l.entity] else l.Document();
    assert (l.entity, document) in s.accepted;
  }

  lemma StepKeepsAnswers(c: Config, s: State, step: Step)
    requires Coupled(c, s) && LocalCopies(c, s) && AnswersConsistent(c, s) && Enabled(c, s, step)
    ensures AnswersConsistent(c, Apply(c, s, step))
  {
    var s' := Apply(c, s, step);
    assert s.accepted <= s'.accepted;
    forall t | t in s'.lookups && s'.lookups[t].Finished? && s'.lookups[t].outcome.Ok?
      ensures FromOneDocument(c, s, s'.lookups[t].entity, s'.lookups[t].outcome.value)
    {
      if step.Drop? || t != step.id {
        StepTouchesOne(c, s, step, t);
      } else {
        StepAnswersFromOneDocument(c, s, step);
      }
    }
  }

  lemma StepKeepsInv(c: Config, s: State, step: Step)
    requires c.Valid() && Inv(c, s) && Enabled(c, s, step)
    ensures Inv(c, Apply(c, s, step))
  {
    StepKeepsMutex(c, s, step);
    StepKeepsLocks(c, s, step);
    StepKeepsExclusive(c, s, step);
    StepKeepsBound(c, s, step);
    StepKeepsCoupling(c, s, step);
    StepKeepsCopies(c, s, step);
    StepKeepsHalfReset(c, s, step);
    StepKeepsAnswers(c, s, step);
  }

  // ---- Every run ----

  ghost predicate IsRun(c: Config, run: seq<State>, steps: seq<Step>) {
    && |run| == |steps| + 1
    && Init(run[0])
    && forall i :: 0 <= i < |steps| ==> Enabled(c, run[i], steps[i]) && run[i + 1] == Apply(c, run[i], steps[i])
  }

  lemma {:induction false} RunKeepsInv(c: Config, run: seq<State>, steps: seq<Step>, i: nat)
    requires c.Valid() && IsRun(c, run, steps) && i < |run|
    ensures Inv(c, run[i])
  {
    if i > 0 {
      RunKeepsInv(c, run, steps, i - 1);
      StepKeepsInv(c, run[i - 1], steps[i - 1]);
    }
  }

  /** In every interleaving, a successful lookup returns an entity and scopes
      read from one and the same accepted document of that entity. */
  lemma AnswersComeFromOneDocument(c: Config, run: seq<State>, steps: seq<Step>, i: nat, t: LookupId)
    requires c.Valid() && IsRun(c, run, steps) && i < |run|
    requires t in run[i].lookups && run[i].lookups[t].Finished? && run[i].lookups[t].outcome.Ok?
    ensures var l := run[i].lookups[t];
            exists d :: (l.entity, d) in run[i].accepted
              && l.outcome.value.entity == c.entityOf(d, l.entity)
              && l.outcome.value.scopes == c.scopesOf(d, l.entity)
  {
    RunKeepsInv(c, run, steps, i);
    var l := run[i].lookups[t];
    assert FromOneDocument(c, run[i], l.entity, l.outcome.value);
  }

  /** In every reachable state the scope cache is bounded, and an entity kept by
      the MDQ cache has the scopes of its own document, except while the one
      lookup that fetched the document still holds the entity's lock. */
  lemma CachesStayCoupled(c: Config, run: seq<State>, steps: seq<Step>, i: nat, e: EntityId)
    requires c.Valid() && IsRun(c, run, steps) && i < |run|
    ensures |run[i].scopes| <= c.capacity
    ensures e in run[i].mdq ==> (e, run[i].mdq[e]) in run[i].accepted
    ensures e in run[i].mdq && !(e in run[i].scopes && run[i].scopes[e] == c.scopesOf(run[i].mdq[e], e)) ==>
              exists t :: t in run[i].lookups && run[i].lookups[t].entity == e && run[i].lookups[t].Promoting()
                && run[i].lookups[t].Document() == run[i].mdq[e]
  {
    RunKeepsInv(c, run, steps, i);
    var s := run[i];
    if e in s.mdq && !ScopesMatch(c, s, e) {
      var t :| t in s.lookups && s.lookups[t].Promoting() && s.lookups[t].entity == e;
      assert CopiesAgree(c, s, s.lookups[t]);
    }
  }

  /** The weak lock table never yields two live locks for one entity, nor one
      lock for two entities, and no entity's lock has two holders. */
  lemma LocksAreExclusive(c: Config, run: seq<State>, steps: seq<Step>, i: nat, t: LookupId, u: LookupId)
    requires c.Valid() && IsRun(c, run, steps) && i < |run|
    requires t in run[i].lookups && u in run[i].lookups
    requires run[i].lookups[t].Live() && run[i].lookups[u].Live()
    ensures run[i].lookups[t].entity == run[i].lookups[u].entity <==> run[i].lookups[t].lock == run[i].lookups[u].lock
    ensures (run[i].lookups[t].Holds() && run[i].lookups[u].Holds()
             && run[i].lookups[t].entity == run[i].lookups[u].entity) ==> t == u
  {
    RunKeepsInv(c, run, steps, i);
  }

  /** The next step of the lookup that owns the scope mutex. */
  function SectionStep(c: Config, s: State, t: LookupId): Step
    requires t in s.lookups && s.lookups[t].InScopes?
  {
    var l := s.lookups[t];
    if l.stage == MdqCleared then ClearScopes(t)
    else if l.stage == Entered && RequiresReset(c, s.scopes, l.entity) then ClearMdq(t)
    else if l.fetched.Some? then Promote(t) else ReadScopes(t)
  }

  /** No interleaving deadlocks: while a lookup is unfinished, some lookup can
      take a step, whatever the MDQ client drops or the network refuses. */
  lemma NoDeadlock(c: Config, run: seq<State>, steps: seq<Step>, i: nat, t: LookupId) returns (step: Step)
    requires c.Valid() && IsRun(c, run, steps) && i < |run|
    requires t in run[i].lookups && run[i].lookups[t].Live()
    ensures Enabled(c, run[i], step) && !step.Drop? && !step.Begin?
  {
    RunKeepsInv(c, run, steps, i);
    var s := run[i];
    if s.mutex.Some? {
      step := SectionStep(c, s, s.mutex.value);
    } else {
      var u := t;
      if s.lookups[t].Waiting? && !LockFree(s, s.lookups[t].lock) {
        u :| u in s.lookups && s.lookups[u].Holds() && s.lookups[u].lock == s.lookups[t].lock;
      }
      step := match s.lookups[u]
        case Waiting(_, _) => Acquire(u)
        case Asking(_, _, _) => Fail(u)
        case _ => EnterScopes(u);
    }
  }

  // ---- Every lookup finishes ----

  /** How many steps of its own a lookup has left at most. */
  function Rank(l: Lookup): nat {
    match l
    case Waiting(_, _) => 11
    case Locked(_, _) => 10
    case Asking(_, _, _) => 6
    case Fetched(_, _, _) => 5
    case InScopes(_, _, fetched, stage) =>
      (if fetched.None? then 7 else 2) + (match stage case Entered => 2 case MdqCleared => 1 case Ready => 0)
    case Finished(_, _) => 0
  }

  /** The steps left to all lookups below `n` together. */
  function Work(lookups: map<LookupId, Lookup>, n: nat): nat {
    if n == 0 then 0
    else Work(lookups, n - 1) + (if n - 1 in lookups then Rank(lookups[n - 1]) else 0)
  }

  /** A step of a lookup, as opposed to the arrival of one or to the loss of cached documents. */
  predicate IsProgress(step: Step) {
    !step.Begin? && !step.Drop?
  }

  lemma {:induction false} WorkAfter(m: map<LookupId, Lookup>, m': map<LookupId, Lookup>, n: nat, t: LookupId)
    requires t in m && t in m' && Rank(m'[t]) < Rank(m[t])
    requires forall u :: u != t ==> ((u in m <==> u in m') && (u in m ==> m'[u] == m[u]))
    ensures if t < n then Work(m', n) < Work(m, n) else Work(m', n) == Work(m, n)
  {
    if n > 0 {
      WorkAfter(m, m', n - 1, t);
    }
  }

  lemma OwnRankFalls(c: Config, s: State, step: Step)
    requires Enabled(c, s, step) && IsProgress(step)
    ensures step.id in s.lookups && step.id in Apply(c, s, step).lookups
    ensures Rank(Apply(c, s, step).lookups[step.id]) < Rank(s.lookups[step.id])
  {
  }

  lemma ProgressFalls(c: Config, s: State, step: Step, n: nat)
    requires Enabled(c, s, step) && IsProgress(step) && step.id < n
    ensures Work(Apply(c, s, step).lookups, n) < Work(s.lookups, n)
  {
    OwnRankFalls(c, s, step);
    forall u | u != step.id
      ensures u in s.lookups <==> u in Apply(c, s, step).lookups
      ensures u in s.lookups ==> Apply(c, s, step).lookups[u] == s.lookups[u]
    {
      StepTouchesOne(c, s, step, u);
    }
    WorkAfter(s.lookups, Apply(c, s, step).lookups, n, step.id);
  }

  /** However they are interleaved, begun lookups take no more steps than their ranks allow: a stretch of a
      run without arrivals ends. */
  lemma {:induction false} ProgressIsBounded(c: Config, run: seq<State>, steps: seq<Step>, i: nat, j: nat, n: nat)
    requires IsRun(c, run, steps) && i <= j < |run|
    requires forall k :: i <= k < j ==> IsProgress(steps[k]) && steps[k].id < n
    ensures Work(run[j].lookups, n) + (j - i) <= Work(run[i].lookups, n)
  {
    if i < j {
      ProgressIsBounded(c, run, steps, i, j - 1, n);
      ProgressFalls(c, run[j - 1], steps[j - 1], n);
    }
  }

  lemma ExtendRun(c: Config, run: seq<State>, steps: seq<Step>, step: Step)
    returns (run': seq<State>, steps': seq<Step>)
    requires IsRun(c, run, steps) && Enabled(c, run[|steps|], step)
    ensures run' == run + [Apply(c, run[|steps|], step)] && steps' == steps + [step] && IsRun(c, run', steps')
  {
    run', steps' := run + [Apply(c, run[|steps|], step)], steps + [step];
    forall i | 0 <= i < |steps'|
      ensures Enabled(c, run'[i], steps'[i]) && run'[i + 1] == Apply(c, run'[i], steps'[i])
    {
      if i < |steps| {
        assert run'[i] == run[i] && run'[i + 1] == run[i + 1] && steps'[i] == steps[i];
      }
    }
  }

  lemma ProgressKeepsIds(c: Config, s: State, step: Step)
    requires Enabled(c, s, step) && IsProgress(step)
    ensures Apply(c, s, step).lookups.Keys == s.lookups.Keys
  {
  }

  /** From every reachable state all lookups that have begun can be run to their end, and by
      `ProgressIsBounded` every way of running them ends: there is neither deadlock nor livelock. */
  lemma {:induction false} AllLookupsFinish(c: Config, run: seq<State>, steps: seq<Step>, n: nat)
    returns (run': seq<State>, steps': seq<Step>)
    requires c.Valid() && IsRun(c, run, steps)
    requires forall t :: t in run[|steps|].lookups ==> t < n
    ensures IsRun(c, run', steps') && run <= run' && steps <= steps'
    ensures forall k :: |steps| <= k < |steps'| ==> IsProgress(steps'[k])
    ensures forall t :: t in run'[|steps'|].lookups ==> run'[|steps'|].lookups[t].Finished?
    ensures run'[|steps'|].lookups.Keys == run[|steps|].lookups.Keys
    decreases Work(run[|steps|].lookups, n)
  {
    var s := run[|steps|];
    if t :| t in s.lookups && s.lookups[t].Live() {
      var step := NoDeadlock(c, run, steps, |steps|, t);
      OwnRankFalls(c, s, step);
      ProgressFalls(c, s, step, n);
      ProgressKeepsIds(c, s, step);
      var run1, steps1 := ExtendRun(c, run, steps, step);
      run', steps' := AllLookupsFinish(c, run1, steps1, n);
    } else {
      run', steps' := run, steps;
    }
  }
}
