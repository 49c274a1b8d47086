/**
 The scope-aware MDQ client as the object it is in the source: two caches and a
 weak lock table, updated in place. One uninterrupted lookup is proved against
 a function of the old caches, and that function against the protocol.
 */
module MdqClient {
  import opened Wrappers
  import opened MdqProtocol

  datatype Caches = Caches(mdq: map<EntityId, Bytes>, scopes: map<EntityId, Scopes>)

  /** What the network would answer, if the client asked it. */
  datatype Network = Unavailable | Serves(document: Bytes, retained: bool)

  function ResetIfFull(c: Config, k: Caches, e: EntityId): Caches {
    if RequiresReset(c, k.scopes, e) then Caches(map[], map[]) else k
  }

  /** The caches and the answer after a lookup no other lookup interrupts.
      `usable` tells whether the client still accepts its cached copy. */
  function LookupAlone(c: Config, k: Caches, e: EntityId, usable: bool, network: Network)
    : (Caches, Result<Resolved, ()>)
  {
    var k1 := ResetIfFull(c, k, e);
    if usable && e in k1.mdq then
      (k1, Ok(Resolved(c.entityOf(k1.mdq[e], e), GetScopes(k1.scopes, e))))
    else
      match network
      case Unavailable => (k1, Err(()))
      case Serves(d, retained) =>
        var mdq := if retained then k1.mdq[e := d] else k1.mdq - {e};
        var k2 := ResetIfFull(c, Caches(mdq, k1.scopes), e);
        (k2.(scopes := k2.scopes[e := c.scopesOf(d, e)]),
         Ok(Resolved(c.entityOf(d, e), c.scopesOf(d, e))))
  }

  ghost predicate CachesCoupled(c: Config, k: Caches) {
    && |k.scopes| <= c.capacity
    && forall e :: e in k.mdq ==> e in k.scopes && k.scopes[e] == c.scopesOf(k.mdq[e], e)
  }

  class TrustedScopeCache {
    var entries: map<EntityId, Scopes>

    constructor ()
      ensures entries == map[]
    {
      entries := map[];
    }

    predicate RequiresReset(entity: EntityId, capacity: nat)
      reads this
    {
      entity !in entries && |entries| >= capacity
    }

    method Insert(entity: EntityId, scopes: Scopes)
      modifies this
      ensures entries == old(entries)[entity := scopes]
    {
      entries := entries[entity := scopes];
    }

    method Clear()
      modifies this
      ensures entries == map[]
    {
      entries := map[];
    }

    method Get(entity: EntityId) returns (scopes: Scopes)
      ensures scopes == GetScopes(entries, entity)
    {
      scopes := if entity in entries then entries[entity] else [];
    }
  }

  class ScopeAwareMdqClient {
    var client: map<EntityId, Bytes>
    const trustedScopes: TrustedScopeCache
    const config: Config
    var lookupLocks: map<EntityId, LockId>
    var nextLock: LockId

    constructor (config: Config)
      requires config.Valid()
      ensures View() == Caches(map[], map[]) && this.config == config
      ensures fresh(trustedScopes) && lookupLocks == map[]
    {
      this.config := config;
      trustedScopes := new TrustedScopeCache();
      client, lookupLocks, nextLock := map[], map[], 0;
    }

    ghost function View(): Caches
      reads this, trustedScopes
    {
      Caches(client, trustedScopes.entries)
    }

    /** Clears both caches when the scope cache has no room for `entity`. */
    method ResetWhenFull(entity: EntityId)
      modifies this`client, trustedScopes
      ensures View() == ResetIfFull(config, old(View()), entity)
    {
      if trustedScopes.RequiresReset(entity, config.capacity) {
        client := map[];
        trustedScopes.Clear();
      }
    }

    /** The MDQ client's own lookup: the entity, and the bytes it fetched for it
        during this call, if any. */
    method ClientGet(entity: EntityId, usable: bool, network: Network)
      returns (answer: Result<(Descriptor, Option<Bytes>), ()>)
      modifies this`client
      ensures usable && entity in old(client) ==>
                client == old(client)
                && answer == Ok((config.entityOf(old(client)[entity], entity), None))
      ensures !(usable && entity in old(client)) && network.Unavailable? ==>
                client == old(client) && answer == Err(())
      ensures !(usable && entity in old(client)) && network.Serves? ==>
                answer == Ok((config.entityOf(network.document, entity), Some(network.document)))
                && client == if network.retained then old(client)[entity := network.document]
                             else old(client) - {entity}
    {
      if usable && entity in client {
        return Ok((config.entityOf(client[entity], entity), None));
      }
      match network {
        case Unavailable => answer := Err(());
        case Serves(document, retained) =>
          client := if retained then client[entity := document] else client - {entity};
          answer := Ok((config.entityOf(document, entity), Some(document)));
      }
    }

    method Get(entity: EntityId, usable: bool, network: Network) returns (answer: Result<Resolved, ()>)
      modifies this`client, trustedScopes
      ensures (View(), answer) == LookupAlone(config, old(View()), entity, usable, network)
    {
      ResetWhenFull(entity);
      var cachedScopes := trustedScopes.Get(entity);
      var got := ClientGet(entity, usable, network);
      if got.Err? {
        return Err(());
      }
      var (descriptor, captured) := got.value;
      if captured.None? {
        return Ok(Resolved(descriptor, cachedScopes));
      }
      var scopes := config.scopesOf(captured.value, entity);
      ResetWhenFull(entity);
      trustedScopes.Insert(entity, scopes);
      answer := Ok(Resolved(descriptor, scopes));
    }

    /** Hands out the lock of `entity`, reusing it while a lookup that holds a
        strong reference (`strong`) keeps it alive, and forgets dead locks. */
    method LookupLock(entity: EntityId, strong: set<LockId>) returns (lock: LockId)
      requires forall e :: e in lookupLocks ==> lookupLocks[e] < nextLock
      requires forall l :: l in strong ==> l < nextLock
      modifies this`lookupLocks, this`nextLock
      ensures forall e :: e in lookupLocks ==> lookupLocks[e] < nextLock
      ensures entity in lookupLocks && lookupLocks[entity] == lock
      ensures if entity in old(lookupLocks) && old(lookupLocks)[entity] in strong
              then lock == old(lookupLocks)[entity]
              else lock !in strong && lock !in old(lookupLocks).Values
      ensures forall e :: e != entity ==>
                ((e in lookupLocks <==> e in old(lookupLocks) && old(lookupLocks)[e] in strong)
                 && (e in lookupLocks ==> lookupLocks[e] == old(lookupLocks)[e]))
    {
      lookupLocks := map e | e in lookupLocks && lookupLocks[e] in strong :: lookupLocks[e];
      if entity in lookupLocks {
        return lookupLocks[entity];
      }
      lock := nextLock;
      nextLock := nextLock + 1;
      lookupLocks := lookupLocks[entity := lock];
    }
  }

  /** A lookup keeps the caches coupled and answers from one document: the one
      the network served, or the one the cache already held. */
  lemma LookupAloneIsConsistent(c: Config, k: Caches, e: EntityId, usable: bool, network: Network)
    requires c.Valid() && CachesCoupled(c, k)
    ensures var (k', answer) := LookupAlone(c, k, e, usable, network);
            && CachesCoupled(c, k')
            && (answer.Ok? ==>
                  exists d :: ((network.Serves? && d == network.document) || (e in k.mdq && d == k.mdq[e]))
                    && answer.value == Resolved(c.entityOf(d, e), c.scopesOf(d, e)))
  {
    var k1 := ResetIfFull(c, k, e);
    var (_, answer) := LookupAlone(c, k, e, usable, network);
    if usable && e in k1.mdq {
      assert answer.value == Resolved(c.entityOf(k.mdq[e], e), c.scopesOf(k.mdq[e], e));
    } else if network.Serves? {
      assert answer.value == Resolved(c.entityOf(network.document, e), c.scopesOf(network.document, e));
      var k2 := ResetIfFull(c, Caches(if network.retained then k1.mdq[e := network.document]
                                      else k1.mdq - {e}, k1.scopes), e);
      assert k2.scopes[e := c.scopesOf(network.document, e)].Keys == k2.scopes.Keys + {e};
    }
  }

  ghost predicate Quiescent(s: State) {
    s.mutex == None && forall t :: t in s.lookups ==> !s.lookups[t].Live()
  }

  /** The state after a sequence of steps, if each was enabled in its turn. */
  ghost function ApplyAll(c: Config, s: State, steps: seq<Step>): Option<State>
    decreases |steps|
  {
    if steps == [] then Some(s) else
    var before := ApplyAll(c, s, steps[..|steps| - 1]);
    var last := steps[|steps| - 1];
    if before.Some? && Enabled(c, before.value, last) then Some(Apply(c, before.value, last)) else None
  }

  lemma ApplyOneMore(c: Config, s: State, steps: seq<Step>, s1: State, step: Step)
    returns (steps': seq<Step>, s2: State)
    requires ApplyAll(c, s, steps) == Some(s1) && Enabled(c, s1, step)
    ensures s2 == Apply(c, s1, step) && ApplyAll(c, s, steps') == Some(s2)
  {
    steps', s2 := steps + [step], Apply(c, s1, step);
    assert steps'[..|steps'| - 1] == steps;
  }

  /** The scope section of one lookup, run without interruption: it takes the
      mutex, resets when full, and stops just before it reads or promotes. */
  lemma RunSection(c: Config, s: State, steps: seq<Step>, s0: State, t: LookupId)
    returns (steps': seq<Step>, s1: State)
    requires c.Valid() && ApplyAll(c, s, steps) == Some(s0)
    requires t in s0.lookups && (s0.lookups[t].Locked? || s0.lookups[t].Fetched?) && s0.mutex == None
    ensures ApplyAll(c, s, steps') == Some(s1)
    ensures Caches(s1.mdq, s1.scopes) == ResetIfFull(c, Caches(s0.mdq, s0.scopes), s0.lookups[t].entity)
    ensures t in s1.lookups && s1.lookups[t].InScopes? && MayLeave(c, s1, s1.lookups[t])
    ensures s1.lookups[t].entity == s0.lookups[t].entity && s1.mutex == Some(t)
    ensures s1.lookups[t].fetched == if s0.lookups[t].Fetched? then Some(s0.lookups[t].bytes) else None
  {
    steps', s1 := ApplyOneMore(c, s, steps, s0, EnterScopes(t));
    if RequiresReset(c, s1.scopes, s1.lookups[t].entity) {
      steps', s1 := ApplyOneMore(c, s, steps', s1, ClearMdq(t));
      steps', s1 := ApplyOneMore(c, s, steps', s1, ClearScopes(t));
    }
  }

  /** A lookup of a quiescent client reaches the MDQ client with its own copy of
      the cached scopes. */
  lemma RunToClient(c: Config, s: State, t: LookupId, e: EntityId) returns (steps: seq<Step>, s': State)
    requires c.Valid() && Quiescent(s) && t !in s.lookups
    ensures ApplyAll(c, s, steps) == Some(s')
    ensures Caches(s'.mdq, s'.scopes) == ResetIfFull(c, Caches(s.mdq, s.scopes), e) && s'.mutex == None
    ensures t in s'.lookups && s'.lookups[t].Asking? && s'.lookups[t].entity == e
    ensures s'.lookups[t].cached == GetScopes(s'.scopes, e)
  {
    assert ApplyAll(c, s, []) == Some(s);
    steps, s' := ApplyOneMore(c, s, [], s, Begin(t, e));
    steps, s' := ApplyOneMore(c, s, steps, s', Acquire(t));
    steps, s' := RunSection(c, s, steps, s', t);
    steps, s' := ApplyOneMore(c, s, steps, s', ReadScopes(t));
  }

  /** The uninterrupted lookup is one of the protocol's runs: from any quiescent
      state there are protocol steps that end in its caches and its answer. */
  lemma LookupAloneIsARun(c: Config, s: State, t: LookupId, e: EntityId, usable: bool, network: Network)
    returns (steps: seq<Step>, s': State)
    requires c.Valid() && Quiescent(s) && t !in s.lookups
    ensures ApplyAll(c, s, steps) == Some(s')
    ensures var (k', answer) := LookupAlone(c, Caches(s.mdq, s.scopes), e, usable, network);
            Caches(s'.mdq, s'.scopes) == k' && t in s'.lookups && s'.lookups[t] == Finished(e, answer)
  {
    steps, s' := RunToClient(c, s, t, e);
    if usable && e in s'.mdq {
      steps, s' := ApplyOneMore(c, s, steps, s', Hit(t));
    } else if network.Unavailable? {
      steps, s' := ApplyOneMore(c, s, steps, s', Fail(t));
    } else {
      steps, s' := ApplyOneMore(c, s, steps, s', Fetch(t, network.document, network.retained));
      steps, s' := RunSection(c, s, steps, s', t);
      steps, s' := ApplyOneMore(c, s, steps, s', Promote(t));
    }
  }
}
