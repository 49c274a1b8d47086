/**
 The TTL cache: a fast form of a map that never prunes, with a watermark that
 bounds its memory and the cost of its sweeps. The clock is a parameter of
 every operation.
 */
module TtlCaches {
  import opened Wrappers
  import opened Words

  const PRUNE_FLOOR: nat := 1024

  datatype Entry<V> = Entry(value: V, expiresAt: u64)

  type Entries<V> = map<string, Entry<V>>

  /** What `retain(|_, e| e.expires_at > now)` leaves. */
  function Survivors<V>(m: Entries<V>, now: u64): Entries<V> {
    map k | k in m && m[k].expiresAt > now :: m[k]
  }

  predicate HasLive<V>(m: Entries<V>, now: u64, key: string) {
    key in m && m[key].expiresAt > now
  }

  datatype Op<V> =
    | Put(key: string, value: V, ttl: u64)
    | PutIfAbsent(key: string, value: V, ttl: u64)
    | Get(key: string)
    | PruneExpired

  datatype Answer<V> = Done | Inserted(isNew: bool) | Found(value: Option<V>)

  datatype Timed<V> = At(now: u64, op: Op<V>)

  // ---- The simple form: a map that never forgets ----

  function Inserts<V>(m: Entries<V>, t: Timed<V>): bool {
    t.op.Put? || (t.op.PutIfAbsent? && !HasLive(m, t.now, t.op.key))
  }

  function AnswerOf<V>(m: Entries<V>, t: Timed<V>): Answer<V> {
    match t.op
    case Put(_, _, _) => Done
    case PutIfAbsent(k, _, _) => Inserted(!HasLive(m, t.now, k))
    case Get(k) => Found(if HasLive(m, t.now, k) then Some(m[k].value) else None)
    case PruneExpired => Done
  }

  function SimpleStep<V>(m: Entries<V>, t: Timed<V>): Entries<V> {
    if Inserts(m, t) then m[t.op.key := Entry(t.op.value, SaturatingAdd(t.now, t.op.ttl))] else m
  }

  function SimpleAnswers<V>(m: Entries<V>, ops: seq<Timed<V>>): (answers: seq<Answer<V>>)
    ensures |answers| == |ops|
    decreases |ops|
  {
    if ops == [] then [] else [AnswerOf(m, ops[0])] + SimpleAnswers(SimpleStep(m, ops[0]), ops[1..])
  }

  // ---- The fast form: the cache ----

  datatype Cache<V> = Cache(entries: Entries<V>, pruneAt: nat)

  /** Ledger of the automatic sweeps, for the cost bounds. */
  datatype Ledger = Ledger(inserts: nat, scanned: nat, largestSurvivors: nat)

  function Empty<V>(): Cache<V> {
    Cache(map[], PRUNE_FLOOR)
  }

  function MaybePrune<V>(c: Cache<V>, now: u64): Cache<V> {
    if |c.entries| >= c.pruneAt then
      var left := Survivors(c.entries, now);
      Cache(left, Max(|left| * 2, PRUNE_FLOOR))
    else c
  }

  function FastStep<V>(c: Cache<V>, t: Timed<V>): Cache<V> {
    if t.op.PruneExpired? then
      c.(entries := Survivors(c.entries, t.now))
    else if Inserts(c.entries, t) then
      MaybePrune(c.(entries := SimpleStep(c.entries, t)), t.now)
    else c
  }

  function FastAnswers<V>(c: Cache<V>, ops: seq<Timed<V>>): (answers: seq<Answer<V>>)
    ensures |answers| == |ops|
    decreases |ops|
  {
    if ops == [] then [] else [AnswerOf(c.entries, ops[0])] + FastAnswers(FastStep(c, ops[0]), ops[1..])
  }

  function Account<V>(l: Ledger, c: Cache<V>, t: Timed<V>): Ledger {
    if !Inserts(c.entries, t) then l else
    var grown := SimpleStep(c.entries, t);
    if |grown| >= c.pruneAt then
      Ledger(l.inserts + 1, l.scanned + |grown|, Max(l.largestSurvivors, |Survivors(grown, t.now)|))
    else l.(inserts := l.inserts + 1)
  }

  function RunLedger<V>(l: Ledger, c: Cache<V>, ops: seq<Timed<V>>): (Ledger, Cache<V>)
    decreases |ops|
  {
    if ops == [] then (l, c) else RunLedger(Account(l, c, ops[0]), FastStep(c, ops[0]), ops[1..])
  }

  // ---- The cache answers like the map that never prunes ----

  /** The operation sweeps the map. */
  predicate Sweeps<V>(c: Cache<V>, t: Timed<V>) {
    t.op.PruneExpired? || (Inserts(c.entries, t) && |SimpleStep(c.entries, t)| >= c.pruneAt)
  }

  /** The latest clock of any sweep, once the operation is over. */
  function Horizon<V>(horizon: u64, c: Cache<V>, t: Timed<V>): u64 {
    if Sweeps(c, t) && horizon < t.now then t.now else horizon
  }

  /** The operation's answer depends on what is stored. */
  predicate Looks<V>(t: Timed<V>) {
    t.op.Get? || t.op.PutIfAbsent?
  }

  /**
   * The clock is read before the lock is taken, so the operations of this list, in lock order, need not
   * have ordered clocks. None that looks at an entry lies behind an earlier sweep by more than `lag`.
   */
  ghost predicate InStep<V>(c: Cache<V>, horizon: u64, ops: seq<Timed<V>>, lag: nat)
    decreases |ops|
  {
    ops == [] ||
    (&& (Looks(ops[0]) ==> horizon <= ops[0].now + lag)
     && InStep(FastStep(c, ops[0]), Horizon(horizon, c, ops[0]), ops[1..], lag))
  }

  ghost predicate ClockFrom<V>(last: u64, ops: seq<Timed<V>>) {
    && (forall i :: 0 <= i < |ops| ==> last <= ops[i].now)
    && (forall i, j :: 0 <= i < j < |ops| ==> ops[i].now <= ops[j].now)
  }

  /** Operations whose clocks are ordered as their locks are always in step. */
  lemma {:induction false} OrderedClocksAreInStep<V>(c: Cache<V>, horizon: u64, ops: seq<Timed<V>>)
    requires ClockFrom(horizon, ops)
    ensures InStep(c, horizon, ops, 0)
    decreases |ops|
  {
    if ops != [] {
      OrderedClocksAreInStep(FastStep(c, ops[0]), Horizon(horizon, c, ops[0]), ops[1..]);
    }
  }

  /** The cache lacks only entries of the simple map that are expired at `horizon`. */
  ghost predicate Refines<V>(fast: Entries<V>, simple: Entries<V>, horizon: u64) {
    && (forall k :: k in fast ==> k in simple && fast[k] == simple[k])
    && (forall k :: k in simple && k !in fast ==> simple[k].expiresAt <= horizon)
  }

  /** The operation looks for an entry that lives by its own clock and that the cache no longer has. */
  predicate Overtaken<V>(c: Cache<V>, m: Entries<V>, t: Timed<V>) {
    Looks(t) && HasLive(m, t.now, t.op.key) && t.op.key !in c.entries
  }

  /** One operation is answered as by the never-pruned map exactly when it is not overtaken; one that is
      has a clock before the entry's expiry, which is no later than the latest sweep. */
  lemma StepAnswers<V>(c: Cache<V>, m: Entries<V>, horizon: u64, t: Timed<V>)
    requires Refines(c.entries, m, horizon)
    ensures AnswerOf(c.entries, t) == AnswerOf(m, t) <==> !Overtaken(c, m, t)
    ensures Overtaken(c, m, t) ==> t.now < m[t.op.key].expiresAt <= horizon
  {
  }

  lemma StepRefines<V>(c: Cache<V>, m: Entries<V>, horizon: u64, t: Timed<V>)
    requires Refines(c.entries, m, horizon) && !Overtaken(c, m, t)
    ensures Refines(FastStep(c, t).entries, SimpleStep(m, t), Horizon(horizon, c, t))
  {
  }

  ghost predicate NeverOvertaken<V>(c: Cache<V>, m: Entries<V>, ops: seq<Timed<V>>)
    decreases |ops|
  {
    ops == [] || (!Overtaken(c, m, ops[0]) && NeverOvertaken(FastStep(c, ops[0]), SimpleStep(m, ops[0]), ops[1..]))
  }

  /** Exactly the sequences of puts, conditional puts, gets and prunes in which no operation is overtaken by
      a sweep are answered as by a map that never prunes, whatever the clocks. */
  lemma {:induction false} SameAnswers<V>(c: Cache<V>, m: Entries<V>, horizon: u64, ops: seq<Timed<V>>)
    requires Refines(c.entries, m, horizon)
    ensures FastAnswers(c, ops) == SimpleAnswers(m, ops) <==> NeverOvertaken(c, m, ops)
    decreases |ops|
  {
    if ops != [] {
      var c1, m1, rest := FastStep(c, ops[0]), SimpleStep(m, ops[0]), ops[1..];
      StepAnswers(c, m, horizon, ops[0]);
      if !Overtaken(c, m, ops[0]) {
        StepRefines(c, m, horizon, ops[0]);
        SameAnswers(c1, m1, Horizon(horizon, c, ops[0]), rest);
        SameHead(AnswerOf(m, ops[0]), FastAnswers(c1, rest), SimpleAnswers(m1, rest));
      } else {
        assert FastAnswers(c, ops)[0] != SimpleAnswers(m, ops)[0];
      }
    }
  }

  lemma SameHead<T>(x: T, xs: seq<T>, ys: seq<T>)
    ensures [x] + xs == [x] + ys <==> xs == ys
  {
    assert ([x] + xs)[1..] == xs && ([x] + ys)[1..] == ys;
  }

  /** While no operation looks at entries with a clock behind an earlier sweep, none is overtaken. */
  lemma {:induction false} InStepIsNeverOvertaken<V>(c: Cache<V>, m: Entries<V>, horizon: u64, ops: seq<Timed<V>>)
    requires Refines(c.entries, m, horizon) && InStep(c, horizon, ops, 0)
    ensures NeverOvertaken(c, m, ops)
    decreases |ops|
  {
    if ops != [] {
      StepAnswers(c, m, horizon, ops[0]);
      StepRefines(c, m, horizon, ops[0]);
      InStepIsNeverOvertaken(FastStep(c, ops[0]), SimpleStep(m, ops[0]), Horizon(horizon, c, ops[0]), ops[1..]);
    }
  }

  // ---- What the clocks alone decide ----

  function SweepThenRead<V>(h: u64, n: u64, key: string): seq<Timed<V>> {
    [At(h, PruneExpired), At(n, Get(key))]
  }

  lemma SweepThenReadAnswers<V>(c: Cache<V>, h: u64, n: u64, key: string)
    ensures FastAnswers(c, SweepThenRead(h, n, key)) == SimpleAnswers(c.entries, SweepThenRead(h, n, key))
            <==> !(key in c.entries && n < c.entries[key].expiresAt <= h)
  {
    var ops := SweepThenRead<V>(h, n, key);
    var c1 := FastStep(c, ops[0]);
    assert ops[1..] == [ops[1]];
    SameAnswers(c, c.entries, 0, ops);
    assert NeverOvertaken(c, c.entries, ops) <==> NeverOvertaken(c1, c.entries, ops[1..]);
    assert ops[1..][1..] == [];
    assert NeverOvertaken(c1, c.entries, ops[1..]) <==> !Overtaken(c1, c.entries, ops[1]);
  }

  /** A read after a sweep is right for every content of the cache exactly when its clock is not behind. */
  lemma ReadsRightUnlessBehind<V(!new)>(h: u64, n: u64, value: V)
    ensures (forall c: Cache<V>, key: string ::
               FastAnswers(c, SweepThenRead(h, n, key)) == SimpleAnswers(c.entries, SweepThenRead(h, n, key)))
            <==> h <= n
  {
    if h <= n {
      forall c: Cache<V>, key: string
        ensures FastAnswers(c, SweepThenRead(h, n, key)) == SimpleAnswers(c.entries, SweepThenRead(h, n, key))
      {
        SweepThenReadAnswers(c, h, n, key);
      }
    } else {
      var c := Cache(map["key" := Entry(value, h)], PRUNE_FLOOR);
      SweepThenReadAnswers(c, h, n, "key");
    }
  }

  /** A sweep at 100 lets a conditional put that read 99 replace an entry that expires at 100 and that the
      map that never prunes still holds. */
  lemma SweepOvertakesReader<V>(c: Cache<V>, key: string, value: V, ops: seq<Timed<V>>)
    requires c.entries == map[key := Entry(value, 100)]
    requires ops == [At(100, PruneExpired), At(99, PutIfAbsent(key, value, 60))]
    ensures FastAnswers(c, ops) == [Done, Inserted(true)]
    ensures SimpleAnswers(c.entries, ops) == [Done, Inserted(false)]
  {
    var c1 := FastStep(c, ops[0]);
    assert key !in c1.entries;
    assert ops[1..] == [ops[1]] && ops[1..][1..] == [];
    assert FastAnswers(FastStep(c1, ops[1]), []) == [];
    assert SimpleAnswers(SimpleStep(c.entries, ops[1]), []) == [];
  }

  // ---- Replay protection ----

  /** While entry `key` exists, a conditional put of it succeeds only once the
      entry has expired; an insertion in between expired it first. */
  lemma {:induction false} NextSuccessIsLate<V>(m: Entries<V>, ops: seq<Timed<V>>, key: string, j: nat)
    requires j < |ops| && key in m
    requires forall i :: 0 <= i < |ops| ==> !ops[i].op.Put?
    requires ops[j].op.PutIfAbsent? && ops[j].op.key == key
    requires SimpleAnswers(m, ops)[j] == Inserted(true)
    ensures ops[j].now >= m[key].expiresAt
    decreases |ops|
  {
    if j > 0 {
      var t := ops[0];
      var m' := SimpleStep(m, t);
      if Inserts(m, t) && t.op.key == key {
        assert m[key].expiresAt <= t.now <= m'[key].expiresAt;
      } else {
        assert m'[key] == m[key];
      }
      NextSuccessIsLate(m', ops[1..], key, j - 1);
    }
  }

  lemma {:induction false} SimpleReplayGap<V>(m: Entries<V>, ops: seq<Timed<V>>, i: nat, j: nat)
    requires i < j < |ops|
    requires forall n :: 0 <= n < |ops| ==> !ops[n].op.Put?
    requires ops[i].op.PutIfAbsent? && ops[j].op.PutIfAbsent? && ops[i].op.key == ops[j].op.key
    requires SimpleAnswers(m, ops)[i] == Inserted(true) && SimpleAnswers(m, ops)[j] == Inserted(true)
    ensures ops[j].now >= SaturatingAdd(ops[i].now, ops[i].op.ttl)
    decreases |ops|
  {
    var m' := SimpleStep(m, ops[0]);
    if i == 0 {
      NextSuccessIsLate(m', ops[1..], ops[0].op.key, j - 1);
    } else {
      SimpleReplayGap(m', ops[1..], i - 1, j - 1);
    }
  }

  /** The replay rule: in a store written only by conditional puts, swept or not,
      two accepted uses of one key are at least the first entry's TTL apart. */
  lemma ReplayGap<V>(c: Cache<V>, ops: seq<Timed<V>>, i: nat, j: nat)
    requires c == Empty() && InStep(c, 0, ops, 0) && i < j < |ops|
    requires forall n :: 0 <= n < |ops| ==> !ops[n].op.Put?
    requires ops[i].op.PutIfAbsent? && ops[j].op.PutIfAbsent? && ops[i].op.key == ops[j].op.key
    requires FastAnswers(c, ops)[i] == Inserted(true) && FastAnswers(c, ops)[j] == Inserted(true)
    ensures ops[j].now >= ops[i].now + ops[i].op.ttl || ops[j].now == U64_MAX
  {
    InStepIsNeverOvertaken(c, c.entries, 0, ops);
    SameAnswers(c, c.entries, 0, ops);
    SimpleReplayGap(c.entries, ops, i, j);
  }

  /** The operation is a conditional put of `key`. */
  predicate Uses<V>(t: Timed<V>, key: string) {
    t.op.PutIfAbsent? && t.op.key == key
  }

  /** The entry of `key` expires at `expiry`, or a sweep dropped it after that. */
  ghost predicate Remembers<V>(c: Cache<V>, horizon: u64, key: string, expiry: u64) {
    if key in c.entries then c.entries[key].expiresAt == expiry else expiry <= horizon
  }

  lemma {:induction false} NextUseIsLate<V>(c: Cache<V>, horizon: u64, ops: seq<Timed<V>>, lag: nat,
                                            key: string, expiry: u64, j: nat)
    requires InStep(c, horizon, ops, lag) && Remembers(c, horizon, key, expiry) && j < |ops|
    requires forall n :: 0 <= n < |ops| ==> !ops[n].op.Put?
    requires Uses(ops[j], key) && FastAnswers(c, ops)[j] == Inserted(true)
    requires forall n :: 0 <= n < j && Uses(ops[n], key) ==> FastAnswers(c, ops)[n] == Inserted(false)
    ensures ops[j].now + lag >= expiry
    decreases |ops|
  {
    if j > 0 {
      var t := ops[0];
      var c1, rest := FastStep(c, t), ops[1..];
      assert Uses(t, key) ==> !Inserts(c.entries, t);
      assert Remembers(c1, Horizon(horizon, c, t), key, expiry);
      forall n | 0 <= n < j - 1 && Uses(rest[n], key) ensures FastAnswers(c1, rest)[n] == Inserted(false) {
        assert rest[n] == ops[n + 1];
      }
      NextUseIsLate(c1, Horizon(horizon, c, t), rest, lag, key, expiry, j - 1);
    }
  }

  /** The replay rule without ordered clocks: two successive accepted uses of a key are at least the TTL
      apart, less the time an operation may wait for its lock while another one sweeps. */
  lemma {:induction false} ReplayGapUnderLag<V>(c: Cache<V>, horizon: u64, ops: seq<Timed<V>>, lag: nat,
                                                key: string, i: nat, j: nat)
    requires InStep(c, horizon, ops, lag) && i < j < |ops|
    requires forall n :: 0 <= n < |ops| ==> !ops[n].op.Put?
    requires Uses(ops[i], key) && Uses(ops[j], key)
    requires FastAnswers(c, ops)[i] == Inserted(true) && FastAnswers(c, ops)[j] == Inserted(true)
    requires forall n :: i < n < j && Uses(ops[n], key) ==> FastAnswers(c, ops)[n] == Inserted(false)
    ensures ops[j].now + lag >= SaturatingAdd(ops[i].now, ops[i].op.ttl)
    decreases |ops|
  {
    var t := ops[0];
    var c1, h1, rest := FastStep(c, t), Horizon(horizon, c, t), ops[1..];
    forall n | i <= n < j - 1 && Uses(rest[n], key) ensures FastAnswers(c1, rest)[n] == Inserted(false) {
      assert rest[n] == ops[n + 1];
    }
    if i == 0 {
      var expiry := SaturatingAdd(t.now, t.op.ttl);
      assert Remembers(c1, h1, key, expiry);
      NextUseIsLate(c1, h1, rest, lag, key, expiry, j - 1);
    } else {
      ReplayGapUnderLag(c1, h1, rest, lag, key, i - 1, j - 1);
    }
  }

  /** The lag bound is tight: for every lag up to the TTL, a sweep at the moment of expiry and a second use
      that read its clock `lag` earlier make two accepted uses lie exactly the TTL less the lag apart. */
  lemma LagBoundIsTight<V>(c: Cache<V>, key: string, value: V, start: u64, ttl: u64, lag: nat, ops: seq<Timed<V>>)
    requires c == Empty() && 0 < lag <= ttl && start + ttl <= U64_MAX
    requires ops == [At(start, PutIfAbsent(key, value, ttl)), At(start + ttl, PruneExpired),
                     At(start + ttl - lag, PutIfAbsent(key, value, ttl))]
    ensures InStep(c, 0, ops, lag) && !InStep(c, 0, ops, lag - 1)
    ensures FastAnswers(c, ops) == [Inserted(true), Done, Inserted(true)]
    ensures ops[2].now + lag == SaturatingAdd(ops[0].now, ttl)
  {
    var c1 := FastStep(c, ops[0]);
    assert c1.entries == map[key := Entry(value, start + ttl)];
    assert |c1.entries.Keys| == 1;
    var c2 := FastStep(c1, ops[1]);
    assert key !in c2.entries;
    var rest, last := ops[1..], ops[1..][1..];
    assert rest[0] == ops[1] && last == [ops[2]] && last[1..] == [];
    assert Horizon(0, c, ops[0]) == 0 && Horizon(0, c1, ops[1]) == start + ttl;
    assert InStep(c2, start + ttl, last, lag) && !InStep(c2, start + ttl, last, lag - 1);
    assert FastAnswers(FastStep(c2, ops[2]), []) == [];
    assert FastAnswers(c2, last) == [Inserted(true)];
    assert FastAnswers(c1, rest) == [Done] + FastAnswers(c2, last);
  }

  // ---- Memory and cost bounds ----

  ghost predicate Accounted<V>(l: Ledger, c: Cache<V>) {
    && |c.entries| < c.pruneAt
    && PRUNE_FLOOR <= c.pruneAt <= Max(PRUNE_FLOOR, 2 * l.largestSurvivors)
    && l.scanned <= 2 * l.inserts
    && l.scanned + 2 * |c.entries| <= 2 * l.inserts + c.pruneAt
  }

  lemma SurvivorsAreFewer<V>(m: Entries<V>, now: u64)
    ensures |Survivors(m, now)| <= |m|
  {
    var kept := Survivors(m, now).Keys;
    assert kept * m.Keys == kept;
    assert |m.Keys| == |m.Keys - kept| + |m.Keys * kept|;
    assert m.Keys * kept == kept;
  }

  lemma StepAccounted<V>(l: Ledger, c: Cache<V>, t: Timed<V>)
    requires Accounted(l, c)
    ensures Accounted(Account(l, c, t), FastStep(c, t))
  {
    SurvivorsAreFewer(c.entries, t.now);
    if Inserts(c.entries, t) {
      var grown := SimpleStep(c.entries, t);
      assert grown.Keys == c.entries.Keys + {t.op.key};
      SurvivorsAreFewer(grown, t.now);
    }
  }

  /** Over any run of a cache that was not loaded from a snapshot: the map stays
      below the watermark, the watermark below twice the largest sweep survivor
      count (or its floor), and the automatic sweeps scan at most two entries
      per insertion. */
  lemma {:induction false} RunAccounted<V>(l: Ledger, c: Cache<V>, ops: seq<Timed<V>>)
    requires Accounted(l, c)
    ensures var (l', c') := RunLedger(l, c, ops);
            && |c'.entries| < c'.pruneAt <= Max(PRUNE_FLOOR, 2 * l'.largestSurvivors)
            && l'.scanned <= 2 * l'.inserts
            && Accounted(l', c')
    decreases |ops|
  {
    if ops != [] {
      StepAccounted(l, c, ops[0]);
      RunAccounted(Account(l, c, ops[0]), FastStep(c, ops[0]), ops[1..]);
    }
  }

  /** Every cache that starts empty is accounted for. */
  lemma SweepsAreBounded<V>(l: Ledger, c: Cache<V>, ops: seq<Timed<V>>)
    requires l == Ledger(0, 0, 0) && c == Empty()
    ensures var (l', c') := RunLedger(l, c, ops);
            && |c'.entries| < c'.pruneAt <= Max(PRUNE_FLOOR, 2 * l'.largestSurvivors)
            && l'.scanned <= 2 * l'.inserts
  {
    RunAccounted(l, c, ops);
  }

  // ---- The cache object ----

  class TtlCache<V> {
    var inner: Entries<V>
    const defaultTtl: u64
    var pruneAt: nat

    constructor (defaultTtl: u64)
      ensures View() == Empty() && this.defaultTtl == defaultTtl
    {
      inner, this.defaultTtl, pruneAt := map[], defaultTtl, PRUNE_FLOOR;
    }

    ghost function View(): Cache<V>
      reads this
    {
      Cache(inner, pruneAt)
    }

    method Prune(now: u64)
      modifies this`inner
      ensures View() == FastStep(old(View()), At(now, PruneExpired))
    {
      inner := Survivors(inner, now);
    }

    method Get(now: u64, key: string) returns (value: Option<V>)
      ensures Found(value) == AnswerOf(View().entries, At(now, Op.Get(key)))
    {
      if key in inner && inner[key].expiresAt > now {
        return Some(inner[key].value);
      }
      value := None;
    }

    method SweepWhenLarge(now: u64)
      modifies this
      ensures View() == MaybePrune(old(View()), now)
    {
      if |inner| >= pruneAt {
        inner := Survivors(inner, now);
        pruneAt := Max(|inner| * 2, PRUNE_FLOOR);
      }
    }

    method PutWithTtl(now: u64, key: string, value: V, ttl: u64)
      modifies this
      ensures View() == FastStep(old(View()), At(now, Put(key, value, ttl)))
    {
      inner := inner[key := Entry(value, SaturatingAdd(now, ttl))];
      SweepWhenLarge(now);
    }

    method PutDefault(now: u64, key: string, value: V)
      modifies this
      ensures View() == FastStep(old(View()), At(now, Put(key, value, defaultTtl)))
    {
      PutWithTtl(now, key, value, defaultTtl);
    }

    method PutWhenAbsent(now: u64, key: string, value: V, ttl: u64) returns (inserted: bool)
      modifies this
      ensures View() == FastStep(old(View()), At(now, PutIfAbsent(key, value, ttl)))
      ensures Inserted(inserted) == AnswerOf(old(View()).entries, At(now, PutIfAbsent(key, value, ttl)))
    {
      if key in inner && inner[key].expiresAt > now {
        return false;
      }
      inner := inner[key := Entry(value, SaturatingAdd(now, ttl))];
      SweepWhenLarge(now);
      inserted := true;
    }
  }
}
