/** Order-preserving removal of duplicates: the `if !values.contains(v) { values.push(v) }` loop. */
module Deduplication {

  function Dedup(xs: seq<string>): seq<string> {
    if xs == [] then []
    else
      var k := |xs| - 1;
      var r := Dedup(xs[..k]);
      if xs[k] in r then r else r + [xs[k]]
  }

  lemma {:induction false} DedupKeepsElements(xs: seq<string>)
    ensures forall x :: x in Dedup(xs) <==> x in xs
  {
    if xs != [] {
      var k := |xs| - 1;
      DedupKeepsElements(xs[..k]);
      assert xs == xs[..k] + [xs[k]];
    }
  }

  lemma DedupEmpty(xs: seq<string>)
    ensures Dedup(xs) == [] <==> xs == []
  {
    DedupKeepsElements(xs);
    if xs != [] {
      assert xs[0] in Dedup(xs);
    }
  }

  predicate DuplicateFree(xs: seq<string>) {
    forall i, j :: 0 <= i < j < |xs| ==> xs[i] != xs[j]
  }

  lemma {:induction false} DedupIsNoLonger(xs: seq<string>)
    ensures |Dedup(xs)| <= |xs|
  {
    if xs != [] {
      DedupIsNoLonger(xs[..|xs| - 1]);
    }
  }

  lemma {:induction false} DedupIsDuplicateFree(xs: seq<string>)
    ensures DuplicateFree(Dedup(xs))
    ensures DuplicateFree(xs) <==> Dedup(xs) == xs
  {
    if xs != [] {
      var k := |xs| - 1;
      DedupIsDuplicateFree(xs[..k]);
      DedupKeepsElements(xs[..k]);
      assert xs == xs[..k] + [xs[k]];
      assert |Dedup(xs[..k])| <= k by {
        DedupIsNoLonger(xs[..k]);
      }
      if DuplicateFree(xs) {
        assert forall i, j :: 0 <= i < j < k ==> xs[..k][i] != xs[..k][j];
      }
    }
  }

  /** One more element, as the loop sees it. */
  lemma DedupPush(xs: seq<string>, x: string)
    ensures Dedup(xs + [x]) == if x in Dedup(xs) then Dedup(xs) else Dedup(xs) + [x]
  {
    assert (xs + [x])[..|xs|] == xs;
  }

  lemma {:induction false} DedupAbsorbs(xs: seq<string>, ys: seq<string>)
    requires forall y <- ys :: y in xs
    ensures Dedup(xs + ys) == Dedup(xs)
  {
    if ys == [] {
      assert xs + ys == xs;
    } else {
      var k := |ys| - 1;
      DedupAbsorbs(xs, ys[..k]);
      DedupKeepsElements(xs + ys[..k]);
      assert xs + ys == xs + ys[..k] + [ys[k]];
      DedupPush(xs + ys[..k], ys[k]);
    }
  }

  lemma {:induction false} DedupIsCongruent(xs: seq<string>, xs': seq<string>, ys: seq<string>)
    requires Dedup(xs) == Dedup(xs')
    ensures Dedup(xs + ys) == Dedup(xs' + ys)
  {
    if ys == [] {
      assert xs + ys == xs && xs' + ys == xs';
    } else {
      var k := |ys| - 1;
      DedupIsCongruent(xs, xs', ys[..k]);
      assert xs + ys == xs + ys[..k] + [ys[k]];
      assert xs' + ys == xs' + ys[..k] + [ys[k]];
      DedupPush(xs + ys[..k], ys[k]);
      DedupPush(xs' + ys[..k], ys[k]);
    }
  }
}

/** Attribute mapping between protocol names and the internal model, in both directions. */
module AttributeMapping {
  import opened Wrappers
  import opened Deduplication

  datatype ProfileAttribute = ProfileAttribute(names: seq<string>, oid: Option<string>, friendlyName: Option<string>)

  type Attributes = map<string, seq<string>>
  type Mappings = map<string, map<string, ProfileAttribute>>

  function ListOf(o: Option<string>): seq<string> {
    if o.Some? then [o.value] else []
  }

  /** Every external key of one attribute, in the order they are tried. */
  function Keys(m: ProfileAttribute): seq<string> {
    m.names + ListOf(m.oid) + ListOf(m.friendlyName)
  }

  predicate HasProfile(t: Mappings, profile: string, name: string) {
    name in t && profile in t[name]
  }

  /** The values under all of `keys`, one list after the other. */
  function Gather(keys: seq<string>, external: Attributes): seq<string> {
    if keys == [] then []
    else
      var k := |keys| - 1;
      Gather(keys[..k], external) + ValuesAt(keys[k], external)
  }

  function ValuesAt(key: string, external: Attributes): seq<string> {
    if key in external then external[key] else []
  }

  function Collect(m: ProfileAttribute, external: Attributes): seq<string> {
    Dedup(Gather(Keys(m), external))
  }

  lemma {:induction false} GatheredValues(keys: seq<string>, external: Attributes)
    ensures forall v :: v in Gather(keys, external) <==> exists k <- keys :: v in ValuesAt(k, external)
  {
    if keys != [] {
      var last := |keys| - 1;
      GatheredValues(keys[..last], external);
      assert keys == keys[..last] + [keys[last]];
      forall v ensures v in Gather(keys, external) <==> exists k <- keys :: v in ValuesAt(k, external) {
        if v in Gather(keys, external) && v !in ValuesAt(keys[last], external) {
          assert v in Gather(keys[..last], external);
          var k :| k in keys[..last] && v in ValuesAt(k, external);
          assert k in keys;
        } else if v in ValuesAt(keys[last], external) {
          assert keys[last] in keys;
        }
      }
    }
  }

  /** Taking one name off the list uncovers its entry, if there is one. */
  lemma Uncovered(target: Attributes, left: set<string>, name: string)
    requires name in left
    ensures target - (left - {name}) == if name in target then (target - left)[name := target[name]] else target - left
  {
  }

  // ---- Towards the internal names ----

  /** What one internal attribute receives. */
  function Received(t: Mappings, profile: string, external: Attributes, name: string): seq<string> {
    if HasProfile(t, profile, name) then Collect(t[name][profile], external) else []
  }

  function ToInternal(t: Mappings, profile: string, external: Attributes): Attributes {
    map n | n in t && Received(t, profile, external, n) != [] :: Received(t, profile, external, n)
  }

  /** The source's nested loops, over the mapping in any order, compute that map. */
  method MapToInternal(t: Mappings, profile: string, external: Attributes) returns (internal: Attributes)
    ensures internal == ToInternal(t, profile, external)
  {
    ghost var target := ToInternal(t, profile, external);
    internal := map[];
    var left := t.Keys;
    assert target - left == map[];
    while left != {}
      invariant left <= t.Keys
      invariant internal == target - left
    {
      var name :| name in left;
      Uncovered(target, left, name);
      if profile in t[name] {
        var values := CollectInOrder(Keys(t[name][profile]), external);
        if values != [] {
          internal := internal[name := values];
        }
      }
      left := left - {name};
    }
    assert target - {} == target;
  }

  method CollectInOrder(keys: seq<string>, external: Attributes) returns (values: seq<string>)
    ensures values == Dedup(Gather(keys, external))
  {
    values := [];
    for i := 0 to |keys|
      invariant values == Dedup(Gather(keys[..i], external))
    {
      assert keys[..i + 1][..i] == keys[..i];
      values := PushNew(values, Gather(keys[..i], external), ValuesAt(keys[i], external));
    }
    assert keys[..|keys|] == keys;
  }

  /** The inner loop: appends what is not there yet. */
  method PushNew(seen: seq<string>, ghost before: seq<string>, found: seq<string>) returns (values: seq<string>)
    requires seen == Dedup(before)
    ensures values == Dedup(before + found)
  {
    values := seen;
    assert before + found[..0] == before;
    for j := 0 to |found|
      invariant values == Dedup(before + found[..j])
    {
      DedupPush(before + found[..j], found[j]);
      assert before + found[..j] + [found[j]] == before + found[..j + 1];
      if found[j] !in values {
        values := values + [found[j]];
      }
    }
    assert found[..|found|] == found;
  }

  // ---- Towards the protocol names ----

  /** The name an internal attribute is emitted under, when it is emitted at all. */
  function Canonical(t: Mappings, profile: string, name: string): Option<string> {
    if HasProfile(t, profile, name) && t[name][profile].names != [] then Some(t[name][profile].names[0]) else None
  }

  /** The order in which a map is iterated: every key once. */
  ghost predicate Enumerates(order: seq<string>, internal: Attributes) {
    && (forall n :: n in internal <==> n in order)
    && DuplicateFree(order)
  }

  /** A later attribute of the iteration order overwrites an earlier one with the same canonical name. */
  function FromInternal(t: Mappings, profile: string, internal: Attributes, order: seq<string>): Attributes
    requires forall n <- order :: n in internal
  {
    if order == [] then map[]
    else
      var k := |order| - 1;
      var before := FromInternal(t, profile, internal, order[..k]);
      var c := Canonical(t, profile, order[k]);
      if c.Some? then before[c.value := internal[order[k]]] else before
  }

  method MapFromInternal(t: Mappings, profile: string, internal: Attributes, order: seq<string>)
    returns (external: Attributes)
    requires forall n <- order :: n in internal
    ensures external == FromInternal(t, profile, internal, order)
  {
    external := map[];
    for i := 0 to |order|
      invariant external == FromInternal(t, profile, internal, order[..i])
    {
      assert order[..i + 1][..i] == order[..i];
      var name := order[i];
      if name !in t || profile !in t[name] {
        continue;
      }
      var mapping := t[name][profile];
      if mapping.names != [] {
        external := external[mapping.names[0] := internal[name]];
      }
    }
    assert order[..|order|] == order;
  }

  /** Canonical names are no other attribute's inbound key. */
  ghost predicate Separated(t: Mappings, profile: string) {
    forall n, m :: n != m && Canonical(t, profile, n).Some? && HasProfile(t, profile, m)
      ==> Canonical(t, profile, n).value !in Keys(t[m][profile])
  }

  lemma {:induction false} EmittedUnder(t: Mappings, profile: string, internal: Attributes, order: seq<string>)
    requires Separated(t, profile)
    requires DuplicateFree(order) && forall n <- order :: n in internal
    ensures var external := FromInternal(t, profile, internal, order);
            && (forall n <- order :: Canonical(t, profile, n).Some?
                  ==> Canonical(t, profile, n).value in external
                      && external[Canonical(t, profile, n).value] == internal[n])
            && (forall c <- external :: exists n <- order :: Canonical(t, profile, n) == Some(c))
  {
    if order != [] {
      var k := |order| - 1;
      var init := order[..k];
      assert order == init + [order[k]];
      EmittedUnder(t, profile, internal, init);
      var external := FromInternal(t, profile, internal, order);
      forall n <- init | Canonical(t, profile, n).Some? && Canonical(t, profile, order[k]).Some?
        ensures Canonical(t, profile, n) != Canonical(t, profile, order[k])
      {
        CanonicalIsKey(t, profile, n);
        CanonicalIsKey(t, profile, order[k]);
      }
      forall c <- external ensures exists n <- order :: Canonical(t, profile, n) == Some(c) {
        if Canonical(t, profile, order[k]) == Some(c) {
          assert order[k] in order;
        } else {
          var n :| n in init && Canonical(t, profile, n) == Some(c);
          assert n in order;
        }
      }
    }
  }

  lemma CanonicalIsKey(t: Mappings, profile: string, n: string)
    requires Canonical(t, profile, n).Some?
    ensures Keys(t[n][profile])[0] == Canonical(t, profile, n).value && Keys(t[n][profile]) != []
  {
  }

  /** What both directions make of internal attributes: unmapped ones go, duplicates and empty lists too. */
  function Normal(t: Mappings, profile: string, internal: Attributes): Attributes {
    map n | n in internal && Canonical(t, profile, n).Some? && internal[n] != [] :: Dedup(internal[n])
  }

  lemma ThereAndBack(t: Mappings, profile: string, internal: Attributes, order: seq<string>)
    requires Separated(t, profile) && Enumerates(order, internal)
    ensures ToInternal(t, profile, FromInternal(t, profile, internal, order)) == Normal(t, profile, internal)
  {
    var external := FromInternal(t, profile, internal, order);
    EmittedUnder(t, profile, internal, order);
    forall m
      ensures Received(t, profile, external, m)
              == (if m in Normal(t, profile, internal) then Normal(t, profile, internal)[m] else [])
    {
      ReceivedBack(t, profile, internal, order, m);
    }
    NoEmptyLists(t, profile, internal);
    PointwiseEqual(t, profile, external, Normal(t, profile, internal));
  }

  lemma NoEmptyLists(t: Mappings, profile: string, internal: Attributes)
    ensures forall m <- Normal(t, profile, internal) :: Normal(t, profile, internal)[m] != []
  {
    forall m <- Normal(t, profile, internal) ensures Dedup(internal[m]) != [] {
      DedupEmpty(internal[m]);
    }
  }

  lemma PointwiseEqual(t: Mappings, profile: string, external: Attributes, expected: Attributes)
    requires forall m :: Received(t, profile, external, m) == if m in expected then expected[m] else []
    requires forall m <- expected :: expected[m] != []
    ensures ToInternal(t, profile, external) == expected
  {
  }

  lemma ReceivedBack(t: Mappings, profile: string, internal: Attributes, order: seq<string>, m: string)
    requires Separated(t, profile) && Enumerates(order, internal)
    ensures Received(t, profile, FromInternal(t, profile, internal, order), m)
            == if m in Normal(t, profile, internal) then Normal(t, profile, internal)[m] else []
  {
    if HasProfile(t, profile, m) {
      OneSource(t, profile, internal, order, m);
    }
    if m in internal {
      DedupEmpty(internal[m]);
    }
  }

  /** An attribute collects copies of its own values and no others. */
  lemma OneSource(t: Mappings, profile: string, internal: Attributes, order: seq<string>, m: string)
    requires Separated(t, profile) && Enumerates(order, internal) && HasProfile(t, profile, m)
    ensures var external := FromInternal(t, profile, internal, order);
            Collect(t[m][profile], external)
            == if m in internal && Canonical(t, profile, m).Some? then Dedup(internal[m]) else []
  {
    var external := FromInternal(t, profile, internal, order);
    EmittedUnder(t, profile, internal, order);
    var keys := Keys(t[m][profile]);
    var c := Canonical(t, profile, m);
    var own := if m in internal && c.Some? then internal[m] else [];
    forall k <- keys ensures ValuesAt(k, external) == if c == Some(k) then own else [] {
      if k in external {
        var n :| n in order && Canonical(t, profile, n) == Some(k);
        assert n == m;
      }
    }
    if c.Some? {
      CanonicalIsKey(t, profile, m);
      Copies(keys, external, c.value, own);
    } else {
      GatheredValues(keys, external);
      assert Gather(keys, external) == [] by {
        if Gather(keys, external) != [] {
          assert Gather(keys, external)[0] in Gather(keys, external);
        }
      }
    }
  }

  lemma {:induction false} Copies(keys: seq<string>, external: Attributes, c: string, own: seq<string>)
    requires keys != [] && keys[0] == c
    requires forall k <- keys :: ValuesAt(k, external) == if c == k then own else []
    ensures Dedup(Gather(keys, external)) == Dedup(own)
    ensures forall v <- own :: v in Gather(keys, external)
  {
    var k := |keys| - 1;
    var before := Gather(keys[..k], external);
    if k == 0 {
      assert before + own == own;
    } else {
      Copies(keys[..k], external, c, own);
      if keys[k] == c {
        DedupAbsorbs(before, own);
      } else {
        assert before + [] == before;
      }
    }
  }

  /** Attributes the profile can carry as they are: all emitted, no list empty or with duplicates. */
  ghost predicate Carried(t: Mappings, profile: string, internal: Attributes) {
    forall n <- internal :: Canonical(t, profile, n).Some? && internal[n] != [] && DuplicateFree(internal[n])
  }

  ghost predicate RoundTrips(t: Mappings, profile: string) {
    forall internal: Attributes, order: seq<string> :: Enumerates(order, internal) && Carried(t, profile, internal)
      ==> ToInternal(t, profile, FromInternal(t, profile, internal, order)) == internal
  }

  /** Mapping out and back is the identity on carried attributes exactly when the names are separated. */
  lemma RoundTripsExactlyWhenSeparated(t: Mappings, profile: string)
    ensures RoundTrips(t, profile) <==> Separated(t, profile)
  {
    if Separated(t, profile) {
      forall internal: Attributes, order: seq<string> | Enumerates(order, internal) && Carried(t, profile, internal)
        ensures ToInternal(t, profile, FromInternal(t, profile, internal, order)) == internal
      {
        ThereAndBack(t, profile, internal, order);
        CarriedIsNormal(t, profile, internal);
      }
    } else {
      var n, m :| n != m && Canonical(t, profile, n).Some? && HasProfile(t, profile, m)
        && Canonical(t, profile, n).value in Keys(t[m][profile]);
      LeaksInto(t, profile, n, m);
    }
  }

  lemma CarriedIsNormal(t: Mappings, profile: string, internal: Attributes)
    requires Carried(t, profile, internal)
    ensures Normal(t, profile, internal) == internal
  {
    forall n <- internal ensures Dedup(internal[n]) == internal[n] {
      DedupIsDuplicateFree(internal[n]);
    }
  }

  lemma LeaksInto(t: Mappings, profile: string, n: string, m: string)
    requires n != m && Canonical(t, profile, n).Some? && HasProfile(t, profile, m)
    requires Canonical(t, profile, n).value in Keys(t[m][profile])
    ensures !RoundTrips(t, profile)
  {
    var internal: Attributes := map[n := ["v"]];
    var order := [n];
    var external := FromInternal(t, profile, internal, order);
    EmittedAlone(t, profile, internal, order, n);
    LoneValue(Keys(t[m][profile]), Canonical(t, profile, n).value, external);
    assert Received(t, profile, external, m) != [];
    Leaked(t, profile, internal, order, m);
  }

  lemma EmittedAlone(t: Mappings, profile: string, internal: Attributes, order: seq<string>, n: string)
    requires Canonical(t, profile, n).Some?
    requires internal == map[n := ["v"]] && order == [n]
    ensures FromInternal(t, profile, internal, order) == map[Canonical(t, profile, n).value := ["v"]]
  {
    assert order[..0] == [];
    assert FromInternal(t, profile, internal, order[..0]) == map[];
  }

  lemma Leaked(t: Mappings, profile: string, internal: Attributes, order: seq<string>, m: string)
    requires Enumerates(order, internal)
    requires Carried(t, profile, internal)
    requires m !in internal && Received(t, profile, FromInternal(t, profile, internal, order), m) != []
    ensures !RoundTrips(t, profile)
  {
    assert m in ToInternal(t, profile, FromInternal(t, profile, internal, order));
  }

  // ---- Which inbound names are known ----

  method ExternalNames(t: Mappings, profile: string) returns (names: set<string>)
    ensures forall k :: k in names <==> ToInternal(t, profile, map[k := ["v"]]) != map[]
    ensures forall external: Attributes ::
              ToInternal(t, profile, external)
              == ToInternal(t, profile, map k | k in external && k in names :: external[k])
  {
    names := {};
    var left := t.Keys;
    while left != {}
      invariant left <= t.Keys
      invariant forall k :: k in names
                  <==> exists n :: n in t && n !in left && profile in t[n] && k in Keys(t[n][profile])
    {
      var name :| name in left;
      if profile in t[name] {
        var mapping := t[name][profile];
        names := names + (set k | k in mapping.names);
        if mapping.oid.Some? {
          names := names + {mapping.oid.value};
        }
        if mapping.friendlyName.Some? {
          names := names + {mapping.friendlyName.value};
        }
      }
      left := left - {name};
    }
    KnownNames(t, profile, names);
  }

  lemma KnownNames(t: Mappings, profile: string, names: set<string>)
    requires forall k :: k in names <==> exists n :: n in t && profile in t[n] && k in Keys(t[n][profile])
    ensures forall k :: k in names <==> ToInternal(t, profile, map[k := ["v"]]) != map[]
    ensures forall external: Attributes ::
              ToInternal(t, profile, external)
              == ToInternal(t, profile, map k | k in external && k in names :: external[k])
  {
    forall k ensures k in names <==> ToInternal(t, profile, map[k := ["v"]]) != map[] {
      OneKnownName(t, profile, names, k);
    }
    forall external: Attributes
      ensures ToInternal(t, profile, external)
              == ToInternal(t, profile, map k | k in external && k in names :: external[k])
    {
      OnlyKnownMatter(t, profile, names, external);
    }
  }

  lemma OnlyKnownMatter(t: Mappings, profile: string, names: set<string>, external: Attributes)
    requires forall k :: k in names <==> exists n :: n in t && profile in t[n] && k in Keys(t[n][profile])
    ensures ToInternal(t, profile, external)
            == ToInternal(t, profile, map k | k in external && k in names :: external[k])
  {
    var known := map k | k in external && k in names :: external[k];
    forall n ensures Received(t, profile, external, n) == Received(t, profile, known, n) {
      if HasProfile(t, profile, n) {
        GatherKnown(Keys(t[n][profile]), external, known);
      }
    }
  }

  lemma OneKnownName(t: Mappings, profile: string, names: set<string>, k: string)
    requires k in names <==> exists n :: n in t && profile in t[n] && k in Keys(t[n][profile])
    ensures k in names <==> ToInternal(t, profile, map[k := ["v"]]) != map[]
  {
    var external: Attributes := map[k := ["v"]];
    forall n | HasProfile(t, profile, n) ensures k in Keys(t[n][profile]) <==> Received(t, profile, external, n) != [] {
      LoneValue(Keys(t[n][profile]), k, external);
    }
    if k in names {
      var n :| n in t && profile in t[n] && k in Keys(t[n][profile]);
      assert HasProfile(t, profile, n);
      assert n in ToInternal(t, profile, external);
    }
    if ToInternal(t, profile, external) != map[] {
      var n :| n in ToInternal(t, profile, external);
      assert HasProfile(t, profile, n);
    }
  }

  lemma LoneValue(keys: seq<string>, k: string, external: Attributes)
    requires external == map[k := ["v"]]
    ensures k in keys <==> Dedup(Gather(keys, external)) != []
  {
    var values := Gather(keys, external);
    GatheredValues(keys, external);
    DedupEmpty(values);
    assert "v" in ValuesAt(k, external);
    if k in keys {
      assert "v" in values;
    }
    if values != [] {
      assert values[0] in values;
      var key :| key in keys && values[0] in ValuesAt(key, external);
      assert key == k;
    }
  }

  lemma {:induction false} GatherKnown(keys: seq<string>, external: Attributes, known: Attributes)
    requires forall k <- keys :: ValuesAt(k, external) == ValuesAt(k, known)
    ensures Gather(keys, external) == Gather(keys, known)
  {
    if keys != [] {
      var k := |keys| - 1;
      assert keys == keys[..k] + [keys[k]];
      GatherKnown(keys[..k], external, known);
    }
  }
}

/** Composition of a subject id from attribute values, joined with colons. */
module SubjectComposition {
  import opened Wrappers
  import opened AttributeMapping

  function First(internal: Attributes, name: string): Option<string> {
    if name in internal && internal[name] != [] then Some(internal[name][0]) else None
  }

  predicate Complete(names: seq<string>, internal: Attributes) {
    names != [] && forall n <- names :: First(internal, n).Some?
  }

  function Join(names: seq<string>, internal: Attributes): string
    requires Complete(names, internal)
    decreases |names|
  {
    var k := |names| - 1;
    assert names[k] in names;
    var last := First(internal, names[k]).value;
    if k == 0 then last else Join(names[..k], internal) + ":" + last
  }

  function ComposeSubjectId(names: seq<string>, internal: Attributes): Option<string> {
    if Complete(names, internal) then Some(Join(names, internal)) else None
  }

  method Compose(names: seq<string>, internal: Attributes) returns (r: Option<string>)
    ensures r == ComposeSubjectId(names, internal)
  {
    if names == [] {
      return None;
    }
    var joined := "";
    for i := 0 to |names|
      invariant forall n <- names[..i] :: First(internal, n).Some?
      invariant i > 0 ==> joined == Join(names[..i], internal)
    {
      var v := First(internal, names[i]);
      if v.None? {
        assert names[i] in names;
        return None;
      }
      assert names[..i + 1] == names[..i] + [names[i]];
      assert names[..i + 1][..i] == names[..i];
      joined := if i == 0 then v.value else joined + ":" + v.value;
    }
    assert names[..|names|] == names;
    return Some(joined);
  }

  /** Users whose composed ids agree have the same value in every composing attribute. */
  ghost predicate TellsApart(names: seq<string>) {
    forall a: Attributes, b: Attributes ::
      Complete(names, a) && Complete(names, b) && Join(names, a) == Join(names, b)
      ==> forall n <- names :: First(a, n) == First(b, n)
  }

  /**
   * Values may contain the separator, so composition tells all users apart exactly when it
   * composes one attribute.
   */
  lemma ComposedIdsTellApart(names: seq<string>)
    ensures TellsApart(names) <==> forall x, y :: x in names && y in names ==> x == y
  {
    if x, y :| x in names && y in names && x != y {
      Confused(names, x, y);
    } else {
      forall a: Attributes, b: Attributes
        | Complete(names, a) && Complete(names, b) && Join(names, a) == Join(names, b)
        ensures forall n <- names :: First(a, n) == First(b, n)
      {
        assert names[0] in names;
        Repeated(names, names[0], a, b);
      }
    }
  }

  lemma {:induction false} RepeatedLength(names: seq<string>, x: string, a: Attributes)
    requires Complete(names, a) && forall n <- names :: n == x
    ensures First(a, x).Some? && |Join(names, a)| == |names| * |First(a, x).value| + |names| - 1
    ensures First(a, x).value <= Join(names, a)
    decreases |names|
  {
    var k := |names| - 1;
    assert names[k] in names;
    if k > 0 {
      PrefixIsComplete(names, names[..k], x, a);
      RepeatedLength(names[..k], x, a);
      Distribute(k, |First(a, x).value|);
    }
  }

  lemma PrefixIsComplete(names: seq<string>, prefix: seq<string>, x: string, a: Attributes)
    requires Complete(names, a) && (forall n <- names :: n == x) && prefix <= names && prefix != []
    ensures Complete(prefix, a)
    ensures forall n <- prefix :: n == x
  {
    forall n <- prefix ensures n in names {
      var i :| 0 <= i < |prefix| && prefix[i] == n;
      assert names[i] == n;
    }
  }

  lemma Distribute(k: nat, n: nat)
    ensures (k + 1) * n == k * n + n
  {
  }

  lemma Repeated(names: seq<string>, x: string, a: Attributes, b: Attributes)
    requires Complete(names, a) && Complete(names, b) && forall n <- names :: n == x
    requires Join(names, a) == Join(names, b)
    ensures First(a, x) == First(b, x)
  {
    RepeatedLength(names, x, a);
    RepeatedLength(names, x, b);
    var v, w := First(a, x).value, First(b, x).value;
    SameFactor(|names|, |v|, |w|);
    assert v == Join(names, a)[..|v|] == w;
  }

  lemma SameFactor(k: nat, m: nat, n: nat)
    requires k > 0 && k * m == k * n
    ensures m == n
  {
  }

  // ---- Two users that differ and yet compose the same run of colons ----

  function Colons(n: nat): (s: string)
    ensures |s| == n
  {
    seq(n, i => ':')
  }

  /** A user whose attribute `x` is `p` colons, `y` is `q` colons, and whose other attributes are empty. */
  ghost function User(names: seq<string>, x: string, p: nat, y: string, q: nat): Attributes {
    map n | n in names :: [Colons(Weight(n, x, p, y, q))]
  }

  function Count(names: seq<string>, x: string): nat {
    if names == [] then 0 else Count(names[..|names| - 1], x) + (if names[|names| - 1] == x then 1 else 0)
  }

  /** The number of colons a user contributes under `name`. */
  function Weight(name: string, x: string, p: nat, y: string, q: nat): nat {
    if name == x then p else if name == y then q else 0
  }

  function TotalWeight(names: seq<string>, x: string, p: nat, y: string, q: nat): nat {
    if names == [] then 0
    else TotalWeight(names[..|names| - 1], x, p, y, q) + Weight(names[|names| - 1], x, p, y, q)
  }

  lemma {:induction false} WeightsCount(names: seq<string>, x: string, p: nat, y: string, q: nat)
    requires x != y
    ensures TotalWeight(names, x, p, y, q) == p * Count(names, x) + q * Count(names, y)
  {
    if names != [] {
      var k := |names| - 1;
      WeightsCount(names[..k], x, p, y, q);
      var cx, cy := Count(names[..k], x), Count(names[..k], y);
      assert p * (cx + 1) == p * cx + p;
      assert q * (cy + 1) == q * cy + q;
    }
  }

  lemma {:induction false} JoinIsColons(all: seq<string>, names: seq<string>, x: string, p: nat, y: string, q: nat)
    requires names != [] && forall n <- names :: n in all
    ensures Complete(names, User(all, x, p, y, q))
    ensures Join(names, User(all, x, p, y, q)) == Colons(TotalWeight(names, x, p, y, q) + |names| - 1)
    decreases |names|
  {
    var k := |names| - 1;
    var user := User(all, x, p, y, q);
    assert names == names[..k] + [names[k]];
    assert names[k] in names;
    assert First(user, names[k]) == Some(Colons(Weight(names[k], x, p, y, q)));
    if k > 0 {
      JoinIsColons(all, names[..k], x, p, y, q);
    } else {
      assert names[..k] == [];
    }
  }

  lemma {:induction false} Occurs(names: seq<string>, x: string)
    requires x in names
    ensures Count(names, x) > 0
  {
    var k := |names| - 1;
    assert names == names[..k] + [names[k]];
    if names[k] != x {
      Occurs(names[..k], x);
    }
  }

  lemma Confused(names: seq<string>, x: string, y: string)
    requires x in names && y in names && x != y
    ensures !TellsApart(names)
  {
    var cx, cy := Count(names, x), Count(names, y);
    Occurs(names, y);
    var a, b := User(names, x, cy, y, 0), User(names, x, 0, y, cx);
    JoinIsColons(names, names, x, cy, y, 0);
    JoinIsColons(names, names, x, 0, y, cx);
    WeightsCount(names, x, cy, y, 0);
    WeightsCount(names, x, 0, y, cx);
    assert cy * cx == cx * cy;
    assert |First(a, x).value| == cy && |First(b, x).value| == 0;
  }
}
