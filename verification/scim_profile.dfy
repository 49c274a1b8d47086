/** The Python twin of the SAML direction: keys are deduplicated first, values checked on the way. */
module ScimProfiles {
  import opened Wrappers
  import opened Deduplication
  import opened Sessions
  import opened AttributeMapping

  const SAML := "saml"

  /** `_parse_internal_attributes` on a normalized map: the candidates of every SAML-mapped name. */
  function ParseInternalAttributes(t: Mappings): map<string, seq<string>> {
    map n | n in t && SAML in t[n] :: Dedup(Keys(t[n][SAML]))
  }

  /** `_attribute_values`: one string, or a list of strings; anything else raises. */
  function AttributeValues(j: Json): Option<seq<string>> {
    match j
    case String(s) => Some([s])
    case Array(items) => if forall i <- items :: i.String? then Some(Texts(items)) else None
    case _ => None
  }

  function Texts(items: seq<Json>): (r: seq<string>)
    requires forall i <- items :: i.String?
  {
    seq(|items|, i requires 0 <= i < |items| => assert items[i] in items; items[i].s)
  }

  type Profile = map<string, Json>

  /** The candidate keys a profile holds all carry strings. */
  ghost predicate WellTyped(t: Mappings, external: Profile) {
    forall n :: HasProfile(t, SAML, n) ==> Typed(Keys(t[n][SAML]), external)
  }

  predicate Typed(keys: seq<string>, external: Profile) {
    forall k <- keys :: k in external ==> AttributeValues(external[k]).Some?
  }

  /** What the profile says once its scalars are one-element lists. */
  function AsLists(external: Profile): Attributes {
    map k | k in external && AttributeValues(external[k]).Some? :: AttributeValues(external[k]).value
  }

  lemma {:induction false} DedupKeysFirst(keys: seq<string>, external: Attributes)
    ensures Dedup(Gather(Dedup(keys), external)) == Dedup(Gather(keys, external))
  {
    if keys != [] {
      var k := |keys| - 1;
      var init := keys[..k];
      var found := ValuesAt(keys[k], external);
      DedupKeysFirst(init, external);
      assert keys == init + [keys[k]];
      if keys[k] in Dedup(init) {
        DedupKeepsElements(init);
        GatheredValues(init, external);
        assert keys[k] in init;
        DedupAbsorbs(Gather(init, external), found);
      } else {
        assert (Dedup(init) + [keys[k]])[..|Dedup(init)|] == Dedup(init);
        DedupIsCongruent(Gather(Dedup(init), external), Gather(init, external), found);
      }
    }
  }

  /**
   * `_mapped_profile`: raises exactly when a candidate key holds something other than strings, and
   * otherwise agrees with the Rust mapper's SAML direction on the same values.
   */
  method MappedProfile(t: Mappings, external: Profile) returns (r: Option<Attributes>)
    ensures r.Some? <==> WellTyped(t, external)
    ensures r.Some? ==> r.value == ToInternal(t, SAML, AsLists(external))
  {
    var candidates := ParseInternalAttributes(t);
    ghost var target := ToInternal(t, SAML, AsLists(external));
    var mapped: Attributes := map[];
    var left := candidates.Keys;
    assert target - left == map[];
    while left != {}
      invariant left <= candidates.Keys
      invariant forall n <- candidates :: n !in left ==> Typed(Keys(t[n][SAML]), external)
      invariant mapped == target - left
    {
      var name :| name in left;
      var values := CandidateValues(Keys(t[name][SAML]), candidates[name], external);
      if values.None? {
        return None;
      }
      Uncovered(target, left, name);
      if values.value != [] {
        mapped := mapped[name := values.value];
      }
      left := left - {name};
    }
    assert target - {} == target;
    return Some(mapped);
  }

  /** The values under the candidates, as far as they all hold strings. */
  method CandidateValues(ghost keys: seq<string>, candidates: seq<string>, external: Profile)
    returns (r: Option<seq<string>>)
    requires candidates == Dedup(keys)
    ensures r.Some? <==> Typed(keys, external)
    ensures r.Some? ==> r.value == Dedup(Gather(keys, AsLists(external)))
  {
    r := PresentValues(candidates, external);
    DedupKeysFirst(keys, AsLists(external));
    assert Typed(keys, external) <==> Typed(candidates, external) by {
      DedupKeepsElements(keys);
    }
  }

  method PresentValues(candidates: seq<string>, external: Profile) returns (r: Option<seq<string>>)
    ensures r.Some? <==> Typed(candidates, external)
    ensures r.Some? ==> r.value == Dedup(Gather(candidates, AsLists(external)))
  {
    ghost var lists := AsLists(external);
    var values := [];
    for i := 0 to |candidates|
      invariant Typed(candidates[..i], external)
      invariant values == Dedup(Gather(candidates[..i], lists))
    {
      TypedPush(candidates, external, i);
      assert candidates[..i + 1][..i] == candidates[..i];
      ghost var before := Gather(candidates[..i], lists);
      if candidates[i] !in external {
        assert before + [] == before;
        continue;
      }
      var items := AttributeValues(external[candidates[i]]);
      if items.None? {
        return None;
      }
      values := PushNew(values, before, items.value);
    }
    assert candidates[..|candidates|] == candidates;
    return Some(values);
  }

  lemma TypedPush(keys: seq<string>, external: Profile, i: nat)
    requires i < |keys| && Typed(keys[..i], external)
    ensures Typed(keys[..i + 1], external) <==> keys[i] in external ==> AttributeValues(external[keys[i]]).Some?
    ensures Typed(keys, external) ==> Typed(keys[..i + 1], external)
  {
    assert keys[..i + 1] == keys[..i] + [keys[i]];
    assert keys[i] in keys[..i + 1];
    assert forall k <- keys[..i + 1] :: k in keys;
  }

  /** The Python form of string lists, which is what the Rust side serializes. */
  function FromLists(external: Attributes): Profile {
    map k | k in external :: Listed(external[k])
  }

  function Listed(values: seq<string>): Json {
    Array(seq(|values|, i requires 0 <= i < |values| => String(values[i])))
  }

  lemma ListsAreWellTyped(t: Mappings, external: Attributes)
    ensures WellTyped(t, FromLists(external)) && AsLists(FromLists(external)) == external
  {
    var profile := FromLists(external);
    forall k <- external ensures AttributeValues(profile[k]) == Some(external[k]) {
      ListReadsBack(external[k]);
    }
  }

  lemma ListReadsBack(values: seq<string>)
    ensures AttributeValues(Listed(values)) == Some(values)
  {
    var items := Listed(values).items;
    assert forall i <- items :: i.String?;
    assert Texts(items) == values;
  }
}
