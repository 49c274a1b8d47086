/** The primary identifier micro-service: a candidate search and its versioned framing. */
module PrimaryIdentifiers {
  import opened Wrappers
  import opened Framing
  import opened Internal

  const VERSION := "tbpid-v1:"

  datatype Candidate = Candidate(
    attributeNames: seq<string>,
    nameIdFormat: Option<string>,
    addScope: Option<string>)

  function Identifier(values: seq<string>): string {
    VERSION + Decimal(|values|) + ":" + Chunks(values)
  }

  function DecodeIdentifier(s: string): Option<seq<string>> {
    if VERSION <= s then
      match ReadNumber(s[|VERSION|..], 0)
      case None => None
      case Some((n, rest)) => ReadChunks(rest, n)
    else None
  }

  /** Every list of byte strings is recovered from its identifier, whatever the strings contain. */
  lemma IdentifierDecodes(values: seq<string>)
    ensures DecodeIdentifier(Identifier(values)) == Some(values)
  {
    var body := Decimal(|values|) + ":" + Chunks(values);
    assert Identifier(values) == VERSION + body;
    assert (VERSION + body)[|VERSION|..] == body;
    NumberReadsBack(|values|, Chunks(values));
    ChunksReadBack(values);
  }

  lemma IdentifiersAreUnique(a: seq<string>, b: seq<string>)
    ensures Identifier(a) == Identifier(b) <==> a == b
  {
    IdentifierDecodes(a);
    IdentifierDecodes(b);
  }

  // ---- What a candidate stands for ----

  const NAME_ID := "name_id"
  const ISSUER := "issuer_entityid"

  predicate SubjectTypeMatches(format: string, t: SubjectType) {
    format == SubjectTypeName(t) || AfterLast(format, ':') == SubjectTypeName(t)
  }

  /** The value an attribute name of a candidate contributes, when the response has it. */
  function ValueOf(name: string, c: Candidate, d: InternalData): Option<string> {
    if name != NAME_ID then FirstValue(d, name)
    else if c.nameIdFormat.Some? && SubjectTypeMatches(c.nameIdFormat.value, d.subjectType) then d.subjectId
    else None
  }

  /** The values of `names`, in order; the subject id is left out where it is already present. */
  function NamedValues(names: seq<string>, c: Candidate, d: InternalData): (r: Option<seq<string>>)
    decreases |names|
  {
    if names == [] then Some([])
    else
      var k := |names| - 1;
      var before, v := NamedValues(names[..k], c, d), ValueOf(names[k], c, d);
      if before.None? || v.None? then None
      else if names[k] == NAME_ID && v.value in before.value then before
      else Some(before.value + [v.value])
  }

  function ScopeValue(c: Candidate, d: InternalData): Option<seq<string>> {
    if c.addScope.None? then Some([])
    else if c.addScope.value != ISSUER then Some([c.addScope.value])
    else if d.authInfo.issuer.Some? then Some([d.authInfo.issuer.value])
    else None
  }

  function Components(c: Candidate, d: InternalData): Option<seq<string>> {
    var named, scope := NamedValues(c.attributeNames, c, d), ScopeValue(c, d);
    if named.Some? && scope.Some? then Some(named.value + scope.value) else None
  }

  predicate Usable(c: Candidate, d: InternalData) {
    Components(c, d).Some? && Components(c, d).value != []
  }

  /** A candidate is usable exactly when it names something and everything it names is present. */
  lemma UsableExactlyWhenComplete(c: Candidate, d: InternalData)
    ensures Usable(c, d) <==>
              && (forall name <- c.attributeNames :: ValueOf(name, c, d).Some?)
              && (c.addScope == Some(ISSUER) ==> d.authInfo.issuer.Some?)
              && (c.attributeNames != [] || c.addScope.Some?)
  {
    NamedValuesAreTheValues(c.attributeNames, c, d);
  }

  /** The components are the named values and no others, none of them dropped. */
  lemma {:induction false} NamedValuesAreTheValues(names: seq<string>, c: Candidate, d: InternalData)
    ensures NamedValues(names, c, d).Some? <==> forall name <- names :: ValueOf(name, c, d).Some?
    ensures NamedValues(names, c, d).Some? ==>
              && (forall name <- names :: ValueOf(name, c, d).value in NamedValues(names, c, d).value)
              && (forall v <- NamedValues(names, c, d).value :: exists name <- names :: ValueOf(name, c, d) == Some(v))
              && (NAME_ID !in names ==>
                    && |NamedValues(names, c, d).value| == |names|
                    && forall i | 0 <= i < |names| ::
                         NamedValues(names, c, d).value[i] == ValueOf(names[i], c, d).value)
    decreases |names|
  {
    if names != [] {
      var k := |names| - 1;
      NamedValuesAreTheValues(names[..k], c, d);
      assert names == names[..k] + [names[k]];
      if NamedValues(names, c, d).Some? {
        forall v <- NamedValues(names, c, d).value ensures exists name <- names :: ValueOf(name, c, d) == Some(v) {
          if v == ValueOf(names[k], c, d).value {
            assert names[k] in names;
          } else {
            var name :| name in names[..k] && ValueOf(name, c, d) == Some(v);
            assert name in names;
          }
        }
      }
    }
  }

  /**
   * The identifier of the first usable candidate, and none when no candidate is usable. The
   * identifier decodes to that candidate's components and to nothing else.
   */
  method Construct(candidates: seq<Candidate>, d: InternalData) returns (r: Option<string>)
    ensures r.None? <==> forall c <- candidates :: !Usable(c, d)
    ensures r.Some? ==>
              exists i | 0 <= i < |candidates| ::
                && (forall j | 0 <= j < i :: !Usable(candidates[j], d))
                && Usable(candidates[i], d)
                && r.value == Identifier(Components(candidates[i], d).value)
                && DecodeIdentifier(r.value) == Components(candidates[i], d)
  {
    label next: for i := 0 to |candidates|
      invariant forall j | 0 <= j < i :: !Usable(candidates[j], d)
    {
      var c := candidates[i];
      var values := [];
      for k := 0 to |c.attributeNames|
        invariant NamedValues(c.attributeNames[..k], c, d) == Some(values)
      {
        var name := c.attributeNames[k];
        MissingValueSpoils(c, d, k);
        assert c.attributeNames[..k + 1][..k] == c.attributeNames[..k];
        if name == NAME_ID {
          var matches := c.nameIdFormat.Some? && SubjectTypeMatches(c.nameIdFormat.value, d.subjectType);
          if d.subjectId.Some? && matches {
            if d.subjectId.value !in values {
              values := values + [d.subjectId.value];
            }
          } else {
            continue next;
          }
        } else {
          var first := FirstValue(d, name);
          if first.None? {
            continue next;
          }
          values := values + [first.value];
        }
      }
      assert c.attributeNames[..|c.attributeNames|] == c.attributeNames;
      var scope := [];
      if c.addScope.Some? {
        if c.addScope.value == ISSUER {
          if d.authInfo.issuer.None? {
            continue next;
          }
          scope := [d.authInfo.issuer.value];
        } else {
          scope := [c.addScope.value];
        }
      }
      values := values + scope;
      if values != [] {
        IdentifierDecodes(values);
        assert Usable(candidates[i], d) && candidates[i] in candidates;
        return Some(Identifier(values));
      }
    }
    return None;
  }

  lemma MissingValueSpoils(c: Candidate, d: InternalData, k: nat)
    requires k < |c.attributeNames|
    ensures ValueOf(c.attributeNames[k], c, d).None? ==> !Usable(c, d)
  {
    NamedValuesAreTheValues(c.attributeNames, c, d);
    assert c.attributeNames[k] in c.attributeNames;
  }

  // ---- Per-entity overrides ----

  datatype Overrides = Overrides(
    candidates: Option<seq<Candidate>>,
    primaryIdentifier: Option<string>,
    clearInputAttributes: Option<bool>,
    replaceSubjectId: Option<bool>,
    onError: Option<string>,
    ignore: bool)

  datatype Config = Config(
    candidates: seq<Candidate>,
    primaryIdentifier: Option<string>,
    clearInputAttributes: bool,
    replaceSubjectId: bool,
    onError: Option<string>,
    overrides: map<string, Overrides>)

  datatype Effective = Effective(
    candidates: seq<Candidate>,
    primaryIdentifier: string,
    clearInputAttributes: bool,
    replaceSubjectId: bool,
    onError: Option<string>,
    ignore: bool)

  const NO_OVERRIDES := Overrides(None, None, None, None, None, false)

  function OverridesFor(cfg: Config, entity: string): Overrides {
    if entity != "" && entity in cfg.overrides then cfg.overrides[entity] else NO_OVERRIDES
  }

  function Or<T>(o: Option<T>, otherwise: T): T {
    if o.Some? then o.value else otherwise
  }

  function Base(cfg: Config): Effective {
    Effective(cfg.candidates, Or(cfg.primaryIdentifier, "uid"), cfg.clearInputAttributes,
              cfg.replaceSubjectId, cfg.onError, false)
  }

  /** The requester's override wins over the issuer's, field by field; either one can ignore. */
  function Settle(base: Effective, sp: Overrides, idp: Overrides): Effective {
    Effective(
      Or(OrElse(sp.candidates, idp.candidates), base.candidates),
      Or(OrElse(sp.primaryIdentifier, idp.primaryIdentifier), base.primaryIdentifier),
      Or(OrElse(sp.clearInputAttributes, idp.clearInputAttributes), base.clearInputAttributes),
      Or(OrElse(sp.replaceSubjectId, idp.replaceSubjectId), base.replaceSubjectId),
      OrElse(sp.onError, OrElse(idp.onError, base.onError)),
      base.ignore || sp.ignore || idp.ignore)
  }

  method EffectiveFor(cfg: Config, requester: string, issuer: string) returns (eff: Effective)
    ensures eff == Settle(Base(cfg), OverridesFor(cfg, requester), OverridesFor(cfg, issuer))
  {
    eff := Base(cfg);
    var keys := [issuer, requester];
    for i := 0 to |keys|
      invariant eff == Settle(Base(cfg), if i == 2 then OverridesFor(cfg, requester) else NO_OVERRIDES,
                              if i == 0 then NO_OVERRIDES else OverridesFor(cfg, issuer))
    {
      var key := keys[i];
      if key == "" {
        continue;
      }
      if key in cfg.overrides {
        eff := Overlay(eff, cfg.overrides[key]);
      }
    }
  }

  /** One pass of the loop: every field the override sets is overwritten in place. */
  method Overlay(e: Effective, o: Overrides) returns (eff: Effective)
    ensures eff == Settle(e, o, NO_OVERRIDES)
  {
    var candidates := Overwrite(e.candidates, o.candidates);
    var name := Overwrite(e.primaryIdentifier, o.primaryIdentifier);
    var clear := Overwrite(e.clearInputAttributes, o.clearInputAttributes);
    var replace := Overwrite(e.replaceSubjectId, o.replaceSubjectId);
    var onError := e.onError;
    if o.onError.Some? {
      onError := o.onError;
    }
    eff := Effective(candidates, name, clear, replace, onError, e.ignore || o.ignore);
  }

  method Overwrite<T>(field: T, override: Option<T>) returns (r: T)
    ensures r == Or(override, field)
  {
    r := field;
    if override.Some? {
      r := override.value;
    }
  }

  datatype Outcome =
    | Passed(data: InternalData)
    | Redirected(base: string, sp: string, idp: string)

  /** The response carries a usable candidate's identifier where the settings say, and nothing else changed. */
  ghost predicate Written(e: Effective, d: InternalData, r: InternalData) {
    var name := e.primaryIdentifier;
    && name in r.attributes && |r.attributes[name]| == 1
    && (exists c <- e.candidates :: Usable(c, d) && DecodeIdentifier(r.attributes[name][0]) == Components(c, d))
    && r.attributes == (if e.clearInputAttributes then map[] else d.attributes)[name := r.attributes[name]]
    && r.subjectId == (if e.replaceSubjectId then Some(r.attributes[name][0]) else d.subjectId)
    && r == d.(attributes := r.attributes, subjectId := r.subjectId)
  }

  /**
   * `process_response`. An identifier that is written decodes to what the chosen candidate
   * named, and a response without one is either left alone or redirected with both entity ids.
   */
  method ProcessResponse(cfg: Config, d: InternalData) returns (o: Outcome)
    ensures var requester, issuer := Or(d.requester, ""), Or(d.authInfo.issuer, "");
            var e := Settle(Base(cfg), OverridesFor(cfg, requester), OverridesFor(cfg, issuer));
            var usable := exists c <- e.candidates :: Usable(c, d);
            && (e.ignore ==> o == Passed(d))
            && (!e.ignore && !usable ==>
                  o == if e.onError.Some? then Redirected(e.onError.value, requester, issuer) else Passed(d))
            && (!e.ignore && usable ==> o.Passed? && Written(e, d, o.data))
  {
    var requester, issuer := Or(d.requester, ""), Or(d.authInfo.issuer, "");
    var eff := EffectiveFor(cfg, requester, issuer);
    if eff.ignore {
      return Passed(d);
    }
    var identifier := Construct(eff.candidates, d);
    if identifier.None? {
      return if eff.onError.Some? then Redirected(eff.onError.value, requester, issuer) else Passed(d);
    }
    var data := d;
    if eff.clearInputAttributes {
      data := data.(attributes := map[]);
    }
    data := data.(attributes := data.attributes[eff.primaryIdentifier := [identifier.value]]);
    if eff.replaceSubjectId {
      data := data.(subjectId := identifier);
    }
    return Passed(data);
  }
}
