/** The protocol-agnostic carrier of requests and responses, and its JSON form. */
module Internal {
  import opened Wrappers
  import opened Sessions

  datatype SubjectType = Persistent | Transient | Public | Pairwise

  datatype AuthInfo = AuthInfo(
    authClassRef: Option<string>,
    timestamp: Option<string>,
    issuer: Option<string>)

  datatype InternalData = InternalData(
    authInfo: AuthInfo,
    requester: Option<string>,
    requesterName: seq<string>,
    subjectId: Option<string>,
    subjectType: SubjectType,
    attributes: map<string, seq<string>>,
    forceAuthn: bool,
    isPassive: bool)

  function FirstValue(d: InternalData, name: string): Option<string> {
    if name in d.attributes && d.attributes[name] != [] then Some(d.attributes[name][0]) else None
  }

  // ---- Serialization: absent options and empty lists are left out ----

  function Field(key: string, value: Option<string>): map<string, Json> {
    if value.Some? then map[key := String(value.value)] else map[]
  }

  function Strings(values: seq<string>): Json {
    Array(seq(|values|, i requires 0 <= i < |values| => String(values[i])))
  }

  function SubjectTypeName(t: SubjectType): string {
    match t
    case Persistent => "persistent"
    case Transient => "transient"
    case Public => "public"
    case Pairwise => "pairwise"
  }

  function EncodeAuthInfo(a: AuthInfo): Json {
    Object(Field("auth_class_ref", a.authClassRef) + Field("timestamp", a.timestamp) + Field("issuer", a.issuer))
  }

  function Required(d: InternalData): map<string, Json> {
    map["auth_info" := EncodeAuthInfo(d.authInfo),
        "subject_type" := String(SubjectTypeName(d.subjectType)),
        "attributes" := Object(map k | k in d.attributes :: Strings(d.attributes[k])),
        "force_authn" := Bool(d.forceAuthn),
        "is_passive" := Bool(d.isPassive)]
  }

  function RequesterNames(names: seq<string>): map<string, Json> {
    if names == [] then map[] else map["requester_name" := Strings(names)]
  }

  function Encode(d: InternalData): Json {
    Object(Required(d) + Field("requester", d.requester) + Field("subject_id", d.subjectId)
           + RequesterNames(d.requesterName))
  }

  // ---- Deserialization: absent fields take their defaults ----

  /** A string field: absent or null is no value, any other type an error. */
  function OptionalString(fields: map<string, Json>, key: string): Result<Option<string>, ()> {
    if key !in fields || fields[key] == Null then Ok(None)
    else match fields[key]
      case String(s) => Ok(Some(s))
      case _ => Err(())
  }

  function StringList(j: Json): Result<seq<string>, ()> {
    if j.Array? && (forall i :: 0 <= i < |j.items| ==> j.items[i].String?) then
      Ok(seq(|j.items|, i requires 0 <= i < |j.items| && j.items[i].String? => j.items[i].s))
    else Err(())
  }

  function Flag(fields: map<string, Json>, key: string): Result<bool, ()> {
    if key !in fields then Ok(false)
    else match fields[key]
      case Bool(b) => Ok(b)
      case _ => Err(())
  }

  function ParseSubjectType(j: Json): Result<SubjectType, ()> {
    if j == String("persistent") then Ok(Persistent)
    else if j == String("transient") then Ok(Transient)
    else if j == String("public") then Ok(Public)
    else if j == String("pairwise") then Ok(Pairwise)
    else Err(())
  }

  function DecodeAuthInfo(j: Json): Result<AuthInfo, ()> {
    if !j.Object? then Err(()) else
    var acr := OptionalString(j.fields, "auth_class_ref");
    var time := OptionalString(j.fields, "timestamp");
    var issuer := OptionalString(j.fields, "issuer");
    if acr.Err? || time.Err? || issuer.Err? then Err(())
    else Ok(AuthInfo(acr.value, time.value, issuer.value))
  }

  function DecodeAttributes(j: Json): Result<map<string, seq<string>>, ()> {
    if j.Object? && forall k :: k in j.fields ==> StringList(j.fields[k]).Ok? then
      Ok(map k | k in j.fields :: StringList(j.fields[k]).value)
    else Err(())
  }

  function Decode(j: Json): Result<InternalData, ()> {
    if !j.Object? then Err(()) else
    var f := j.fields;
    var auth := if "auth_info" in f then DecodeAuthInfo(f["auth_info"]) else Ok(AuthInfo(None, None, None));
    var requester := OptionalString(f, "requester");
    var names := if "requester_name" in f then StringList(f["requester_name"]) else Ok([]);
    var subject := OptionalString(f, "subject_id");
    var kind := if "subject_type" in f then ParseSubjectType(f["subject_type"]) else Ok(Persistent);
    var attributes := if "attributes" in f then DecodeAttributes(f["attributes"]) else Ok(map[]);
    var force := Flag(f, "force_authn");
    var passive := Flag(f, "is_passive");
    if auth.Err? || requester.Err? || names.Err? || subject.Err? || kind.Err?
       || attributes.Err? || force.Err? || passive.Err?
    then Err(())
    else Ok(InternalData(auth.value, requester.value, names.value, subject.value, kind.value,
                         attributes.value, force.value, passive.value))
  }

  lemma StringsRoundTrip(values: seq<string>)
    ensures StringList(Strings(values)) == Ok(values)
  {
    assert StringList(Strings(values)).value == values;
  }

  lemma AttributesRoundTrip(attributes: map<string, seq<string>>)
    ensures DecodeAttributes(Object(map k | k in attributes :: Strings(attributes[k]))) == Ok(attributes)
  {
    var j := Object(map k | k in attributes :: Strings(attributes[k]));
    forall k | k in attributes
      ensures StringList(j.fields[k]) == Ok(attributes[k])
    {
      StringsRoundTrip(attributes[k]);
    }
    assert DecodeAttributes(j).value == attributes;
  }

  lemma AuthInfoRoundTrip(a: AuthInfo)
    ensures DecodeAuthInfo(EncodeAuthInfo(a)) == Ok(a)
  {
    assert |"auth_class_ref"| == 14 && |"timestamp"| == 9 && |"issuer"| == 6;
  }

  ghost predicate HoldsRequired(f: map<string, Json>, d: InternalData) {
    && "auth_info" in f && f["auth_info"] == EncodeAuthInfo(d.authInfo)
    && "subject_type" in f && f["subject_type"] == String(SubjectTypeName(d.subjectType))
    && "attributes" in f
    && f["attributes"] == Object(map k | k in d.attributes :: Strings(d.attributes[k]))
    && "force_authn" in f && f["force_authn"] == Bool(d.forceAuthn)
    && "is_passive" in f && f["is_passive"] == Bool(d.isPassive)
  }

  lemma RequiredHolds(d: InternalData)
    ensures HoldsRequired(Required(d), d)
  {
    FieldNamesDiffer();
  }

  lemma OptionalLeavesRequired(f: map<string, Json>, d: InternalData, key: string, value: Json)
    requires HoldsRequired(f, d) && key in {"requester", "subject_id", "requester_name"}
    ensures HoldsRequired(f + map[key := value], d)
  {
    FieldNamesDiffer();
  }

  /** Which fields the JSON form has, and what they hold. */
  lemma EncodedFields(d: InternalData)
    ensures HoldsRequired(Encode(d).fields, d)
  {
    RequiredHolds(d);
    var f0 := Required(d);
    var f1 := f0 + Field("requester", d.requester);
    var f2 := f1 + Field("subject_id", d.subjectId);
    if d.requester.Some? {
      OptionalLeavesRequired(f0, d, "requester", String(d.requester.value));
    } else {
      assert f1 == f0;
    }
    if d.subjectId.Some? {
      OptionalLeavesRequired(f1, d, "subject_id", String(d.subjectId.value));
    } else {
      assert f2 == f1;
    }
    if d.requesterName != [] {
      OptionalLeavesRequired(f2, d, "requester_name", Strings(d.requesterName));
    } else {
      assert f2 + RequesterNames(d.requesterName) == f2;
    }
  }

  lemma EncodedOptionalFields(d: InternalData)
    ensures var f := Encode(d).fields;
            && ("requester" in f <==> d.requester.Some?)
            && ("requester" in f ==> f["requester"] == String(d.requester.value))
            && ("subject_id" in f <==> d.subjectId.Some?)
            && ("subject_id" in f ==> f["subject_id"] == String(d.subjectId.value))
            && ("requester_name" in f <==> d.requesterName != [])
            && ("requester_name" in f ==> f["requester_name"] == Strings(d.requesterName))
  {
    FieldNamesDiffer();
    var r := Required(d);
    assert "requester" !in r && "subject_id" !in r && "requester_name" !in r;
    var f1 := r + Field("requester", d.requester);
    var f2 := f1 + Field("subject_id", d.subjectId);
    assert Encode(d).fields == f2 + RequesterNames(d.requesterName);
  }

  lemma FieldNamesDiffer()
    ensures "auth_info" != "requester"
    ensures "attributes" != "is_passive" && "is_passive" != "subject_id" && "subject_id" != "attributes"
    ensures |"auth_info"| == |"requester"| == 9
    ensures |"attributes"| == |"is_passive"| == |"subject_id"| == 10
    ensures |"force_authn"| == 11 && |"subject_type"| == 12 && |"requester_name"| == 14
  {
    assert "auth_info"[0] != "requester"[0];
    assert "attributes"[0] != "is_passive"[0];
    assert "subject_id"[0] != "is_passive"[0];
    assert "attributes"[0] != "subject_id"[0];
  }

  lemma RequiredFieldsDecode(d: InternalData)
    ensures var f := Encode(d).fields;
            && "auth_info" in f && DecodeAuthInfo(f["auth_info"]) == Ok(d.authInfo)
            && "subject_type" in f && ParseSubjectType(f["subject_type"]) == Ok(d.subjectType)
            && "attributes" in f && DecodeAttributes(f["attributes"]) == Ok(d.attributes)
            && Flag(f, "force_authn") == Ok(d.forceAuthn) && Flag(f, "is_passive") == Ok(d.isPassive)
  {
    EncodedFields(d);
    AuthInfoRoundTrip(d.authInfo);
    AttributesRoundTrip(d.attributes);
    SubjectTypeRoundTrip(d.subjectType);
  }

  lemma OptionalFieldsDecode(d: InternalData)
    ensures var f := Encode(d).fields;
            && OptionalString(f, "requester") == Ok(d.requester)
            && OptionalString(f, "subject_id") == Ok(d.subjectId)
            && (if "requester_name" in f then StringList(f["requester_name"]) else Ok([])) == Ok(d.requesterName)
  {
    EncodedOptionalFields(d);
    StringsRoundTrip(d.requesterName);
  }

  /** A snapshot loses nothing: every carrier decodes from its JSON form. */
  lemma DecodeInvertsEncode(d: InternalData)
    ensures Decode(Encode(d)) == Ok(d)
  {
    RequiredFieldsDecode(d);
    OptionalFieldsDecode(d);
  }

  lemma SubjectTypeRoundTrip(t: SubjectType)
    ensures ParseSubjectType(String(SubjectTypeName(t))) == Ok(t)
  {
    assert "public"[1] != "pairwise"[1];
    assert |"persistent"| == 10 && |"transient"| == 9 && |"public"| == 6 && |"pairwise"| == 8;
  }
}
