/**
 The assertion consumer service: which signatures are accepted before anything parsed is
 trusted, and which attributes reach the internal model. Parsing, decryption and signature
 verification are functions of the texts they are given.
 */
module AssertionConsumer {
  import opened Wrappers
  import opened Sessions

  // ---- What the verifier, the parser and the decryptor report ----

  datatype VerifyResult = Valid(references: seq<string>) | Invalid

  datatype Verifier = Verifier(
    verifyOne: string -> Option<VerifyResult>,
    verifyAll: string -> Option<seq<VerifyResult>>)

  datatype Attribute = Attribute(name: string, friendlyName: Option<string>, values: seq<string>)

  /** The subject of an assertion; an encrypted one is what some configured key makes of it, if any. */
  datatype NameId = Absent
    | Named(value: string, format: Option<string>)
    | EncryptedName(plain: Option<(string, Option<string>)>)

  datatype Assertion = Assertion(
    id: string,
    issuer: string,
    hasSignature: bool,
    nameId: NameId,
    authnStatements: seq<Option<string>>,
    attributes: seq<Attribute>)

  /** An encrypted assertion; `plain` is what some configured key makes of it: its text and parse. */
  datatype Encrypted = Encrypted(plain: Option<(string, Assertion)>)

  datatype Response = Response(
    id: string,
    issuer: Option<string>,
    inResponseTo: Option<string>,
    hasSignature: bool,
    success: bool,
    noPassive: bool,
    assertions: seq<Assertion>,
    encrypted: seq<Encrypted>)

  /** A redirect binding may carry a detached signature, which then verifies or not; a POST has none. */
  datatype Binding = Post | Redirect(signature: Option<bool>)

  /** The decoded message; `sources` are the texts of the cleartext assertion elements in document order. */
  datatype Message = Message(binding: Binding, xml: string, response: Response, sources: seq<string>)

  datatype Backend = Backend(
    verifier: Verifier,
    standalone: string -> string,
    requestSubject: bool,
    allowUnsolicited: bool,
    hasDecryptors: bool,
    namespace: string,
    validate: (seq<Assertion>, seq<string>, Option<string>) -> bool)

  // ---- Collecting the verified reference ids ----

  /** What a reference points at; an empty one signs the root of the verified text. */
  function Target(uri: string, root: string): Option<string> {
    if uri == "" then Some(root)
    else if uri[0] == '#' then Some(uri[1..])
    else None
  }

  predicate AllValid(results: Option<seq<VerifyResult>>) {
    results.Some? && forall r <- results.value :: r.Valid?
  }

  /** `id` is what a reference of a valid signature in `results` points at. */
  ghost predicate Proved(results: Option<seq<VerifyResult>>, root: string, id: string) {
    results.Some? && exists r <- results.value ::
      r.Valid? && exists uri <- r.references :: Target(uri, root) == Some(id)
  }

  method AddVerifiedSignedId(ids: seq<string>, id: string) returns (r: seq<string>)
    ensures ids <= r
    ensures forall x :: x in r <==> x in ids || x == id
    ensures |r| <= |ids| + 1
  {
    r := if id in ids then ids else ids + [id];
  }

  /** Fails exactly when a signature does not verify; adds exactly the ids that were proved. */
  method ExtendVerifiedIds(v: Verifier, xml: string, root: string, ids: seq<string>) returns (r: Option<seq<string>>)
    ensures r.Some? <==> AllValid(v.verifyAll(xml))
    ensures r.Some? ==> ids <= r.value && forall x :: x in r.value <==> x in ids || Proved(v.verifyAll(xml), root, x)
  {
    var results := v.verifyAll(xml);
    if results.None? {
      return None;
    }
    var out := ids;
    for i := 0 to |results.value|
      invariant ids <= out
      invariant forall k | 0 <= k < i :: results.value[k].Valid?
      invariant forall x :: x in out <==> x in ids || Proved(Some(results.value[..i]), root, x)
    {
      if results.value[i].Invalid? {
        assert results.value[i] in results.value;
        return None;
      }
      ProvedPush(results.value, i, root);
      out := AddReferences(results.value[i].references, root, out);
    }
    assert results.value[..|results.value|] == results.value;
    return Some(out);
  }

  lemma ProvedPush(results: seq<VerifyResult>, i: nat, root: string)
    requires i < |results| && results[i].Valid?
    ensures forall x :: Proved(Some(results[..i + 1]), root, x)
                        <==> Proved(Some(results[..i]), root, x)
                             || exists uri <- results[i].references :: Target(uri, root) == Some(x)
  {
    assert results[..i + 1] == results[..i] + [results[i]];
    forall x ensures Proved(Some(results[..i + 1]), root, x)
        <==> Proved(Some(results[..i]), root, x) || exists uri <- results[i].references :: Target(uri, root) == Some(x)
    {
      if uri :| uri in results[i].references && Target(uri, root) == Some(x) {
        assert results[i] in results[..i + 1];
      } else if Proved(Some(results[..i]), root, x) {
        var r :| r in results[..i] && r.Valid? && exists uri <- r.references :: Target(uri, root) == Some(x);
        assert r in results[..i + 1];
      }
    }
  }

  method AddReferences(references: seq<string>, root: string, ids: seq<string>) returns (out: seq<string>)
    ensures ids <= out
    ensures forall x :: x in out <==> x in ids || exists uri <- references :: Target(uri, root) == Some(x)
  {
    out := ids;
    for i := 0 to |references|
      invariant ids <= out
      invariant forall x :: x in out <==> x in ids || exists k | 0 <= k < i :: Target(references[k], root) == Some(x)
    {
      var id := Target(references[i], root);
      if id.Some? {
        out := AddVerifiedSignedId(out, id.value);
      }
    }
  }

  // ---- The acceptance rule ----

  predicate AnySigned(r: Response) {
    r.hasSignature || exists a <- r.assertions :: a.hasSignature
  }

  /** The response as a whole is vouched for: by the binding, or by an XML signature over its id. */
  ghost predicate EnvelopeVerified(b: Backend, m: Message) {
    || m.binding == Redirect(Some(true))
    || (m.response.hasSignature && Proved(b.verifier.verifyAll(m.xml), m.response.id, m.response.id))
  }

  /** A cleartext assertion whose own subtree, taken alone, has a valid signature. */
  predicate CleartextProved(b: Backend, a: Assertion, source: string) {
    a.hasSignature && b.verifier.verifyOne(b.standalone(source)).Some?
    && b.verifier.verifyOne(b.standalone(source)).value.Valid?
  }

  /** A decrypted assertion with signature markup on whose plaintext no verification failed. */
  predicate DecryptedChecked(b: Backend, e: Encrypted) {
    e.plain.Some? && e.plain.value.1.hasSignature && AllValid(b.verifier.verifyAll(e.plain.value.0))
  }

  /** The verifier reports at least one signature on the plaintext. */
  predicate Reported(b: Backend, e: Encrypted) {
    && e.plain.Some? && b.verifier.verifyAll(e.plain.value.0).Some?
    && b.verifier.verifyAll(e.plain.value.0).value != []
  }

  /** A decrypted assertion on whose plaintext some signature was found and all that were found verified. */
  predicate DecryptedProved(b: Backend, e: Encrypted) {
    DecryptedChecked(b, e) && Reported(b, e)
  }

  /** Exactly the messages whose signatures are accepted. */
  ghost predicate Acceptable(b: Backend, m: Message, idp: string) {
    var r := m.response;
    && m.binding != Redirect(Some(false))
    && (b.requestSubject ==> r.issuer == Some(idp))
    && |m.sources| == |r.assertions|
    && (AnySigned(r) ==> AllValid(b.verifier.verifyAll(m.xml)))
    && (!EnvelopeVerified(b, m) ==>
          forall i | 0 <= i < |r.assertions| :: CleartextProved(b, r.assertions[i], m.sources[i]))
    && (r.encrypted != [] ==> b.hasDecryptors)
    && (forall e <- r.encrypted :: DecryptedAcceptable(b, m, e))
  }

  ghost predicate DecryptedAcceptable(b: Backend, m: Message, e: Encrypted) {
    && e.plain.Some?
    && (if e.plain.value.1.hasSignature then DecryptedChecked(b, e) else EnvelopeVerified(b, m))
  }

  function Decrypted(encrypted: seq<Encrypted>): (r: seq<Assertion>)
    requires forall e <- encrypted :: e.plain.Some?
    ensures |r| == |encrypted|
  {
    seq(|encrypted|, i requires 0 <= i < |encrypted| => assert encrypted[i] in encrypted; encrypted[i].plain.value.1)
  }

  /** Exactly the ids a verified signature covers directly, and the response id for a signed binding. */
  ghost predicate SignedId(b: Backend, m: Message, encrypted: seq<Encrypted>, id: string) {
    || (AnySigned(m.response) && Proved(b.verifier.verifyAll(m.xml), m.response.id, id))
    || (m.binding == Redirect(Some(true)) && id == m.response.id)
    || (exists e <- encrypted :: DecryptedChecked(b, e)
          && Proved(b.verifier.verifyAll(e.plain.value.0), e.plain.value.1.id, id))
  }

  datatype Verified = Verified(assertions: seq<Assertion>, ids: seq<string>)

  /**
   * The signature phase: it accepts exactly the acceptable messages, splices the decrypted
   * assertions after the cleartext ones, and reports exactly the ids that were proved.
   */
  method VerifySignatures(b: Backend, m: Message, idp: string) returns (r: Option<Verified>)
    ensures r.Some? <==> Acceptable(b, m, idp)
    ensures r.Some? ==>
              && r.value.assertions == m.response.assertions + Decrypted(m.response.encrypted)
              && forall x :: x in r.value.ids <==> SignedId(b, m, m.response.encrypted, x)
  {
    var response := m.response;
    if m.binding == Redirect(Some(false))
       || (b.requestSubject && response.issuer != Some(idp))
       || |m.sources| != |response.assertions|
    {
      return None;
    }
    var first := VerifyEnvelope(b, m);
    if first.None? {
      return None;
    }
    var (ids, envelope) := first.value;
    if !envelope {
      var each := VerifyEachCleartext(b, response.assertions, m.sources);
      if !each {
        return None;
      }
    }
    if response.encrypted != [] && !b.hasDecryptors {
      return None;
    }
    r := SpliceDecrypted(b, m, ids);
  }

  /** Verifies every signature of the document once, and decides whether the envelope is vouched for. */
  method VerifyEnvelope(b: Backend, m: Message) returns (r: Option<(seq<string>, bool)>)
    requires m.binding != Redirect(Some(false))
    ensures r.Some? <==> (AnySigned(m.response) ==> AllValid(b.verifier.verifyAll(m.xml)))
    ensures r.Some? ==>
              && (forall x :: x in r.value.0 <==> SignedId(b, m, [], x))
              && (r.value.1 <==> EnvelopeVerified(b, m))
  {
    var ids: seq<string> := [];
    if AnySigned(m.response) {
      var extended := ExtendVerifiedIds(b.verifier, m.xml, m.response.id, ids);
      if extended.None? {
        return None;
      }
      ids := extended.value;
    }
    var binding := m.binding == Redirect(Some(true));
    if binding {
      ids := AddVerifiedSignedId(ids, m.response.id);
    }
    return Some((ids, binding || (m.response.hasSignature && m.response.id in ids)));
  }

  method VerifyEachCleartext(b: Backend, assertions: seq<Assertion>, sources: seq<string>) returns (ok: bool)
    requires |sources| == |assertions|
    ensures ok <==> forall i | 0 <= i < |assertions| :: CleartextProved(b, assertions[i], sources[i])
  {
    if exists a <- assertions :: !a.hasSignature {
      return false;
    }
    for i := 0 to |sources|
      invariant forall k | 0 <= k < i :: CleartextProved(b, assertions[k], sources[k])
    {
      assert assertions[i] in assertions;
      var result := b.verifier.verifyOne(b.standalone(sources[i]));
      if result.None? || result.value.Invalid? {
        return false;
      }
    }
    return true;
  }

  method SpliceDecrypted(b: Backend, m: Message, envelopeIds: seq<string>) returns (r: Option<Verified>)
    requires forall x :: x in envelopeIds <==> SignedId(b, m, [], x)
    requires m.response.id in envelopeIds && (m.response.hasSignature || m.binding == Redirect(Some(true)))
             <==> EnvelopeVerified(b, m)
    ensures r.Some? <==> forall e <- m.response.encrypted :: DecryptedAcceptable(b, m, e)
    ensures r.Some? ==>
              && r.value.assertions == m.response.assertions + Decrypted(m.response.encrypted)
              && forall x :: x in r.value.ids <==> SignedId(b, m, m.response.encrypted, x)
  {
    var encrypted := m.response.encrypted;
    var envelope := m.response.id in envelopeIds && (m.response.hasSignature || m.binding == Redirect(Some(true)));
    var assertions, ids := m.response.assertions, envelopeIds;
    assert encrypted[..0] == [];
    for i := 0 to |encrypted|
      invariant forall e <- encrypted[..i] :: DecryptedAcceptable(b, m, e)
      invariant assertions == m.response.assertions + Decrypted(encrypted[..i])
      invariant forall x :: x in ids <==> SignedId(b, m, encrypted[..i], x)
    {
      assert encrypted[..i + 1] == encrypted[..i] + [encrypted[i]];
      assert encrypted[i] in encrypted;
      if encrypted[i].plain.None? {
        return None;
      }
      var (plaintext, assertion) := encrypted[i].plain.value;
      if assertion.hasSignature {
        var extended := ExtendVerifiedIds(b.verifier, plaintext, assertion.id, ids);
        if extended.None? {
          return None;
        }
        ids := extended.value;
      } else if !envelope {
        return None;
      }
      SignedIdPush(b, m, encrypted, i);
      assertions := assertions + [assertion];
    }
    assert encrypted[..|encrypted|] == encrypted;
    return Some(Verified(assertions, ids));
  }

  lemma SignedIdPush(b: Backend, m: Message, encrypted: seq<Encrypted>, i: nat)
    requires i < |encrypted|
    ensures forall x :: SignedId(b, m, encrypted[..i + 1], x)
                        <==> SignedId(b, m, encrypted[..i], x)
                             || (DecryptedChecked(b, encrypted[i])
                                 && Proved(b.verifier.verifyAll(encrypted[i].plain.value.0),
                                           encrypted[i].plain.value.1.id, x))
  {
    assert encrypted[..i + 1] == encrypted[..i] + [encrypted[i]];
  }

  // ---- Coverage ----

  /**
   * The k-th assertion identity extraction may consume is covered: by the envelope, or by a
   * successful verification of that assertion's own XML.
   */
  ghost predicate Covered(b: Backend, m: Message, k: nat)
    requires |m.sources| == |m.response.assertions| && k < |m.response.assertions| + |m.response.encrypted|
  {
    var n := |m.response.assertions|;
    || EnvelopeVerified(b, m)
    || (if k < n then CleartextProved(b, m.response.assertions[k], m.sources[k])
        else DecryptedProved(b, m.response.encrypted[k - n]))
  }

  /** Of an accepted message every assertion is covered, exactly when the envelope is verified or the
      verifier finds the signature that the markup of each decrypted assertion announces. */
  lemma EveryAssertionIsCovered(b: Backend, m: Message, idp: string)
    requires Acceptable(b, m, idp)
    ensures (forall k | 0 <= k < |m.response.assertions| + |m.response.encrypted| :: Covered(b, m, k))
            <==> EnvelopeVerified(b, m) || forall e <- m.response.encrypted :: Reported(b, e)
  {
    var n := |m.response.assertions|;
    if !EnvelopeVerified(b, m) {
      forall i | 0 <= i < |m.response.encrypted|
        ensures Covered(b, m, n + i) <==> Reported(b, m.response.encrypted[i])
      {
        assert m.response.encrypted[i] in m.response.encrypted;
        assert DecryptedAcceptable(b, m, m.response.encrypted[i]);
      }
      if forall e <- m.response.encrypted :: Reported(b, e) {
        forall k | 0 <= k < n + |m.response.encrypted| ensures Covered(b, m, k) {
          if k >= n {
            assert m.response.encrypted[k - n] in m.response.encrypted;
            assert Covered(b, m, n + (k - n));
          }
        }
      }
      if forall k | 0 <= k < n + |m.response.encrypted| :: Covered(b, m, k) {
        forall e <- m.response.encrypted ensures Reported(b, e) {
          var i :| 0 <= i < |m.response.encrypted| && m.response.encrypted[i] == e;
          assert Covered(b, m, n + i);
        }
      }
    }
  }

  /** Without a verified envelope an accepted message consists of assertions that carry signatures. */
  lemma UnenvelopedAreSigned(b: Backend, m: Message, idp: string)
    requires Acceptable(b, m, idp) && !EnvelopeVerified(b, m)
    ensures forall e <- m.response.encrypted :: e.plain.Some?
    ensures forall a <- AllAssertions(m) :: a.hasSignature
  {
    forall e <- m.response.encrypted ensures e.plain.Some? && e.plain.value.1.hasSignature {
      assert DecryptedAcceptable(b, m, e);
    }
    forall a <- AllAssertions(m) ensures a.hasSignature {
      var n := |m.response.assertions|;
      var k :| 0 <= k < |AllAssertions(m)| && AllAssertions(m)[k] == a;
      if k < n {
        assert CleartextProved(b, m.response.assertions[k], m.sources[k]);
      } else {
        assert m.response.encrypted[k - n] in m.response.encrypted;
      }
    }
  }

  /** A validator that accepts signature markup only for ids that were reported to it as proved. */
  ghost predicate TrustsOnlyProvedIds(b: Backend) {
    forall assertions: seq<Assertion>, ids: seq<string>, expected: Option<string> |
      b.validate(assertions, ids, expected) ::
      forall a <- assertions :: a.hasSignature ==> a.id in ids
  }

  // ---- The whole endpoint ----

  datatype Outcome =
    | Refused
    | InteractionRequired
    | Extracted(authenticated: Assertion, subject: (string, Option<string>), attributes: seq<Attribute>)

  /** The NameID's value and format, when it is present and can be read. */
  function ReadName(n: NameId): Option<(string, Option<string>)> {
    match n
    case Absent => None
    case Named(value, format) => Some((value, format))
    case EncryptedName(plain) => plain
  }

  /** The pending request id of the flow, and none for a truly unsolicited response where those are allowed. */
  function ExpectedRequest(b: Backend, data: Data, r: Response): Option<Option<string>> {
    var pending := GetStr(data, b.namespace, "authn_id");
    if pending.Some? then Some(pending)
    else if b.allowUnsolicited && r.inResponseTo.None? then Some(None)
    else None
  }

  predicate HasAuthn(a: Assertion) {
    a.authnStatements != []
  }

  function FirstAuthenticated(assertions: seq<Assertion>): (r: Option<Assertion>)
    ensures r.None? <==> forall a <- assertions :: !HasAuthn(a)
    ensures r.Some? ==> exists i | 0 <= i < |assertions| ::
                          assertions[i] == r.value && HasAuthn(r.value)
                          && forall k | 0 <= k < i :: !HasAuthn(assertions[k])
  {
    if assertions == [] then None
    else if HasAuthn(assertions[0]) then
      assert assertions[0] == assertions[0];
      Some(assertions[0])
    else
      var r := FirstAuthenticated(assertions[1..]);
      assert r.Some? ==> exists i | 0 <= i < |assertions| ::
          assertions[i] == r.value && HasAuthn(r.value) && forall k | 0 <= k < i :: !HasAuthn(assertions[k]) by {
        if r.Some? {
          var i :| 0 <= i < |assertions[1..]| && assertions[1..][i] == r.value && HasAuthn(r.value)
            && forall k | 0 <= k < i :: !HasAuthn(assertions[1..][k]);
          assert assertions[i + 1] == r.value;
          assert forall k | 0 < k < i + 1 :: assertions[k] == assertions[1..][k - 1];
        }
      }
      r
  }

  function AllAttributes(assertions: seq<Assertion>): seq<Attribute> {
    if assertions == [] then []
    else AllAttributes(assertions[..|assertions| - 1]) + assertions[|assertions| - 1].attributes
  }

  /** A step-up backend consumes the authenticated assertion's attributes, any other those of all assertions. */
  function ConsumedAttributes(b: Backend, assertions: seq<Assertion>, authenticated: Assertion): seq<Attribute> {
    if b.requestSubject then authenticated.attributes else AllAttributes(assertions)
  }

  lemma {:induction false} AttributesHaveASource(assertions: seq<Assertion>)
    ensures forall at :: at in AllAttributes(assertions) <==> exists a <- assertions :: at in a.attributes
  {
    if assertions != [] {
      var k := |assertions| - 1;
      AttributesHaveASource(assertions[..k]);
      assert assertions == assertions[..k] + [assertions[k]];
      forall at ensures at in AllAttributes(assertions) <==> exists a <- assertions :: at in a.attributes {
        if at in AllAttributes(assertions[..k]) {
          var a :| a in assertions[..k] && at in a.attributes;
          assert a in assertions;
        } else if at in assertions[k].attributes {
          assert assertions[k] in assertions;
        }
      }
    }
  }

  /** Everything that has to hold before an identity is extracted. */
  ghost predicate Authenticates(b: Backend, m: Message, idp: string, data: Data, ids: seq<string>) {
    && Acceptable(b, m, idp)
    && (forall x :: x in ids <==> SignedId(b, m, m.response.encrypted, x))
    && m.response.success
    && ExpectedRequest(b, data, m.response).Some?
    && b.validate(m.response.assertions + Decrypted(m.response.encrypted), ids,
                  ExpectedRequest(b, data, m.response).value)
  }

  /** One of the assertions the message brings, cleartext or decrypted. */
  ghost predicate Brings(m: Message, a: Assertion) {
    || a in m.response.assertions
    || exists e <- m.response.encrypted :: e.plain.Some? && e.plain.value.1 == a
  }

  function AllAssertions(m: Message): seq<Assertion>
    requires forall e <- m.response.encrypted :: e.plain.Some?
  {
    m.response.assertions + Decrypted(m.response.encrypted)
  }

  /** The login's own assertion: the first with an authentication statement, with a readable subject. */
  predicate HasSubject(m: Message)
    requires forall e <- m.response.encrypted :: e.plain.Some?
  {
    var first := FirstAuthenticated(AllAssertions(m));
    first.Some? && ReadName(first.value.nameId).Some?
  }

  /** The validator accepts the message whichever way the proved ids are listed. */
  ghost predicate Validated(b: Backend, m: Message, data: Data)
    requires forall e <- m.response.encrypted :: e.plain.Some?
    requires ExpectedRequest(b, data, m.response).Some?
  {
    forall ids | (forall x :: x in ids <==> SignedId(b, m, m.response.encrypted, x)) ::
      b.validate(AllAssertions(m), ids, ExpectedRequest(b, data, m.response).value)
  }

  /**
   * `process_acs`. An extracted identity comes from the first assertion with an authentication
   * statement of an accepted, correlated and validated message whose subject can be read; the flow's
   * state is consumed then and only then, so that no second solicited response is accepted for it.
   */
  method ProcessAcs(b: Backend, m: Message, idp: string, data: Data) returns (o: Outcome, data': Data)
    ensures data' == if o.Extracted? then ClearNamespace(data, b.namespace) else data
    ensures o.Extracted? ==>
              && (exists ids :: Authenticates(b, m, idp, data, ids))
              && Acceptable(b, m, idp)
              && FirstAuthenticated(AllAssertions(m)) == Some(o.authenticated)
              && ReadName(o.authenticated.nameId) == Some(o.subject)
              && HasAuthn(o.authenticated) && Brings(m, o.authenticated)
              && (forall at :: at in o.attributes
                    <==> exists a :: Brings(m, a) && at in a.attributes && (b.requestSubject ==> a == o.authenticated))
    ensures o.Extracted? && TrustsOnlyProvedIds(b) ==>
              forall a :: Brings(m, a) ==> EnvelopeVerified(b, m) || SignedId(b, m, m.response.encrypted, a.id)
    ensures o.Extracted? ==>
              forall r :: ExpectedRequest(b, data', r).Some? <==> b.allowUnsolicited && r.inResponseTo.None?
    ensures Acceptable(b, m, idp) && m.response.success && HasSubject(m)
            && ExpectedRequest(b, data, m.response).Some? && Validated(b, m, data)
            ==> o.Extracted?
    ensures o.InteractionRequired? <==>
              && Acceptable(b, m, idp) && !m.response.success && m.response.noPassive
              && GetValue(data, b.namespace, "is_passive") == Some(Bool(true))
  {
    data' := data;
    var verified := VerifySignatures(b, m, idp);
    if verified.None? {
      return Refused, data';
    }
    var Verified(assertions, ids) := verified.value;
    if !m.response.success {
      if GetValue(data, b.namespace, "is_passive") == Some(Bool(true)) && m.response.noPassive {
        return InteractionRequired, data';
      }
      return Refused, data';
    }
    assert assertions == AllAssertions(m);
    BroughtAssertions(m, assertions);
    if assertions == [] {
      return Refused, data';
    }
    var expected := ExpectedRequest(b, data, m.response);
    if expected.None? || !b.validate(assertions, ids, expected.value) {
      return Refused, data';
    }
    assert Authenticates(b, m, idp, data, ids);
    var authenticated := FirstAuthenticated(assertions);
    if authenticated.None? {
      return Refused, data';
    }
    var subject := ReadName(authenticated.value.nameId);
    if subject.None? {
      return Refused, data';
    }
    AttributesHaveASource(assertions);
    if TrustsOnlyProvedIds(b) {
      ConsumedAssertionsAreProved(b, m, idp, data, ids);
    }
    data' := ClearNamespace(data, b.namespace);
    o := Extracted(authenticated.value, subject.value, ConsumedAttributes(b, assertions, authenticated.value));
  }

  lemma BroughtAssertions(m: Message, assertions: seq<Assertion>)
    requires forall e <- m.response.encrypted :: e.plain.Some?
    requires assertions == m.response.assertions + Decrypted(m.response.encrypted)
    ensures forall a :: a in assertions <==> Brings(m, a)
  {
    var encrypted := m.response.encrypted;
    forall a ensures a in Decrypted(encrypted) <==> exists e <- encrypted :: e.plain.value.1 == a {
      if a in Decrypted(encrypted) {
        var i :| 0 <= i < |encrypted| && Decrypted(encrypted)[i] == a;
        assert encrypted[i] in encrypted;
      }
      if e :| e in encrypted && e.plain.value.1 == a {
        var i :| 0 <= i < |encrypted| && encrypted[i] == e;
        assert Decrypted(encrypted)[i] == a;
      }
    }
  }

  /**
   * With a validator that trusts only reported ids, every assertion the message brings is vouched for by
   * the envelope or is itself, by its own id, what a verified reference points at.
   */
  lemma ConsumedAssertionsAreProved(b: Backend, m: Message, idp: string, data: Data, ids: seq<string>)
    requires TrustsOnlyProvedIds(b) && Authenticates(b, m, idp, data, ids)
    ensures forall a :: Brings(m, a) ==> EnvelopeVerified(b, m) || SignedId(b, m, m.response.encrypted, a.id)
  {
    forall e <- m.response.encrypted ensures e.plain.Some? {
      assert DecryptedAcceptable(b, m, e);
    }
    BroughtAssertions(m, AllAssertions(m));
    if !EnvelopeVerified(b, m) {
      UnenvelopedAreSigned(b, m, idp);
    }
  }

  // ---- Towards the attribute map ----

  predicate Names(at: Attribute, key: string) {
    at.values != [] && (key == at.name || at.friendlyName == Some(key))
  }

  /** Later attributes of the same name or friendly name replace earlier ones. */
  method ExternalMap(attributes: seq<Attribute>) returns (external: map<string, seq<string>>)
    ensures forall k <- external :: exists i | 0 <= i < |attributes| ::
              Names(attributes[i], k) && external[k] == attributes[i].values
              && forall j | i < j < |attributes| :: !Names(attributes[j], k)
    ensures forall i, k | 0 <= i < |attributes| && Names(attributes[i], k) :: k in external
  {
    external := map[];
    for i := 0 to |attributes|
      invariant forall k <- external :: exists j | 0 <= j < i ::
                  Names(attributes[j], k) && external[k] == attributes[j].values
                  && forall l | j < l < i :: !Names(attributes[l], k)
      invariant forall j, k | 0 <= j < i && Names(attributes[j], k) :: k in external
    {
      var at := attributes[i];
      if at.values == [] {
        continue;
      }
      external := external[at.name := at.values];
      if at.friendlyName.Some? {
        external := external[at.friendlyName.value := at.values];
      }
    }
  }
}
