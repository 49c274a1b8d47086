/** The subject identifier a SAML backend hands downstream. */
module SubjectIds {
  import opened Wrappers
  import opened Framing
  import opened Internal

  /** What one login brings: the issuer, its raw NameID, and the identifier composed of attributes. */
  datatype Login = Login(issuer: string, rawNameId: string, subjectType: SubjectType, composed: Option<string>)

  function ScopeSubjectId(issuer: string, subject: string): string {
    Decimal(|issuer|) + ":" + issuer + ":" + subject
  }

  lemma ScopedSubjectsAreUnique(issuer: string, subject: string, issuer': string, subject': string)
    ensures ScopeSubjectId(issuer, subject) == ScopeSubjectId(issuer', subject')
            <==> issuer == issuer' && subject == subject'
  {
    assert ScopeSubjectId(issuer, subject) == Chunk(issuer) + (":" + subject);
    assert ScopeSubjectId(issuer', subject') == Chunk(issuer') + (":" + subject');
    ChunksDelimit(issuer, ":" + subject, issuer', ":" + subject');
    assert (":" + subject)[1..] == subject && (":" + subject')[1..] == subject';
  }

  function SelectSubjectId(dynamicIdps: bool, scopeByIssuer: bool, l: Login): string {
    if dynamicIdps && scopeByIssuer then
      ScopeSubjectId(l.issuer, if l.composed.Some? then l.composed.value else l.rawNameId)
    else if dynamicIdps && l.composed.Some? then l.composed.value
    else if dynamicIdps && l.subjectType == Persistent then ScopeSubjectId(l.issuer, l.rawNameId)
    else l.rawNameId
  }

  /** Raw persistent NameIDs of a dynamic backend are always scoped, hence never shared by two issuers. */
  lemma PersistentNameIdsAreSeparated(scopeByIssuer: bool, a: Login, b: Login)
    requires a.composed == None && b.composed == None
    requires a.subjectType == Persistent && b.subjectType == Persistent
    ensures SelectSubjectId(true, scopeByIssuer, a) == SelectSubjectId(true, scopeByIssuer, b)
            <==> a.issuer == b.issuer && a.rawNameId == b.rawNameId
  {
    ScopedSubjectsAreUnique(a.issuer, a.rawNameId, b.issuer, b.rawNameId);
  }

  /** Exactly one setting keeps the subjects of different issuers apart for every login. */
  lemma IssuersAreSeparatedOnlyByScoping(dynamicIdps: bool, scopeByIssuer: bool)
    ensures (forall a: Login, b: Login ::
               SelectSubjectId(dynamicIdps, scopeByIssuer, a) == SelectSubjectId(dynamicIdps, scopeByIssuer, b)
               ==> a.issuer == b.issuer)
            <==> dynamicIdps && scopeByIssuer
  {
    if dynamicIdps && scopeByIssuer {
      forall a: Login, b: Login | SelectSubjectId(true, true, a) == SelectSubjectId(true, true, b)
        ensures a.issuer == b.issuer
      {
        ScopedSubjectsAreUnique(a.issuer, if a.composed.Some? then a.composed.value else a.rawNameId,
                                b.issuer, if b.composed.Some? then b.composed.value else b.rawNameId);
      }
    } else {
      var a, b := Login("a", "x", Transient, None), Login("b", "x", Transient, None);
      assert SelectSubjectId(dynamicIdps, scopeByIssuer, a) == SelectSubjectId(dynamicIdps, scopeByIssuer, b);
      assert a.issuer != b.issuer;
    }
  }
}
