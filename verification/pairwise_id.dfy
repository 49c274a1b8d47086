/** The pairwise identifier micro-service, with an idealised (collision-free) keyed hash. */
module PairwiseIds {
  import opened Wrappers
  import opened Framing
  import opened Internal

  datatype Mode = Legacy | V1

  const VERSION := "tbpwid-v1:"

  /** The text whose keyed hash is the pairwise identifier. */
  function Input(mode: Mode, requester: string, subject: string): string {
    match mode
    case Legacy => requester + "-" + subject
    case V1 => VERSION + Decimal(|requester|) + ":" + requester + ":" + subject
  }

  lemma V1IsInjective(r: string, s: string, r': string, s': string)
    ensures Input(V1, r, s) == Input(V1, r', s') <==> r == r' && s == s'
  {
    assert Input(V1, r, s) == VERSION + (Chunk(r) + (":" + s));
    assert Input(V1, r', s') == VERSION + (Chunk(r') + (":" + s'));
    if Input(V1, r, s) == Input(V1, r', s') {
      assert Chunk(r) + (":" + s) == Input(V1, r, s)[|VERSION|..] == Chunk(r') + (":" + s');
      ChunksDelimit(r, ":" + s, r', ":" + s');
      assert s == (":" + s)[1..] == (":" + s')[1..] == s';
    }
  }

  /** One requester is another one followed by a hyphen and a rest, which the subject then repeats. */
  predicate Overlaps(r: string, s: string, r': string, s': string) {
    r + "-" <= r' && s == r'[|r| + 1..] + "-" + s'
  }

  /** Exactly which pairs the legacy concatenation confuses. */
  lemma LegacyCollides(r: string, s: string, r': string, s': string)
    ensures Input(Legacy, r, s) == Input(Legacy, r', s')
            <==> (r == r' && s == s') || Overlaps(r, s, r', s') || Overlaps(r', s', r, s)
  {
    if Input(Legacy, r, s) == Input(Legacy, r', s') {
      if |r| <= |r'| {
        SplitCollision(r, s, r', s');
      } else {
        SplitCollision(r', s', r, s);
      }
    }
    if Overlaps(r, s, r', s') {
      JoinOverlap(r, s, r', s');
    }
    if Overlaps(r', s', r, s) {
      JoinOverlap(r', s', r, s);
    }
  }

  lemma SplitCollision(r: string, s: string, r': string, s': string)
    requires |r| <= |r'|
    requires Input(Legacy, r, s) == Input(Legacy, r', s')
    ensures (r == r' && s == s') || Overlaps(r, s, r', s')
  {
    var text := Input(Legacy, r, s);
    assert r == text[..|r|] && s == text[|r| + 1..] && text[|r|] == '-';
    assert r' == text[..|r'|] && s' == text[|r'| + 1..] && text[|r'|] == '-';
    if |r| < |r'| {
      assert r + "-" == text[..|r| + 1] == r'[..|r| + 1];
      assert s == text[|r| + 1..|r'|] + text[|r'|..];
      assert text[|r'|..] == "-" + s';
    }
  }

  lemma JoinOverlap(r: string, s: string, r': string, s': string)
    requires Overlaps(r, s, r', s')
    ensures Input(Legacy, r, s) == Input(Legacy, r', s')
  {
    assert r' == r + "-" + r'[|r| + 1..];
  }

  // ---- The identifier with its scope ----

  function HexDigit(d: nat): (c: char)
    requires d < 16
    ensures c != '@'
  {
    if d < 10 then Digit(d) else (d - 10 + 'a' as int) as char
  }

  type Byte = b: nat | b < 256

  function Hex(bytes: seq<Byte>): (s: string)
    ensures |s| == 2 * |bytes| && '@' !in s
  {
    if bytes == [] then ""
    else
      var k := |bytes| - 1;
      Hex(bytes[..k]) + HexByte(bytes[k])
  }

  /** `{b:02x}`: two lower-case digits. */
  function HexByte(b: Byte): (s: string)
    ensures |s| == 2 && '@' !in s
  {
    [HexDigit(b / 16), HexDigit(b % 16)]
  }

  method PrintHex(bytes: seq<Byte>) returns (s: string)
    ensures s == Hex(bytes)
  {
    s := "";
    for i := 0 to |bytes|
      invariant s == Hex(bytes[..i])
    {
      assert bytes[..i + 1][..i] == bytes[..i];
      s := s + HexByte(bytes[i]);
    }
    assert bytes[..|bytes|] == bytes;
  }

  lemma {:induction false} HexIsInjective(a: seq<Byte>, b: seq<Byte>)
    requires Hex(a) == Hex(b)
    ensures a == b
  {
    assert |a| == |b|;
    if a != [] {
      var k := |a| - 1;
      var x, y := HexByte(a[k]), HexByte(b[k]);
      assert Hex(a) == Hex(a[..k]) + x && Hex(b) == Hex(b[..k]) + y;
      SameHalves(Hex(a[..k]), x, Hex(b[..k]), y);
      HexIsInjective(a[..k], b[..k]);
      HexByteIsInjective(a[k], b[k]);
      assert a == a[..k] + [a[k]] && b == b[..k] + [b[k]];
    }
  }

  lemma SameHalves(u: string, x: string, v: string, y: string)
    requires u + x == v + y && |x| == |y|
    ensures u == v && x == y
  {
    assert |u| == |v|;
    assert u == (u + x)[..|u|] && v == (v + y)[..|v|];
    assert x == (u + x)[|u|..] && y == (v + y)[|v|..];
  }

  lemma HexByteIsInjective(a: Byte, b: Byte)
    requires HexByte(a) == HexByte(b)
    ensures a == b
  {
    assert HexByte(a)[0] == HexDigit(a / 16) && HexByte(b)[0] == HexDigit(b / 16);
    assert HexByte(a)[1] == HexDigit(a % 16) && HexByte(b)[1] == HexDigit(b % 16);
  }

  function ScopeOf(subject: string): string {
    AfterLast(subject, '@')
  }

  type KeyedHash = string -> seq<Byte>

  ghost predicate CollisionFree(mac: KeyedHash) {
    forall x, y :: mac(x) == mac(y) ==> x == y
  }

  function PairwiseId(mac: KeyedHash, mode: Mode, requester: string, subject: string): string {
    Hex(mac(Input(mode, requester, subject))) + "@" + ScopeOf(subject)
  }

  /** The scope survives: the pairwise identifier has the scope of the subject id it hides. */
  lemma ScopeIsKept(mac: KeyedHash, mode: Mode, requester: string, subject: string)
    ensures ScopeOf(PairwiseId(mac, mode, requester, subject)) == ScopeOf(subject)
  {
    var digest := Hex(mac(Input(mode, requester, subject)));
    AfterLastHasNoSeparator(subject, '@');
    AfterLastIsTail(digest, '@', ScopeOf(subject));
    assert digest + "@" + ScopeOf(subject) == digest + ['@'] + ScopeOf(subject);
  }

  /** Two identifiers agree exactly when the hashed texts and the scopes do. */
  lemma PairwiseIdsAgree(mac: KeyedHash, mode: Mode, r: string, s: string, r': string, s': string)
    requires CollisionFree(mac)
    ensures PairwiseId(mac, mode, r, s) == PairwiseId(mac, mode, r', s')
            <==> Input(mode, r, s) == Input(mode, r', s') && ScopeOf(s) == ScopeOf(s')
  {
    var x, y := Input(mode, r, s), Input(mode, r', s');
    var a, b := PairwiseId(mac, mode, r, s), PairwiseId(mac, mode, r', s');
    ScopeIsKept(mac, mode, r, s);
    ScopeIsKept(mac, mode, r', s');
    if a == b {
      var n := |Hex(mac(x))|;
      assert |a| == n + 1 + |ScopeOf(s)| && |b| == |Hex(mac(y))| + 1 + |ScopeOf(s')|;
      assert Hex(mac(x)) == a[..n] && Hex(mac(y)) == b[..n];
      HexIsInjective(mac(x), mac(y));
    }
  }

  /** With v1 framing a pairwise identifier belongs to one requester and one subject. */
  lemma V1NeverLinks(mac: KeyedHash, r: string, s: string, r': string, s': string)
    requires CollisionFree(mac)
    ensures PairwiseId(mac, V1, r, s) == PairwiseId(mac, V1, r', s') <==> r == r' && s == s'
  {
    PairwiseIdsAgree(mac, V1, r, s, r', s');
    V1IsInjective(r, s, r', s');
  }

  /**
   * The legacy default lets two different requesters share an identifier for some subjects
   * exactly when one requester's entity id is the other's followed by a hyphen and more.
   */
  lemma LegacyLinks(mac: KeyedHash, r: string, r': string)
    requires CollisionFree(mac) && r != r'
    ensures (exists s, s' :: PairwiseId(mac, Legacy, r, s) == PairwiseId(mac, Legacy, r', s'))
            <==> r + "-" <= r' || r' + "-" <= r
  {
    forall s, s' | PairwiseId(mac, Legacy, r, s) == PairwiseId(mac, Legacy, r', s')
      ensures r + "-" <= r' || r' + "-" <= r
    {
      PairwiseIdsAgree(mac, Legacy, r, s, r', s');
      LegacyCollides(r, s, r', s');
    }
    if r + "-" <= r' {
      OverlapLinks(mac, r, r');
    } else if r' + "-" <= r {
      OverlapLinks(mac, r', r);
    }
  }

  lemma OverlapLinks(mac: KeyedHash, r: string, r': string)
    requires CollisionFree(mac) && r + "-" <= r'
    ensures var s' := "@"; var s := r'[|r| + 1..] + "-" + s';
            PairwiseId(mac, Legacy, r, s) == PairwiseId(mac, Legacy, r', s')
  {
    var s' := "@";
    var s := r'[|r| + 1..] + "-" + s';
    JoinOverlap(r, s, r', s');
    PairwiseIdsAgree(mac, Legacy, r, s, r', s');
  }

  function RequesterOf(d: InternalData): string {
    if d.requester.Some? then d.requester.value else ""
  }

  /** `process_response`: only `pairwise-id` is written, and only when there is a subject id. */
  function ProcessResponse(mac: KeyedHash, mode: Mode, d: InternalData): (r: Result<InternalData, string>)
    ensures r.Ok? <==> FirstValue(d, "subject-id").Some?
    ensures r.Ok? ==>
              && r.value == d.(attributes := r.value.attributes)
              && r.value.attributes - {"pairwise-id"} == d.attributes - {"pairwise-id"}
              && FirstValue(r.value, "pairwise-id").Some?
  {
    match FirstValue(d, "subject-id")
    case None => Err("no subject-id attribute to derive a pairwise id")
    case Some(subject) =>
      Ok(d.(attributes := d.attributes["pairwise-id" := [PairwiseId(mac, mode, RequesterOf(d), subject)]]))
  }

  /**
   * Under v1 the written attribute tells any two logins apart that differ in requester or subject; a
   * login without a requester counts as one whose requester is the empty name.
   */
  lemma WrittenIdsSeparateLogins(mac: KeyedHash, a: InternalData, b: InternalData)
    requires CollisionFree(mac)
    requires FirstValue(a, "subject-id").Some? && FirstValue(b, "subject-id").Some?
    ensures FirstValue(ProcessResponse(mac, V1, a).value, "pairwise-id")
            == FirstValue(ProcessResponse(mac, V1, b).value, "pairwise-id")
            <==> RequesterOf(a) == RequesterOf(b) && FirstValue(a, "subject-id") == FirstValue(b, "subject-id")
    ensures RequesterOf(a.(requester := None)) == RequesterOf(a.(requester := Some("")))
  {
    V1NeverLinks(mac, RequesterOf(a), FirstValue(a, "subject-id").value,
                 RequesterOf(b), FirstValue(b, "subject-id").value);
  }
}
