/**
 The sealed state cookie. The primitives it rests on (JSON, DEFLATE, the AEAD
 cipher) are parameters, and `Ideal` states what is assumed of them. The clock
 is a parameter of every operation.
 */
module StateSeal {
  import opened Wrappers
  import opened Words
  import opened Sessions

  type Byte = b: nat | b < 256
  type Bytes = seq<Byte>

  const ENVELOPE_VERSION: nat := 1
  const PLAINTEXT_TAG_DEFLATE: Byte := 0x02
  const OPEN_BRACE: Byte := 0x7B
  const MAX_INFLATED_BYTES: nat := 64 * 1024
  const MAX_IAT_SKEW_SECONDS: nat := 60
  const HOST_PREFIX: string := "__Host-"

  datatype Envelope = Envelope(v: nat, iat: u64, data: Data)

  /** What the JSON, DEFLATE and JWE libraries compute. */
  datatype Primitives = Primitives(
    toJson: Envelope -> Bytes,
    fromJson: Bytes -> Option<Envelope>,
    deflate: Bytes -> Bytes,
    inflate: Bytes -> Option<Bytes>,
    encrypt: (Bytes, Bytes, nat) -> Option<Bytes>,
    decrypt: (Bytes, Bytes) -> Option<Bytes>)

  /** JSON and DEFLATE have inverses, an envelope is a JSON object, and a token
      decrypts under the key that sealed it and under no other. */
  ghost predicate Ideal(p: Primitives) {
    && (forall e :: p.fromJson(p.toJson(e)) == Some(e))
    && (forall e :: |p.toJson(e)| > 0 && p.toJson(e)[0] == OPEN_BRACE)
    && (forall b :: p.inflate(p.deflate(b)) == Some(b))
    && (forall k, b, n :: p.encrypt(k, b, n).Some? ==>
          |p.encrypt(k, b, n).value| > 0 && p.decrypt(k, p.encrypt(k, b, n).value) == Some(b))
    && (forall k, b, n, k' :: p.encrypt(k, b, n).Some? && k' != k ==>
          p.decrypt(k', p.encrypt(k, b, n).value) == None)
  }

  datatype Sealer = Sealer(
    keys: seq<Bytes>,
    cookieName: string,
    ttl: Option<u64>,
    maxCookieBytes: nat)
  {
    predicate Valid() {
      |keys| > 0 && (ttl.Some? ==> ttl.value > 0)
    }
  }

  datatype Cookie = Cookie(value: Bytes, maxAge: Option<int>)

  datatype SealError = TooLarge | SealFailed | CookieTooLarge

  function Compress(p: Primitives, json: Bytes): Bytes {
    [PLAINTEXT_TAG_DEFLATE] + p.deflate(json)
  }

  /** Inflation stops at the cap and reports what lies past it as an error. */
  function InflateCapped(p: Primitives, deflated: Bytes): Option<Bytes> {
    match p.inflate(deflated)
    case Some(json) => if |json| > MAX_INFLATED_BYTES then None else Some(json)
    case None => None
  }

  function Seal(p: Primitives, s: Sealer, state: State, now: u64, nonce: nat): Result<Cookie, SealError>
    requires s.Valid()
  {
    if state.delete then Ok(Cookie([], Some(0))) else
    var issuedAt := if state.issuedAt.Some? then state.issuedAt.value else now;
    var json := p.toJson(Envelope(ENVELOPE_VERSION, issuedAt, state.data));
    if |json| > MAX_INFLATED_BYTES then Err(TooLarge) else
    match p.encrypt(s.keys[0], Compress(p, json), nonce)
    case None => Err(SealFailed)
    case Some(token) =>
      if |s.cookieName| + 1 + |token| > s.maxCookieBytes then Err(CookieTooLarge) else
      Ok(Cookie(token, match s.ttl
                       case None => None
                       case Some(ttl) => Some(AsI64(SaturatingSub(ttl, SaturatingSub(now, issuedAt))))))
  }

  predicate Fresh(ttl: Option<u64>, iat: u64, now: u64) {
    ttl.None? || (iat <= now + MAX_IAT_SKEW_SECONDS && SaturatingSub(now, iat) < ttl.value)
  }

  function DecodeEnvelope(p: Primitives, s: Sealer, plaintext: Bytes, now: u64): State {
    var json :=
      if |plaintext| > 0 && plaintext[0] == OPEN_BRACE then Some(plaintext)
      else if |plaintext| > 0 && plaintext[0] == PLAINTEXT_TAG_DEFLATE then InflateCapped(p, plaintext[1..])
      else None;
    if json.None? then FRESH else
    match p.fromJson(json.value)
    case None => FRESH
    case Some(e) =>
      if e.v != ENVELOPE_VERSION || !Fresh(s.ttl, e.iat, now) then FRESH
      else State(e.data, Some(e.iat), false)
  }

  /** Tries the keys in order; the first that decrypts decides. */
  function TryKeys(p: Primitives, s: Sealer, keys: seq<Bytes>, token: Bytes, now: u64): State {
    if keys == [] then FRESH
    else match p.decrypt(keys[0], token)
      case Some(plaintext) => DecodeEnvelope(p, s, plaintext, now)
      case None => TryKeys(p, s, keys[1..], token, now)
  }

  function Unseal(p: Primitives, s: Sealer, cookie: Option<Bytes>, now: u64): State {
    if cookie.None? || cookie.value == [] then FRESH else TryKeys(p, s, s.keys, cookie.value, now)
  }

  // ---- Round trips ----

  lemma {:induction false} SealingKeyDecides(p: Primitives, s: Sealer, keys: seq<Bytes>, key: Bytes,
                                             plaintext: Bytes, nonce: nat, now: u64)
    requires Ideal(p) && p.encrypt(key, plaintext, nonce).Some?
    ensures var token := p.encrypt(key, plaintext, nonce).value;
            TryKeys(p, s, keys, token, now) == if key in keys then DecodeEnvelope(p, s, plaintext, now) else FRESH
  {
    if keys != [] && keys[0] != key {
      SealingKeyDecides(p, s, keys[1..], key, plaintext, nonce, now);
    }
  }

  /** Legacy plaintexts are bare JSON and current ones carry the deflate tag; up
      to the size cap both decode to the same state, so neither is ever taken for
      the other. */
  lemma FormatsAgree(p: Primitives, s: Sealer, e: Envelope, now: u64)
    requires Ideal(p)
    ensures var legacy := DecodeEnvelope(p, s, p.toJson(e), now);
            && legacy == (if e.v == ENVELOPE_VERSION && Fresh(s.ttl, e.iat, now)
                          then State(e.data, Some(e.iat), false) else FRESH)
            && DecodeEnvelope(p, s, Compress(p, p.toJson(e)), now) ==
                 if |p.toJson(e)| <= MAX_INFLATED_BYTES then legacy else FRESH
  {
    var tagged := Compress(p, p.toJson(e));
    assert tagged[1..] == p.deflate(p.toJson(e));
  }

  /** What sealing accepts, unsealing gives back, data and issue time alike,
      under every sealer that knows the sealing key, exactly while it is fresh. */
  lemma SealThenUnseal(p: Primitives, s: Sealer, s': Sealer, state: State, now: u64, nonce: nat, later: u64)
    requires Ideal(p) && s.Valid() && s'.Valid()
    requires !state.delete && Seal(p, s, state, now, nonce).Ok?
    ensures var iat := if state.issuedAt.Some? then state.issuedAt.value else now;
            var got := Unseal(p, s', Some(Seal(p, s, state, now, nonce).value.value), later);
            got == if s.keys[0] in s'.keys && Fresh(s'.ttl, iat, later)
                   then State(state.data, Some(iat), false) else FRESH
  {
    var iat := if state.issuedAt.Some? then state.issuedAt.value else now;
    var e := Envelope(ENVELOPE_VERSION, iat, state.data);
    SealingKeyDecides(p, s', s'.keys, s.keys[0], Compress(p, p.toJson(e)), nonce, later);
    FormatsAgree(p, s', e, later);
  }

  // ---- Lifetime ----

  lemma {:induction false} TriedKeysAreFresh(p: Primitives, s: Sealer, keys: seq<Bytes>, token: Bytes, now: u64)
    ensures var st := TryKeys(p, s, keys, token, now);
            st == FRESH || (st.issuedAt.Some? && Fresh(s.ttl, st.issuedAt.value, now))
  {
    if keys != [] && p.decrypt(keys[0], token).None? {
      TriedKeysAreFresh(p, s, keys[1..], token, now);
    }
  }

  /** Whatever the cookie holds, a state it yields is either empty or inside its
      absolute lifetime, even when its issue time lies in the accepted skew. */
  lemma AcceptedIsWithinLifetime(p: Primitives, s: Sealer, cookie: Option<Bytes>, now: u64)
    requires s.Valid()
    ensures var st := Unseal(p, s, cookie, now);
            && (st.issuedAt.None? ==> st == FRESH)
            && (st.issuedAt.Some? && s.ttl.Some? ==>
                  now < st.issuedAt.value + s.ttl.value && st.issuedAt.value <= now + MAX_IAT_SKEW_SECONDS)
  {
    if cookie.Some? {
      TriedKeysAreFresh(p, s, s.keys, cookie.value, now);
    }
  }

  /** Section 5.2.2 of RFC 6265: a positive Max-Age keeps the cookie for that
      many seconds, any other drops it at once. */
  function KeptUntil(now: u64, maxAge: int): nat {
    if maxAge > 0 then now + maxAge else 0
  }

  /** The advertised Max-Age never carries a cookie past its issue time plus the
      TTL, and reaches exactly that moment unless the issue time is ahead of the
      local clock, the lifetime is over, or the remainder does not fit in i64. */
  lemma MaxAgeIsAbsolute(p: Primitives, s: Sealer, state: State, now: u64, nonce: nat)
    requires s.Valid() && s.ttl.Some? && !state.delete && Seal(p, s, state, now, nonce).Ok?
    ensures var iat := if state.issuedAt.Some? then state.issuedAt.value else now;
            var maxAge := Seal(p, s, state, now, nonce).value.maxAge;
            && maxAge.Some?
            && KeptUntil(now, maxAge.value) <= iat + s.ttl.value
            && (KeptUntil(now, maxAge.value) == iat + s.ttl.value <==>
                  iat <= now < iat + s.ttl.value && iat + s.ttl.value - now <= U64_MAX / 2)
  {
  }

  // ---- Chains of legs ----

  /** One request: the state is unsealed, changed and sealed again, with the clock read at both ends. The
      browser may have lost the cookie; keys may rotate between legs. */
  datatype Leg = Leg(
    unsealedAt: u64,
    sealedAt: u64,
    presents: bool,
    keys: seq<Bytes>,
    nonce: nat,
    change: Data -> Data,
    delete: Data -> bool)

  function SealerOf(s: Sealer, leg: Leg): Sealer {
    s.(keys := if leg.keys == [] then s.keys else leg.keys)
  }

  function Received(p: Primitives, s: Sealer, jar: Option<Bytes>, leg: Leg): State {
    Unseal(p, SealerOf(s, leg), if leg.presents then jar else None, leg.unsealedAt)
  }

  /** What a leg hands to the sealer. */
  function Sent(leg: Leg, st: State): State {
    State(leg.change(st.data), st.issuedAt, leg.delete(st.data))
  }

  /** The browser's cookie after a leg; a state that cannot be sealed is cleared. */
  function JarAfter(p: Primitives, s: Sealer, jar: Option<Bytes>, leg: Leg): Option<Bytes>
    requires s.Valid()
  {
    var st := Received(p, s, jar, leg);
    match Seal(p, SealerOf(s, leg), Sent(leg, st), leg.sealedAt, leg.nonce)
    case Ok(cookie) => Some(cookie.value)
    case Err(_) => Some([])
  }

  function Jar(p: Primitives, s: Sealer, legs: seq<Leg>): Option<Bytes>
    requires s.Valid()
    decreases |legs|
  {
    if legs == [] then None
    else JarAfter(p, s, Jar(p, s, legs[..|legs| - 1]), legs[|legs| - 1])
  }

  function StateAt(p: Primitives, s: Sealer, legs: seq<Leg>, i: nat): State
    requires s.Valid() && i < |legs|
  {
    Received(p, s, Jar(p, s, legs[..i]), legs[i])
  }

  /** A leg that is accepted continues the leg before it: its issue time and the data it sealed. */
  lemma NextLegKeepsIssueTime(p: Primitives, s: Sealer, jar: Option<Bytes>, leg: Leg, next: Leg)
    requires Ideal(p) && s.Valid()
    requires Received(p, s, JarAfter(p, s, jar, leg), next).issuedAt.Some?
    ensures var st := Received(p, s, jar, leg);
            && Seal(p, SealerOf(s, leg), Sent(leg, st), leg.sealedAt, leg.nonce).Ok? && !Sent(leg, st).delete
            && Received(p, s, JarAfter(p, s, jar, leg), next)
                 == State(Sent(leg, st).data,
                          Some(if st.issuedAt.Some? then st.issuedAt.value else leg.sealedAt), false)
  {
    var sent := Sent(leg, Received(p, s, jar, leg));
    if !sent.delete && Seal(p, SealerOf(s, leg), sent, leg.sealedAt, leg.nonce).Ok? && next.presents {
      SealThenUnseal(p, SealerOf(s, leg), SealerOf(s, next), sent, leg.sealedAt, leg.nonce,
                     next.unsealedAt);
    }
  }

  lemma JarUnfolds(p: Primitives, s: Sealer, legs: seq<Leg>, j: nat)
    requires s.Valid() && 0 < j < |legs|
    ensures StateAt(p, s, legs, j) == Received(p, s, JarAfter(p, s, Jar(p, s, legs[..j - 1]), legs[j - 1]), legs[j])
  {
    var before := legs[..j];
    assert before[..|before| - 1] == legs[..j - 1];
  }

  /** The state leg `n` hands on can be sealed. */
  predicate SealsAt(p: Primitives, s: Sealer, legs: seq<Leg>, n: nat)
    requires s.Valid() && n < |legs|
  {
    Seal(p, SealerOf(s, legs[n]), Sent(legs[n], StateAt(p, s, legs, n)), legs[n].sealedAt, legs[n].nonce).Ok?
  }

  /** The issue time of what a leg seals: that of the state it received, or the clock of this sealing. */
  function IssueTime(leg: Leg, st: State): u64 {
    if st.issuedAt.Some? then st.issuedAt.value else leg.sealedAt
  }

  /** A leg that finds a state finds exactly what the leg before it sealed. */
  lemma StateContinues(p: Primitives, s: Sealer, legs: seq<Leg>, n: nat)
    requires Ideal(p) && s.Valid() && n < |legs| && StateAt(p, s, legs, n).issuedAt.Some?
    ensures n > 0
    ensures var leg, before := legs[n - 1], StateAt(p, s, legs, n - 1);
            && SealsAt(p, s, legs, n - 1) && !Sent(leg, before).delete
            && StateAt(p, s, legs, n) == State(Sent(leg, before).data, Some(IssueTime(leg, before)), false)
  {
    if n > 0 {
      JarUnfolds(p, s, legs, n);
      NextLegKeepsIssueTime(p, s, Jar(p, s, legs[..n - 1]), legs[n - 1], legs[n]);
    }
  }

  lemma StateIsFresh(p: Primitives, s: Sealer, legs: seq<Leg>, n: nat)
    requires s.Valid() && n < |legs|
    ensures var st := StateAt(p, s, legs, n);
            && (st.issuedAt.None? ==> st == FRESH)
            && (st.issuedAt.Some? && s.ttl.Some? ==> legs[n].unsealedAt < st.issuedAt.value + s.ttl.value)
  {
    var jar := if legs[n].presents then Jar(p, s, legs[..n]) else None;
    AcceptedIsWithinLifetime(p, SealerOf(s, legs[n]), jar, legs[n].unsealedAt);
  }

  // ---- What the legs of a run find, as a sequence of states ----

  /** `after` is what the leg sealed when it had found `before`. */
  ghost predicate Linked(leg: Leg, before: State, seals: bool, after: State) {
    && seals && !Sent(leg, before).delete
    && after == State(Sent(leg, before).data, Some(IssueTime(leg, before)), false)
  }

  /** The state found is empty, or what the leg before sealed and still within its lifetime. */
  ghost predicate FoundAt(ttl: Option<u64>, legs: seq<Leg>, states: seq<State>, seals: seq<bool>, n: nat)
    requires |states| == |legs| == |seals| && n < |legs|
  {
    || states[n] == FRESH
    || (n > 0 && Linked(legs[n - 1], states[n - 1], seals[n - 1], states[n])
        && (ttl.Some? ==> legs[n].unsealedAt < states[n].issuedAt.value + ttl.value))
  }

  ghost predicate IsTrace(ttl: Option<u64>, legs: seq<Leg>, states: seq<State>, seals: seq<bool>) {
    |states| == |legs| == |seals| && forall n: nat :: n < |legs| ==> FoundAt(ttl, legs, states, seals, n)
  }

  /** The states are those the legs unseal, and the flags say which legs can seal theirs. */
  ghost predicate AreFound(p: Primitives, s: Sealer, legs: seq<Leg>, states: seq<State>, seals: seq<bool>)
    requires s.Valid()
  {
    && |states| == |legs| == |seals|
    && forall n :: 0 <= n < |legs| ==> states[n] == StateAt(p, s, legs, n) && seals[n] == SealsAt(p, s, legs, n)
  }

  lemma FindStates(p: Primitives, s: Sealer, legs: seq<Leg>) returns (states: seq<State>, seals: seq<bool>)
    requires s.Valid()
    ensures AreFound(p, s, legs, states, seals)
  {
    states := seq(|legs|, n requires 0 <= n < |legs| => StateAt(p, s, legs, n));
    seals := seq(|legs|, n requires 0 <= n < |legs| => SealsAt(p, s, legs, n));
  }

  lemma FoundStatesAreATrace(p: Primitives, s: Sealer, legs: seq<Leg>, states: seq<State>, seals: seq<bool>)
    requires Ideal(p) && s.Valid() && AreFound(p, s, legs, states, seals)
    ensures IsTrace(s.ttl, legs, states, seals)
  {
    forall n: nat | n < |legs| ensures FoundAt(s.ttl, legs, states, seals, n) {
      StateIsFresh(p, s, legs, n);
      if StateAt(p, s, legs, n).issuedAt.Some? {
        StateContinues(p, s, legs, n);
      }
    }
  }

  /** The session alive at leg `n` began at leg `i`, the last one that found no state. */
  ghost predicate SessionFrom(states: seq<State>, n: nat, i: nat) {
    && i <= n < |states| && states[i].issuedAt.None?
    && forall k :: i < k <= n ==> states[k].issuedAt.Some?
  }

  lemma {:induction false} SessionBegins(ttl: Option<u64>, legs: seq<Leg>, states: seq<State>, seals: seq<bool>, n: nat)
    returns (i: nat)
    requires IsTrace(ttl, legs, states, seals) && n < |legs|
    ensures SessionFrom(states, n, i)
  {
    assert FoundAt(ttl, legs, states, seals, n);
    if states[n].issuedAt.None? {
      i := n;
    } else {
      i := SessionBegins(ttl, legs, states, seals, n - 1);
    }
  }

  lemma {:induction false} SessionKeepsIssueTime(ttl: Option<u64>, legs: seq<Leg>, states: seq<State>,
                                                 seals: seq<bool>, i: nat, j: nat)
    requires IsTrace(ttl, legs, states, seals) && i < j < |legs| && SessionFrom(states, j, i)
    ensures states[j].issuedAt == Some(legs[i].sealedAt)
    ensures ttl.Some? ==> legs[j].unsealedAt < legs[i].sealedAt + ttl.value
    decreases j
  {
    assert FoundAt(ttl, legs, states, seals, j);
    if i + 1 < j {
      SessionKeepsIssueTime(ttl, legs, states, seals, i, j - 1);
    }
  }

  /** A flow that started at leg `i` and was never lost keeps the clock of that leg's sealing as its issue
      time, however often it is resealed, so no later leg accepts it at or after that time plus the TTL. */
  lemma LifetimeIsAbsolute(p: Primitives, s: Sealer, legs: seq<Leg>, i: nat, j: nat)
    requires Ideal(p) && s.Valid() && i < j < |legs|
    requires StateAt(p, s, legs, i).issuedAt.None?
    requires forall k :: i < k <= j ==> StateAt(p, s, legs, k).issuedAt.Some?
    ensures StateAt(p, s, legs, j).issuedAt == Some(legs[i].sealedAt)
    ensures s.ttl.Some? ==> legs[j].unsealedAt < legs[i].sealedAt + s.ttl.value
  {
    var states, seals := FindStates(p, s, legs);
    FoundStatesAreATrace(p, s, legs, states, seals);
    assert SessionFrom(states, j, i);
    SessionKeepsIssueTime(s.ttl, legs, states, seals, i, j);
  }

  // ---- The sealer object and key rotation ----

  predicate HasPrefix(s: string, prefix: string) {
    |prefix| <= |s| && s[..|prefix|] == prefix
  }

  function StripHostPrefix(raw: string): string {
    if HasPrefix(raw, HOST_PREFIX) then raw[|HOST_PREFIX|..] else raw
  }

  function EffectiveName(raw: string, secure: bool): string {
    if secure then HOST_PREFIX + StripHostPrefix(raw) else StripHostPrefix(raw)
  }

  /** A secure cookie always carries the `__Host-` prefix; an insecure one lost
      it, unless the operator configured the prefix twice. */
  lemma HostPrefixFollowsSecure(raw: string, secure: bool)
    ensures HasPrefix(EffectiveName(raw, secure), HOST_PREFIX) <==>
              secure || HasPrefix(raw, HOST_PREFIX + HOST_PREFIX)
    ensures secure ==> EffectiveName(EffectiveName(raw, secure), secure) == EffectiveName(raw, secure)
  {
    var n := |HOST_PREFIX|;
    var name := EffectiveName(raw, secure);
    if secure {
      assert name[..n] == HOST_PREFIX && name[n..] == StripHostPrefix(raw);
    } else if HasPrefix(raw, HOST_PREFIX + HOST_PREFIX) {
      assert raw[..n] == (HOST_PREFIX + HOST_PREFIX)[..n] == HOST_PREFIX;
      assert raw[n..][..n] == (HOST_PREFIX + HOST_PREFIX)[n..] == HOST_PREFIX;
    }
  }

  /** The decryption keys of the previous secrets, empty ones left out. */
  function DerivedKeys(derive: string -> Bytes, secrets: seq<string>): (keys: seq<Bytes>)
    ensures forall t :: t in secrets && t != "" ==> derive(t) in keys
  {
    if secrets == [] then [] else
    (if secrets[0] == "" then [] else [derive(secrets[0])]) + DerivedKeys(derive, secrets[1..])
  }

  class StateSealer {
    var keys: seq<Bytes>
    var rawCookieName: string
    var cookieName: string
    var secure: bool
    var ttlSeconds: Option<u64>
    const maxCookieBytes: nat

    constructor (derive: string -> Bytes, secret: string, name: string)
      ensures keys == [derive(secret)] && rawCookieName == name && secure
      ensures cookieName == EffectiveName(name, true)
      ensures View() == Sealer(keys, cookieName, Some(1800), 4096)
    {
      keys, rawCookieName, secure := [derive(secret)], name, true;
      ttlSeconds, maxCookieBytes := Some(1800), 4096;
      new;
      RecomputeName();
    }

    ghost function View(): Sealer
      reads this
    {
      Sealer(keys, cookieName, ttlSeconds, maxCookieBytes)
    }

    method RecomputeName()
      modifies this`cookieName
      ensures cookieName == EffectiveName(rawCookieName, secure)
    {
      var base := rawCookieName;
      if HasPrefix(rawCookieName, HOST_PREFIX) {
        base := rawCookieName[|HOST_PREFIX|..];
      }
      cookieName := if secure then HOST_PREFIX + base else base;
    }

    method WithSecure(secure: bool)
      modifies this`secure, this`cookieName
      ensures this.secure == secure && cookieName == EffectiveName(rawCookieName, secure)
    {
      this.secure := secure;
      RecomputeName();
    }

    /** Without a lifetime, or with none of any length, every issue time is fresh; with a positive one
        exactly those less than that long ago and not too far ahead. The sealer stays usable. */
    method WithTtlSeconds(ttl: Option<u64>)
      modifies this`ttlSeconds
      ensures keys != [] ==> View().Valid()
      ensures forall iat: u64, now: u64 :: Fresh(View().ttl, iat, now)
                <==> ttl == None || ttl == Some(0)
                     || (iat <= now + MAX_IAT_SKEW_SECONDS && now < iat + ttl.value)
      ensures View() == old(View()).(ttl := View().ttl)
    {
      ttlSeconds := if ttl == Some(0) then None else ttl;
    }

    method WithPreviousSecrets(derive: string -> Bytes, secrets: seq<string>)
      modifies this`keys
      ensures View() == old(View()).(keys := old(keys) + DerivedKeys(derive, secrets))
    {
      var i := 0;
      while i < |secrets|
        invariant i <= |secrets|
        invariant keys + DerivedKeys(derive, secrets[i..]) == old(keys) + DerivedKeys(derive, secrets)
      {
        assert secrets[i..][1..] == secrets[i + 1..];
        if secrets[i] != "" {
          keys := keys + [derive(secrets[i])];
        }
        i := i + 1;
      }
    }
  }

  /** Key rotation: cookies of the old secret stay usable once it is listed among
      the previous secrets, and new cookies are sealed with the new secret. */
  lemma RotationKeepsCookies(p: Primitives, s: Sealer, rotated: Sealer, derive: string -> Bytes,
                             oldSecret: string, newSecret: string, previous: seq<string>,
                             state: State, now: u64, nonce: nat, later: u64)
    requires Ideal(p) && s.Valid() && rotated.Valid()
    requires s.keys[0] == derive(oldSecret) && oldSecret in previous && oldSecret != ""
    requires rotated.keys == [derive(newSecret)] + DerivedKeys(derive, previous)
    requires !state.delete && state.issuedAt.None? && Seal(p, s, state, now, nonce).Ok?
    requires Fresh(rotated.ttl, now, later)
    ensures Unseal(p, rotated, Some(Seal(p, s, state, now, nonce).value.value), later)
              == State(state.data, Some(now), false)
    ensures derive(newSecret) !in s.keys && Seal(p, rotated, state, now, nonce).Ok? ==>
              Unseal(p, s, Some(Seal(p, rotated, state, now, nonce).value.value), later) == FRESH
  {
    SealThenUnseal(p, s, rotated, state, now, nonce, later);
    if Seal(p, rotated, state, now, nonce).Ok? {
      SealThenUnseal(p, rotated, s, state, now, nonce, later);
    }
  }
}
