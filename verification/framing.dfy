/**
 * Length-prefixed text. A string of this module is the UTF-8 byte sequence of the source's
 * `String`, one byte a character, so that `|s|` is what Rust's `len()` returns.
 */
module Framing {
  import opened Wrappers

  predicate IsDigit(c: char) {
    '0' <= c <= '9'
  }

  function DigitValue(c: char): nat
    requires IsDigit(c)
  {
    c as int - '0' as int
  }

  function Digit(d: nat): (c: char)
    requires d < 10
    ensures IsDigit(c) && DigitValue(c) == d
  {
    (d + '0' as int) as char
  }

  /** What `format!("{}", n)` prints for an unsigned number. */
  function Decimal(n: nat): (s: string)
    ensures s != []
  {
    if n < 10 then [Digit(n)] else Decimal(n / 10) + [Digit(n % 10)]
  }

  /** `len:value`, the unit every framing is made of. */
  function Chunk(value: string): string {
    Decimal(|value|) + ":" + value
  }

  function Chunks(values: seq<string>): string {
    if values == [] then "" else Chunk(values[0]) + Chunks(values[1..])
  }

  // ---- The decoder: it looks at bytes only, never at what was framed ----

  /** The number before the first colon, and what follows the colon. */
  function ReadNumber(s: string, read: nat): (r: Option<(nat, string)>)
    ensures r.Some? ==> |r.value.1| < |s|
  {
    if s == [] then None
    else if s[0] == ':' then Some((read, s[1..]))
    else if IsDigit(s[0]) then ReadNumber(s[1..], 10 * read + DigitValue(s[0]))
    else None
  }

  /** One framed value, and what follows it. */
  function ReadChunk(s: string): Option<(string, string)> {
    match ReadNumber(s, 0)
    case None => None
    case Some((n, rest)) => if n <= |rest| then Some((rest[..n], rest[n..])) else None
  }

  /** Exactly `n` framed values that use up the whole input. */
  function ReadChunks(s: string, n: nat): Option<seq<string>>
    decreases n
  {
    if n == 0 then (if s == [] then Some([]) else None)
    else
      match ReadChunk(s)
      case None => None
      case Some((value, rest)) =>
        var others := ReadChunks(rest, n - 1);
        if others.Some? then Some([value] + others.value) else None
  }

  lemma {:induction false} DigitsAddUp(n: nat, rest: string)
    ensures ReadNumber(Decimal(n) + rest, 0) == ReadNumber(rest, n)
  {
    if n < 10 {
      assert (Decimal(n) + rest)[1..] == rest;
    } else {
      var last := [Digit(n % 10)];
      assert Decimal(n) + rest == Decimal(n / 10) + (last + rest);
      DigitsAddUp(n / 10, last + rest);
      assert (last + rest)[1..] == rest;
    }
  }

  lemma NumberReadsBack(n: nat, rest: string)
    ensures ReadNumber(Decimal(n) + ":" + rest, 0) == Some((n, rest))
  {
    DigitsAddUp(n, ":" + rest);
    assert Decimal(n) + ":" + rest == Decimal(n) + (":" + rest);
    assert (":" + rest)[1..] == rest;
  }

  /** A framed value is delimited by its length, whatever bytes it or its successor holds. */
  lemma ChunkReadsBack(value: string, rest: string)
    ensures ReadChunk(Chunk(value) + rest) == Some((value, rest))
  {
    assert Chunk(value) + rest == Decimal(|value|) + ":" + (value + rest);
    NumberReadsBack(|value|, value + rest);
    assert (value + rest)[..|value|] == value;
    assert (value + rest)[|value|..] == rest;
  }

  lemma {:induction false} ChunksReadBack(values: seq<string>)
    ensures ReadChunks(Chunks(values), |values|) == Some(values)
  {
    if values != [] {
      ChunkReadsBack(values[0], Chunks(values[1..]));
      ChunksReadBack(values[1..]);
      assert [values[0]] + values[1..] == values;
    }
  }

  /** Two texts that start with a framed value are equal only when those values and their rests are. */
  lemma ChunksDelimit(v: string, rest: string, v': string, rest': string)
    ensures Chunk(v) + rest == Chunk(v') + rest' <==> v == v' && rest == rest'
  {
    ChunkReadsBack(v, rest);
    ChunkReadsBack(v', rest');
  }

  // ---- Splitting at the last separator ----

  /** `s.rsplit(c).next()`: what follows the last `c`, or everything when there is none. */
  function AfterLast(s: string, c: char): string {
    if s == [] || s[|s| - 1] == c then []
    else AfterLast(s[..|s| - 1], c) + [s[|s| - 1]]
  }

  lemma {:induction false} AfterLastIsTail(front: string, c: char, tail: string)
    requires c !in tail
    ensures AfterLast(front + [c] + tail, c) == tail
  {
    var s := front + [c] + tail;
    if tail != [] {
      var k := |tail| - 1;
      assert s[..|s| - 1] == front + [c] + tail[..k];
      AfterLastIsTail(front, c, tail[..k]);
      assert tail == tail[..k] + [tail[k]];
      assert s[|s| - 1] == tail[k];
    }
  }

  lemma {:induction false} AfterLastHasNoSeparator(s: string, c: char)
    ensures c !in AfterLast(s, c)
    ensures c !in s ==> AfterLast(s, c) == s
    ensures c in s ==> exists front :: s == front + [c] + AfterLast(s, c)
  {
    if s != [] {
      var k := |s| - 1;
      var init := s[..k];
      assert s == init + [s[k]];
      AfterLastHasNoSeparator(init, c);
      if s[k] == c {
        assert s == init + [c] + AfterLast(s, c);
      } else if c in s {
        assert c in init;
        var front :| init == front + [c] + AfterLast(init, c);
        assert s == front + [c] + AfterLast(s, c);
      }
    }
  }
}
