/** Base64 with the standard alphabet and `=` padding (section 4 of
    RFC 4648), as `btoa` computes it: each character of the input is one
    byte, and a character above U+00FF makes `btoa` throw. The decoding of
    complete padded groups is its inverse. */
module Base64 {
  import opened Wrappers
  import opened JsText

  /** The alphabet character of a 6-bit value. */
  function Sextet(v: int): (c: char)
    requires 0 <= v < 64
    ensures c != '=' && c != '.'
  {
    if v < 26 then ('A' as int + v) as char
    else if v < 52 then ('a' as int + v - 26) as char
    else if v < 62 then ('0' as int + v - 52) as char
    else if v == 62 then '+'
    else '/'
  }

  /** The 6-bit value of an alphabet character; none for any other. */
  function SextetValue(c: char): (r: Option<int>)
    ensures r.Some? ==> 0 <= r.value < 64 && Sextet(r.value) == c
  {
    if 'A' <= c <= 'Z' then Some(c as int - 'A' as int)
    else if 'a' <= c <= 'z' then Some(c as int - 'a' as int + 26)
    else if '0' <= c <= '9' then Some(c as int - '0' as int + 52)
    else if c == '+' then Some(62)
    else if c == '/' then Some(63)
    else None
  }

  lemma SextetValueOfSextet(v: int)
    requires 0 <= v < 64
    ensures SextetValue(Sextet(v)) == Some(v)
  {
  }

  predicate IsByte(b: int) {
    0 <= b < 256
  }

  /** Three bytes as four characters. */
  function EncodeThree(b0: int, b1: int, b2: int): string
    requires IsByte(b0) && IsByte(b1) && IsByte(b2)
  {
    [Sextet(b0 / 4), Sextet(b0 % 4 * 16 + b1 / 16), Sextet(b1 % 16 * 4 + b2 / 64), Sextet(b2 % 64)]
  }

  /** A final pair of bytes, padded with one `=`. */
  function EncodeTwo(b0: int, b1: int): string
    requires IsByte(b0) && IsByte(b1)
  {
    [Sextet(b0 / 4), Sextet(b0 % 4 * 16 + b1 / 16), Sextet(b1 % 16 * 4), '=']
  }

  /** A final single byte, padded with two `=`. */
  function EncodeOne(b0: int): string
    requires IsByte(b0)
  {
    [Sextet(b0 / 4), Sextet(b0 % 4 * 16), '=', '=']
  }

  /** The encoding of a one-byte string: four characters per three input
      characters, the last group padded, and never a dot. */
  function Encode(s: string): (t: string)
    requires Latin1(s)
    ensures |t| == 4 * ((|s| + 2) / 3)
    ensures '.' !in t
    decreases |s|
  {
    if |s| == 0 then []
    else if |s| == 1 then EncodeOne(s[0] as int)
    else if |s| == 2 then EncodeTwo(s[0] as int, s[1] as int)
    else
      Latin1Suffix(s, 3);
      assert (|s| + 2) / 3 == (|s| - 3 + 2) / 3 + 1;
      EncodeThree(s[0] as int, s[1] as int, s[2] as int) + Encode(s[3..])
  }

  /** `btoa(s)`: the encoding, or `None` where `btoa` throws because a
      character does not fit in a byte. */
  function Btoa(s: string): (r: Option<string>)
    ensures r.Some? <==> Latin1(s)
    ensures r.Some? ==> '.' !in r.value && |r.value| == 4 * ((|s| + 2) / 3)
    ensures r.Some? ==> Decode(r.value) == Some(s)
  {
    if Latin1(s) then DecodeEncode(s); Some(Encode(s)) else None
  }

  /** One group of four characters as the bytes it carries: three, or two
      or one before `=` padding; none when a character is outside the
      alphabet. */
  function DecodeGroup(g: string): (r: Option<string>)
    requires |g| == 4
  {
    var v0, v1, v2, v3 := SextetValue(g[0]), SextetValue(g[1]), SextetValue(g[2]), SextetValue(g[3]);
    if v0.None? || v1.None? then None
    else if g[2] == '=' && g[3] == '=' then
      Some([(v0.value * 4 + v1.value / 16) as char])
    else if v2.None? then None
    else if g[3] == '=' then
      Some([(v0.value * 4 + v1.value / 16) as char, (v1.value % 16 * 16 + v2.value / 4) as char])
    else if v3.None? then None
    else
      Some([(v0.value * 4 + v1.value / 16) as char, (v1.value % 16 * 16 + v2.value / 4) as char,
            (v2.value % 4 * 64 + v3.value) as char])
  }

  /** Decoding of complete groups, where only the last group may be padded. */
  function Decode(t: string): (r: Option<string>)
    decreases |t|
  {
    if |t| == 0 then Some([])
    else if |t| < 4 then None
    else
      match DecodeGroup(t[..4])
      case None => None
      case Some(b) =>
        if |b| < 3 && |t| > 4 then None
        else
          match Decode(t[4..])
          case None => None
          case Some(rest) => Some(b + rest)
  }

  lemma ThreeRoundTrip(b0: int, b1: int, b2: int)
    requires IsByte(b0) && IsByte(b1) && IsByte(b2)
    ensures DecodeGroup(EncodeThree(b0, b1, b2)) == Some([b0 as char, b1 as char, b2 as char])
  {
    SextetValueOfSextet(b0 / 4);
    SextetValueOfSextet(b0 % 4 * 16 + b1 / 16);
    SextetValueOfSextet(b1 % 16 * 4 + b2 / 64);
    SextetValueOfSextet(b2 % 64);
  }

  lemma TwoRoundTrip(b0: int, b1: int)
    requires IsByte(b0) && IsByte(b1)
    ensures DecodeGroup(EncodeTwo(b0, b1)) == Some([b0 as char, b1 as char])
  {
    SextetValueOfSextet(b0 / 4);
    SextetValueOfSextet(b0 % 4 * 16 + b1 / 16);
    SextetValueOfSextet(b1 % 16 * 4);
  }

  lemma OneRoundTrip(b0: int)
    requires IsByte(b0)
    ensures DecodeGroup(EncodeOne(b0)) == Some([b0 as char])
  {
    SextetValueOfSextet(b0 / 4);
    SextetValueOfSextet(b0 % 4 * 16);
  }

  /** A group that decodes, followed by text that decodes, where only a
      last group may carry padding. */
  lemma DecodeGroupThen(g: string, rest: string, b: string, r: string)
    requires |g| == 4 && DecodeGroup(g) == Some(b) && (|b| == 3 || rest == [])
    requires Decode(rest) == Some(r)
    ensures Decode(g + rest) == Some(b + r)
  {
    assert (g + rest)[..4] == g;
    assert (g + rest)[4..] == rest;
  }

  lemma DecodeEncodeOne(s: string)
    requires Latin1(s) && |s| == 1
    ensures Decode(Encode(s)) == Some(s)
  {
    DecodeOne(s[0]);
    assert [s[0]] == s;
  }

  lemma DecodeEncodeTwo(s: string)
    requires Latin1(s) && |s| == 2
    ensures Decode(Encode(s)) == Some(s)
  {
    DecodeTwo(s[0], s[1]);
    assert [s[0], s[1]] == s;
  }

  /** A final group of one byte decodes on its own. */
  lemma DecodeOne(c0: char)
    requires IsByte(c0 as int)
    ensures Decode(EncodeOne(c0 as int)) == Some([c0])
  {
    OneRoundTrip(c0 as int);
    DecodeGroupThen(EncodeOne(c0 as int), [], [c0], []);
    assert EncodeOne(c0 as int) + [] == EncodeOne(c0 as int);
    assert [c0] + [] == [c0];
  }

  /** A final group of two bytes decodes on its own. */
  lemma DecodeTwo(c0: char, c1: char)
    requires IsByte(c0 as int) && IsByte(c1 as int)
    ensures Decode(EncodeTwo(c0 as int, c1 as int)) == Some([c0, c1])
  {
    TwoRoundTrip(c0 as int, c1 as int);
    DecodeGroupThen(EncodeTwo(c0 as int, c1 as int), [], [c0, c1], []);
    assert EncodeTwo(c0 as int, c1 as int) + [] == EncodeTwo(c0 as int, c1 as int);
    assert [c0, c1] + [] == [c0, c1];
  }

  /** A full group in front of text that decodes. */
  lemma DecodeThreeThen(c0: char, c1: char, c2: char, rest: string, r: string)
    requires IsByte(c0 as int) && IsByte(c1 as int) && IsByte(c2 as int) && Decode(rest) == Some(r)
    ensures Decode(EncodeThree(c0 as int, c1 as int, c2 as int) + rest) == Some([c0, c1, c2] + r)
  {
    ThreeRoundTrip(c0 as int, c1 as int, c2 as int);
    DecodeGroupThen(EncodeThree(c0 as int, c1 as int, c2 as int), rest, [c0, c1, c2], r);
  }

  lemma EncodeThreeFirst(s: string)
    requires Latin1(s) && |s| > 2 && Latin1(s[3..])
    ensures Encode(s) == EncodeThree(s[0] as int, s[1] as int, s[2] as int) + Encode(s[3..])
  {
  }

  /** A full group in front of a remainder that already round-trips. */
  lemma DecodeEncodeThree(s: string)
    requires Latin1(s) && |s| > 2 && Latin1(s[3..])
    requires Decode(Encode(s[3..])) == Some(s[3..])
    ensures Decode(Encode(s)) == Some(s)
  {
    var rest := s[3..];
    EncodeThreeFirst(s);
    DecodeThreeThen(s[0], s[1], s[2], Encode(rest), rest);
    SplitThree(s);
  }

  lemma SplitThree(s: string)
    requires |s| > 2
    ensures [s[0], s[1], s[2]] + s[3..] == s
  {
  }

  /** Decoding recovers every encoded string. */
  lemma {:induction false} DecodeEncode(s: string)
    requires Latin1(s)
    ensures Decode(Encode(s)) == Some(s)
    decreases |s|
  {
    if |s| == 1 {
      DecodeEncodeOne(s);
    } else if |s| == 2 {
      DecodeEncodeTwo(s);
    } else if |s| > 2 {
      Latin1Suffix(s, 3);
      DecodeEncode(s[3..]);
      DecodeEncodeThree(s);
    }
  }
}
