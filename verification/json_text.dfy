/** `JSON.stringify` of a flat object whose values are strings and integers,
    as the ECMAScript specification writes it (QuoteJSONString), together
    with the reading of an escaped string literal back. */
module JsonText {
  import opened Wrappers
  import opened JsText

  /** A lower-case hexadecimal digit. */
  function HexDigit(d: int): (c: char)
    requires 0 <= d < 16
  {
    if d < 10 then ('0' as int + d) as char else ('a' as int + d - 10) as char
  }

  /** The value of a hexadecimal digit of either case. */
  function HexValue(c: char): (r: Option<int>)
    ensures r.Some? ==> 0 <= r.value < 16
  {
    if '0' <= c <= '9' then Some(c as int - '0' as int)
    else if 'a' <= c <= 'f' then Some(c as int - 'a' as int + 10)
    else if 'A' <= c <= 'F' then Some(c as int - 'A' as int + 10)
    else None
  }

  lemma HexValueOfDigit(d: int)
    requires 0 <= d < 16
    ensures HexValue(HexDigit(d)) == Some(d)
  {
  }

  /** The characters written with a two-character escape, other than the
      quote and the backslash. */
  function ShortEscape(c: char): Option<char> {
    if c == '\U{0008}' then Some('b')
    else if c == '\t' then Some('t')
    else if c == '\n' then Some('n')
    else if c == '\U{000C}' then Some('f')
    else if c == '\r' then Some('r')
    else None
  }

  /** How one character is written inside a string literal: the quote and
      the backslash behind a backslash, five control characters by letter,
      the other control characters as `\u00` and two lower-case hex digits,
      everything else as itself. */
  function EscapeChar(c: char): (e: string)
    ensures 1 <= |e| <= 6
    ensures Latin1(e) <==> c as int < 256
  {
    if c == '"' || c == '\\' then ['\\', c]
    else if ShortEscape(c).Some? then ['\\', ShortEscape(c).value]
    else if c as int < 0x20 then ['\\', 'u', '0', '0', HexDigit(c as int / 16), HexDigit(c as int % 16)]
    else assert [c][0] == c; [c]
  }

  /** The escaped text of a string, character by character. */
  function Escape(s: string): (e: string)
    ensures Latin1(e) <==> Latin1(s)
  {
    if s == [] then []
    else
      Latin1Concat(EscapeChar(s[0]), Escape(s[1..]));
      Latin1Concat([s[0]], s[1..]);
      assert [s[0]] + s[1..] == s;
      EscapeChar(s[0]) + Escape(s[1..])
  }

  /** `JSON.stringify` of a string: its escaped text between quotes. */
  function Quote(s: string): (q: string)
    ensures |q| >= 2 && q[0] == '"' && q[|q| - 1] == '"'
    ensures Latin1(q) <==> Latin1(s)
  {
    Latin1Concat("\"", Escape(s));
    Latin1Concat("\"" + Escape(s), "\"");
    "\"" + Escape(s) + "\""
  }

  /** Reads one character of a string literal's body: the character and the
      number of characters its writing takes, or none where the text is no
      valid writing (a bare quote or control character, an unknown escape,
      or a `\u` escape of a surrogate, which is not a character here). */
  function ReadChar(t: string): (r: Option<(char, nat)>)
    requires |t| > 0
    ensures r.Some? ==> 1 <= r.value.1 <= |t|
  {
    var c := t[0];
    if c == '"' || c as int < 0x20 then None
    else if c != '\\' then Some((c, 1))
    else if |t| < 2 then None
    else if t[1] == '"' || t[1] == '\\' || t[1] == '/' then Some((t[1], 2))
    else if t[1] == 'b' then Some(('\U{0008}', 2))
    else if t[1] == 't' then Some(('\t', 2))
    else if t[1] == 'n' then Some(('\n', 2))
    else if t[1] == 'f' then Some(('\U{000C}', 2))
    else if t[1] == 'r' then Some(('\r', 2))
    else if t[1] != 'u' || |t| < 6 then None
    else
      var h0, h1, h2, h3 := HexValue(t[2]), HexValue(t[3]), HexValue(t[4]), HexValue(t[5]);
      if h0.None? || h1.None? || h2.None? || h3.None? then None
      else
        var v := h0.value * 4096 + h1.value * 256 + h2.value * 16 + h3.value;
        if 0xD800 <= v < 0xE000 then None else Some((v as char, 6))
  }

  /** Reads the body of a string literal back to the string it writes. */
  function Unescape(t: string): (r: Option<string>)
    decreases |t|
  {
    if t == [] then Some([])
    else
      match ReadChar(t)
      case None => None
      case Some((c, n)) =>
        match Unescape(t[n..])
        case None => None
        case Some(rest) => Some([c] + rest)
  }

  /** Reads a string literal: its body between quotes. */
  function Unquote(q: string): Option<string> {
    if |q| >= 2 && q[0] == '"' && q[|q| - 1] == '"' then Unescape(q[1..|q| - 1]) else None
  }

  lemma ReadPlain(c: char, rest: string)
    requires EscapeChar(c) == [c]
    ensures ReadChar([c] + rest) == Some((c, 1))
  {
    assert ([c] + rest)[0] == c;
  }

  lemma ReadTwo(c: char, rest: string)
    requires |EscapeChar(c)| == 2
    ensures ReadChar(EscapeChar(c) + rest) == Some((c, 2))
  {
    var t := EscapeChar(c) + rest;
    assert t[0] == '\\' && t[1] == EscapeChar(c)[1];
  }

  lemma ReadSix(c: char, rest: string)
    requires |EscapeChar(c)| == 6
    ensures ReadChar(EscapeChar(c) + rest) == Some((c, 6))
  {
    var t := EscapeChar(c) + rest;
    var n := c as int;
    assert t[..6] == ['\\', 'u', '0', '0', HexDigit(n / 16), HexDigit(n % 16)];
    assert t[0] == '\\' && t[1] == 'u' && t[2] == '0' && t[3] == '0';
    assert t[4] == HexDigit(n / 16) && t[5] == HexDigit(n % 16);
    HexValueOfDigit(n / 16);
    HexValueOfDigit(n % 16);
  }

  /** The writing of a character reads back as that character. */
  lemma ReadEscapeChar(c: char, rest: string)
    ensures ReadChar(EscapeChar(c) + rest) == Some((c, |EscapeChar(c)|))
  {
    var e := EscapeChar(c);
    if |e| == 1 {
      ReadPlain(c, rest);
    } else if |e| == 2 {
      ReadTwo(c, rest);
    } else {
      ReadSix(c, rest);
    }
  }

  lemma UnescapeThen(e: string, rest: string, c: char, r: string)
    requires |e| > 0 && ReadChar(e + rest) == Some((c, |e|)) && Unescape(rest) == Some(r)
    ensures Unescape(e + rest) == Some([c] + r)
  {
    assert (e + rest)[|e|..] == rest;
  }

  /** Reading the escaped text back gives the string. */
  lemma {:induction false} UnescapeEscape(s: string)
    ensures Unescape(Escape(s)) == Some(s)
  {
    if s != [] {
      UnescapeEscape(s[1..]);
      ReadEscapeChar(s[0], Escape(s[1..]));
      UnescapeThen(EscapeChar(s[0]), Escape(s[1..]), s[0], s[1..]);
      assert [s[0]] + s[1..] == s;
    }
  }

  /** Reading a quoted string back gives the string. */
  lemma UnquoteQuote(s: string)
    ensures Unquote(Quote(s)) == Some(s)
  {
    var q := Quote(s);
    assert q[1..|q| - 1] == Escape(s);
    UnescapeEscape(s);
  }

  /** `String(n)` for any integer, the way `JSON.stringify` writes an
      integer-valued number. */
  function NumberText(n: int): (t: string)
    ensures Latin1(t)
  {
    if n < 0 then
      DecimalStringLatin1(-n);
      Latin1Concat("-", DecimalString(-n));
      "-" + DecimalString(-n)
    else
      DecimalStringLatin1(n);
      DecimalString(n)
  }

  datatype Value = Str(s: string) | Num(n: int)

  function ValueText(v: Value): (t: string)
    ensures Latin1(t) <==> (v.Str? ==> Latin1(v.s))
  {
    match v
    case Str(s) => Quote(s)
    case Num(n) => NumberText(n)
  }

  /** Every key and every string value fits in a byte per character. */
  predicate MembersLatin1(members: seq<(string, Value)>) {
    forall i :: 0 <= i < |members| ==> Latin1(members[i].0) && (members[i].1.Str? ==> Latin1(members[i].1.s))
  }

  /** One `"key":value` pair. */
  function MemberText(m: (string, Value)): (t: string)
    ensures Latin1(t) <==> Latin1(m.0) && (m.1.Str? ==> Latin1(m.1.s))
  {
    Latin1Concat(Quote(m.0), ":");
    Latin1Concat(Quote(m.0) + ":", ValueText(m.1));
    Quote(m.0) + ":" + ValueText(m.1)
  }

  /** The pairs in order, separated by commas. */
  function MembersText(members: seq<(string, Value)>): (t: string)
    ensures Latin1(t) <==> MembersLatin1(members)
  {
    if members == [] then []
    else if |members| == 1 then MemberText(members[0])
    else
      var head, tail := MemberText(members[0]), MembersText(members[1..]);
      Latin1Concat(head, ",");
      Latin1Concat(head + ",", tail);
      MembersLatin1Cons(members);
      head + "," + tail
  }

  lemma MembersLatin1Cons(members: seq<(string, Value)>)
    requires |members| > 0
    ensures MembersLatin1(members) <==>
              (Latin1(members[0].0) && (members[0].1.Str? ==> Latin1(members[0].1.s))) &&
              MembersLatin1(members[1..])
  {
    if MembersLatin1(members[1..]) {
      forall i | 1 <= i < |members|
        ensures Latin1(members[i].0) && (members[i].1.Str? ==> Latin1(members[i].1.s))
      {
        assert members[i] == members[1..][i - 1];
      }
    }
  }

  /** `JSON.stringify` of an object with these pairs in insertion order:
      it is braced, and it fits in a byte per character exactly when every
      key and string value does. */
  function Stringify(members: seq<(string, Value)>): (t: string)
    ensures |t| >= 2 && t[0] == '{' && t[|t| - 1] == '}'
    ensures Latin1(t) <==> MembersLatin1(members)
  {
    Latin1Concat("{", MembersText(members));
    Latin1Concat("{" + MembersText(members), "}");
    "{" + MembersText(members) + "}"
  }
}
