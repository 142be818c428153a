/** The JSON text whose size the notification producer and the worker measure: `json.dumps` with its default ASCII
    escapes (section 7 of RFC 8259), and a reader that gets the text back from it. */
module JsonString {
  import opened Wrappers
  import opened JsonText
  import opened MailBody

  // ---- writing ---------------------------------------------------------------------------------

  function HexDigit(d: nat): char
    requires d < 16
  {
    if d < 10 then '0' + d as char else 'a' + (d - 10) as char
  }

  /** Four digits of a 16-bit unit. */
  function Hex(u: nat): (s: string)
    requires u < 0x1_0000
    ensures |s| == 4
  {
    [HexDigit(u / 0x1000), HexDigit(u / 0x100 % 16), HexDigit(u / 0x10 % 16), HexDigit(u % 16)]
  }

  function Unit(u: nat): (s: string)
    requires u < 0x1_0000
    ensures |s| == 6
  {
    ['\\', 'u'] + Hex(u)
  }

  /** The letter that stands for a character after a backslash. */
  function Short(c: char): Option<char> {
    if c == '"' then Some('"')
    else if c == '\\' then Some('\\')
    else if c == '\n' then Some('n')
    else if c == '\r' then Some('r')
    else if c == '\t' then Some('t')
    else if c == 0x08 as char then Some('b')
    else if c == 0x0C as char then Some('f')
    else None
  }

  function High(u: nat): nat
    requires 0x1_0000 <= u < 0x11_0000
  {
    0xD800 + (u - 0x1_0000) / 0x400
  }

  function Low(u: nat): nat
    requires 0x1_0000 <= u < 0x11_0000
  {
    0xDC00 + (u - 0x1_0000) % 0x400
  }

  function Escape(c: char): string {
    if Short(c).Some? then ['\\', Short(c).value]
    else if ' ' <= c <= '~' then [c]
    else if c as int < 0x1_0000 then Unit(c as int)
    else Unit(High(c as int)) + Unit(Low(c as int))
  }

  function EscapeAll(s: string): string {
    if s == [] then [] else Escape(s[0]) + EscapeAll(s[1..])
  }

  /** `json.dumps({"title": title, "body": body})` */
  function Dumps(title: string, body: string): string {
    "{\"title\": \"" + EscapeAll(title) + "\", \"body\": \"" + EscapeAll(body) + "\"}"
  }

  // ---- sizes -----------------------------------------------------------------------------------

  lemma EscapeSize(c: char)
    ensures |Escape(c)| == JsonBytes(c)
  {}

  lemma {:induction false} EscapeAllSize(s: string)
    ensures |EscapeAll(s)| == JsonSize(s)
  {
    if s != [] {
      EscapeSize(s[0]);
      EscapeAllSize(s[1..]);
      assert s == [s[0]] + s[1..];
      JsonSizeConcat([s[0]], s[1..]);
      assert JsonSize([s[0]]) == JsonBytes(s[0]) by {
        assert [s[0]][..0] == [];
      }
    }
  }

  /** What is compared with the publish limit is the length of the JSON text. */
  lemma PayloadIsDumped(title: string, body: string)
    ensures |Dumps(title, body)| == PayloadSize(title, body)
  {
    EscapeAllSize(title);
    EscapeAllSize(body);
  }

  /** The text is ASCII, so that it has as many bytes as characters. */
  predicate Ascii(s: string) {
    forall k :: 0 <= k < |s| ==> ' ' <= s[k] <= '~'
  }

  lemma {:induction false} EscapedIsAscii(s: string)
    ensures Ascii(EscapeAll(s))
  {
    if s != [] {
      EscapedIsAscii(s[1..]);
      EscapeIsAscii(s[0]);
    }
  }

  lemma EscapeIsAscii(c: char)
    ensures Ascii(Escape(c))
  {}

  // ---- reading ---------------------------------------------------------------------------------

  function HexValue(c: char): Option<nat> {
    if '0' <= c <= '9' then Some(c as int - '0' as int)
    else if 'a' <= c <= 'f' then Some(c as int - 'a' as int + 10)
    else None
  }

  /** The 16-bit unit a text starts with. */
  function ReadUnit(s: string): Option<nat> {
    if |s| < 6 || s[0] != '\\' || s[1] != 'u' then None
    else
      var a, b, c, d := HexValue(s[2]), HexValue(s[3]), HexValue(s[4]), HexValue(s[5]);
      if a.Some? && b.Some? && c.Some? && d.Some?
      then Some(a.value * 0x1000 + b.value * 0x100 + c.value * 0x10 + d.value)
      else None
  }

  function Long(letter: char): Option<char> {
    if letter == '"' then Some('"')
    else if letter == '\\' then Some('\\')
    else if letter == 'n' then Some('\n')
    else if letter == 'r' then Some('\r')
    else if letter == 't' then Some('\t')
    else if letter == 'b' then Some(0x08 as char)
    else if letter == 'f' then Some(0x0C as char)
    else None
  }

  /** The first character of a text, and how much of the text it takes. */
  function ReadOne(s: string): Option<(char, nat)> {
    if s == [] then None
    else if s[0] != '\\' then Some((s[0], 1))
    else if |s| >= 2 && Long(s[1]).Some? then Some((Long(s[1]).value, 2))
    else ReadUnits(s)
  }

  /** A unit, or a pair of surrogates. */
  function ReadUnits(s: string): Option<(char, nat)> {
    match ReadUnit(s)
    case None => None
    case Some(u) =>
      if IsScalar(u) then Some((u as char, 6))
      else if !(0xD800 <= u < 0xDC00) || |s| < 6 then None
      else
        var low := ReadUnit(s[6..]);
        if low.Some? && 0xDC00 <= low.value < 0xE000
        then Some(((0x1_0000 + (u - 0xD800) * 0x400 + (low.value - 0xDC00)) as char, 12))
        else None
  }

  function Unescape(s: string): Option<string>
    decreases |s|
  {
    if s == [] then Some([])
    else match ReadOne(s)
      case None => None
      case Some((c, n)) =>
        if n == 0 || n > |s| then None
        else match Unescape(s[n..])
          case None => None
          case Some(rest) => Some([c] + rest)
  }

  // ---- the round trip --------------------------------------------------------------------------

  lemma DigitIsRead(d: nat)
    requires d < 16
    ensures HexValue(HexDigit(d)) == Some(d)
  {}

  lemma Digits(u: nat)
    requires u < 0x1_0000
    ensures u / 0x1000 < 16
    ensures u / 0x1000 * 0x1000 + u / 0x100 % 16 * 0x100 + u / 0x10 % 16 * 0x10 + u % 16 == u
  {
    assert u / 0x100 == u / 0x1000 * 16 + u / 0x100 % 16;
    assert u / 0x10 == u / 0x100 * 16 + u / 0x10 % 16;
  }

  lemma UnitIsRead(u: nat, rest: string)
    requires u < 0x1_0000
    ensures ReadUnit(Unit(u) + rest) == Some(u)
  {
    Digits(u);
    DigitIsRead(u / 0x1000);
    DigitIsRead(u / 0x100 % 16);
    DigitIsRead(u / 0x10 % 16);
    DigitIsRead(u % 16);
    var s := Unit(u) + rest;
    assert s[0] == '\\' && s[1] == 'u';
    assert s[2] == Hex(u)[0] && s[3] == Hex(u)[1] && s[4] == Hex(u)[2] && s[5] == Hex(u)[3];
  }

  lemma ShortIsRead(c: char)
    requires Short(c).Some?
    ensures Long(Short(c).value) == Some(c)
  {}

  lemma PairIsRead(c: char, rest: string)
    requires c as int >= 0x1_0000
    ensures ReadOne(Escape(c) + rest) == Some((c, 12))
  {
    var u := c as int;
    var high, low := Unit(High(u)), Unit(Low(u));
    var s := Escape(c) + rest;
    assert Short(c).None?;
    assert s == high + (low + rest) && s[6..] == low + rest;
    UnitIsRead(High(u), low + rest);
    UnitIsRead(Low(u), rest);
    assert s[0] == '\\' && s[1] == 'u';
  }

  lemma CharacterIsRead(c: char, rest: string)
    ensures ReadOne(Escape(c) + rest) == Some((c, |Escape(c)|))
  {
    var s := Escape(c) + rest;
    if Short(c).Some? {
      ShortIsRead(c);
      assert s[0] == '\\' && s[1] == Short(c).value;
    } else if ' ' <= c <= '~' {
      assert s[0] == c;
    } else if c as int < 0x1_0000 {
      UnitIsRead(c as int, rest);
      assert s[0] == '\\' && s[1] == 'u';
    } else {
      PairIsRead(c, rest);
    }
  }

  /** What was written is read back. */
  lemma {:induction false} UnescapeOfEscape(s: string)
    ensures Unescape(EscapeAll(s)) == Some(s)
  {
    if s != [] {
      var e, rest := Escape(s[0]), EscapeAll(s[1..]);
      CharacterIsRead(s[0], rest);
      UnescapeOfEscape(s[1..]);
      assert (e + rest)[|e|..] == rest;
      assert [s[0]] + s[1..] == s;
    }
  }
}
