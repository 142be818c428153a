/** Sizes of text as JSON (`json.dumps` with its default ASCII escapes) and as UTF-8
    (section 3 of RFC 3629), and the byte-limited prefix that `sanitize_title` keeps. */
module JsonText {

  /** Bytes one character takes inside a JSON string written by `json.dumps`. */
  function JsonBytes(c: char): (n: nat)
    ensures 1 <= n <= 12
  {
    if c in {'"', '\\', '\n', '\r', '\t', 0x08 as char, 0x0C as char} then 2
    else if ' ' <= c <= '~' then 1
    else if c as int < 0x1_0000 then 6
    else 12
  }

  function JsonSize(s: string): nat {
    if s == [] then 0 else JsonSize(s[..|s| - 1]) + JsonBytes(s[|s| - 1])
  }

  lemma {:induction false} JsonSizeConcat(a: string, b: string)
    ensures JsonSize(a + b) == JsonSize(a) + JsonSize(b)
  {
    if b == [] {
      assert a + b == a;
    } else {
      JsonSizeConcat(a, b[..|b| - 1]);
      assert (a + b)[..|a + b| - 1] == a + b[..|b| - 1];
    }
  }

  lemma {:induction false} JsonSizeBound(s: string)
    ensures JsonSize(s) <= 12 * |s|
  {
    if s != [] {
      JsonSizeBound(s[..|s| - 1]);
    }
  }

  // ---- UTF-8 ------------------------------------------------------------------------------

  function Utf8(c: char): (bytes: seq<int>)
    ensures 1 <= |bytes| <= 4
  {
    var u := c as int;
    if u < 0x80 then [u]
    else if u < 0x800 then [0xC0 + u / 0x40, 0x80 + u % 0x40]
    else if u < 0x1_0000 then [0xE0 + u / 0x1000, 0x80 + u / 0x40 % 0x40, 0x80 + u % 0x40]
    else [0xF0 + u / 0x4_0000, 0x80 + u / 0x1000 % 0x40, 0x80 + u / 0x40 % 0x40, 0x80 + u % 0x40]
  }

  function Encode(s: string): seq<int> {
    if s == [] then [] else Utf8(s[0]) + Encode(s[1..])
  }

  /** Length of the sequence a leading byte opens; 0 for a byte that opens none. */
  function SequenceLength(lead: int): nat {
    if 0 <= lead < 0x80 then 1
    else if 0xC0 <= lead < 0xE0 then 2
    else if 0xE0 <= lead < 0xF0 then 3
    else if 0xF0 <= lead < 0xF8 then 4
    else 0
  }

  function CodePoint(bytes: seq<int>): int
    requires 1 <= |bytes| <= 4
  {
    if |bytes| == 1 then bytes[0]
    else if |bytes| == 2 then (bytes[0] - 0xC0) * 0x40 + (bytes[1] - 0x80)
    else if |bytes| == 3 then
      (bytes[0] - 0xE0) * 0x1000 + (bytes[1] - 0x80) * 0x40 + (bytes[2] - 0x80)
    else
      (bytes[0] - 0xF0) * 0x4_0000 + (bytes[1] - 0x80) * 0x1000 + (bytes[2] - 0x80) * 0x40 + (bytes[3] - 0x80)
  }

  predicate IsScalar(u: int) {
    0 <= u < 0xD800 || 0xE000 <= u < 0x11_0000
  }

  /** `bytes.decode("utf-8", errors="ignore")`: an unfinished last sequence is dropped as a whole, and
      a byte that cannot start or complete a sequence is skipped. */
  function DecodeIgnore(bytes: seq<int>): string {
    if bytes == [] then []
    else
      var n := SequenceLength(bytes[0]);
      if n == 0 then DecodeIgnore(bytes[1..])
      else if |bytes| < n then []
      else if !IsScalar(CodePoint(bytes[..n])) then DecodeIgnore(bytes[1..])
      else [CodePoint(bytes[..n]) as char] + DecodeIgnore(bytes[n..])
  }

  lemma OneCharacter(c: char)
    ensures SequenceLength(Utf8(c)[0]) == |Utf8(c)|
    ensures CodePoint(Utf8(c)) == c as int
  {
    var u := c as int;
    assert u / 0x40 / 0x40 == u / 0x1000;
    assert u / 0x1000 / 0x40 == u / 0x4_0000;
  }

  /** Decoding what was encoded, then cut to `limit` bytes, gives a prefix that fits and that no
      longer prefix matches: one more character would exceed the limit. */
  lemma {:induction false} CutKeepsLongestPrefix(s: string, limit: nat)
    ensures var kept := DecodeIgnore(if |Encode(s)| > limit then Encode(s)[..limit] else Encode(s));
            && kept <= s
            && |Encode(kept)| <= limit
            && forall k :: |kept| < k <= |s| ==> |Encode(s[..k])| > limit
    decreases |s|
  {
    if s != [] {
      var e, rest := Utf8(s[0]), Encode(s[1..]);
      OneCharacter(s[0]);
      assert Encode(s) == e + rest;
      var bytes := if |Encode(s)| > limit then Encode(s)[..limit] else Encode(s);
      if |e| <= limit {
        CutKeepsLongestPrefix(s[1..], limit - |e|);
        var tail := if |rest| > limit - |e| then rest[..limit - |e|] else rest;
        assert bytes == e + tail;
        assert bytes[..|e|] == e && bytes[|e|..] == tail;
        var kept := DecodeIgnore(tail);
        assert DecodeIgnore(bytes) == [s[0]] + kept;
        assert ([s[0]] + kept)[1..] == kept;
        assert Encode([s[0]] + kept) == e + Encode(kept);
        forall k | |kept| + 1 < k <= |s|
          ensures |Encode(s[..k])| > limit
        {
          assert s[..k][1..] == s[1..][..k - 1];
          assert Encode(s[..k]) == e + Encode(s[1..][..k - 1]);
        }
      } else {
        Unfinished(s, limit);
      }
    }
  }

  lemma Unfinished(s: string, limit: nat)
    requires s != [] && limit < |Utf8(s[0])|
    ensures |Encode(s)| > limit && DecodeIgnore(Encode(s)[..limit]) == []
    ensures forall k :: 0 < k <= |s| ==> |Encode(s[..k])| > limit
  {
    OneCharacter(s[0]);
    assert Encode(s) == Utf8(s[0]) + Encode(s[1..]);
    if limit > 0 {
      assert Encode(s)[..limit][0] == Utf8(s[0])[0];
    }
    forall k | 0 < k <= |s|
      ensures |Encode(s[..k])| > limit
    {
      assert s[..k][0] == s[0];
    }
  }

  lemma Regroup(x: seq<int>, y: seq<int>, z: seq<int>)
    ensures x + (y + z) == (x + y) + z
  {}

  lemma {:induction false} EncodeConcat(a: string, b: string)
    ensures Encode(a + b) == Encode(a) + Encode(b)
  {
    if a == [] {
      assert a + b == b;
    } else {
      EncodeConcat(a[1..], b);
      assert (a + b)[1..] == a[1..] + b;
      Regroup(Utf8(a[0]), Encode(a[1..]), Encode(b));
    }
  }

  /** A JSON escape never takes more than six times the bytes of the UTF-8 form. */
  lemma {:induction false} JsonWithinSixfold(s: string)
    ensures JsonSize(s) <= 6 * |Encode(s)|
  {
    if s != [] {
      var front, last := s[..|s| - 1], s[|s| - 1];
      JsonWithinSixfold(front);
      assert s == front + [last];
      EncodeConcat(front, [last]);
      assert Encode([last]) == Utf8(last) by { assert [last][1..] == []; }
    }
  }
}
