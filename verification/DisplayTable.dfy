/** The fixed-width notification table of slurm_oci_mailprog.py: value clean-up, greedy wrapping
    by display width, padding and rows. Unicode's tables come in as a `Charset`. */
module DisplayTable {
  import opened Wrappers
  import opened JsonText
  import opened TextWords

  const LABEL_WIDTH: nat := 18
  const VALUE_WIDTH: nat := 52

  /** Display width, `isspace` and "category starts with C", per character. */
  datatype Charset = Charset(width: char -> nat, isSpace: char -> bool, isOther: char -> bool) {
    /** Widths are 0 (combining), 1 or 2 (wide); printable ASCII is narrow and nothing is wider than
        its JSON form is long. Blank and newline are white space. */
    ghost predicate Sane() {
      && isSpace(' ') && isSpace('\n')
      && (forall c :: width(c) <= 2 && width(c) <= JsonBytes(c))
      && (forall c :: ' ' <= c <= '~' ==> width(c) == 1)
    }
  }

  /** `display_width` */
  function Width(cs: Charset, s: string): nat {
    if s == [] then 0 else Width(cs, s[..|s| - 1]) + cs.width(s[|s| - 1])
  }

  lemma {:induction false} WidthConcat(cs: Charset, a: string, b: string)
    ensures Width(cs, a + b) == Width(cs, a) + Width(cs, b)
  {
    if b == [] {
      assert a + b == a;
    } else {
      WidthConcat(cs, a, b[..|b| - 1]);
      assert (a + b)[..|a + b| - 1] == a + b[..|b| - 1];
    }
  }

  lemma WidthAppend(cs: Charset, s: string, c: char)
    ensures Width(cs, s + [c]) == Width(cs, s) + cs.width(c)
  {
    assert (s + [c])[..|s|] == s;
  }

  // ---- greedy wrapping -------------------------------------------------------------------------

  /** The chunks after each further character: it joins the last chunk unless that chunk is
      non-empty and would grow beyond the limit. */
  function Extend(cs: Charset, chunks: seq<string>, c: char, limit: nat): (r: seq<string>)
    requires chunks != []
    ensures r != []
  {
    var last := chunks[|chunks| - 1];
    if last != [] && Width(cs, last) + cs.width(c) > limit then chunks + [[c]]
    else chunks[..|chunks| - 1] + [last + [c]]
  }

  function Chunks(cs: Charset, s: string, limit: nat): (r: seq<string>)
    ensures r != []
  {
    if s == [] then [""] else Extend(cs, Chunks(cs, s[..|s| - 1], limit), s[|s| - 1], limit)
  }

  /** `split_display_chunks`; `value` is scanned once, `current` is the chunk being filled. */
  method SplitDisplayChunks(cs: Charset, value: string, limit: nat) returns (chunks: seq<string>)
    ensures chunks == Chunks(cs, value, limit)
  {
    chunks := [];
    var current: string := [];
    var currentWidth := 0;
    for i := 0 to |value|
      invariant chunks + [current] == Chunks(cs, value[..i], limit)
      invariant currentWidth == Width(cs, current)
      invariant current == [] ==> i == 0 && chunks == []
    {
      var character := value[i];
      assert value[..i + 1][..i] == value[..i];
      var characterWidth := cs.width(character);
      WidthAppend(cs, current, character);
      if current != [] && currentWidth + characterWidth > limit {
        chunks := chunks + [current];
        current, currentWidth := [], 0;
        WidthAppend(cs, current, character);
        assert current + [character] == [character];
      }
      current := current + [character];
      currentWidth := currentWidth + characterWidth;
    }
    assert value[..|value|] == value;
    if current != [] {
      chunks := chunks + [current];
    }
    if chunks == [] {
      chunks := [""];
    }
  }

  ghost predicate AllFit(cs: Charset, parts: seq<string>, limit: nat) {
    forall i :: 0 <= i < |parts| ==> Width(cs, parts[i]) <= limit
  }

  lemma LastChunk(cs: Charset, chunks: seq<string>, c: char, limit: nat)
    requires chunks != []
    ensures Concat(Extend(cs, chunks, c, limit)) == Concat(chunks) + [c]
  {
    var last, front := chunks[|chunks| - 1], chunks[..|chunks| - 1];
    var r := Extend(cs, chunks, c, limit);
    if |r| == |chunks| + 1 {
      assert r[..|chunks|] == chunks;
    } else {
      assert r[..|r| - 1] == front;
      assert Concat(front) + (last + [c]) == Concat(front) + last + [c];
    }
  }

  lemma {:induction false} ChunksConcat(cs: Charset, s: string, limit: nat)
    ensures Concat(Chunks(cs, s, limit)) == s
  {
    if s == [] {
      ConcatOne("");
    } else {
      ChunksConcat(cs, s[..|s| - 1], limit);
      LastChunk(cs, Chunks(cs, s[..|s| - 1], limit), s[|s| - 1], limit);
      Rejoin(s);
    }
  }

  lemma Rejoin(s: string)
    requires s != []
    ensures s[..|s| - 1] + [s[|s| - 1]] == s
  {}

  lemma ExtendFits(cs: Charset, chunks: seq<string>, c: char, limit: nat)
    requires chunks != [] && AllFit(cs, chunks, limit)
    requires cs.width(c) <= limit
    ensures AllFit(cs, Extend(cs, chunks, c, limit), limit)
  {
    WidthAppend(cs, chunks[|chunks| - 1], c);
    WidthAppend(cs, [], c);
    assert [] + [c] == [c];
  }

  /** The chunks spell the value, and none is wider than the limit. */
  lemma {:induction false} ChunksSpellValue(cs: Charset, s: string, limit: nat)
    requires cs.Sane() && limit >= 2
    ensures Concat(Chunks(cs, s, limit)) == s && AllFit(cs, Chunks(cs, s, limit), limit)
  {
    ChunksConcat(cs, s, limit);
    if s != [] {
      var front, c := s[..|s| - 1], s[|s| - 1];
      ChunksSpellValue(cs, front, limit);
      ExtendFits(cs, Chunks(cs, front, limit), c, limit);
    }
  }

  /** `longer` starts with the chunks of `short`, except that the last of them may have grown. */
  predicate GrowsFrom(short: seq<string>, longer: seq<string>) {
    && 0 < |short| <= |longer|
    && short[..|short| - 1] == longer[..|short| - 1]
    && short[|short| - 1] <= longer[|short| - 1]
  }

  lemma ExtendGrows(cs: Charset, short: seq<string>, chunks: seq<string>, c: char, limit: nat)
    requires chunks != [] && GrowsFrom(short, chunks)
    ensures GrowsFrom(short, Extend(cs, chunks, c, limit))
  {
    var k := |short| - 1;
    var longer := Extend(cs, chunks, c, limit);
    assert longer[..k] == chunks[..k];
    assert chunks[k] <= longer[k];
  }

  /** The chunks of a prefix are the chunks of the value, except that the last may have grown. */
  lemma {:induction false} ChunksOfPrefix(cs: Charset, s: string, k: nat, limit: nat)
    requires k <= |s|
    ensures GrowsFrom(Chunks(cs, s[..k], limit), Chunks(cs, s, limit))
  {
    if k == |s| {
      assert s[..k] == s;
    } else {
      var front := s[..|s| - 1];
      ChunksOfPrefix(cs, front, k, limit);
      assert front[..k] == s[..k];
      ExtendGrows(cs, Chunks(cs, front[..k], limit), Chunks(cs, front, limit), s[|s| - 1], limit);
    }
  }

  /** Dropping the last character of a division drops it from its last part. */
  lemma ConcatFront(parts: seq<string>, s: string, c: char)
    requires parts != [] && parts[|parts| - 1] != [] && Concat(parts) == s + [c]
    ensures var p := parts[|parts| - 1];
            && p[|p| - 1] == c
            && Concat(parts[..|parts| - 1] + [p[..|p| - 1]]) == s
  {
    var front, p := parts[..|parts| - 1], parts[|parts| - 1];
    var p' := p[..|p| - 1];
    assert p == p' + [p[|p| - 1]];
    assert Concat(parts) == (Concat(front) + p') + [p[|p| - 1]];
    assert (Concat(front) + p' + [p[|p| - 1]])[..|s|] == s;
    assert (front + [p'])[..|front|] == front;
  }

  /** Both last parts end the text, so the longer one is at least as wide. */
  lemma LongerIsWider(cs: Charset, a: string, x: string, b: string, y: string)
    requires a + x == b + y && |x| <= |y|
    ensures Width(cs, x) <= Width(cs, y)
  {
    var d := |y| - |x|;
    assert y[d..] == x by {
      assert (b + y)[|b| + d..] == y[d..];
      assert (a + x)[|a|..] == x;
    }
    assert y == y[..d] + y[d..];
    WidthConcat(cs, y[..d], x);
  }

  /** Greedy stays ahead: any division into parts that fit has at least as many parts, and with equally
      many its last part is at least as long. */
  lemma {:induction false} GreedyStaysAhead(cs: Charset, s: string, limit: nat, parts: seq<string>)
    requires parts != [] && Concat(parts) == s && AllFit(cs, parts, limit)
    ensures var chunks := Chunks(cs, s, limit);
            |parts| >= |chunks| && (|parts| == |chunks| ==> |parts[|parts| - 1]| >= |chunks[|chunks| - 1]|)
    decreases |s|, |parts|
  {
    var n := |parts|;
    var p := parts[n - 1];
    if s != [] {
      var front, c := s[..|s| - 1], s[|s| - 1];
      assert s == front + [c];
      if p == [] {
        assert n > 1 by { assert Concat(parts[..n - 1]) + p == s; }
        assert Concat(parts[..n - 1]) == s;
        GreedyStaysAhead(cs, s, limit, parts[..n - 1]);
      } else {
        ConcatFront(parts, front, c);
        var p' := p[..|p| - 1];
        assert p == p' + [c];
        WidthAppend(cs, p', c);
        var parts' := parts[..n - 1] + [p'];
        GreedyStaysAhead(cs, front, limit, parts');
        var chunks := Chunks(cs, front, limit);
        ChunksConcat(cs, front, limit);
        GreedyStep(cs, chunks, c, limit, parts', p);
      }
    }
  }

  lemma GreedyStep(cs: Charset, chunks: seq<string>, c: char, limit: nat, parts: seq<string>, p: string)
    requires chunks != [] && parts != [] && Concat(parts) == Concat(chunks)
    requires p == parts[|parts| - 1] + [c] && Width(cs, p) <= limit
    requires |parts| >= |chunks|
    requires |parts| == |chunks| ==> |parts[|parts| - 1]| >= |chunks[|chunks| - 1]|
    ensures var longer := Extend(cs, chunks, c, limit);
            |parts| >= |longer| && (|parts| == |longer| ==> |p| >= |longer[|longer| - 1]|)
  {
    if |parts| == |chunks| {
      var n := |parts|;
      LongerIsWider(cs, Concat(chunks[..n - 1]), chunks[n - 1], Concat(parts[..n - 1]), parts[n - 1]);
      WidthAppend(cs, parts[n - 1], c);
    }
  }

  // ---- padding and rows ------------------------------------------------------------------------

  function Spaces(n: nat): string {
    if n == 0 then [] else Spaces(n - 1) + [' ']
  }

  function Missing(cs: Charset, s: string, width: nat): nat {
    if Width(cs, s) >= width then 0 else width - Width(cs, s)
  }

  /** `pad_table_value` */
  function Pad(cs: Charset, s: string, width: nat): string {
    s + Spaces(Missing(cs, s, width))
  }

  function Row(cs: Charset, item: string, value: string): string {
    "| " + Pad(cs, item, LABEL_WIDTH) + " | " + Pad(cs, value, VALUE_WIDTH) + " |"
  }

  /** The rows of one field: the label stands on the first only. */
  function FieldRows(cs: Charset, item: string, chunks: seq<string>): (rows: seq<string>)
    ensures |rows| == |chunks|
  {
    if chunks == [] then []
    else FieldRows(cs, item, chunks[..|chunks| - 1])
         + [Row(cs, if |chunks| == 1 then item else "", chunks[|chunks| - 1])]
  }

  lemma {:induction false} SpacesSize(cs: Charset, n: nat)
    ensures JsonSize(Spaces(n)) == n
    ensures cs.width(' ') == 1 ==> Width(cs, Spaces(n)) == n
  {
    if n > 0 {
      SpacesSize(cs, n - 1);
      assert Spaces(n)[..|Spaces(n)| - 1] == Spaces(n - 1);
    }
  }

  lemma PadSize(cs: Charset, s: string, width: nat)
    ensures JsonSize(Pad(cs, s, width)) == JsonSize(s) + Missing(cs, s, width)
  {
    SpacesSize(cs, Missing(cs, s, width));
    JsonSizeConcat(s, Spaces(Missing(cs, s, width)));
  }

  lemma PadWidth(cs: Charset, s: string, width: nat)
    requires cs.Sane() && Width(cs, s) <= width
    ensures Width(cs, Pad(cs, s, width)) == width
  {
    SpacesSize(cs, Missing(cs, s, width));
    WidthConcat(cs, s, Spaces(Missing(cs, s, width)));
  }

  lemma RowSize(cs: Charset, item: string, value: string)
    ensures JsonSize(Row(cs, item, value))
         == 7 + JsonSize(Pad(cs, item, LABEL_WIDTH)) + JsonSize(Pad(cs, value, VALUE_WIDTH))
  {
    var a, b := Pad(cs, item, LABEL_WIDTH), Pad(cs, value, VALUE_WIDTH);
    JsonSizeConcat("| ", a);
    JsonSizeConcat("| " + a, " | ");
    JsonSizeConcat("| " + a + " | ", b);
    JsonSizeConcat("| " + a + " | " + b, " |");
    PlainSize("| ");
    PlainSize(" |");
    PlainSize(" | ");
  }

  lemma {:induction false} PlainSize(s: string)
    requires forall i :: 0 <= i < |s| ==> s[i] in {' ', '|'}
    ensures JsonSize(s) == |s|
  {
    if s != [] {
      PlainSize(s[..|s| - 1]);
    }
  }

  lemma {:induction false} PlainWidth(cs: Charset, s: string)
    requires cs.Sane() && forall i :: 0 <= i < |s| ==> ' ' <= s[i] <= '~'
    ensures Width(cs, s) == |s|
  {
    if s != [] {
      PlainWidth(cs, s[..|s| - 1]);
    }
  }

  lemma WidthOfFive(cs: Charset, a: string, b: string, c: string, d: string, e: string)
    ensures Width(cs, a + b + c + d + e) == Width(cs, a) + Width(cs, b) + Width(cs, c) + Width(cs, d) + Width(cs, e)
  {
    WidthConcat(cs, a, b);
    WidthConcat(cs, a + b, c);
    WidthConcat(cs, a + b + c, d);
    WidthConcat(cs, a + b + c + d, e);
  }

  /** Every row is 77 columns wide, whatever the characters of the value. */
  lemma RowWidth(cs: Charset, item: string, value: string)
    requires cs.Sane() && Width(cs, item) <= LABEL_WIDTH && Width(cs, value) <= VALUE_WIDTH
    ensures Width(cs, Row(cs, item, value)) == 77
  {
    PadWidth(cs, item, LABEL_WIDTH);
    PadWidth(cs, value, VALUE_WIDTH);
    WidthOfFive(cs, "| ", Pad(cs, item, LABEL_WIDTH), " | ", Pad(cs, value, VALUE_WIDTH), " |");
    PlainWidth(cs, "| ");
    PlainWidth(cs, " | ");
    PlainWidth(cs, " |");
  }

  lemma {:induction false} FieldRowsAligned(cs: Charset, item: string, chunks: seq<string>)
    requires cs.Sane() && Width(cs, item) <= LABEL_WIDTH && AllFit(cs, chunks, VALUE_WIDTH)
    ensures forall row :: row in FieldRows(cs, item, chunks) ==> Width(cs, row) == 77
  {
    if chunks != [] {
      var front, last := chunks[..|chunks| - 1], chunks[|chunks| - 1];
      FieldRowsAligned(cs, item, front);
      var l := if |chunks| == 1 then item else "";
      assert Width(cs, l) <= LABEL_WIDTH;
      RowWidth(cs, l, last);
    }
  }

  // ---- sizes -----------------------------------------------------------------------------------

  /** JSON size of lines, each with the newline (2 bytes) that follows it. */
  function LinesSize(lines: seq<string>): nat {
    if lines == [] then 0 else JsonSize(lines[0]) + 2 + LinesSize(lines[1..])
  }

  lemma {:induction false} LinesSizeConcat(a: seq<string>, b: seq<string>)
    ensures LinesSize(a + b) == LinesSize(a) + LinesSize(b)
  {
    if a == [] {
      assert a + b == b;
    } else {
      LinesSizeConcat(a[1..], b);
      assert (a + b)[1..] == a[1..] + b;
    }
  }

  lemma {:induction false} JoinSize(lines: seq<string>)
    requires lines != []
    ensures JsonSize(Join(lines, "\n")) + 2 == LinesSize(lines)
  {
    if |lines| == 1 {
      assert LinesSize(lines[1..]) == 0;
    } else {
      JoinSize(lines[1..]);
      var rest := Join(lines[1..], "\n");
      JsonSizeConcat(lines[0] + "\n", rest);
      JsonSizeConcat(lines[0], "\n");
      assert JsonSize("\n") == 2 by { assert "\n"[..0] == []; }
    }
  }

  lemma FieldRowsSize(cs: Charset, item: string, front: seq<string>, last: string)
    ensures LinesSize(FieldRows(cs, item, front + [last]))
         == LinesSize(FieldRows(cs, item, front)) + 9
            + JsonSize(Pad(cs, if front == [] then item else "", LABEL_WIDTH))
            + JsonSize(last) + Missing(cs, last, VALUE_WIDTH)
  {
    assert (front + [last])[..|front|] == front;
    var row := Row(cs, if front == [] then item else "", last);
    LinesSizeConcat(FieldRows(cs, item, front), [row]);
    assert LinesSize([row]) == JsonSize(row) + 2 by { assert [row][1..] == []; }
    RowSize(cs, if front == [] then item else "", last);
    PadSize(cs, last, VALUE_WIDTH);
  }

  /** One more character never makes a field smaller: it replaces at most as many padding spaces as
      it has columns, and it takes at least that many bytes. */
  lemma FieldGrows(cs: Charset, item: string, chunks: seq<string>, c: char)
    requires chunks != [] && cs.width(c) <= JsonBytes(c)
    ensures LinesSize(FieldRows(cs, item, chunks))
         <= LinesSize(FieldRows(cs, item, Extend(cs, chunks, c, VALUE_WIDTH)))
  {
    var front, last := chunks[..|chunks| - 1], chunks[|chunks| - 1];
    assert chunks == front + [last];
    var longer := Extend(cs, chunks, c, VALUE_WIDTH);
    if |longer| > |chunks| {
      FieldRowsSize(cs, item, chunks, [c]);
    } else {
      FieldRowsSize(cs, item, front, last);
      FieldRowsSize(cs, item, front, last + [c]);
      WidthAppend(cs, last, c);
      JsonAppend(last, c);
    }
  }

  lemma JsonAppend(s: string, c: char)
    ensures JsonSize(s + [c]) == JsonSize(s) + JsonBytes(c)
  {
    assert (s + [c])[..|s|] == s;
  }
}
