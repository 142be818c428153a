/** Reading and writing the Ansible inventory in bin/resize.py: sections in order of first appearance, a
    repeated section continued, lines before the first section dropped. */
module InventoryFile {
  import opened Wrappers
  import opened TextWords

  datatype Section = Section(name: string, lines: seq<string>)

  /** A Python dictionary keeps the order in which its keys were added. */
  type Inventory = seq<Section>

  // ---- lines and strings ---------------------------------------------------------------------------

  function TrimLeft(drop: char -> bool, s: string): (r: string)
    ensures |r| <= |s| && r == s[|s| - |r|..]
    ensures r != [] ==> !drop(r[0])
    ensures forall k :: 0 <= k < |s| - |r| ==> drop(s[k])
  {
    if s != [] && drop(s[0]) then TrimLeft(drop, s[1..]) else s
  }

  function TrimRight(drop: char -> bool, s: string): (r: string)
    ensures |r| <= |s| && r == s[..|r|]
    ensures r != [] ==> !drop(r[|r| - 1])
    ensures forall k :: |r| <= k < |s| ==> drop(s[k])
  {
    if s != [] && drop(s[|s| - 1]) then TrimRight(drop, s[..|s| - 1]) else s
  }

  /** `str.strip()` */
  function Strip(s: string): string {
    TrimRight(AsciiSpace, TrimLeft(AsciiSpace, s))
  }

  /** `s.split(c)[0]` */
  function Before(s: string, c: char): (r: string)
    ensures |r| <= |s| && r == s[..|r|] && c !in r
    ensures c in s ==> |r| < |s|
  {
    if s == [] || s[0] == c then [] else [s[0]] + Before(s[1..], c)
  }

  /** What follows the first `c`. */
  function After(s: string, c: char): (r: string)
    ensures |r| <= |s| && r == s[|s| - |r|..]
  {
    if s == [] then [] else if s[0] == c then s[1..] else After(s[1..], c)
  }

  /** The length of the first line, its newline included. */
  function LineLength(text: string): (n: nat)
    ensures n <= |text| && (text != [] ==> n > 0)
    ensures forall k :: 0 <= k < n - 1 ==> text[k] != '\n'
    ensures 0 < n < |text| ==> text[n - 1] == '\n'
  {
    if text == [] then 0 else if text[0] == '\n' then 1 else 1 + LineLength(text[1..])
  }

  /** `for line in file` */
  function Lines(text: string): seq<string>
    decreases |text|
  {
    if text == [] then [] else [text[..LineLength(text)]] + Lines(text[LineLength(text)..])
  }

  /** Something that can be one line: not empty, a newline nowhere but at its end. */
  predicate IsLine(s: string) {
    s != [] && forall k :: 0 <= k < |s| - 1 ==> s[k] != '\n'
  }

  predicate Terminated(s: string) {
    s != [] && s[|s| - 1] == '\n'
  }

  /** Only the last line may lack its newline. */
  predicate OnlyLastOpen(pieces: seq<string>) {
    forall k :: 0 <= k < |pieces| - 1 ==> Terminated(pieces[k])
  }

  lemma LineOfTerminated(s: string, rest: string)
    requires IsLine(s) && (Terminated(s) || rest == [])
    ensures LineLength(s + rest) == |s|
    ensures Lines(s + rest) == [s] + Lines(rest)
  {
    LengthOfTerminated(s, rest);
    assert (s + rest)[..|s|] == s && (s + rest)[|s|..] == rest;
  }

  lemma {:induction false} LengthOfTerminated(s: string, rest: string)
    requires IsLine(s) && (Terminated(s) || rest == [])
    ensures LineLength(s + rest) == |s|
  {
    if |s| > 1 {
      assert (s + rest)[1..] == s[1..] + rest;
      assert forall k :: 0 <= k < |s| - 2 ==> s[1..][k] == s[k + 1];
      LengthOfTerminated(s[1..], rest);
    } else if s[0] != '\n' {
      assert s + rest == s;
    }
  }

  /** An unterminated line takes the next one with it. */
  lemma {:induction false} OpenLineFuses(s: string, rest: string)
    requires IsLine(s) && !Terminated(s) && rest != []
    ensures |Lines(s + rest)| == |Lines(rest)|
  {
    LengthOfOpen(s, rest);
    var n := LineLength(rest);
    LinesStep(s + rest, |s| + n, rest[n..]);
    LinesStep(rest, n, rest[n..]);
  }

  lemma LinesStep(text: string, n: nat, tail: string)
    requires text != [] && n == LineLength(text) && tail == text[n..]
    ensures |Lines(text)| == 1 + |Lines(tail)|
  {}

  lemma {:induction false} LengthOfOpen(s: string, rest: string)
    requires IsLine(s) && !Terminated(s) && rest != []
    ensures LineLength(s + rest) == |s| + LineLength(rest)
  {
    assert s[0] != '\n' by {
      assert s[|s| - 1] != '\n';
    }
    if |s| > 1 {
      assert (s + rest)[1..] == s[1..] + rest;
      LengthOfOpen(s[1..], rest);
    } else {
      assert (s + rest)[1..] == rest;
    }
  }

  /** Pieces that are lines come back one for one exactly when none but the last is open. */
  lemma {:induction false} LinesOfPieces(pieces: seq<string>)
    requires forall k :: 0 <= k < |pieces| ==> IsLine(pieces[k])
    ensures OnlyLastOpen(pieces) ==> Lines(Concat(pieces)) == pieces
    ensures !OnlyLastOpen(pieces) ==> |Lines(Concat(pieces))| < |pieces|
  {
    if pieces != [] {
      var s, rest := pieces[0], Concat(pieces[1..]);
      ConcatFirst(pieces);
      LinesOfPieces(pieces[1..]);
      assert pieces == [s] + pieces[1..];
      if |pieces| == 1 {
        LineOfTerminated(s, rest);
      } else if Terminated(s) {
        LineOfTerminated(s, rest);
        assert OnlyLastOpen(pieces[1..]) ==> OnlyLastOpen(pieces);
        assert OnlyLastOpen(pieces) ==> OnlyLastOpen(pieces[1..]) by {
          assert forall k :: 0 <= k < |pieces| - 1 ==> pieces[1..][k] == pieces[k + 1];
        }
      } else {
        assert pieces[1] != [] && rest != [];
        OpenLineFuses(s, rest);
      }
    }
  }

  lemma {:induction false} LinesAreLines(text: string)
    ensures forall k :: 0 <= k < |Lines(text)| ==> IsLine(Lines(text)[k])
    ensures OnlyLastOpen(Lines(text))
    ensures Terminated(text) ==> forall k :: 0 <= k < |Lines(text)| ==> Terminated(Lines(text)[k])
    decreases |text|
  {
    if text != [] {
      LinesAreLines(text[LineLength(text)..]);
    }
  }

  // ---- reading -------------------------------------------------------------------------------------

  predicate IsHeader(line: string) {
    var s := Strip(line);
    s != [] && s[0] == '[' && s[|s| - 1] == ']'
  }

  /** `line.split('[')[1].split(']')[0]` */
  function HeaderName(line: string): string {
    Before(Before(After(line, '['), '['), ']')
  }

  /** The section a line opens. */
  function HeaderOf(line: string): Option<string> {
    if IsHeader(line) then Some(HeaderName(line)) else None
  }

  predicate Has(inventory: Inventory, name: string) {
    exists s :: s in inventory && s.name == name
  }

  function AddLine(inventory: Inventory, name: string, line: string): (r: Inventory)
    ensures |r| == |inventory|
    ensures forall k :: 0 <= k < |r| ==> r[k].name == inventory[k].name
  {
    if inventory == [] then []
    else if inventory[0].name == name then [Section(name, inventory[0].lines + [line])] + inventory[1..]
    else [inventory[0]] + AddLine(inventory[1..], name, line)
  }

  datatype Reading = Reading(inventory: Inventory, current: Option<string>)

  /** One line; `header` is HeaderOf. */
  function ReadLine(header: string -> Option<string>, r: Reading, line: string): Reading {
    match header(line)
    case Some(name) =>
      Reading(if Has(r.inventory, name) then r.inventory else r.inventory + [Section(name, [])], Some(name))
    case None =>
      if r.current.None? then r else r.(inventory := AddLine(r.inventory, r.current.value, line))
  }

  function ReadAll(header: string -> Option<string>, lines: seq<string>): Reading {
    if lines == [] then Reading([], None)
    else ReadLine(header, ReadAll(header, lines[..|lines| - 1]), lines[|lines| - 1])
  }

  lemma ReadAllMore(header: string -> Option<string>, lines: seq<string>, line: string)
    ensures ReadAll(header, lines + [line]) == ReadLine(header, ReadAll(header, lines), line)
  {
    assert (lines + [line])[..|lines|] == lines;
  }

  function Parse(text: string): Inventory {
    ReadAll(HeaderOf, Lines(text)).inventory
  }

  /** `parse_inventory` */
  method ParseInventory(text: string) returns (inventory: Inventory)
    ensures inventory == Parse(text)
  {
    inventory := ReadLines(HeaderOf, Lines(text));
  }

  method ReadLines(header: string -> Option<string>, lines: seq<string>) returns (inventory: Inventory)
    ensures inventory == ReadAll(header, lines).inventory
  {
    inventory := [];
    var current: Option<string> := None;
    for k := 0 to |lines|
      invariant ReadAll(header, lines[..k]) == Reading(inventory, current)
    {
      ReadAllMore(header, lines[..k], lines[k]);
      assert lines[..k + 1] == lines[..k] + [lines[k]];
      var name := header(lines[k]);
      if name.Some? {
        current := name;
        if !Has(inventory, name.value) {
          inventory := inventory + [Section(name.value, [])];
        }
      } else if current.Some? {
        inventory := AddLine(inventory, current.value, lines[k]);
      }
    }
    assert lines[..|lines|] == lines;
  }

  // ---- writing -------------------------------------------------------------------------------------

  function Header(name: string): string {
    "[" + name + "]\n"
  }

  /** What `write` is called with, in order. */
  function Pieces(inventory: Inventory): seq<string> {
    if inventory == [] then []
    else
      var last := inventory[|inventory| - 1];
      Pieces(inventory[..|inventory| - 1]) + [Header(last.name)] + last.lines
  }

  function Print(inventory: Inventory): string {
    Concat(Pieces(inventory))
  }

  lemma ConcatMore(pieces: seq<string>, s: string)
    ensures Concat(pieces + [s]) == Concat(pieces) + s
  {
    assert (pieces + [s])[..|pieces|] == pieces;
  }

  /** `write_inventory` */
  method WriteInventory(inventory: Inventory) returns (text: string)
    ensures text == Print(inventory)
  {
    text := "";
    for k := 0 to |inventory|
      invariant text == Print(inventory[..k])
    {
      var section := inventory[k];
      ghost var pieces := Pieces(inventory[..k]) + [Header(section.name)];
      ConcatMore(Pieces(inventory[..k]), Header(section.name));
      text := text + Header(section.name);
      assert pieces + section.lines[..0] == pieces;
      for j := 0 to |section.lines|
        invariant text == Concat(pieces + section.lines[..j])
      {
        ConcatMore(pieces + section.lines[..j], section.lines[j]);
        assert pieces + section.lines[..j + 1] == pieces + section.lines[..j] + [section.lines[j]];
        text := text + section.lines[j];
      }
      assert section.lines[..|section.lines|] == section.lines;
      assert inventory[..k + 1][..k] == inventory[..k];
    }
    assert inventory[..|inventory|] == inventory;
  }

  // ---- reading what was written, writing what was read ---------------------------------------------

  predicate NameOk(name: string) {
    '[' !in name && ']' !in name && '\n' !in name
  }

  predicate BodyLine(header: string -> Option<string>, line: string) {
    IsLine(line) && header(line).None?
  }

  ghost predicate SectionOk(header: string -> Option<string>, s: Section) {
    NameOk(s.name) && forall k :: 0 <= k < |s.lines| ==> BodyLine(header, s.lines[k])
  }

  /** What an inventory read from a file looks like. */
  ghost predicate Shaped(header: string -> Option<string>, inventory: Inventory) {
    && (forall k :: 0 <= k < |inventory| ==> SectionOk(header, inventory[k]))
    && (forall j, k :: 0 <= j < k < |inventory| ==> inventory[j].name != inventory[k].name)
  }

  /** A written header is read as the section it was written for. */
  ghost predicate ReadsHeaders(header: string -> Option<string>) {
    forall name :: NameOk(name) ==> header(Header(name)) == Some(name)
  }

  lemma HeaderIsLine(name: string)
    requires NameOk(name)
    ensures IsLine(Header(name)) && Terminated(Header(name))
  {
    var h := Header(name);
    forall k | 0 <= k < |h| - 1
      ensures h[k] != '\n'
    {
      if 0 < k < |h| - 2 {
        assert h[k] == name[k - 1];
      }
    }
  }

  lemma HeaderStrips(name: string)
    ensures Strip(Header(name)) == "[" + name + "]"
  {
    var h := Header(name);
    assert h[0] == '[' && h[|h| - 2] == ']' && h[|h| - 1] == '\n';
    assert TrimLeft(AsciiSpace, h) == h;
    assert h[..|h| - 1] == "[" + name + "]";
  }

  lemma HeaderNames(name: string)
    requires NameOk(name)
    ensures HeaderName(Header(name)) == name
  {
    var h := Header(name);
    assert After(h, '[') == h[1..] == name + "]\n";
    BeforeNone(name + "]\n", '[');
    assert name + "]\n" == name + [']'] + "\n";
    BeforeAt(name, ']', "\n");
  }

  lemma HeaderReadsBack(name: string)
    requires NameOk(name)
    ensures HeaderOf(Header(name)) == Some(name)
  {
    HeaderStrips(name);
    HeaderNames(name);
  }

  lemma HeadersReadBack()
    ensures ReadsHeaders(HeaderOf)
  {
    forall name | NameOk(name)
      ensures HeaderOf(Header(name)) == Some(name)
    {
      HeaderReadsBack(name);
    }
  }

  lemma {:induction false} BeforeNone(s: string, c: char)
    requires c !in s
    ensures Before(s, c) == s
  {
    if s != [] {
      BeforeNone(s[1..], c);
    }
  }

  lemma {:induction false} BeforeAt(s: string, c: char, rest: string)
    requires c !in s
    ensures Before(s + [c] + rest, c) == s
  {
    if s != [] {
      BeforeAt(s[1..], c, rest);
      assert (s + [c] + rest)[1..] == s[1..] + [c] + rest;
    }
  }

  lemma {:induction false} PiecesAreLines(header: string -> Option<string>, inventory: Inventory)
    requires Shaped(header, inventory)
    ensures forall k :: 0 <= k < |Pieces(inventory)| ==> IsLine(Pieces(inventory)[k])
  {
    if inventory != [] {
      var last := inventory[|inventory| - 1];
      PiecesAreLines(header, inventory[..|inventory| - 1]);
      HeaderIsLine(last.name);
      assert SectionOk(header, last);
      var front := Pieces(inventory[..|inventory| - 1]);
      forall k | 0 <= k < |Pieces(inventory)|
        ensures IsLine(Pieces(inventory)[k])
      {
        if k > |front| {
          assert Pieces(inventory)[k] == last.lines[k - |front| - 1];
        }
      }
    }
  }

  lemma {:induction false} AddToLast(inventory: Inventory, s: Section, line: string)
    requires !Has(inventory, s.name)
    ensures AddLine(inventory + [s], s.name, line) == inventory + [Section(s.name, s.lines + [line])]
  {
    var all := inventory + [s];
    if inventory != [] {
      assert inventory[0] in inventory;
      assert all[1..] == inventory[1..] + [s];
      AddToLast(inventory[1..], s, line);
    }
  }

  lemma ReadHeader(header: string -> Option<string>, before: seq<string>, front: Inventory, s: Section)
    requires ReadsHeaders(header) && NameOk(s.name) && s.lines == []
    requires ReadAll(header, before).inventory == front && !Has(front, s.name)
    ensures ReadAll(header, before + [Header(s.name)]) == Reading(front + [s], Some(s.name))
  {
    ReadAllMore(header, before, Header(s.name));
  }

  lemma ReadBody(header: string -> Option<string>, before: seq<string>, front: Inventory, s: Section, line: string)
    requires header(line).None? && !Has(front, s.name)
    requires ReadAll(header, before) == Reading(front + [s], Some(s.name))
    ensures ReadAll(header, before + [line]) == Reading(front + [Section(s.name, s.lines + [line])], Some(s.name))
  {
    ReadAllMore(header, before, line);
    AddToLast(front, s, line);
  }

  /** After `n` lines of a section. */
  lemma {:induction false} ReadSection(header: string -> Option<string>, before: seq<string>, front: Inventory,
                                       s: Section, n: nat)
    requires ReadsHeaders(header) && SectionOk(header, s) && n <= |s.lines|
    requires ReadAll(header, before).inventory == front && !Has(front, s.name)
    ensures ReadAll(header, before + [Header(s.name)] + s.lines[..n])
         == Reading(front + [Section(s.name, s.lines[..n])], Some(s.name))
  {
    var pieces := before + [Header(s.name)];
    if n == 0 {
      ReadHeader(header, before, front, Section(s.name, []));
      assert pieces + s.lines[..n] == pieces;
    } else {
      ReadSection(header, before, front, s, n - 1);
      assert BodyLine(header, s.lines[n - 1]);
      ReadBody(header, pieces + s.lines[..n - 1], front, Section(s.name, s.lines[..n - 1]), s.lines[n - 1]);
      assert s.lines[..n] == s.lines[..n - 1] + [s.lines[n - 1]];
      assert pieces + s.lines[..n] == (pieces + s.lines[..n - 1]) + [s.lines[n - 1]];
    }
  }

  lemma PiecesStep(header: string -> Option<string>, front: Inventory, s: Section)
    requires ReadsHeaders(header) && SectionOk(header, s) && !Has(front, s.name)
    requires ReadAll(header, Pieces(front)).inventory == front
    ensures ReadAll(header, Pieces(front + [s])).inventory == front + [s]
  {
    PiecesOfSum(front, s);
    ReadSection(header, Pieces(front), front, s, |s.lines|);
    assert s.lines[..|s.lines|] == s.lines;
  }

  lemma NextIsNew(header: string -> Option<string>, inventory: Inventory, n: nat)
    requires Shaped(header, inventory) && n < |inventory|
    ensures SectionOk(header, inventory[n]) && !Has(inventory[..n], inventory[n].name)
    ensures inventory[..n + 1] == inventory[..n] + [inventory[n]]
  {}

  lemma PiecesOfNext(header: string -> Option<string>, all: Inventory, front: Inventory, s: Section)
    requires ReadsHeaders(header) && SectionOk(header, s) && !Has(front, s.name) && all == front + [s]
    requires ReadAll(header, Pieces(front)).inventory == front
    ensures ReadAll(header, Pieces(all)).inventory == all
  {
    PiecesStep(header, front, s);
  }

  lemma {:induction false} PiecesReadBack(header: string -> Option<string>, inventory: Inventory, n: nat)
    requires ReadsHeaders(header) && Shaped(header, inventory) && n <= |inventory|
    ensures ReadAll(header, Pieces(inventory[..n])).inventory == inventory[..n]
  {
    if n > 0 {
      PiecesReadBack(header, inventory, n - 1);
      NextIsNew(header, inventory, n - 1);
      PiecesOfNext(header, inventory[..n], inventory[..n - 1], inventory[n - 1]);
    }
  }

  function Size(inventory: Inventory): nat {
    if inventory == [] then 0
    else Size(inventory[..|inventory| - 1]) + 1 + |inventory[|inventory| - 1].lines|
  }

  lemma {:induction false} SizeIsPieces(inventory: Inventory)
    ensures Size(inventory) == |Pieces(inventory)|
  {
    if inventory != [] {
      SizeIsPieces(inventory[..|inventory| - 1]);
    }
  }

  lemma {:induction false} SizeSplit(a: Inventory, b: Inventory)
    ensures Size(a + b) == Size(a) + Size(b)
  {
    if b == [] {
      assert a + b == a;
    } else {
      SizeSplit(a, b[..|b| - 1]);
      assert (a + b)[..|a + b| - 1] == a + b[..|b| - 1];
    }
  }

  lemma SizeOfOne(s: Section)
    ensures Size([s]) == 1 + |s.lines|
  {
    assert [s][..0] == [];
  }

  lemma {:induction false} SizeAfterLine(inventory: Inventory, name: string, line: string)
    ensures Size(AddLine(inventory, name, line)) <= Size(inventory) + 1
  {
    if inventory != [] {
      var s := inventory[0];
      assert inventory == [s] + inventory[1..];
      SizeSplit([s], inventory[1..]);
      SizeOfOne(s);
      if s.name == name {
        SizeSplit([Section(name, s.lines + [line])], inventory[1..]);
        SizeOfOne(Section(name, s.lines + [line]));
      } else {
        SizeSplit([s], AddLine(inventory[1..], name, line));
        SizeAfterLine(inventory[1..], name, line);
      }
    }
  }

  lemma {:induction false} SizeIsBounded(header: string -> Option<string>, lines: seq<string>)
    ensures Size(ReadAll(header, lines).inventory) <= |lines|
  {
    if lines != [] {
      var r := ReadAll(header, lines[..|lines| - 1]);
      var line := lines[|lines| - 1];
      SizeIsBounded(header, lines[..|lines| - 1]);
      if header(line).Some? {
        SizeSplit(r.inventory, [Section(header(line).value, [])]);
        SizeOfOne(Section(header(line).value, []));
      } else if r.current.Some? {
        SizeAfterLine(r.inventory, r.current.value, line);
      }
    }
  }

  /** An inventory that is written and read again comes back, in order, exactly when no line but the last one
      written lacks its newline. */
  lemma {:induction false} RoundTrip(inventory: Inventory)
    requires Shaped(HeaderOf, inventory)
    ensures Parse(Print(inventory)) == inventory <==> OnlyLastOpen(Pieces(inventory))
  {
    HeadersReadBack();
    PiecesAreLines(HeaderOf, inventory);
    LinesOfPieces(Pieces(inventory));
    PiecesReadBack(HeaderOf, inventory, |inventory|);
    assert inventory[..|inventory|] == inventory;
    SizeIsPieces(inventory);
    SizeIsBounded(HeaderOf, Lines(Print(inventory)));
  }

  // ---- the shape of what is read -------------------------------------------------------------------

  /** Header names that can come up in a file. */
  ghost predicate GoodNames(header: string -> Option<string>, lines: seq<string>) {
    forall k :: 0 <= k < |lines| && header(lines[k]).Some? ==> NameOk(header(lines[k]).value)
  }

  ghost predicate Current(r: Reading) {
    r.current.Some? ==> Has(r.inventory, r.current.value)
  }

  lemma {:induction false} AddLineShape(header: string -> Option<string>, inventory: Inventory, name: string,
                                        line: string)
    requires (forall k :: 0 <= k < |inventory| ==> SectionOk(header, inventory[k])) && BodyLine(header, line)
    ensures forall k :: 0 <= k < |inventory| ==> SectionOk(header, AddLine(inventory, name, line)[k])
  {
    if inventory != [] {
      if inventory[0].name == name {
        assert SectionOk(header, inventory[0]);
        assert SectionOk(header, Section(name, inventory[0].lines + [line]));
      } else {
        AddLineShape(header, inventory[1..], name, line);
      }
    }
  }

  lemma ReadLineShape(header: string -> Option<string>, r: Reading, line: string)
    requires Shaped(header, r.inventory) && Current(r) && IsLine(line)
    requires header(line).Some? ==> NameOk(header(line).value)
    ensures Shaped(header, ReadLine(header, r, line).inventory) && Current(ReadLine(header, r, line))
  {
    var next := ReadLine(header, r, line);
    if header(line).Some? {
      var s := Section(header(line).value, []);
      if !Has(r.inventory, s.name) {
        assert next.inventory[|r.inventory|] == s;
      }
    } else if r.current.Some? {
      AddLineShape(header, r.inventory, r.current.value, line);
      var s :| s in r.inventory && s.name == r.current.value;
      var k :| 0 <= k < |r.inventory| && r.inventory[k] == s;
      assert next.inventory[k].name == s.name;
    }
  }

  lemma {:induction false} ReadAllShape(header: string -> Option<string>, lines: seq<string>)
    requires GoodNames(header, lines) && forall k :: 0 <= k < |lines| ==> IsLine(lines[k])
    ensures Shaped(header, ReadAll(header, lines).inventory) && Current(ReadAll(header, lines))
  {
    if lines != [] {
      var front := lines[..|lines| - 1];
      assert forall k :: 0 <= k < |front| ==> front[k] == lines[k];
      ReadAllShape(header, front);
      ReadLineShape(header, ReadAll(header, front), lines[|lines| - 1]);
    }
  }

  lemma {:induction false} AfterHas(s: string, c: char, d: char, i: nat, j: nat)
    requires c != d && i < j < |s| && s[i] == c && s[j] == d
    ensures d in After(s, c)
  {
    if s[0] == c {
      assert s[1..][j - 1] == d;
    } else {
      AfterHas(s[1..], c, d, i - 1, j - 1);
    }
  }

  lemma StripEnds(s: string) returns (i: nat, j: nat)
    requires Strip(s) != []
    ensures i <= j < |s| && s[i] == Strip(s)[0] && s[j] == Strip(s)[|Strip(s)| - 1]
    ensures |Strip(s)| > 1 ==> i < j
  {
    var left := TrimLeft(AsciiSpace, s);
    i := |s| - |left|;
    j := i + |Strip(s)| - 1;
    assert s[i] == left[0] && s[j] == left[|Strip(s)| - 1];
  }

  lemma NameIsInside(rest: string)
    requires ']' in rest
    ensures var name := Before(Before(rest, '['), ']');
      |name| < |rest| && name == rest[..|name|] && '[' !in name && ']' !in name
  {
    var first := Before(rest, '[');
    var name := Before(first, ']');
    if '[' !in rest {
      BeforeNone(rest, '[');
    }
    assert name == first[..|name|] == rest[..|name|];
  }

  /** The name of a header line never reaches its newline. */
  lemma NameFromLine(line: string)
    requires IsLine(line) && IsHeader(line)
    ensures NameOk(HeaderName(line))
  {
    var i, j := StripEnds(line);
    NameBetween(line, i, j);
  }

  lemma NameBetween(line: string, i: nat, j: nat)
    requires IsLine(line) && i < j < |line| && line[i] == '[' && line[j] == ']'
    ensures NameOk(HeaderName(line))
  {
    AfterHas(line, '[', ']', i, j);
    var rest := After(line, '[');
    NameIsInside(rest);
    NoNewlineInside(line, rest, HeaderName(line));
  }

  lemma NoNewlineInside(line: string, rest: string, name: string)
    requires IsLine(line) && |rest| <= |line| && rest == line[|line| - |rest|..]
    requires |name| < |rest| && name == rest[..|name|]
    ensures '\n' !in name
  {
    forall k | 0 <= k < |name|
      ensures name[k] != '\n'
    {
      assert name[k] == rest[k] == line[|line| - |rest| + k];
    }
  }

  /** Whatever the file, what is read from it has the shape RoundTrip asks for. */
  lemma ParseShape(text: string)
    ensures Shaped(HeaderOf, Parse(text))
  {
    LinesAreLines(text);
    var lines := Lines(text);
    forall k | 0 <= k < |lines| && HeaderOf(lines[k]).Some?
      ensures NameOk(HeaderOf(lines[k]).value)
    {
      NameFromLine(lines[k]);
    }
    ReadAllShape(HeaderOf, lines);
  }

  ghost predicate AllTerminated(lines: seq<string>) {
    forall k :: 0 <= k < |lines| ==> Terminated(lines[k])
  }

  ghost predicate Closed(inventory: Inventory) {
    forall k :: 0 <= k < |inventory| ==> AllTerminated(inventory[k].lines)
  }

  lemma {:induction false} AddLineCloses(inventory: Inventory, name: string, line: string)
    requires Closed(inventory) && Terminated(line)
    ensures Closed(AddLine(inventory, name, line))
  {
    if inventory != [] {
      assert AllTerminated(inventory[0].lines);
      if inventory[0].name == name {
        assert AllTerminated(inventory[0].lines + [line]);
      } else {
        AddLineCloses(inventory[1..], name, line);
      }
    }
  }

  lemma {:induction false} ReadAllCloses(header: string -> Option<string>, lines: seq<string>)
    requires AllTerminated(lines)
    ensures Closed(ReadAll(header, lines).inventory)
  {
    if lines != [] {
      var r := ReadAll(header, lines[..|lines| - 1]);
      ReadAllCloses(header, lines[..|lines| - 1]);
      if header(lines[|lines| - 1]).None? && r.current.Some? {
        AddLineCloses(r.inventory, r.current.value, lines[|lines| - 1]);
      }
    }
  }

  lemma {:induction false} PiecesClosed(inventory: Inventory)
    requires Closed(inventory)
    ensures AllTerminated(Pieces(inventory))
  {
    if inventory != [] {
      var last := inventory[|inventory| - 1];
      PiecesClosed(inventory[..|inventory| - 1]);
      assert AllTerminated(last.lines) && Terminated(Header(last.name));
    }
  }

  /** Nothing read from a file that ends with a newline is lost by writing it back. */
  lemma NothingLost(text: string)
    requires text == "" || Terminated(text)
    ensures Parse(Print(Parse(text))) == Parse(text)
  {
    ParseShape(text);
    LinesAreLines(text);
    ReadAllCloses(HeaderOf, Lines(text));
    PiecesClosed(Parse(text));
    RoundTrip(Parse(text));
  }

  // ---- a last line without its newline -------------------------------------------------------------

  /** The reader's state before the last line. */
  function BeforeLast(text: string): Reading
    requires text != ""
  {
    ReadAll(HeaderOf, Lines(text)[..|Lines(text)| - 1])
  }

  /** The file's last line lacks its newline and continues a section that was not opened last: written back,
      it is no longer at the end. */
  predicate Swallows(text: string) {
    text != "" && !Terminated(text) &&
    var r, last := BeforeLast(text), Lines(text)[|Lines(text)| - 1];
    && HeaderOf(last).None? && r.current.Some?
    && r.inventory != [] && r.inventory[|r.inventory| - 1].name != r.current.value
  }

  lemma {:induction false} LastLineOpen(text: string)
    requires text != ""
    ensures var lines := Lines(text);
      && lines != [] && (Terminated(text) <==> Terminated(lines[|lines| - 1]))
      && forall k :: 0 <= k < |lines| - 1 ==> Terminated(lines[k])
    decreases |text|
  {
    LinesAreLines(text);
    var n := LineLength(text);
    if n < |text| {
      LastLineOpen(text[n..]);
      assert Terminated(text[n..]) <==> Terminated(text);
    } else {
      assert text[..n] == text && text[n..] == "";
    }
  }

  lemma {:induction false} AddedIsPiece(inventory: Inventory, name: string, line: string)
    requires Has(inventory, name)
    ensures line in Pieces(AddLine(inventory, name, line))
  {
    var n := |inventory| - 1;
    var front, s := inventory[..n], inventory[n];
    assert inventory == front + [s];
    if Has(front, name) {
      AddedIsPiece(front, name, line);
      AddFront(front, s, name, line);
      PiecesOfSum(AddLine(front, name, line), s);
    } else {
      AddToLast(front, s, line);
      PiecesOfSum(front, Section(s.name, s.lines + [line]));
    }
  }

  lemma {:induction false} AddFront(front: Inventory, s: Section, name: string, line: string)
    requires Has(front, name)
    ensures AddLine(front + [s], name, line) == AddLine(front, name, line) + [s]
  {
    assert (front + [s])[1..] == front[1..] + [s];
    if front[0].name != name {
      AddFront(front[1..], s, name, line);
    }
  }

  lemma PiecesOfSum(front: Inventory, s: Section)
    ensures Pieces(front + [s]) == Pieces(front) + [Header(s.name)] + s.lines
  {
    assert (front + [s])[..|front|] == front;
  }

  lemma OpenAtTheEnd(front: Inventory, s: Section, line: string)
    requires Closed(front + [s]) && !Has(front, s.name) && NameOk(s.name)
    ensures OnlyLastOpen(Pieces(AddLine(front + [s], s.name, line)))
  {
    AddToLast(front, s, line);
    PiecesOfSum(front, Section(s.name, s.lines + [line]));
    assert (front + [s])[|front|] == s && AllTerminated(s.lines);
    ClosedFront(front, s);
    PiecesClosed(front);
    HeaderIsLine(s.name);
    assert Pieces(front) + [Header(s.name)] + (s.lines + [line])
      == (Pieces(front) + [Header(s.name)] + s.lines) + [line];
  }

  lemma ClosedFront(front: Inventory, s: Section)
    requires Closed(front + [s])
    ensures Closed(front)
  {
    forall k | 0 <= k < |front|
      ensures AllTerminated(front[k].lines)
    {
      assert (front + [s])[k] == front[k];
    }
  }

  lemma OpenBefore(pieces: seq<string>, more: string, rest: seq<string>, line: string)
    requires line in pieces && !Terminated(line)
    ensures !OnlyLastOpen(pieces + [more] + rest)
  {
    var k :| 0 <= k < |pieces| && pieces[k] == line;
    assert (pieces + [more] + rest)[k] == line;
  }

  lemma OpenInTheMiddle(front: Inventory, s: Section, name: string, line: string)
    requires Has(front, name) && !Terminated(line)
    ensures !OnlyLastOpen(Pieces(AddLine(front + [s], name, line)))
  {
    AddFront(front, s, name, line);
    PiecesOfSum(AddLine(front, name, line), s);
    AddedIsPiece(front, name, line);
    OpenBefore(Pieces(AddLine(front, name, line)), Header(s.name), s.lines, line);
  }

  /** Closed but for a line appended to one section: only the last piece is open when it is the last section. */
  lemma OpenLineDecides(inventory: Inventory, name: string, line: string)
    requires Shaped(HeaderOf, inventory) && Closed(inventory) && Has(inventory, name) && !Terminated(line)
    ensures OnlyLastOpen(Pieces(AddLine(inventory, name, line))) <==> inventory[|inventory| - 1].name == name
  {
    var n := |inventory| - 1;
    NextIsNew(HeaderOf, inventory, n);
    var front, s := inventory[..n], inventory[n];
    assert inventory == front + [s];
    if s.name == name {
      OpenAtTheEnd(front, s, line);
    } else {
      assert Has(front, name);
      OpenInTheMiddle(front, s, name, line);
    }
  }

  /** A file is changed by reading and writing it back exactly when its last line lacks the newline and
      continues a section other than the one opened last. */
  lemma LostExactly(text: string)
    ensures Parse(Print(Parse(text))) != Parse(text) <==> Swallows(text)
  {
    if text == "" || Terminated(text) {
      NothingLost(text);
    } else {
      LastLineOpen(text);
      ParseShape(text);
      RoundTrip(Parse(text));
      OpenEnd(text);
    }
  }

  lemma OpenEnd(text: string)
    requires text != "" && !Terminated(text)
    ensures OnlyLastOpen(Pieces(Parse(text))) <==> !Swallows(text)
  {
    LastLineOpen(text);
    LinesAreLines(text);
    var lines := Lines(text);
    var front, last := lines[..|lines| - 1], lines[|lines| - 1];
    assert AllTerminated(front);
    var r := BeforeLast(text);
    FrontShape(text);
    ReadAllCloses(HeaderOf, front);
    if HeaderOf(last).None? && r.current.Some? {
      OpenLineDecides(r.inventory, r.current.value, last);
    } else {
      ClosedByHeader(r, last);
      PiecesClosed(Parse(text));
    }
  }

  lemma FrontShape(text: string)
    requires text != ""
    ensures Shaped(HeaderOf, BeforeLast(text).inventory) && Current(BeforeLast(text))
  {
    LinesAreLines(text);
    var front := Lines(text)[..|Lines(text)| - 1];
    forall k | 0 <= k < |front| && HeaderOf(front[k]).Some?
      ensures NameOk(HeaderOf(front[k]).value)
    {
      NameFromLine(front[k]);
    }
    ReadAllShape(HeaderOf, front);
  }

  lemma ClosedByHeader(r: Reading, line: string)
    requires Closed(r.inventory) && (HeaderOf(line).Some? || r.current.None?)
    ensures Closed(ReadLine(HeaderOf, r, line).inventory)
  {}

  /** A file whose unterminated last line `y` continues its first section. */
  function Returning(a: string, b: string, x: string, y: string): seq<string> {
    [Header(a), Header(b), x, Header(a), y]
  }

  lemma ReadNext(header: string -> Option<string>, lines: seq<string>, r: Reading, line: string, next: Reading)
    requires ReadAll(header, lines) == r && ReadLine(header, r, line) == next
    ensures ReadAll(header, lines + [line]) == next
  {
    ReadAllMore(header, lines, line);
  }

  lemma ReadOpening(header: string -> Option<string>, lines: seq<string>, ha: string, a: string, hb: string, b: string,
                    x: string)
    requires header(ha) == Some(a) && header(hb) == Some(b) && a != b && header(x).None?
    requires lines == [ha] + [hb] + [x]
    ensures ReadAll(header, lines) == Reading([Section(a, [])] + [Section(b, [x])], Some(b))
  {
    var none, s, t := Reading([], None), Section(a, []), Section(b, []);
    var r1, r2 := Reading([s], Some(a)), Reading([s] + [t], Some(b));
    assert ReadAll(header, []) == none;
    assert ReadLine(header, none, ha) == r1;
    ReadNext(header, [], none, ha, r1);
    assert [] + [ha] == [ha];
    assert ReadLine(header, r1, hb) == r2;
    ReadNext(header, [ha], r1, hb, r2);
    AddToLast([s], t, x);
    assert t.lines + [x] == [x];
    ReadNext(header, [ha] + [hb], r2, x, Reading([s] + [Section(b, [x])], Some(b)));
  }

  lemma ReadReturn(header: string -> Option<string>, lines: seq<string>, ha: string, a: string, t: Section, y: string)
    requires header(ha) == Some(a) && header(y).None?
    requires ReadAll(header, lines).inventory == [Section(a, [])] + [t]
    ensures ReadAll(header, lines + [ha] + [y]).inventory == [Section(a, [y])] + [t]
  {
    var r, s := ReadAll(header, lines), Section(a, []);
    var back := Reading(r.inventory, Some(a));
    assert r.inventory[0] == s && r.inventory[1..] == [t];
    assert ReadLine(header, r, ha) == back;
    ReadNext(header, lines, r, ha, back);
    assert s.lines + [y] == [y];
    ReadNext(header, lines + [ha], back, y, Reading([Section(a, [y])] + [t], Some(a)));
  }

  lemma ReturningReads(header: string -> Option<string>, ha: string, a: string, hb: string, b: string, x: string,
                       y: string)
    requires header(ha) == Some(a) && header(hb) == Some(b) && a != b && header(x).None? && header(y).None?
    ensures ReadAll(header, [ha, hb, x, ha, y]).inventory == [Section(a, [y]), Section(b, [x])]
  {
    var opening := [ha] + [hb] + [x];
    ReadOpening(header, opening, ha, a, hb, b, x);
    ReadReturn(header, opening, ha, a, Section(b, [x]), y);
    InARow(ha, hb, x, ha, y, Section(a, [y]), Section(b, [x]));
  }

  lemma InARow(a: string, b: string, c: string, d: string, e: string, s: Section, t: Section)
    ensures [a] + [b] + [c] + [d] + [e] == [a, b, c, d, e] && [s] + [t] == [s, t]
  {}

  lemma ReturningLines(a: string, b: string, x: string, y: string)
    requires NameOk(a) && NameOk(b) && IsLine(x) && Terminated(x) && IsLine(y)
    ensures Lines(Concat(Returning(a, b, x, y))) == Returning(a, b, x, y)
  {
    HeaderIsLine(a);
    HeaderIsLine(b);
    LinesOfPieces(Returning(a, b, x, y));
  }

  lemma ReturningParses(header: string -> Option<string>, a: string, b: string, x: string, y: string)
    requires NameOk(a) && NameOk(b) && a != b && ReadsHeaders(header)
    requires BodyLine(header, x) && Terminated(x) && BodyLine(header, y)
    ensures ReadAll(header, Lines(Concat(Returning(a, b, x, y)))).inventory == [Section(a, [y]), Section(b, [x])]
  {
    ReturningLines(a, b, x, y);
    ReturningReads(header, Header(a), a, Header(b), b, x, y);
  }

  /** Written back, `y` takes the header of the second section with it, and that section is lost. */
  lemma {:induction false} ReturningIsLost(a: string, b: string, x: string, y: string)
    requires NameOk(a) && NameOk(b) && a != b
    requires BodyLine(HeaderOf, x) && Terminated(x) && BodyLine(HeaderOf, y) && !Terminated(y)
    ensures var text := Concat(Returning(a, b, x, y));
      && Parse(text) == [Section(a, [y]), Section(b, [x])]
      && Print(Parse(text)) == Concat([Header(a), y, Header(b), x])
      && Parse(Print(Parse(text))) != Parse(text)
  {
    HeadersReadBack();
    ReturningParses(HeaderOf, a, b, x, y);
    ReturningPrints(a, b, x, y);
    ParseShape(Concat(Returning(a, b, x, y)));
    OpenSecond(a, b, x, y);
  }

  lemma OpenSecond(a: string, b: string, x: string, y: string)
    requires !Terminated(y) && Shaped(HeaderOf, [Section(a, [y]), Section(b, [x])])
    ensures var inventory := [Section(a, [y]), Section(b, [x])]; Parse(Print(inventory)) != inventory
  {
    ReturningPrints(a, b, x, y);
    RoundTrip([Section(a, [y]), Section(b, [x])]);
    assert Pieces([Section(a, [y]), Section(b, [x])])[1] == y;
  }

  lemma ReturningPrints(a: string, b: string, x: string, y: string)
    ensures Pieces([Section(a, [y]), Section(b, [x])]) == [Header(a), y, Header(b), x]
  {
    PiecesOfSum([], Section(a, [y]));
    PiecesOfSum([Section(a, [y])], Section(b, [x]));
    assert [] + [Section(a, [y])] == [Section(a, [y])];
    assert [Section(a, [y])] + [Section(b, [x])] == [Section(a, [y]), Section(b, [x])];
  }

  predicate Letter(c: char) {
    'a' <= c <= 'z'
  }

  lemma LetterLines(c: char)
    requires Letter(c)
    ensures NameOk([c]) && BodyLine(HeaderOf, [c]) && !Terminated([c])
    ensures BodyLine(HeaderOf, [c, '\n']) && Terminated([c, '\n'])
  {
    assert TrimLeft(AsciiSpace, [c]) == [c];
    assert TrimLeft(AsciiSpace, [c, '\n']) == [c, '\n'];
  }

  /** Such a file, for any two letters: for a and b its lines are "[a]", "[b]", "b", "[a]" and, unterminated, "a". */
  lemma SuchAFile(a: char, b: char)
    requires Letter(a) && Letter(b) && a != b
    ensures var text := Concat(Returning([a], [b], [b, '\n'], [a])); Parse(Print(Parse(text))) != Parse(text)
  {
    LetterLines(a);
    LetterLines(b);
    assert [a][0] != [b][0];
    ReturningIsLost([a], [b], [b, '\n'], [a]);
  }

  // ---- what a file says ----------------------------------------------------------------------------

  /** The lines of a section; None if there is none of that name. */
  function LinesOf(inventory: Inventory, name: string): Option<seq<string>> {
    if inventory == [] then None
    else if inventory[0].name == name then Some(inventory[0].lines)
    else LinesOf(inventory[1..], name)
  }

  /** The section the next line belongs to: that of the last header. */
  function Open(header: string -> Option<string>, lines: seq<string>): Option<string> {
    if lines == [] then None
    else
      var name := header(lines[|lines| - 1]);
      if name.Some? then name else Open(header, lines[..|lines| - 1])
  }

  /** The lines that stand under headers of that name, in order. */
  function Under(header: string -> Option<string>, lines: seq<string>, name: string): seq<string> {
    if lines == [] then []
    else
      var front, last := lines[..|lines| - 1], lines[|lines| - 1];
      Under(header, front, name) + if header(last).None? && Open(header, front) == Some(name) then [last] else []
  }

  /** The names of the headers, in order of first appearance. */
  function Headed(header: string -> Option<string>, lines: seq<string>): seq<string> {
    if lines == [] then []
    else
      var names, name := Headed(header, lines[..|lines| - 1]), header(lines[|lines| - 1]);
      names + if name.Some? && name.value !in names then [name.value] else []
  }

  function NamesOf(inventory: Inventory): (names: seq<string>)
    ensures |names| == |inventory| && forall k :: 0 <= k < |names| ==> names[k] == inventory[k].name
  {
    seq(|inventory|, k requires 0 <= k < |inventory| => inventory[k].name)
  }

  lemma {:induction false} AddLineExactly(inventory: Inventory, name: string, line: string, other: string)
    requires Has(inventory, name)
    ensures LinesOf(inventory, name).Some?
    ensures LinesOf(AddLine(inventory, name, line), other)
         == if other == name then Some(LinesOf(inventory, name).value + [line]) else LinesOf(inventory, other)
  {
    if inventory[0].name != name {
      assert inventory == [inventory[0]] + inventory[1..];
      assert Has(inventory[1..], name);
      AddLineExactly(inventory[1..], name, line, other);
    }
  }

  lemma {:induction false} NewSectionExactly(inventory: Inventory, name: string, other: string)
    requires !Has(inventory, name)
    ensures LinesOf(inventory + [Section(name, [])], other)
         == if other == name then Some([]) else LinesOf(inventory, other)
    ensures LinesOf(inventory, name).None?
  {
    var all := inventory + [Section(name, [])];
    if inventory != [] {
      assert inventory[0] in inventory && all[1..] == inventory[1..] + [Section(name, [])];
      assert inventory == [inventory[0]] + inventory[1..];
      NewSectionExactly(inventory[1..], name, other);
    }
  }

  lemma HasIsNamed(inventory: Inventory, name: string)
    ensures Has(inventory, name) <==> name in NamesOf(inventory)
  {
    if Has(inventory, name) {
      var s :| s in inventory && s.name == name;
      var k :| 0 <= k < |inventory| && inventory[k] == s;
      assert NamesOf(inventory)[k] == name;
    }
    if name in NamesOf(inventory) {
      var k :| 0 <= k < |inventory| && NamesOf(inventory)[k] == name;
      assert inventory[k] in inventory;
    }
  }

  /** The reader's state says what the lines so far say. */
  ghost predicate SaysSo(header: string -> Option<string>, lines: seq<string>, r: Reading) {
    && r.current == Open(header, lines) && NamesOf(r.inventory) == Headed(header, lines)
    && (forall name ::
          LinesOf(r.inventory, name) ==
            if name in Headed(header, lines) then Some(Under(header, lines, name)) else None)
    && (r.current.Some? ==> r.current.value in Headed(header, lines))
  }

  lemma OneMore(header: string -> Option<string>, lines: seq<string>, line: string)
    ensures Open(header, lines + [line]) == if header(line).Some? then header(line) else Open(header, lines)
    ensures Headed(header, lines + [line])
         == Headed(header, lines)
            + if header(line).Some? && header(line).value !in Headed(header, lines) then [header(line).value] else []
    ensures forall name ::
      Under(header, lines + [line], name) ==
        Under(header, lines, name) + if header(line).None? && Open(header, lines) == Some(name) then [line] else []
  {
    assert (lines + [line])[..|lines|] == lines;
  }

  lemma {:induction false} NothingUnder(header: string -> Option<string>, lines: seq<string>, name: string)
    requires name !in Headed(header, lines)
    ensures Under(header, lines, name) == [] && Open(header, lines) != Some(name)
  {
    if lines != [] {
      NothingUnder(header, lines[..|lines| - 1], name);
    }
  }

  lemma HeaderSays(header: string -> Option<string>, lines: seq<string>, r: Reading, line: string)
    requires SaysSo(header, lines, r) && header(line).Some?
    ensures SaysSo(header, lines + [line], ReadLine(header, r, line))
  {
    var name, next := header(line).value, ReadLine(header, r, line);
    OneMore(header, lines, line);
    HasIsNamed(r.inventory, name);
    if name !in Headed(header, lines) {
      NothingUnder(header, lines, name);
      forall other
        ensures LinesOf(next.inventory, other) == if other == name then Some([]) else LinesOf(r.inventory, other)
      {
        NewSectionExactly(r.inventory, name, other);
      }
    }
    forall other
      ensures Under(header, lines + [line], other) == Under(header, lines, other)
    {
      assert Under(header, lines, other) + [] == Under(header, lines, other);
    }
  }

  lemma BodySays(header: string -> Option<string>, lines: seq<string>, r: Reading, line: string)
    requires SaysSo(header, lines, r) && header(line).None?
    ensures SaysSo(header, lines + [line], ReadLine(header, r, line))
  {
    OneMore(header, lines, line);
    assert Headed(header, lines) + [] == Headed(header, lines);
    if r.current.Some? {
      HasIsNamed(r.inventory, r.current.value);
      var next := ReadLine(header, r, line);
      forall other
        ensures LinesOf(next.inventory, other)
             == if other == r.current.value then Some(LinesOf(r.inventory, other).value + [line])
                else LinesOf(r.inventory, other)
      {
        AddLineExactly(r.inventory, r.current.value, line, other);
      }
      assert NamesOf(next.inventory) == NamesOf(r.inventory);
    }
    forall other | Open(header, lines) != Some(other)
      ensures Under(header, lines + [line], other) == Under(header, lines, other)
    {
      assert Under(header, lines, other) + [] == Under(header, lines, other);
    }
  }

  lemma {:induction false} ReadingSays(header: string -> Option<string>, lines: seq<string>)
    ensures SaysSo(header, lines, ReadAll(header, lines))
  {
    if lines != [] {
      var front, last := lines[..|lines| - 1], lines[|lines| - 1];
      ReadingSays(header, front);
      assert lines == front + [last];
      if header(last).Some? {
        HeaderSays(header, front, ReadAll(header, front), last);
      } else {
        BodySays(header, front, ReadAll(header, front), last);
      }
    }
  }

  lemma {:induction false} LinesSpell(text: string)
    ensures Concat(Lines(text)) == text
    decreases |text|
  {
    if text != [] {
      var n := LineLength(text);
      LinesSpell(text[n..]);
      ConcatFirst(Lines(text));
      assert text[..n] + text[n..] == text;
    }
  }

  /** What is read from a file: its sections are its headers' names, in order of first appearance; each holds exactly
      the lines that stand under headers of its name, in order; nothing before the first header counts. */
  lemma ParseMeans(text: string)
    ensures NamesOf(Parse(text)) == Headed(HeaderOf, Lines(text))
    ensures forall name ::
      LinesOf(Parse(text), name) ==
        if name in Headed(HeaderOf, Lines(text)) then Some(Under(HeaderOf, Lines(text), name)) else None
    ensures Concat(Lines(text)) == text && OnlyLastOpen(Lines(text))
    ensures forall k :: 0 <= k < |Lines(text)| ==> IsLine(Lines(text)[k])
  {
    ReadingSays(HeaderOf, Lines(text));
    LinesSpell(text);
    LinesAreLines(text);
  }

  ghost predicate Blanks(s: string) {
    forall k :: 0 <= k < |s| ==> AsciiSpace(s[k])
  }

  lemma {:induction false} TrimLeftBlanks(a: string, s: string)
    requires Blanks(a) && s != [] && !AsciiSpace(s[0])
    ensures TrimLeft(AsciiSpace, a + s) == s
  {
    if a == [] {
      assert a + s == s;
    } else {
      assert (a + s)[1..] == a[1..] + s;
      TrimLeftBlanks(a[1..], s);
    }
  }

  lemma {:induction false} TrimRightBlanks(s: string, b: string)
    requires Blanks(b) && s != [] && !AsciiSpace(s[|s| - 1])
    ensures TrimRight(AsciiSpace, s + b) == s
  {
    if b == [] {
      assert s + b == s;
    } else {
      assert (s + b)[..|s + b| - 1] == s + b[..|b| - 1];
      TrimRightBlanks(s, b[..|b| - 1]);
    }
  }

  lemma Trimmed(a: string, s: string, b: string)
    requires Blanks(a) && Blanks(b) && s != [] && !AsciiSpace(s[0]) && !AsciiSpace(s[|s| - 1])
    ensures Strip(a + s + b) == s
  {
    assert a + s + b == a + (s + b);
    TrimLeftBlanks(a, s + b);
    TrimRightBlanks(s, b);
  }

  ghost predicate Bracketed(line: string, a: string, core: string, b: string) {
    Blanks(a) && Blanks(b) && line == a + core + b && |core| >= 2 && core[0] == '[' && core[|core| - 1] == ']'
  }

  lemma BlanksBefore(line: string, left: string) returns (a: string)
    requires left == TrimLeft(AsciiSpace, line)
    ensures Blanks(a) && line == a + left
  {
    a := line[..|line| - |left|];
  }

  lemma BlanksAfter(left: string, core: string) returns (b: string)
    requires core == TrimRight(AsciiSpace, left)
    ensures Blanks(b) && left == core + b
  {
    b := left[|core|..];
  }

  ghost predicate IsBracketed(line: string) {
    exists a, core, b :: Bracketed(line, a, core, b)
  }

  lemma HeaderIsBracketed(line: string)
    requires IsHeader(line)
    ensures IsBracketed(line)
  {
    var core, a, b := StripInside(line);
    Enclosed(line, a, core, b);
  }

  lemma StripInside(line: string) returns (core: string, a: string, b: string)
    ensures core == Strip(line) && Blanks(a) && Blanks(b) && line == a + (core + b)
  {
    var left := TrimLeft(AsciiSpace, line);
    core := TrimRight(AsciiSpace, left);
    a := BlanksBefore(line, left);
    b := BlanksAfter(left, core);
  }

  lemma Enclosed(line: string, a: string, core: string, b: string)
    requires Blanks(a) && Blanks(b) && line == a + (core + b)
    requires core != [] && core[0] == '[' && core[|core| - 1] == ']'
    ensures IsBracketed(line)
  {
    assert |core| != 1;
    assert a + (core + b) == a + core + b;
    assert Bracketed(line, a, core, b);
  }

  lemma BracketedIsHeader(line: string, a: string, core: string, b: string)
    requires Bracketed(line, a, core, b)
    ensures IsHeader(line)
  {
    Trimmed(a, core, b);
  }

  /** A line is a header exactly when, blanks around it aside, it is something in square brackets. */
  lemma HeaderExactly(line: string)
    ensures HeaderOf(line).Some? <==> IsBracketed(line)
  {
    if IsHeader(line) {
      HeaderIsBracketed(line);
    }
    if a, core, b :| Bracketed(line, a, core, b) {
      BracketedIsHeader(line, a, core, b);
    }
  }

  lemma InBrackets(name: string, core: string)
    requires core == "[" + name + "]"
    ensures |core| >= 2 && core[0] == '[' && core[|core| - 1] == ']'
  {}

  /** The name is what stands between the brackets, whatever the blanks around them. */
  lemma NameExactly(a: string, name: string, b: string)
    requires Blanks(a) && Blanks(b) && NameOk(name)
    ensures HeaderOf(a + ("[" + name + "]") + b) == Some(name)
  {
    var core := "[" + name + "]";
    InBrackets(name, core);
    BracketedIsHeader(a + core + b, a, core, b);
    NameInside(a, name, b, a + core + b);
  }

  lemma NameInside(a: string, name: string, b: string, line: string)
    requires Blanks(a) && Blanks(b) && NameOk(name) && line == a + ("[" + name + "]") + b
    ensures HeaderName(line) == name
  {
    AfterBlanks(a, name + "]" + b);
    Reordered(a, name, b);
    BracketlessTail(name, b);
  }

  lemma Reordered(a: string, name: string, b: string)
    ensures a + ("[" + name + "]") + b == a + ("[" + (name + "]" + b))
  {}

  lemma {:induction false} AfterBlanks(a: string, rest: string)
    requires Blanks(a)
    ensures After(a + ("[" + rest), '[') == rest
  {
    if a == [] {
      assert a + ("[" + rest) == "[" + rest;
      assert ("[" + rest)[1..] == rest;
    } else {
      assert (a + ("[" + rest))[1..] == a[1..] + ("[" + rest);
      AfterBlanks(a[1..], rest);
    }
  }

  lemma BracketlessTail(name: string, b: string)
    requires NameOk(name) && Blanks(b)
    ensures Before(Before(name + "]" + b, '['), ']') == name
  {
    var rest := name + "]" + b;
    assert '[' !in rest;
    BeforeNone(rest, '[');
    BeforeAt(name, ']', b);
    assert name + [']'] + b == rest;
  }
}
