/** Reading a notification table back: what a person, or a script, finds in the text that slurm_oci_mailprog.py
    makes. It knows the layout - columns between bars, a label on the first row of its field - and nothing of how
    the text is made. */
module TableReading {
  import opened Wrappers
  import opened TextWords
  import opened DisplayTable
  import opened MailBody

  // ---- the reader ------------------------------------------------------------------------------

  predicate Framed(cell: string) {
    |cell| >= 2 && cell[0] == ' ' && cell[|cell| - 1] == ' '
  }

  /** The two cells of a line, with their padding; None for a line that is no row. */
  function ReadRow(line: string): Option<(string, string)> {
    var parts := SplitOn(line, '|');
    if |parts| == 4 && parts[0] == [] && parts[3] == [] && Framed(parts[1]) && Framed(parts[2])
    then Some((parts[1][1..|parts[1]| - 1], parts[2][1..|parts[2]| - 1]))
    else None
  }

  function ReadRows(lines: seq<string>): seq<(string, string)> {
    if lines == [] then []
    else
      var row := ReadRow(lines[|lines| - 1]);
      ReadRows(lines[..|lines| - 1]) + if row.Some? then [row.value] else []
  }

  function Unpadded(s: string): string {
    if s != [] && s[|s| - 1] == ' ' then Unpadded(s[..|s| - 1]) else s
  }

  /** A field: its caption, and the cells of its rows. */
  type Field = (string, seq<string>)

  /** A row with a label opens a field; any other continues the one before. */
  function AddRow(fields: seq<Field>, row: (string, string)): seq<Field> {
    var caption := Unpadded(row.0);
    if caption != [] || fields == [] then fields + [(caption, [row.1])]
    else
      var n := |fields| - 1;
      fields[..n] + [(fields[n].0, fields[n].1 + [row.1])]
  }

  function Fields(rows: seq<(string, string)>): seq<Field> {
    if rows == [] then [] else AddRow(Fields(rows[..|rows| - 1]), rows[|rows| - 1])
  }

  function ReadTable(text: string): seq<Field> {
    Fields(ReadRows(SplitOn(text, '\n')))
  }

  /** The cells hold the value, cut into parts, each part padded with blanks. */
  ghost predicate Hold(cells: seq<string>, value: string) {
    exists parts :: Cut(cells, parts) && Concat(parts) == value
  }

  ghost predicate Cut(cells: seq<string>, parts: seq<string>) {
    |parts| == |cells| && forall k :: 0 <= k < |cells| ==> PaddedFrom(cells[k], parts[k])
  }

  ghost predicate PaddedFrom(cell: string, part: string) {
    part <= cell && forall k :: |part| <= k < |cell| ==> cell[k] == ' '
  }

  /** The text is a table of these labels with these values, in order, under the heading of the columns, between the
      title line and one that names the cluster, which is the first value. */
  ghost predicate Tabulates(text: string, items: seq<string>, values: seq<string>) {
    var fields := ReadTable(text);
    && values != [] && Framing(SplitOn(text, '\n'), values[0])
    && |fields| == |items| + 1 == |values| + 1
    && fields[0].0 == "Item" && Hold(fields[0].1, "Value")
    && forall k :: 0 <= k < |items| ==> fields[k + 1].0 == items[k] && Hold(fields[k + 1].1, values[k])
  }

  ghost predicate Framing(lines: seq<string>, cluster: string) {
    lines != [] && lines[0] == "Slurm Job Notification" && CLOSING + cluster + "\"." in lines
  }

  // ---- what may stand in a cell ----------------------------------------------------------------

  /** Neither a bar nor the end of a line. */
  predicate Tame(s: string) {
    '|' !in s && '\n' !in s
  }

  /** A label the reader can find. */
  predicate Readable(item: string) {
    Tame(item) && item != [] && item[|item| - 1] != ' '
  }

  lemma {:induction false} SpacesAreBlank(n: nat)
    ensures |Spaces(n)| == n && Tame(Spaces(n)) && forall k :: 0 <= k < n ==> Spaces(n)[k] == ' '
  {
    if n > 0 {
      SpacesAreBlank(n - 1);
    }
  }

  /** A padded value starts with the value and goes on with blanks up to the width. */
  lemma PadFollows(cs: Charset, s: string, width: nat)
    ensures PaddedFrom(Pad(cs, s, width), s) && (Tame(s) ==> Tame(Pad(cs, s, width)))
  {
    SpacesAreBlank(Missing(cs, s, width));
  }

  lemma {:induction false} UnpaddedBlank(n: nat)
    ensures Unpadded(Spaces(n)) == []
  {
    if n > 0 {
      UnpaddedBlank(n - 1);
      assert Spaces(n)[..n - 1] == Spaces(n - 1) by {
        SpacesAreBlank(n - 1);
      }
      SpacesAreBlank(n);
    }
  }

  lemma {:induction false} UnpaddedOf(s: string, n: nat)
    requires s == [] || s[|s| - 1] != ' '
    ensures Unpadded(s + Spaces(n)) == s
  {
    if n == 0 {
      assert s + Spaces(0) == s;
    } else {
      UnpaddedOf(s, n - 1);
      assert s + Spaces(n) == (s + Spaces(n - 1)) + [' '];
      assert (s + Spaces(n))[..|s + Spaces(n)| - 1] == s + Spaces(n - 1);
    }
  }

  // ---- rows ------------------------------------------------------------------------------------

  lemma CellInside(a: string)
    ensures var cell := " " + a + " "; Framed(cell) && cell[1..|cell| - 1] == a
  {}

  lemma FourParts(a: string, b: string, c: string, d: string)
    ensures Join([a] + [b] + [c] + [d], "|") == a + "|" + b + "|" + c + "|" + d
  {
    var all := [a] + [b] + [c] + [d];
    assert all[1..] == [b] + [c] + [d] && all[1..][1..] == [c] + [d] && all[1..][1..][1..] == [d];
    assert Join([d], "|") == d;
    assert Join([c] + [d], "|") == c + "|" + d;
    assert Join([b] + [c] + [d], "|") == b + "|" + (c + "|" + d);
    assert Join(all, "|") == a + "|" + (b + "|" + (c + "|" + d));
  }

  lemma Regrouped(a: string, b: string)
    ensures "" + "|" + (" " + a + " ") + "|" + (" " + b + " ") + "|" + "" == "| " + a + " | " + b + " |"
  {}

  lemma RowIsRead(a: string, b: string)
    requires '|' !in a && '|' !in b
    ensures ReadRow("| " + a + " | " + b + " |") == Some((a, b))
  {
    var x, y := " " + a + " ", " " + b + " ";
    var parts := [""] + [x] + [y] + [""];
    FourParts("", x, y, "");
    Regrouped(a, b);
    assert forall k :: 0 <= k < |parts| ==> '|' !in parts[k];
    SplitOnJoin(parts, '|');
    CellInside(a);
    CellInside(b);
  }

  /** A row made for the table, as it is read. */
  lemma MadeRowIsRead(cs: Charset, item: string, value: string)
    requires Tame(item) && Tame(value)
    ensures ReadRow(Row(cs, item, value)) == Some((Pad(cs, item, LABEL_WIDTH), Pad(cs, value, VALUE_WIDTH)))
    ensures '\n' !in Row(cs, item, value)
  {
    PadFollows(cs, item, LABEL_WIDTH);
    PadFollows(cs, value, VALUE_WIDTH);
    RowIsRead(Pad(cs, item, LABEL_WIDTH), Pad(cs, value, VALUE_WIDTH));
  }

  lemma NoRow(line: string)
    requires '|' !in line
    ensures ReadRow(line).None?
  {
    SplitOnNone(line, '|');
  }

  lemma ReadMore(lines: seq<string>, line: string)
    ensures ReadRows(lines + [line]) == ReadRows(lines) + if ReadRow(line).Some? then [ReadRow(line).value] else []
  {
    assert (lines + [line])[..|lines|] == lines;
  }

  lemma ReadSame(lines: seq<string>, line: string)
    requires '|' !in line
    ensures ReadRows(lines + [line]) == ReadRows(lines)
  {
    NoRow(line);
    ReadMore(lines, line);
  }

  ghost predicate NoBars(lines: seq<string>) {
    forall k :: 0 <= k < |lines| ==> '|' !in lines[k]
  }

  lemma {:induction false} ReadNothing(lines: seq<string>, more: seq<string>)
    requires NoBars(more)
    ensures ReadRows(lines + more) == ReadRows(lines)
  {
    if more == [] {
      assert lines + more == lines;
    } else {
      var front, last := more[..|more| - 1], more[|more| - 1];
      ReadNothing(lines, front);
      ReadSame(lines + front, last);
      assert lines + more == (lines + front) + [last];
    }
  }

  // ---- fields ----------------------------------------------------------------------------------

  lemma FieldsMore(rows: seq<(string, string)>, row: (string, string))
    ensures Fields(rows + [row]) == AddRow(Fields(rows), row)
  {
    assert (rows + [row])[..|rows|] == rows;
  }

  /** The cells of a field's chunks. */
  function Cells(cs: Charset, chunks: seq<string>): (cells: seq<string>)
    ensures |cells| == |chunks| && forall k :: 0 <= k < |cells| ==> cells[k] == Pad(cs, chunks[k], VALUE_WIDTH)
  {
    seq(|chunks|, k requires 0 <= k < |chunks| => Pad(cs, chunks[k], VALUE_WIDTH))
  }

  lemma CellsHold(cs: Charset, chunks: seq<string>)
    ensures Hold(Cells(cs, chunks), Concat(chunks))
  {
    forall k | 0 <= k < |chunks|
      ensures PaddedFrom(Cells(cs, chunks)[k], chunks[k])
    {
      PadFollows(cs, chunks[k], VALUE_WIDTH);
    }
    assert Cut(Cells(cs, chunks), chunks);
  }

  lemma LabelIsRead(cs: Charset, item: string)
    requires item == [] || item[|item| - 1] != ' '
    ensures Unpadded(Pad(cs, item, LABEL_WIDTH)) == item
  {
    UnpaddedOf(item, Missing(cs, item, LABEL_WIDTH));
  }

  lemma RowIsAdded(cs: Charset, before: seq<string>, caption: string, chunk: string)
    requires Tame(caption) && Tame(chunk)
    ensures Fields(ReadRows(before + [Row(cs, caption, chunk)]))
         == AddRow(Fields(ReadRows(before)), (Pad(cs, caption, LABEL_WIDTH), Pad(cs, chunk, VALUE_WIDTH)))
  {
    MadeRowIsRead(cs, caption, chunk);
    ReadMore(before, Row(cs, caption, chunk));
    FieldsMore(ReadRows(before), (Pad(cs, caption, LABEL_WIDTH), Pad(cs, chunk, VALUE_WIDTH)));
  }

  lemma FieldOpens(cs: Charset, lines: seq<string>, item: string, chunk: string)
    requires Readable(item) && Tame(chunk)
    ensures Fields(ReadRows(lines + [Row(cs, item, chunk)]))
         == Fields(ReadRows(lines)) + [(item, [Pad(cs, chunk, VALUE_WIDTH)])]
  {
    RowIsAdded(cs, lines, item, chunk);
    LabelIsRead(cs, item);
  }

  lemma FieldGoesOn(cs: Charset, before: seq<string>, fields: seq<Field>, item: string, cells: seq<string>,
                    chunk: string)
    requires Tame(chunk) && Fields(ReadRows(before)) == fields + [(item, cells)]
    ensures Fields(ReadRows(before + [Row(cs, "", chunk)]))
         == fields + [(item, cells + [Pad(cs, chunk, VALUE_WIDTH)])]
  {
    RowIsAdded(cs, before, "", chunk);
    LabelIsRead(cs, "");
    AddedToLast(fields, item, cells, Pad(cs, "", LABEL_WIDTH), Pad(cs, chunk, VALUE_WIDTH));
  }

  ghost predicate AllTame(chunks: seq<string>) {
    forall k :: 0 <= k < |chunks| ==> Tame(chunks[k])
  }

  /** The first row of a field opens it, each further one adds its cell. */
  lemma {:induction false} FieldIsRead(cs: Charset, lines: seq<string>, item: string, chunks: seq<string>)
    requires Readable(item) && chunks != [] && AllTame(chunks)
    ensures Fields(ReadRows(lines + FieldRows(cs, item, chunks)))
         == Fields(ReadRows(lines)) + [(item, Cells(cs, chunks))]
  {
    var front, last := chunks[..|chunks| - 1], chunks[|chunks| - 1];
    var fields := Fields(ReadRows(lines));
    RowsInParts(cs, item, chunks);
    if front == [] {
      FieldOpens(cs, lines, item, last);
    } else {
      FieldIsRead(cs, lines, item, front);
      FieldGoesOn(cs, lines + FieldRows(cs, item, front), fields, item, Cells(cs, front), last);
      InOrder(lines, FieldRows(cs, item, front), [Row(cs, "", last)]);
    }
  }

  lemma RowsInParts(cs: Charset, item: string, chunks: seq<string>)
    requires chunks != []
    ensures var front, last := chunks[..|chunks| - 1], chunks[|chunks| - 1];
      && FieldRows(cs, item, chunks)
         == FieldRows(cs, item, front) + [Row(cs, if front == [] then item else "", last)]
      && Cells(cs, chunks) == Cells(cs, front) + [Pad(cs, last, VALUE_WIDTH)]
      && (front == [] ==> FieldRows(cs, item, chunks) == [Row(cs, item, last)]
                          && Cells(cs, chunks) == [Pad(cs, last, VALUE_WIDTH)])
  {}

  lemma InOrder<T>(a: seq<T>, b: seq<T>, c: seq<T>)
    ensures a + (b + c) == (a + b) + c
  {}

  lemma AddedToLast(fields: seq<Field>, item: string, cells: seq<string>, caption: string, cell: string)
    requires Unpadded(caption) == []
    ensures AddRow(fields + [(item, cells)], (caption, cell)) == fields + [(item, cells + [cell])]
  {
    assert (fields + [(item, cells)])[..|fields|] == fields;
  }

  // ---- the table -------------------------------------------------------------------------------

  ghost predicate AllReadable(items: seq<string>) {
    forall k :: 0 <= k < |items| ==> Readable(items[k])
  }

  /** What the reader has after a heading and some fields. */
  ghost predicate ReadSoFar(fields: seq<Field>, head: string, below: string, items: seq<string>, values: seq<string>) {
    && |fields| == |items| + 1 == |values| + 1
    && fields[0].0 == head && Hold(fields[0].1, below)
    && forall k :: 0 <= k < |items| ==> fields[k + 1].0 == items[k] && Hold(fields[k + 1].1, values[k])
  }

  lemma OneFieldMore(fields: seq<Field>, head: string, below: string, items: seq<string>, values: seq<string>,
                     item: string, value: string, cells: seq<string>)
    requires ReadSoFar(fields, head, below, items, values) && Hold(cells, value)
    ensures ReadSoFar(fields + [(item, cells)], head, below, items + [item], values + [value])
  {}

  lemma OneCell(cs: Charset, value: string)
    ensures Hold([Pad(cs, value, VALUE_WIDTH)], value)
  {
    PadFollows(cs, value, VALUE_WIDTH);
    assert Cut([Pad(cs, value, VALUE_WIDTH)], [value]);
    ConcatOne(value);
  }

  lemma HeadingIsRead(cs: Charset, before: seq<string>, head: string, below: string, border: string)
    requires NoBars(before) && Readable(head) && Tame(below) && '|' !in border
    ensures ReadSoFar(Fields(ReadRows(before + [Row(cs, head, below)] + [border])), head, below, [], [])
  {
    ReadNothing([], before);
    assert [] + before == before;
    FieldOpens(cs, before, head, below);
    ReadSame(before + [Row(cs, head, below)], border);
    OneCell(cs, below);
  }

  lemma HeadIsRead(cs: Charset)
    ensures ReadSoFar(Fields(ReadRows(Head(cs))), "Item", "Value", [], [])
  {
    var before := ["Slurm Job Notification"] + [""] + [BORDER];
    DashesHaveNoBar(LABEL_WIDTH + 2);
    DashesHaveNoBar(VALUE_WIDTH + 2);
    assert '|' !in BORDER;
    HeadingIsRead(cs, before, "Item", "Value", BORDER);
    HeadInParts(cs, before, Row(cs, "Item", "Value"), BORDER);
  }

  lemma HeadInParts(cs: Charset, before: seq<string>, heading: string, border: string)
    requires before == ["Slurm Job Notification"] + [""] + [border] && heading == Row(cs, "Item", "Value")
    requires border == BORDER
    ensures Head(cs) == before + [heading] + [border]
  {}

  lemma DashesHaveNoBar(n: nat)
    ensures Tame(Dashes(n))
  {}

  lemma {:induction false} ConcatHas(parts: seq<string>, k: nat, c: char)
    requires k < |parts| && c in parts[k]
    ensures c in Concat(parts)
  {
    if k < |parts| - 1 {
      ConcatHas(parts[..|parts| - 1], k, c);
    }
  }

  lemma ChunksAreTame(cs: Charset, value: string)
    requires Tame(value)
    ensures AllTame(Chunks(cs, value, VALUE_WIDTH))
  {
    var chunks := Chunks(cs, value, VALUE_WIDTH);
    ChunksConcat(cs, value, VALUE_WIDTH);
    forall k | 0 <= k < |chunks|
      ensures Tame(chunks[k])
    {
      if '|' in chunks[k] {
        ConcatHas(chunks, k, '|');
      }
      if '\n' in chunks[k] {
        ConcatHas(chunks, k, '\n');
      }
    }
  }

  lemma BlockIsRead(cs: Charset, lines: seq<string>, head: string, below: string, items: seq<string>,
                    values: seq<string>, item: string, value: string)
    requires Readable(item) && Tame(value) && ReadSoFar(Fields(ReadRows(lines)), head, below, items, values)
    ensures ReadSoFar(Fields(ReadRows(lines + Block(cs, item, value))), head, below, items + [item], values + [value])
  {
    var chunks := Chunks(cs, value, VALUE_WIDTH);
    ChunksAreTame(cs, value);
    FieldIsRead(cs, lines, item, chunks);
    CellsHold(cs, chunks);
    ChunksConcat(cs, value, VALUE_WIDTH);
    OneFieldMore(Fields(ReadRows(lines)), head, below, items, values, item, value, Cells(cs, chunks));
  }

  lemma BlockAfter(cs: Charset, lines: seq<string>, rows: seq<string>, all: seq<string>, head: string, below: string,
                   items: seq<string>, values: seq<string>, item: string, value: string)
    requires Readable(item) && Tame(value) && all == rows + Block(cs, item, value)
    requires ReadSoFar(Fields(ReadRows(lines + rows)), head, below, items, values)
    ensures ReadSoFar(Fields(ReadRows(lines + all)), head, below, items + [item], values + [value])
  {
    BlockIsRead(cs, lines + rows, head, below, items, values, item, value);
    InOrder(lines, rows, Block(cs, item, value));
  }

  lemma {:induction false} RowsAreRead(cs: Charset, lines: seq<string>, head: string, below: string,
                                       items: seq<string>, values: seq<string>)
    requires |items| == |values| && AllReadable(items) && AllTame(values)
    requires ReadSoFar(Fields(ReadRows(lines)), head, below, [], [])
    ensures ReadSoFar(Fields(ReadRows(lines + AllRows(cs, items, values))), head, below, items, values)
  {
    if items == [] {
      assert lines + AllRows(cs, items, values) == lines;
      assert values == [];
    } else {
      var n := |items| - 1;
      var front, vfront, item, value := items[..n], values[..n], items[n], values[n];
      FrontAndLast(items, front, item);
      FrontAndLast(values, vfront, value);
      RowsAreRead(cs, lines, head, below, front, vfront);
      LastBlock(cs, items, values);
      BlockAfter(cs, lines, AllRows(cs, front, vfront), AllRows(cs, items, values), head, below, front, vfront, item,
                 value);
    }
  }

  lemma FrontAndLast(s: seq<string>, front: seq<string>, last: string)
    requires s != [] && front == s[..|s| - 1] && last == s[|s| - 1]
    ensures front + [last] == s
    ensures (AllReadable(s) ==> AllReadable(front) && Readable(last)) && (AllTame(s) ==> AllTame(front) && Tame(last))
  {}

  lemma LastBlock(cs: Charset, items: seq<string>, values: seq<string>)
    requires |items| == |values| > 0
    ensures var n := |items| - 1;
      AllRows(cs, items, values) == AllRows(cs, items[..n], values[..n]) + Block(cs, items[n], values[n])
  {
    var n := |items| - 1;
    assert Blocks(cs, items, values)[..n] == Blocks(cs, items[..n], values[..n]);
  }
  // ---- the text --------------------------------------------------------------------------------

  lemma {:induction false} RowsAreLines(cs: Charset, item: string, chunks: seq<string>)
    requires Tame(item) && AllTame(chunks)
    ensures forall row :: row in FieldRows(cs, item, chunks) ==> '\n' !in row
  {
    if chunks != [] {
      var n := |chunks| - 1;
      RowsAreLines(cs, item, chunks[..n]);
      MadeRowIsRead(cs, if n == 0 then item else "", chunks[n]);
    }
  }

  lemma AllRowsAreLines(cs: Charset, items: seq<string>, values: seq<string>)
    requires |items| == |values| && AllReadable(items) && AllTame(values)
    ensures forall row :: row in AllRows(cs, items, values) ==> '\n' !in row
  {
    forall row | row in AllRows(cs, items, values)
      ensures '\n' !in row
    {
      var i := Flattened(Blocks(cs, items, values), row);
      ChunksAreTame(cs, values[i]);
      RowsAreLines(cs, items[i], Chunks(cs, values[i], VALUE_WIDTH));
    }
  }

  lemma HeadAndFootAreLines(cs: Charset, cluster: string)
    requires Tame(cluster)
    ensures forall line :: line in Head(cs) ==> '\n' !in line
    ensures NoBars(Foot(cluster)) && forall line :: line in Foot(cluster) ==> '\n' !in line
  {
    DashesHaveNoBar(LABEL_WIDTH + 2);
    DashesHaveNoBar(VALUE_WIDTH + 2);
    assert Tame(BORDER);
    MadeRowIsRead(cs, "Item", "Value");
    ClosingIsPlain();
    TameSum(CLOSING, cluster);
    TameSum(CLOSING + cluster, "\".");
  }

  lemma TameSum(a: string, b: string)
    requires Tame(a) && Tame(b)
    ensures Tame(a + b)
  {}

  /** Lines, joined and perhaps followed by others, are split again. */
  lemma LinesComeBack(lines: seq<string>, more: seq<string>)
    requires lines != [] && forall line :: line in lines + more ==> '\n' !in line
    ensures SplitOn(Join(lines + more, "\n"), '\n') == lines + more
  {
    SplitOnJoin(lines + more, '\n');
  }

  lemma {:induction false} JoinSum(lines: seq<string>, more: seq<string>)
    requires lines != [] && more != []
    ensures Join(lines + more, "\n") == Join(lines, "\n") + "\n" + Join(more, "\n")
  {
    if |lines| == 1 {
      assert (lines + more)[1..] == more;
    } else {
      JoinSum(lines[1..], more);
      assert (lines + more)[1..] == lines[1..] + more;
    }
  }

  lemma TwoLines(text: string, note: string, suffix: string)
    requires suffix == "\n\n" + note
    ensures text + "\n" + Join([""] + [note], "\n") == text + suffix
  {
    assert ([""] + [note])[1..] == [note];
    assert Join([""] + [note], "\n") == "" + "\n" + note;
  }

  lemma NoteIsPlain()
    ensures Tame(NOTE)
  {
    assert Tame("[message truncated ");
    assert Tame("by slurm-oci-mailprog]");
    TameSum("[message truncated ", "by slurm-oci-mailprog]");
  }

  lemma ClosingIsPlain()
    ensures Tame(CLOSING)
  {
    assert Tame("This message was generated ");
    assert Tame("automatically by Slurm ");
    TameSum("This message was generated ", "automatically by Slurm ");
    TameSum("This message was generated " + "automatically by Slurm ", "on cluster \"");
  }

  lemma EndIsSkipped(lines: seq<string>, foot: seq<string>, more: seq<string>, all: seq<string>)
    requires NoBars(foot) && NoBars(more) && all == lines + foot + more
    ensures ReadRows(all) == ReadRows(lines)
  {
    ReadNothing(lines, foot);
    ReadNothing(lines + foot, more);
  }

  lemma LinesAreRead(cs: Charset, items: seq<string>, values: seq<string>, more: seq<string>)
    requires |items| == |values| > 0 && AllReadable(items) && AllTame(values) && NoBars(more)
    ensures ReadSoFar(Fields(ReadRows(BodyLines(cs, items, values) + more)), "Item", "Value", items, values)
  {
    HeadIsRead(cs);
    RowsAreRead(cs, Head(cs), "Item", "Value", items, values);
    HeadAndFootAreLines(cs, values[0]);
    EndIsSkipped(Head(cs) + AllRows(cs, items, values), Foot(values[0]), more, BodyLines(cs, items, values) + more);
  }

  lemma FrameIsThere(cs: Charset, rows: seq<string>, cluster: string, more: seq<string>, all: seq<string>)
    requires all == Head(cs) + rows + Foot(cluster) + more
    ensures Framing(all, cluster)
  {
    assert Foot(cluster)[2] == CLOSING + cluster + "\".";
    assert Foot(cluster)[2] in Foot(cluster);
    assert Head(cs)[0] == "Slurm Job Notification";
  }

  lemma TextIsRead(cs: Charset, items: seq<string>, values: seq<string>, more: seq<string>)
    requires |items| == |values| > 0 && AllReadable(items) && AllTame(values) && AllTame(more)
    ensures Tabulates(Join(BodyLines(cs, items, values) + more, "\n"), items, values)
  {
    var lines := BodyLines(cs, items, values);
    HeadAndFootAreLines(cs, values[0]);
    AllRowsAreLines(cs, items, values);
    forall line | line in lines + more
      ensures '\n' !in line
    {
      assert line in Head(cs) || line in AllRows(cs, items, values) || line in Foot(values[0]) || line in more;
    }
    LinesComeBack(lines, more);
    LinesAreRead(cs, items, values, more);
    FrameIsThere(cs, AllRows(cs, items, values), values[0], more, lines + more);
  }

  /** The body of a notification shows every label with its value, in order; so does a body that was cut. */
  lemma BodyIsRead(cs: Charset, items: seq<string>, values: seq<string>)
    requires |items| == |values| > 0 && AllReadable(items) && AllTame(values)
    ensures Tabulates(Body(cs, items, values), items, values)
    ensures Tabulates(Body(cs, items, values) + TRUNCATION_SUFFIX, items, values)
  {
    var lines, note := BodyLines(cs, items, values), [""] + [NOTE];
    TextIsRead(cs, items, values, []);
    assert lines + [] == lines;
    NoteIsPlain();
    TextIsRead(cs, items, values, note);
    JoinSum(lines, note);
    TwoLines(Join(lines, "\n"), NOTE, TRUNCATION_SUFFIX);
  }

  // ---- the values of a notification ------------------------------------------------------------

  lemma {:induction false} JoinIsTame(words: seq<string>)
    requires AllTame(words)
    ensures Tame(Join(words, " "))
  {
    if |words| > 1 {
      JoinIsTame(words[1..]);
      TameSum(words[0], " ");
      TameSum(words[0] + " ", Join(words[1..], " "));
    }
  }

  /** Whatever the environment holds, its value stays in its cell. */
  lemma NormalizedIsTame(cs: Charset, value: Option<string>)
    requires cs.Sane()
    ensures Tame(Normalize(cs, value))
  {
    if value.Some? {
      var cleaned := Cleaned(cs, value.value);
      var words := Words(cs.isSpace, cleaned);
      CleanedHasNoBar(cs, value.value);
      WordsComeFromText(cs.isSpace, cleaned, '|');
      WordsAreWords(cs.isSpace, cleaned);
      forall k | 0 <= k < |words|
        ensures Tame(words[k])
      {
        assert words[k] in words && IsWord(cs.isSpace, words[k]);
      }
      JoinIsTame(words);
    }
  }

  lemma LabelsAreReadable(items: seq<string>)
    requires ShortLabels(items)
    ensures AllReadable(items)
  {
    forall k | 0 <= k < |items|
      ensures Readable(items[k])
    {
      assert ShortLabel(items[k]);
    }
  }

  /** The text shows each label with its value, or with as much of it as the limit allows; all of it if the whole
      table fits. */
  ghost predicate Shows(text: string, title: string, whole: string, items: seq<string>, values: seq<string>) {
    exists maximum: Option<nat> ::
      (maximum.None? <==> Fits(title, whole)) && Tabulates(text, items, LimitAll(values, maximum))
  }

  lemma FittedShows(cs: Charset, items: seq<string>, title: string, values: seq<string>, body: string)
    requires ShortLabels(items) && |items| == |values| && AllTame(values)
    requires Fitted(cs, items, title, values, body)
    ensures Shows(body, title, Body(cs, items, values), items, values)
  {
    LabelsAreReadable(items);
    if Fits(title, Body(cs, items, values)) {
      BodyIsRead(cs, items, values);
      assert LimitAll(values, None) == values;
      assert Tabulates(body, items, LimitAll(values, None));
    } else {
      var m :| 1 <= m <= Longest(values) && body == Candidate(cs, items, values, m);
      LimitedIsTame(values, Some(m));
      BodyIsRead(cs, items, LimitAll(values, Some(m)));
      assert Tabulates(body, items, LimitAll(values, Some(m)));
    }
  }

  lemma LimitedIsTame(values: seq<string>, maximum: Option<nat>)
    requires AllTame(values)
    ensures AllTame(LimitAll(values, maximum))
  {
    forall k | 0 <= k < |values|
      ensures Tame(LimitAll(values, maximum)[k])
    {
      assert Tame(values[k]);
    }
  }
}
