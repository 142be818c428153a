/** The notification body of slurm_oci_mailprog.py and its fit into the publish limit. */
module MailBody {
  import opened Wrappers
  import opened JsonText
  import opened TextWords
  import opened DisplayTable

  const MAX_TITLE_BYTES: nat := 512
  const MAX_PUBLISH_PAYLOAD_BYTES: nat := 60 * 1024
  const NOTE: string := "[message truncated " + "by slurm-oci-mailprog]"
  const TRUNCATION_SUFFIX: string := "\n\n" + NOTE

  const FIELDS: nat := 15

  const FIRST_LABELS: seq<string> := [
    "Cluster", "Job ID", "Job name", "User", "Event", "State", "Partition", "Nodes"]

  const LAST_LABELS: seq<string> := [
    "Queued time", "Run time", "Exit code", "Termination signal", "Working directory", "Standard output",
    "Standard error"]

  /** Labels of `notification_fields`, in order. */
  const LABELS: seq<string> := FIRST_LABELS + LAST_LABELS

  // ---- values ----------------------------------------------------------------------------------

  function Cleaned(cs: Charset, value: string): string {
    if value == [] then []
    else
      (if cs.isSpace(value[0]) then " "
       else if value[0] == '|' then "\\x7c"
       else if cs.isOther(value[0]) then "?"
       else [value[0]]) + Cleaned(cs, value[1..])
  }

  /** `normalize_table_value`; None is Python's None. */
  function Normalize(cs: Charset, value: Option<string>): (r: string)
    ensures r != []
  {
    if value.None? || value.value == [] then "-"
    else
      var r := Join(Words(cs.isSpace, Cleaned(cs, value.value)), " ");
      if r == [] then "-" else r
  }

  lemma {:induction false} CleanedHasNoBar(cs: Charset, value: string)
    ensures '|' !in Cleaned(cs, value)
  {
    if value != [] {
      CleanedHasNoBar(cs, value[1..]);
    }
  }

  lemma {:induction false} WordsComeFromText(isSpace: char -> bool, s: string, c: char)
    requires c !in s
    ensures forall w :: w in Words(isSpace, s) ==> c !in w
    decreases |s|
  {
    if s != [] {
      if isSpace(s[0]) {
        WordsComeFromText(isSpace, s[1..], c);
      } else {
        var n := WordLength(isSpace, s);
        WordsComeFromText(isSpace, s[n..], c);
      }
    }
  }

  lemma {:induction false} JoinComesFromParts(parts: seq<string>, separator: string, c: char)
    requires c !in separator && forall w :: w in parts ==> c !in w
    ensures c !in Join(parts, separator)
  {
    if |parts| > 1 {
      JoinComesFromParts(parts[1..], separator, c);
    }
  }

  /** No value can forge a table cell: the column delimiter never survives the clean-up. */
  lemma ValueHasNoBar(cs: Charset, value: Option<string>)
    ensures '|' !in Normalize(cs, value)
  {
    if value.Some? {
      CleanedHasNoBar(cs, value.value);
      WordsComeFromText(cs.isSpace, Cleaned(cs, value.value), '|');
      JoinComesFromParts(Words(cs.isSpace, Cleaned(cs, value.value)), " ", '|');
    }
  }

  /** `limit_table_value` on a normalised value */
  function Limit(value: string, maximum: Option<nat>): string {
    if maximum.None? || |value| <= maximum.value then value else value[..maximum.value]
  }

  function LimitAll(values: seq<string>, maximum: Option<nat>): (r: seq<string>)
    ensures |r| == |values| && forall i :: 0 <= i < |r| ==> r[i] == Limit(values[i], maximum)
  {
    seq(|values|, i requires 0 <= i < |values| => Limit(values[i], maximum))
  }

  /** Printable text with single blanks between its words and without a bar. */
  ghost predicate Ordinary(cs: Charset, s: string) {
    Spaced(cs.isSpace, s) && forall k :: 0 <= k < |s| ==> s[k] != '|' && (cs.isOther(s[k]) ==> cs.isSpace(s[k]))
  }

  lemma {:induction false} CleanedStays(cs: Charset, s: string)
    requires forall k :: 0 <= k < |s| ==>
      s[k] != '|' && (cs.isSpace(s[k]) ==> s[k] == ' ') && (cs.isOther(s[k]) ==> cs.isSpace(s[k]))
    ensures Cleaned(cs, s) == s
  {
    if s != [] {
      CleanedStays(cs, s[1..]);
      assert s == [s[0]] + s[1..];
    }
  }

  /** An ordinary value is shown as it is. */
  lemma OrdinaryStays(cs: Charset, value: string)
    requires Ordinary(cs, value)
    ensures Normalize(cs, Some(value)) == value
  {
    forall k | 0 <= k < |value| && cs.isSpace(value[k])
      ensures value[k] == ' '
    {
      assert k != 0;
    }
    CleanedStays(cs, value);
    JoinOfWords(cs.isSpace, value);
  }

  /** An ordinary subject that is not too long is the title. */
  lemma OrdinaryTitleStays(cs: Charset, title: string, event: string, jobId: string)
    requires Spaced(cs.isSpace, title) && |Encode(title)| <= MAX_TITLE_BYTES
    ensures SanitizeTitle(cs, title, event, jobId) == title
  {
    JoinOfWords(cs.isSpace, title);
    assert FullTitle(cs, title, event, jobId) == title;
    assert title[..|title|] == title;
  }

  // ---- the body --------------------------------------------------------------------------------

  function Dashes(n: nat): string {
    seq(n, _ => '-')
  }

  const BORDER: string := "+" + Dashes(LABEL_WIDTH + 2) + "+" + Dashes(VALUE_WIDTH + 2) + "+"

  function Head(cs: Charset): seq<string> {
    ["Slurm Job Notification", "", BORDER, Row(cs, "Item", "Value"), BORDER]
  }

  const CLOSING: string := "This message was generated " + "automatically by Slurm " + "on cluster \""

  function Foot(cluster: string): seq<string> {
    [BORDER, "", CLOSING + cluster + "\"."]
  }

  function Flatten(blocks: seq<seq<string>>): seq<string> {
    if blocks == [] then [] else Flatten(blocks[..|blocks| - 1]) + blocks[|blocks| - 1]
  }

  function Block(cs: Charset, item: string, value: string): seq<string> {
    FieldRows(cs, item, Chunks(cs, value, VALUE_WIDTH))
  }

  function Blocks(cs: Charset, items: seq<string>, values: seq<string>): (r: seq<seq<string>>)
    requires |items| == |values|
    ensures |r| == |items| && forall i :: 0 <= i < |r| ==> r[i] == Block(cs, items[i], values[i])
  {
    seq(|items|, i requires 0 <= i < |items| => Block(cs, items[i], values[i]))
  }

  function AllRows(cs: Charset, items: seq<string>, values: seq<string>): seq<string>
    requires |items| == |values|
  {
    Flatten(Blocks(cs, items, values))
  }

  function BodyLines(cs: Charset, items: seq<string>, values: seq<string>): seq<string>
    requires |items| == |values| > 0
  {
    Head(cs) + AllRows(cs, items, values) + Foot(values[0])
  }

  function Body(cs: Charset, items: seq<string>, values: seq<string>): string
    requires |items| == |values| > 0
  {
    Join(BodyLines(cs, items, values), "\n")
  }

  lemma FieldRowsStep(cs: Charset, item: string, chunks: seq<string>, i: nat)
    requires i < |chunks|
    ensures FieldRows(cs, item, chunks[..i + 1])
         == FieldRows(cs, item, chunks[..i]) + [Row(cs, if i == 0 then item else "", chunks[i])]
  {
    assert chunks[..i + 1][..i] == chunks[..i];
  }

  lemma FlattenAppend(blocks: seq<seq<string>>, b: seq<string>)
    ensures Flatten(blocks + [b]) == Flatten(blocks) + b
  {
    assert (blocks + [b])[..|blocks|] == blocks;
  }

  ghost predicate Rendered(cs: Charset, items: seq<string>, fields: seq<string>, blocks: seq<seq<string>>) {
    && |blocks| <= |items| == |fields|
    && forall j :: 0 <= j < |blocks| ==> blocks[j] == Block(cs, items[j], fields[j])
  }

  lemma RenderedStep(cs: Charset, items: seq<string>, fields: seq<string>, blocks: seq<seq<string>>, rows: seq<string>)
    requires Rendered(cs, items, fields, blocks) && |blocks| < |items|
    requires rows == Block(cs, items[|blocks|], fields[|blocks|])
    ensures Rendered(cs, items, fields, blocks + [rows])
  {}

  lemma RenderedAll(cs: Charset, items: seq<string>, fields: seq<string>, blocks: seq<seq<string>>)
    requires Rendered(cs, items, fields, blocks) && |blocks| == |items|
    ensures Flatten(blocks) == AllRows(cs, items, fields)
  {
    assert blocks == Blocks(cs, items, fields);
  }

  method RenderRows(cs: Charset, items: seq<string>, fields: seq<string>) returns (lines: seq<string>)
    requires |items| == |fields|
    ensures lines == AllRows(cs, items, fields)
  {
    lines := [];
    ghost var blocks := [];
    for i := 0 to |items|
      invariant |blocks| == i && Rendered(cs, items, fields, blocks)
      invariant lines == Flatten(blocks)
    {
      var rows := RenderField(cs, items[i], fields[i]);
      RenderedStep(cs, items, fields, blocks, rows);
      FlattenAppend(blocks, rows);
      lines, blocks := lines + rows, blocks + [rows];
    }
    RenderedAll(cs, items, fields, blocks);
  }

  method RenderField(cs: Charset, item: string, field: string) returns (lines: seq<string>)
    ensures lines == Block(cs, item, field)
  {
    var wrapped := SplitDisplayChunks(cs, field, VALUE_WIDTH);
    lines := [];
    for index := 0 to |wrapped|
      invariant lines == FieldRows(cs, item, wrapped[..index])
    {
      FieldRowsStep(cs, item, wrapped, index);
      lines := lines + [Row(cs, if index == 0 then item else "", wrapped[index])];
    }
    assert wrapped[..|wrapped|] == wrapped;
  }

  /** `build_notification_body` */
  method BuildNotificationBody(cs: Charset, items: seq<string>, values: seq<string>, maximum: Option<nat>)
    returns (body: string)
    requires |items| == |values| > 0
    ensures body == Body(cs, items, LimitAll(values, maximum))
  {
    var fields := LimitAll(values, maximum);
    var rows := RenderRows(cs, items, fields);
    var lines := Head(cs) + rows + Foot(fields[0]);
    body := Join(lines, "\n");
  }

  // ---- alignment -------------------------------------------------------------------------------

  lemma {:induction false} Flattened(blocks: seq<seq<string>>, row: string) returns (i: nat)
    requires row in Flatten(blocks)
    ensures i < |blocks| && row in blocks[i]
  {
    i := |blocks| - 1;
    if row !in blocks[i] {
      i := Flattened(blocks[..i], row);
    }
  }

  lemma BlockAligned(cs: Charset, item: string, value: string)
    requires cs.Sane() && Width(cs, item) <= LABEL_WIDTH
    ensures forall row :: row in Block(cs, item, value) ==> Width(cs, row) == 77
  {
    ChunksSpellValue(cs, value, VALUE_WIDTH);
    FieldRowsAligned(cs, item, Chunks(cs, value, VALUE_WIDTH));
  }

  lemma AllRowsAligned(cs: Charset, items: seq<string>, values: seq<string>)
    requires cs.Sane() && |items| == |values|
    requires forall i :: 0 <= i < |items| ==> Width(cs, items[i]) <= LABEL_WIDTH
    ensures forall row :: row in AllRows(cs, items, values) ==> Width(cs, row) == 77
  {
    forall row | row in AllRows(cs, items, values)
      ensures Width(cs, row) == 77
    {
      var i := Flattened(Blocks(cs, items, values), row);
      BlockAligned(cs, items[i], values[i]);
    }
  }

  predicate Plain(s: string) {
    forall i :: 0 <= i < |s| ==> ' ' <= s[i] <= '~'
  }

  /** Labels the table is laid out for. */
  ghost predicate ShortLabels(items: seq<string>) {
    0 < |items| <= 15 && forall i :: 0 <= i < |items| ==> ShortLabel(items[i])
  }

  predicate ShortLabel(s: string) {
    |s| <= LABEL_WIDTH && Plain(s) && s != "" && s[|s| - 1] != ' ' && '|' !in s
  }

  lemma FifteenShortLabels()
    ensures |LABELS| == FIELDS && ShortLabels(LABELS)
  {
    EightShortLabels();
    SevenShortLabels();
    assert LABELS == FIRST_LABELS + LAST_LABELS;
  }

  lemma EightShortLabels()
    ensures |FIRST_LABELS| == 8 && ShortLabels(FIRST_LABELS)
  {
    JobLabels();
    EventLabels();
  }

  lemma JobLabels()
    ensures ShortLabel("Cluster") && ShortLabel("Job ID") && ShortLabel("Job name") && ShortLabel("User")
  {}

  lemma EventLabels()
    ensures ShortLabel("Event") && ShortLabel("State") && ShortLabel("Partition") && ShortLabel("Nodes")
  {}

  lemma SevenShortLabels()
    ensures |LAST_LABELS| == 7 && ShortLabels(LAST_LABELS)
  {
    LongLabels();
    OutputLabels();
  }

  lemma LongLabels()
    ensures ShortLabel("Termination signal") && ShortLabel("Working directory")
  {}

  lemma OutputLabels()
    ensures ShortLabel("Standard output") && ShortLabel("Standard error")
  {}

  lemma LabelsAreNarrow(cs: Charset, items: seq<string>)
    requires cs.Sane() && ShortLabels(items)
    ensures forall i :: 0 <= i < |items| ==> Width(cs, items[i]) <= LABEL_WIDTH
  {
    forall i | 0 <= i < |items|
      ensures Width(cs, items[i]) <= LABEL_WIDTH
    {
      assert ShortLabel(items[i]);
      PlainWidth(cs, items[i]);
    }
  }

  lemma FrameIsAligned(cs: Charset)
    requires cs.Sane()
    ensures Width(cs, BORDER) == 77 && Width(cs, Row(cs, "Item", "Value")) == 77
  {
    PlainWidth(cs, BORDER);
    PlainWidth(cs, "Item");
    PlainWidth(cs, "Value");
    RowWidth(cs, "Item", "Value");
  }

  /** All lines of the table, borders and heading included, are 77 columns wide. */
  lemma TableIsAligned(cs: Charset, items: seq<string>, values: seq<string>)
    requires cs.Sane() && ShortLabels(items) && |items| == |values|
    ensures forall row :: row in AllRows(cs, items, values) ==> Width(cs, row) == 77
    ensures Width(cs, BORDER) == 77 && Width(cs, Row(cs, "Item", "Value")) == 77
  {
    LabelsAreNarrow(cs, items);
    AllRowsAligned(cs, items, values);
    FrameIsAligned(cs);
  }

  // ---- size ------------------------------------------------------------------------------------

  /** `publish_payload_size`: the length of {"title": "...", "body": "..."}. */
  function PayloadSize(title: string, body: string): nat {
    25 + JsonSize(title) + JsonSize(body)
  }

  predicate Fits(title: string, body: string) {
    PayloadSize(title, body) <= MAX_PUBLISH_PAYLOAD_BYTES
  }

  lemma {:induction false} BlockGrows(cs: Charset, item: string, s: string, k: nat)
    requires cs.Sane() && k <= |s|
    ensures LinesSize(Block(cs, item, s[..k])) <= LinesSize(Block(cs, item, s))
  {
    if k == |s| {
      assert s[..k] == s;
    } else {
      var front := s[..|s| - 1];
      BlockGrows(cs, item, front, k);
      assert front[..k] == s[..k];
      FieldGrows(cs, item, Chunks(cs, front, VALUE_WIDTH), s[|s| - 1]);
    }
  }

  ghost predicate PrefixWise(a: seq<string>, b: seq<string>) {
    |a| == |b| && forall i :: 0 <= i < |a| ==> a[i] <= b[i]
  }

  lemma {:induction false} FlattenGrows(a: seq<seq<string>>, b: seq<seq<string>>)
    requires |a| == |b| && forall i :: 0 <= i < |a| ==> LinesSize(a[i]) <= LinesSize(b[i])
    ensures LinesSize(Flatten(a)) <= LinesSize(Flatten(b))
  {
    if a != [] {
      var n := |a| - 1;
      FlattenGrows(a[..n], b[..n]);
      LinesSizeConcat(Flatten(a[..n]), a[n]);
      LinesSizeConcat(Flatten(b[..n]), b[n]);
    }
  }

  lemma AllRowsGrow(cs: Charset, items: seq<string>, a: seq<string>, b: seq<string>)
    requires cs.Sane() && |items| == |a| && PrefixWise(a, b)
    ensures LinesSize(AllRows(cs, items, a)) <= LinesSize(AllRows(cs, items, b))
  {
    var x, y := Blocks(cs, items, a), Blocks(cs, items, b);
    forall i | 0 <= i < |x|
      ensures LinesSize(x[i]) <= LinesSize(y[i])
    {
      assert a[i] <= b[i] && b[i][..|a[i]|] == a[i];
      BlockGrows(cs, items[i], b[i], |a[i]|);
    }
    FlattenGrows(x, y);
  }

  lemma FootSize(cluster: string)
    ensures LinesSize(Foot(cluster)) == LinesSize(Foot("")) + JsonSize(cluster)
  {
    FootLine(cluster);
    FootLine("");
    assert JsonSize("") == 0;
  }

  lemma FootLine(cluster: string)
    ensures LinesSize(Foot(cluster))
         == JsonSize(BORDER) + 6 + JsonSize("") + JsonSize(CLOSING) + JsonSize(cluster) + JsonSize("\".")
  {
    var line := CLOSING + cluster + "\".";
    JsonSizeConcat(CLOSING, cluster);
    JsonSizeConcat(CLOSING + cluster, "\".");
    ThreeLines(BORDER, "", line);
  }

  lemma ThreeLines(a: string, b: string, c: string)
    ensures LinesSize([a, b, c]) == JsonSize(a) + JsonSize(b) + JsonSize(c) + 6
  {
    assert [c][1..] == [];
    assert LinesSize([c]) == JsonSize(c) + 2;
    assert [b, c][1..] == [c];
    assert LinesSize([b, c]) == JsonSize(b) + 2 + LinesSize([c]);
    assert [a, b, c][1..] == [b, c];
  }

  lemma BodySize(cs: Charset, items: seq<string>, values: seq<string>)
    requires |items| == |values| > 0
    ensures JsonSize(Body(cs, items, values)) + 2
         == LinesSize(Head(cs)) + LinesSize(AllRows(cs, items, values)) + LinesSize(Foot(values[0]))
  {
    var head, rows, foot := Head(cs), AllRows(cs, items, values), Foot(values[0]);
    LinesSizeConcat(head, rows);
    LinesSizeConcat(head + rows, foot);
    JoinSize(head + rows + foot);
  }

  lemma JsonPrefix(a: string, b: string)
    requires a <= b
    ensures JsonSize(a) <= JsonSize(b)
  {
    assert b == a + b[|a|..];
    JsonSizeConcat(a, b[|a|..]);
  }

  /** Longer prefixes of the values never give a smaller body. */
  lemma BodyGrows(cs: Charset, items: seq<string>, a: seq<string>, b: seq<string>)
    requires cs.Sane() && |items| == |a| > 0 && PrefixWise(a, b)
    ensures JsonSize(Body(cs, items, a)) <= JsonSize(Body(cs, items, b))
  {
    BodySize(cs, items, a);
    BodySize(cs, items, b);
    AllRowsGrow(cs, items, a, b);
    FootSize(a[0]);
    FootSize(b[0]);
    JsonPrefix(a[0], b[0]);
  }

  function Candidate(cs: Charset, items: seq<string>, values: seq<string>, maximum: nat): string
    requires |items| == |values| > 0
  {
    Body(cs, items, LimitAll(values, Some(maximum))) + TRUNCATION_SUFFIX
  }

  /** The body grows with the per-value limit, which is what makes a binary search exact. */
  lemma {:induction false} CandidateMonotone(cs: Charset, items: seq<string>, title: string, values: seq<string>,
                                             m: nat, n: nat)
    requires cs.Sane() && |items| == |values| > 0 && m <= n
    ensures PayloadSize(title, Candidate(cs, items, values, m)) <= PayloadSize(title, Candidate(cs, items, values, n))
  {
    var a, b := LimitAll(values, Some(m)), LimitAll(values, Some(n));
    BodyGrows(cs, items, a, b);
    JsonSizeConcat(Body(cs, items, a), TRUNCATION_SUFFIX);
    JsonSizeConcat(Body(cs, items, b), TRUNCATION_SUFFIX);
  }

  // ---- one character per value always fits -------------------------------------------------------

  lemma {:induction false} LinesBound(lines: seq<string>, longest: nat)
    requires forall i :: 0 <= i < |lines| ==> |lines[i]| <= longest
    ensures LinesSize(lines) <= |lines| * (12 * longest + 2)
  {
    if lines != [] {
      JsonSizeBound(lines[0]);
      LinesBound(lines[1..], longest);
      var unit := 12 * longest + 2;
      assert |lines| * unit == unit + |lines[1..]| * unit;
    }
  }

  lemma ShortBlock(cs: Charset, item: string, value: string)
    requires |value| <= 1 && |item| <= LABEL_WIDTH
    ensures LinesSize(Block(cs, item, value)) <= 1190
  {
    var chunks := Chunks(cs, value, VALUE_WIDTH);
    assert chunks == [value] by {
      if value != [] {
        assert value[..0] == [] && "" + [value[0]] == value;
        assert Chunks(cs, value[..0], VALUE_WIDTH) == [""];
      }
    }
    assert [value][..0] == [];
    var row := Row(cs, item, value);
    assert Block(cs, item, value) == [row];
    SpacesLength(Missing(cs, item, LABEL_WIDTH));
    SpacesLength(Missing(cs, value, VALUE_WIDTH));
    assert |row| <= 7 + |item| + LABEL_WIDTH + 1 + VALUE_WIDTH <= 99;
    LinesBound([row], 99);
  }

  lemma {:induction false} SpacesLength(n: nat)
    ensures |Spaces(n)| == n
  {
    if n > 0 {
      SpacesLength(n - 1);
    }
  }

  lemma {:induction false} ManyShortBlocks(blocks: seq<seq<string>>)
    requires forall i :: 0 <= i < |blocks| ==> LinesSize(blocks[i]) <= 1190
    ensures LinesSize(Flatten(blocks)) <= 1190 * |blocks|
  {
    if blocks != [] {
      var n := |blocks| - 1;
      ManyShortBlocks(blocks[..n]);
      LinesSizeConcat(Flatten(blocks[..n]), blocks[n]);
    }
  }

  lemma FrameBound(cs: Charset, cluster: string)
    requires |cluster| <= 1
    ensures LinesSize(Head(cs)) <= 8000 && LinesSize(Foot(cluster)) <= 3200
  {
    SpacesLength(Missing(cs, "Item", LABEL_WIDTH));
    SpacesLength(Missing(cs, "Value", VALUE_WIDTH));
    LinesBound(Head(cs), 110);
    LinesBound(Foot(cluster), 80);
  }

  lemma RowsBound(cs: Charset, items: seq<string>, values: seq<string>)
    requires ShortLabels(items) && |items| == |values| && forall i :: 0 <= i < |values| ==> |values[i]| <= 1
    ensures LinesSize(AllRows(cs, items, values)) <= 1190 * 15
  {
    var blocks := Blocks(cs, items, values);
    forall i | 0 <= i < |blocks|
      ensures LinesSize(blocks[i]) <= 1190
    {
      assert ShortLabel(items[i]);
      ShortBlock(cs, items[i], values[i]);
    }
    ManyShortBlocks(blocks);
  }

  lemma {:induction false} SmallestFits(cs: Charset, items: seq<string>, title: string, values: seq<string>)
    requires ShortLabels(items) && |items| == |values| && |Encode(title)| <= MAX_TITLE_BYTES
    ensures Fits(title, Candidate(cs, items, values, 1))
  {
    var short := LimitAll(values, Some(1));
    BodySize(cs, items, short);
    FrameBound(cs, short[0]);
    RowsBound(cs, items, short);
    JsonWithinSixfold(title);
    JsonSizeBound(TRUNCATION_SUFFIX);
    JsonSizeConcat(Body(cs, items, short), TRUNCATION_SUFFIX);
  }

  // ---- the searches ----------------------------------------------------------------------------

  function Longest(values: seq<string>): (n: nat)
    requires values != []
    ensures forall i :: 0 <= i < |values| ==> |values[i]| <= n
    ensures exists i :: 0 <= i < |values| && |values[i]| == n
  {
    var last := |values[|values| - 1]|;
    if |values| == 1 then last
    else
      var n := Longest(values[..|values| - 1]);
      if n < last then last else n
  }

  ghost predicate FitsAt(cs: Charset, items: seq<string>, title: string, values: seq<string>, m: nat)
    requires |items| == |values| > 0
  {
    Fits(title, Candidate(cs, items, values, m))
  }

  /** The binary search over the per-value limit; a limit of 0 means that none fits. */
  method SearchLimit(cs: Charset, items: seq<string>, title: string, values: seq<string>, highest: nat)
    returns (best: Option<string>, ghost at: nat)
    requires cs.Sane() && |items| == |values| > 0
    ensures best.Some? <==> at > 0
    ensures at <= highest
    ensures at > 0 ==> FitsAt(cs, items, title, values, at) && best == Some(Candidate(cs, items, values, at))
    ensures forall n :: at < n <= highest ==> !FitsAt(cs, items, title, values, n)
  {
    var low, high := 1, highest;
    best, at := None, 0;
    while low <= high
      invariant 1 <= low <= high + 1 && high <= highest
      invariant at == low - 1
      invariant best.Some? <==> at > 0
      invariant at > 0 ==> FitsAt(cs, items, title, values, at) && best == Some(Candidate(cs, items, values, at))
      invariant forall n :: high < n <= highest ==> !FitsAt(cs, items, title, values, n)
    {
      var midpoint := (low + high) / 2;
      var candidate := BuildNotificationBody(cs, items, values, Some(midpoint));
      candidate := candidate + TRUNCATION_SUFFIX;
      if PayloadSize(title, candidate) <= MAX_PUBLISH_PAYLOAD_BYTES {
        best, low, at := Some(candidate), midpoint + 1, midpoint;
      } else {
        high := midpoint - 1;
        LargerMissToo(cs, items, title, values, midpoint);
      }
    }
  }

  /** The whole table if it fits; otherwise the table cut at the largest per-value limit that fits. */
  ghost predicate Fitted(cs: Charset, items: seq<string>, title: string, values: seq<string>, body: string)
    requires |items| == |values| > 0
  {
    && (Fits(title, Body(cs, items, values)) ==> body == Body(cs, items, values))
    && (!Fits(title, Body(cs, items, values)) ==>
          exists m :: 1 <= m <= Longest(values) && body == Candidate(cs, items, values, m)
            && Fits(title, body) && forall n :: m < n ==> !FitsAt(cs, items, title, values, n))
  }

  /** `build_notification_body_for_publish`: the whole table if it fits; otherwise the table cut at the
      largest per-value limit that fits. Some limit always fits, so the generic limiter behind the
      search is never reached. */
  method BuildForPublish(cs: Charset, items: seq<string>, title: string, values: seq<string>) returns (body: string)
    requires cs.Sane() && ShortLabels(items) && |items| == |values|
    requires forall i :: 0 <= i < |values| ==> values[i] != []
    requires |Encode(title)| <= MAX_TITLE_BYTES
    ensures Fits(title, body)
    ensures Fitted(cs, items, title, values, body)
  {
    body := BuildNotificationBody(cs, items, values, None);
    assert LimitAll(values, None) == values;
    if PayloadSize(title, body) > MAX_PUBLISH_PAYLOAD_BYTES {
      var highest := Longest(values);
      assert 1 <= highest by { assert |values[0]| >= 1; }
      var best, at := SearchLimit(cs, items, title, values, highest);
      SmallestFits(cs, items, title, values);
      assert FitsAt(cs, items, title, values, 1);
      WholeIsLargest(cs, items, title, values, highest);
      body := best.value;
    }
  }

  lemma LargerMissToo(cs: Charset, items: seq<string>, title: string, values: seq<string>, m: nat)
    requires cs.Sane() && |items| == |values| > 0 && !FitsAt(cs, items, title, values, m)
    ensures forall n :: m <= n ==> !FitsAt(cs, items, title, values, n)
  {
    forall n | m <= n
      ensures !FitsAt(cs, items, title, values, n)
    {
      CandidateMonotone(cs, items, title, values, m, n);
    }
  }

  lemma SuffixAdds(title: string, body: string)
    ensures PayloadSize(title, body) <= PayloadSize(title, body + TRUNCATION_SUFFIX)
  {
    JsonSizeConcat(body, TRUNCATION_SUFFIX);
  }

  lemma NothingCut(values: seq<string>, n: nat)
    requires forall i :: 0 <= i < |values| ==> |values[i]| <= n
    ensures LimitAll(values, Some(n)) == values
  {}

  /** Limits beyond the longest value cut nothing, and the uncut table with the suffix is larger still. */
  lemma WholeIsLargest(cs: Charset, items: seq<string>, title: string, values: seq<string>, highest: nat)
    requires |items| == |values| > 0 && !Fits(title, Body(cs, items, values))
    requires forall i :: 0 <= i < |values| ==> |values[i]| <= highest
    ensures forall n :: highest <= n ==> !FitsAt(cs, items, title, values, n)
  {
    SuffixAdds(title, Body(cs, items, values));
    forall n | highest <= n
      ensures !FitsAt(cs, items, title, values, n)
    {
      NothingCut(values, n);
    }
  }

  /** `fit_body_to_publish_limit` */
  method FitBodyToPublishLimit(title: string, body: string) returns (r: string)
    ensures Fits(title, body) ==> r == body
    ensures !Fits(title, body) && Fits(title, TRUNCATION_SUFFIX) ==>
              exists k :: 0 <= k <= |body| && r == body[..k] + TRUNCATION_SUFFIX && Fits(title, r)
                && forall j :: k < j <= |body| ==> !Fits(title, body[..j] + TRUNCATION_SUFFIX)
    ensures !Fits(title, body) && !Fits(title, TRUNCATION_SUFFIX) ==> r == TRUNCATION_SUFFIX
  {
    if PayloadSize(title, body) <= MAX_PUBLISH_PAYLOAD_BYTES {
      return body;
    }
    var low, high := 0, |body|;
    r := TRUNCATION_SUFFIX;
    ghost var at := -1;
    assert body[..0] + TRUNCATION_SUFFIX == TRUNCATION_SUFFIX;
    while low <= high
      invariant 0 <= low <= high + 1 <= |body| + 1
      invariant at == low - 1
      invariant at >= 0 ==> r == body[..at] + TRUNCATION_SUFFIX && Fits(title, r)
      invariant at < 0 ==> r == TRUNCATION_SUFFIX
      invariant forall j :: high < j <= |body| ==> !Fits(title, body[..j] + TRUNCATION_SUFFIX)
    {
      var midpoint := (low + high) / 2;
      var candidate := body[..midpoint] + TRUNCATION_SUFFIX;
      if PayloadSize(title, candidate) <= MAX_PUBLISH_PAYLOAD_BYTES {
        r, low, at := candidate, midpoint + 1, midpoint;
      } else {
        high := midpoint - 1;
        LongerPrefixMisses(title, body, midpoint);
      }
    }
    if at < 0 {
      assert !Fits(title, body[..0] + TRUNCATION_SUFFIX);
    } else if !Fits(title, TRUNCATION_SUFFIX) {
      LongerPrefixMisses(title, body, 0);
    }
  }

  lemma LongerPrefixMisses(title: string, body: string, k: nat)
    requires k <= |body| && !Fits(title, body[..k] + TRUNCATION_SUFFIX)
    ensures forall j :: k <= j <= |body| ==> !Fits(title, body[..j] + TRUNCATION_SUFFIX)
  {
    forall j | k <= j <= |body|
      ensures !Fits(title, body[..j] + TRUNCATION_SUFFIX)
    {
      JsonPrefix(body[..k], body[..j]);
      JsonSizeConcat(body[..k], TRUNCATION_SUFFIX);
      JsonSizeConcat(body[..j], TRUNCATION_SUFFIX);
    }
  }

  // ---- the title -------------------------------------------------------------------------------

  function FullTitle(cs: Charset, title: string, event: string, jobId: string): (r: string)
    ensures r != []
  {
    var words := Join(Words(cs.isSpace, title), " ");
    if words != [] then words
    else "[Slurm] job " + (if jobId != [] then jobId else "unknown") + " "
         + (if event != [] then event else "notification")
  }

  /** `sanitize_title`: white space collapsed, then cut to 512 UTF-8 bytes without splitting a character. */
  function SanitizeTitle(cs: Charset, title: string, event: string, jobId: string): (r: string)
    ensures var full := FullTitle(cs, title, event, jobId);
            && r <= full
            && |Encode(r)| <= MAX_TITLE_BYTES
            && forall k :: |r| < k <= |full| ==> |Encode(full[..k])| > MAX_TITLE_BYTES
  {
    var full := FullTitle(cs, title, event, jobId);
    var encoded := Encode(full);
    CutKeepsLongestPrefix(full, MAX_TITLE_BYTES);
    DecodeWhole(full);
    if |encoded| > MAX_TITLE_BYTES then DecodeIgnore(encoded[..MAX_TITLE_BYTES]) else full
  }

  lemma DecodeWhole(s: string)
    ensures DecodeIgnore(Encode(s)) == s
  {
    CutKeepsLongestPrefix(s, |Encode(s)|);
    assert s[..|s|] == s;
  }
}
