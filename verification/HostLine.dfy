/** A host line of the inventory: indentation, tokens, a trailing comment - and the rewriting of its local
    block volume variables in bin/resize.py. `isSpace` is `str.isspace`, which is also what `\s` matches. */
module HostLine {
  import opened Wrappers
  import opened TextWords
  import opened InventoryFile

  /** What the proofs need of the white-space class: nothing that is printed in ASCII belongs to it but the blank. */
  ghost predicate SpaceClass(isSpace: char -> bool) {
    isSpace(' ') && isSpace('\r') && isSpace('\n') && forall c :: '!' <= c <= '~' ==> !isSpace(c)
  }

  predicate Mark(c: char) {
    c == '#' || c == ';'
  }

  predicate EndOfLine(c: char) {
    c == '\r' || c == '\n'
  }

  datatype Host = Host(indent: string, tokens: seq<string>, comment: string)

  /** Where the first white space followed by a comment mark is; the length of the text when there is none. */
  function CommentAt(isSpace: char -> bool, s: string): (p: nat)
    ensures p <= |s|
    ensures p < |s| ==> p + 1 < |s| && isSpace(s[p]) && Mark(s[p + 1])
    ensures forall k :: 0 < k <= p && k < |s| && isSpace(s[k - 1]) ==> !Mark(s[k])
  {
    if |s| < 2 then |s|
    else if isSpace(s[0]) && Mark(s[1]) then 0
    else 1 + CommentAt(isSpace, s[1..])
  }

  /** `split_inventory_host_line` */
  function Split(isSpace: char -> bool, line: string): Option<Host> {
    var body := TrimRight(EndOfLine, line);
    var left := TrimLeft(isSpace, body);
    SplitLeft(isSpace, body[..|body| - |left|], left)
  }

  function SplitLeft(isSpace: char -> bool, indent: string, left: string): Option<Host> {
    var stripped := TrimRight(isSpace, left);
    if stripped == [] || Mark(stripped[0]) then None else Some(SplitStripped(isSpace, indent, stripped))
  }

  function SplitStripped(isSpace: char -> bool, indent: string, stripped: string): Host {
    var p := CommentAt(isSpace, stripped);
    if p < |stripped|
    then Host(indent, Words(isSpace, TrimRight(isSpace, stripped[..p])), stripped[p + 1..])
    else Host(indent, Words(isSpace, stripped), "")
  }

  function Tail(comment: string): string {
    if comment == "" then "" else " " + comment
  }

  function Text(h: Host): string {
    Join(h.tokens, " ") + Tail(h.comment)
  }

  function Format(h: Host): string {
    h.indent + Text(h) + "\n"
  }

  /** No token opens a comment. */
  ghost predicate Unmarked(isSpace: char -> bool, tokens: seq<string>) {
    forall k :: 0 <= k < |tokens| ==> IsWord(isSpace, tokens[k]) && !Mark(tokens[k][0])
  }

  ghost predicate GoodHost(isSpace: char -> bool, h: Host) {
    && (forall k :: 0 <= k < |h.indent| ==> isSpace(h.indent[k]))
    && h.tokens != [] && Unmarked(isSpace, h.tokens)
    && (h.comment != "" ==> Mark(h.comment[0]) && !isSpace(h.comment[|h.comment| - 1]))
  }

  // ---- splitting what was formatted ----------------------------------------------------------------

  lemma {:induction false} TrimLeftOf(drop: char -> bool, a: string, s: string)
    requires (forall k :: 0 <= k < |a| ==> drop(a[k])) && s != [] && !drop(s[0])
    ensures TrimLeft(drop, a + s) == s
  {
    if a == [] {
      assert a + s == s;
    } else {
      assert (a + s)[1..] == a[1..] + s;
      TrimLeftOf(drop, a[1..], s);
    }
  }

  lemma TrimRightOfNewline(s: string)
    requires s != [] && !EndOfLine(s[|s| - 1])
    ensures TrimRight(EndOfLine, s + "\n") == s
  {
    assert (s + "\n")[..|s|] == s;
    assert TrimRight(EndOfLine, s) == s;
  }

  lemma {:induction false} CommentAfterWord(isSpace: char -> bool, w: string, rest: string)
    requires forall k :: 0 <= k < |w| ==> !isSpace(w[k])
    ensures CommentAt(isSpace, w + rest) == |w| + CommentAt(isSpace, rest)
  {
    if w == [] {
      assert w + rest == rest;
    } else {
      assert (w + rest)[1..] == w[1..] + rest;
      CommentAfterWord(isSpace, w[1..], rest);
    }
  }

  lemma CommentAfterSpace(isSpace: char -> bool, rest: string)
    requires rest != [] && !Mark(rest[0])
    ensures CommentAt(isSpace, " " + rest) == 1 + CommentAt(isSpace, rest)
  {
    assert (" " + rest)[1..] == rest;
  }

  lemma CommentOfTail(isSpace: char -> bool, comment: string)
    requires isSpace(' ') && (comment != "" ==> Mark(comment[0]))
    ensures CommentAt(isSpace, Tail(comment)) == 0
  {}

  lemma {:induction false} JoinEnds(isSpace: char -> bool, tokens: seq<string>)
    requires tokens != [] && Unmarked(isSpace, tokens)
    ensures var j := Join(tokens, " "); j != "" && j[0] == tokens[0][0] && !isSpace(j[|j| - 1])
  {
    assert IsWord(isSpace, tokens[0]);
    if |tokens| > 1 {
      JoinEnds(isSpace, tokens[1..]);
      var tail := Join(tokens[1..], " ");
      var j := Join(tokens, " ");
      assert j == tokens[0] + (" " + tail);
      assert j[|j| - 1] == tail[|tail| - 1];
    }
  }

  lemma CommentAfterToken(isSpace: char -> bool, w: string, rest: string)
    requires isSpace(' ') && (forall k :: 0 <= k < |w| ==> !isSpace(w[k])) && rest != [] && !Mark(rest[0])
    ensures CommentAt(isSpace, w + (" " + rest)) == |w| + 1 + CommentAt(isSpace, rest)
  {
    CommentAfterSpace(isSpace, rest);
    CommentAfterWord(isSpace, w, " " + rest);
  }

  lemma {:induction false} CommentOfLine(isSpace: char -> bool, tokens: seq<string>, tail: string)
    requires isSpace(' ') && tokens != [] && Unmarked(isSpace, tokens) && CommentAt(isSpace, tail) == 0
    ensures CommentAt(isSpace, Join(tokens, " ") + tail) == |Join(tokens, " ")|
  {
    assert IsWord(isSpace, tokens[0]);
    if |tokens| == 1 {
      CommentAfterWord(isSpace, tokens[0], tail);
    } else {
      var rest := Join(tokens[1..], " ");
      JoinEnds(isSpace, tokens[1..]);
      CommentOfLine(isSpace, tokens[1..], tail);
      CommentAfterToken(isSpace, tokens[0], rest + tail);
      assert Join(tokens, " ") + tail == tokens[0] + (" " + (rest + tail));
    }
  }

  lemma SplitOfText(isSpace: char -> bool, h: Host)
    requires SpaceClass(isSpace) && GoodHost(isSpace, h)
    ensures SplitStripped(isSpace, h.indent, Text(h)) == h
  {
    var j := Join(h.tokens, " ");
    CommentOfTail(isSpace, h.comment);
    CommentOfLine(isSpace, h.tokens, Tail(h.comment));
    JoinEnds(isSpace, h.tokens);
    SplitOfJoin(isSpace, h.tokens);
    assert Text(h)[..|j|] == j && TrimRight(isSpace, j) == j;
    if h.comment != "" {
      assert Text(h)[|j| + 1..] == h.comment;
    } else {
      assert Text(h) == j;
    }
  }

  /** The text of a host starts and ends with something that is neither white space nor, at the start, a mark. */
  lemma TextEnds(isSpace: char -> bool, h: Host)
    requires GoodHost(isSpace, h)
    ensures var t := Text(h); t != [] && !isSpace(t[0]) && !Mark(t[0]) && !isSpace(t[|t| - 1])
  {
    JoinEnds(isSpace, h.tokens);
    assert IsWord(isSpace, h.tokens[0]) && !Mark(h.tokens[0][0]);
  }

  lemma SplitAround(isSpace: char -> bool, indent: string, text: string)
    requires SpaceClass(isSpace) && forall k :: 0 <= k < |indent| ==> isSpace(indent[k])
    requires text != [] && !isSpace(text[0]) && !Mark(text[0]) && !isSpace(text[|text| - 1])
    ensures Split(isSpace, indent + text + "\n") == Some(SplitStripped(isSpace, indent, text))
  {
    TrimRightOfNewline(indent + text);
    TrimLeftOf(isSpace, indent, text);
    assert (indent + text)[..|indent|] == indent;
    assert TrimRight(isSpace, text) == text;
  }

  /** A host that can be printed is read back. */
  lemma SplitOfFormat(isSpace: char -> bool, h: Host)
    requires SpaceClass(isSpace) && GoodHost(isSpace, h)
    ensures Split(isSpace, Format(h)) == Some(h)
  {
    TextEnds(isSpace, h);
    SplitAround(isSpace, h.indent, Text(h));
    SplitOfText(isSpace, h);
  }

  // ---- what splitting yields -----------------------------------------------------------------------

  lemma {:induction false} WordsUnmarked(isSpace: char -> bool, s: string)
    requires SpaceClass(isSpace)
    requires s != [] ==> !Mark(s[0])
    requires forall k :: 0 < k < |s| && isSpace(s[k - 1]) ==> !Mark(s[k])
    ensures Unmarked(isSpace, Words(isSpace, s))
    decreases |s|
  {
    if s != [] {
      if isSpace(s[0]) {
        WordsUnmarked(isSpace, s[1..]);
      } else {
        var n := WordLength(isSpace, s);
        assert n > 0;
        var rest := s[n..];
        forall k | 0 < k < |rest| && isSpace(rest[k - 1])
          ensures !Mark(rest[k])
        {
          assert rest[k - 1] == s[n + k - 1] && rest[k] == s[n + k];
        }
        WordsUnmarked(isSpace, rest);
      }
    }
  }

  /** Whatever the line, what is read from it can be printed. */
  lemma SplitIsGood(isSpace: char -> bool, line: string)
    requires SpaceClass(isSpace) && Split(isSpace, line).Some?
    ensures GoodHost(isSpace, Split(isSpace, line).value)
  {
    var body := TrimRight(EndOfLine, line);
    var left := TrimLeft(isSpace, body);
    LeftIsGood(isSpace, body[..|body| - |left|], left);
  }

  lemma LeftIsGood(isSpace: char -> bool, indent: string, left: string)
    requires SpaceClass(isSpace) && forall k :: 0 <= k < |indent| ==> isSpace(indent[k])
    requires left != [] ==> !isSpace(left[0])
    requires SplitLeft(isSpace, indent, left).Some?
    ensures GoodHost(isSpace, SplitLeft(isSpace, indent, left).value)
  {
    StrippedIsGood(isSpace, indent, TrimRight(isSpace, left));
  }

  lemma StrippedIsGood(isSpace: char -> bool, indent: string, stripped: string)
    requires SpaceClass(isSpace) && forall k :: 0 <= k < |indent| ==> isSpace(indent[k])
    requires stripped != [] && !Mark(stripped[0]) && !isSpace(stripped[0]) && !isSpace(stripped[|stripped| - 1])
    ensures GoodHost(isSpace, SplitStripped(isSpace, indent, stripped))
  {
    var p := CommentAt(isSpace, stripped);
    PrefixStays(isSpace, stripped, p);
    TokensAreGood(isSpace, stripped, if p < |stripped| then |TrimRight(isSpace, stripped[..p])| else p);
    if p == |stripped| {
      assert stripped[..p] == stripped;
    } else {
      PrefixOfPrefix(isSpace, stripped, p);
    }
  }

  lemma PrefixOfPrefix(isSpace: char -> bool, s: string, p: nat)
    requires p <= |s|
    ensures var t := TrimRight(isSpace, s[..p]); t == s[..|t|] && |t| <= p
  {}

  lemma TokensAreGood(isSpace: char -> bool, s: string, n: nat)
    requires SpaceClass(isSpace) && 0 < n <= |s| && !isSpace(s[0]) && !Mark(s[0])
    requires forall k :: 0 < k < n && isSpace(s[k - 1]) ==> !Mark(s[k])
    ensures Words(isSpace, s[..n]) != [] && Unmarked(isSpace, Words(isSpace, s[..n]))
  {
    WordsUnmarked(isSpace, s[..n]);
    FirstWordIsThere(isSpace, s[..n]);
  }

  lemma PrefixStays(isSpace: char -> bool, s: string, p: nat)
    requires p <= |s| && s != [] && !isSpace(s[0]) && (p < |s| ==> isSpace(s[p]))
    ensures TrimRight(isSpace, s[..p]) != []
  {
    assert p > 0 && s[..p][0] == s[0];
  }

  lemma FirstWordIsThere(isSpace: char -> bool, s: string)
    requires s != [] && !isSpace(s[0])
    ensures Words(isSpace, s) != []
  {}

  // ---- rewriting -----------------------------------------------------------------------------------

  predicate Managed(token: string) {
    '=' in token &&
    var key := Before(token, '=');
    key == "use_local_block_volume" || "local_block_volume_" <= key
  }

  function Keep(tokens: seq<string>): (kept: seq<string>)
    ensures forall t :: t in kept <==> t in tokens && !Managed(t)
  {
    if tokens == [] then []
    else
      var last := tokens[|tokens| - 1];
      Keep(tokens[..|tokens| - 1]) + if Managed(last) then [] else [last]
  }

  function Rendered(values: seq<(string, string)>): (tokens: seq<string>)
    ensures |tokens| == |values|
  {
    seq(|values|, k requires 0 <= k < |values| => values[k].0 + "=" + values[k].1)
  }

  /** A variable's token splits at its first '=' into the key and the value it was made from. */
  lemma TokenSplits(key: string, value: string)
    requires '=' !in key
    ensures var token := key + "=" + value; Before(token, '=') == key && After(token, '=') == value
  {
    BeforeAt(key, '=', value);
    assert key + ['='] + value == key + "=" + value;
    AfterAt(key, '=', value);
  }

  lemma {:induction false} AfterAt(s: string, c: char, rest: string)
    requires c !in s
    ensures After(s + [c] + rest, c) == rest
  {
    if s == [] {
      assert (s + [c] + rest)[1..] == rest;
    } else {
      AfterAt(s[1..], c, rest);
      assert (s + [c] + rest)[1..] == s[1..] + [c] + rest;
    }
  }

  function Rewritten(h: Host, values: seq<(string, string)>): Host {
    h.(tokens := Keep(h.tokens) + Rendered(values))
  }

  function Rewrite(isSpace: char -> bool, line: string, values: seq<(string, string)>): string {
    match Split(isSpace, line)
    case None => line
    case Some(h) => Format(Rewritten(h, values))
  }

  method KeepTokens(tokens: seq<string>) returns (kept: seq<string>)
    ensures kept == Keep(tokens)
  {
    kept := [];
    for k := 0 to |tokens|
      invariant kept == Keep(tokens[..k])
    {
      assert tokens[..k + 1][..k] == tokens[..k];
      if !Managed(tokens[k]) {
        kept := kept + [tokens[k]];
      }
    }
    assert tokens[..|tokens|] == tokens;
  }

  method AddValues(tokens: seq<string>, values: seq<(string, string)>) returns (all: seq<string>)
    ensures all == tokens + Rendered(values)
  {
    all := tokens;
    for k := 0 to |values|
      invariant all == tokens + Rendered(values)[..k]
    {
      all := all + [values[k].0 + "=" + values[k].1];
    }
  }

  /** `rewrite_compute_inventory_line` */
  method RewriteLine(isSpace: char -> bool, line: string, values: seq<(string, string)>) returns (r: string)
    ensures r == Rewrite(isSpace, line, values)
  {
    var parsed := Split(isSpace, line);
    if parsed.None? {
      return line;
    }
    var kept := KeepTokens(parsed.value.tokens);
    var tokens := AddValues(kept, values);
    r := parsed.value.indent + Join(tokens, " ");
    if parsed.value.comment != "" {
      r := r + " " + parsed.value.comment;
    }
    r := r + "\n";
    Assembled(parsed.value.indent, Join(tokens, " "), parsed.value.comment);
  }

  lemma Assembled(indent: string, text: string, comment: string)
    ensures indent + (text + Tail(comment)) + "\n"
         == (if comment != "" then indent + text + " " + comment else indent + text) + "\n"
  {
    if comment != "" {
      assert indent + (text + (" " + comment)) == indent + text + " " + comment;
    } else {
      assert text + "" == text;
    }
  }

  /** Variables the script writes: their keys are managed and nothing in them is white space. */
  ghost predicate GoodValues(isSpace: char -> bool, values: seq<(string, string)>) {
    values != [] && Unmarked(isSpace, Rendered(values)) && forall t :: t in Rendered(values) ==> Managed(t)
  }

  lemma {:induction false} KeepOfSum(a: seq<string>, b: seq<string>)
    ensures Keep(a + b) == Keep(a) + Keep(b)
  {
    if b == [] {
      assert a + b == a && Keep(b) == [];
    } else {
      assert (a + b)[..|a + b| - 1] == a + b[..|b| - 1];
      KeepOfSum(a, b[..|b| - 1]);
    }
  }

  lemma {:induction false} KeepOfKept(tokens: seq<string>)
    requires forall t :: t in tokens ==> !Managed(t)
    ensures Keep(tokens) == tokens
  {
    if tokens != [] {
      KeepOfKept(tokens[..|tokens| - 1]);
      assert tokens == tokens[..|tokens| - 1] + [tokens[|tokens| - 1]];
    }
  }

  lemma {:induction false} KeepOfManaged(tokens: seq<string>)
    requires forall t :: t in tokens ==> Managed(t)
    ensures Keep(tokens) == []
  {
    if tokens != [] {
      KeepOfManaged(tokens[..|tokens| - 1]);
    }
  }

  lemma RewrittenIsGood(isSpace: char -> bool, h: Host, values: seq<(string, string)>)
    requires GoodHost(isSpace, h) && GoodValues(isSpace, values)
    ensures GoodHost(isSpace, Rewritten(h, values))
  {
    var kept := Keep(h.tokens);
    forall k | 0 <= k < |kept|
      ensures IsWord(isSpace, kept[k]) && !Mark(kept[k][0])
    {
      assert kept[k] in h.tokens;
    }
  }

  /** Reading a rewritten line: the same indentation and comment, every other token in order, then the new
      variables. */
  lemma {:induction false} RewriteKeeps(isSpace: char -> bool, line: string, values: seq<(string, string)>)
    requires SpaceClass(isSpace) && GoodValues(isSpace, values) && Split(isSpace, line).Some?
    ensures Split(isSpace, Rewrite(isSpace, line, values)) == Some(Rewritten(Split(isSpace, line).value, values))
  {
    var h := Split(isSpace, line).value;
    SplitIsGood(isSpace, line);
    RewrittenIsGood(isSpace, h, values);
    SplitOfFormat(isSpace, Rewritten(h, values));
  }

  lemma KeepTwice(tokens: seq<string>, added: seq<string>)
    requires forall t :: t in added ==> Managed(t)
    ensures Keep(Keep(tokens) + added) == Keep(tokens)
  {
    KeepOfSum(Keep(tokens), added);
    KeepOfKept(Keep(tokens));
    KeepOfManaged(added);
  }

  /** Only the last rewriting of a line counts. */
  lemma {:induction false} RewriteTwice(isSpace: char -> bool, line: string, first: seq<(string, string)>,
                                        second: seq<(string, string)>)
    requires SpaceClass(isSpace) && GoodValues(isSpace, first)
    ensures Rewrite(isSpace, Rewrite(isSpace, line, first), second) == Rewrite(isSpace, line, second)
  {
    if Split(isSpace, line).Some? {
      RewriteKeeps(isSpace, line, first);
      KeepTwice(Split(isSpace, line).value.tokens, Rendered(first));
    }
  }

  // ---- what splitting means ------------------------------------------------------------------------

  ghost predicate White(isSpace: char -> bool, s: string) {
    forall k :: 0 <= k < |s| ==> isSpace(s[k])
  }

  /** The part of a line before its comment: it starts and ends with a word and opens no comment. */
  ghost predicate IsCore(isSpace: char -> bool, core: string) {
    && core != [] && !isSpace(core[0]) && !Mark(core[0]) && !isSpace(core[|core| - 1])
    && forall k :: 0 < k < |core| && isSpace(core[k - 1]) ==> !Mark(core[k])
  }

  /** A comment goes from a mark to the last printed character. */
  ghost predicate IsComment(isSpace: char -> bool, comment: string) {
    comment != [] && Mark(comment[0]) && !isSpace(comment[|comment| - 1])
  }

  /** The host is what the line says: indentation, words, and the comment behind the first white space before a
      mark; nothing else is lost but white space. */
  ghost predicate LaidOut(isSpace: char -> bool, line: string, h: Host, core: string, gap: string, end: string) {
    && line == h.indent + core + gap + h.comment + end
    && White(isSpace, h.indent) && White(isSpace, gap) && White(isSpace, end)
    && IsCore(isSpace, core) && h.tokens == Words(isSpace, core)
    && if h.comment == "" then gap == "" else gap != "" && IsComment(isSpace, h.comment)
  }

  /** A line that is no host: blank, or a comment. */
  ghost predicate NoHost(isSpace: char -> bool, line: string) {
    White(isSpace, line) || exists k :: 0 <= k < |line| && Mark(line[k]) && White(isSpace, line[..k])
  }

  lemma BeforeTrimmed(drop: char -> bool, s: string, left: string) returns (a: string)
    requires left == TrimLeft(drop, s)
    ensures s == a + left && White(drop, a) && a == s[..|s| - |left|]
  {
    a := s[..|s| - |left|];
  }

  lemma AfterTrimmed(drop: char -> bool, s: string, core: string) returns (b: string)
    requires core == TrimRight(drop, s)
    ensures s == core + b && White(drop, b)
  {
    b := s[|core|..];
  }

  lemma EndIsWhite(isSpace: char -> bool, tail: string, rest: string)
    requires SpaceClass(isSpace) && White(isSpace, tail) && White(EndOfLine, rest)
    ensures White(isSpace, tail + rest)
  {
    forall k | 0 <= k < |rest|
      ensures isSpace(rest[k])
    {
      assert EndOfLine(rest[k]);
    }
  }

  lemma InThreeParts(line: string, body: string, left: string, indent: string, core: string, tail: string, rest: string)
    requires line == body + rest && body == indent + left && left == core + tail
    ensures line == indent + core + (tail + rest)
  {}

  lemma PartsOf(isSpace: char -> bool, line: string, body: string, left: string, stripped: string)
    returns (indent: string, end: string)
    requires SpaceClass(isSpace)
    requires body == TrimRight(EndOfLine, line) && left == TrimLeft(isSpace, body)
    requires stripped == TrimRight(isSpace, left)
    ensures line == indent + stripped + end && White(isSpace, indent) && White(isSpace, end)
    ensures indent == body[..|body| - |left|]
  {
    var rest := AfterTrimmed(EndOfLine, line, body);
    indent := BeforeTrimmed(isSpace, body, left);
    var tail := AfterTrimmed(isSpace, left, stripped);
    EndIsWhite(isSpace, tail, rest);
    InThreeParts(line, body, left, indent, stripped, tail, rest);
    end := tail + rest;
  }

  lemma StrippedEnds(isSpace: char -> bool, left: string, stripped: string)
    requires stripped == TrimRight(isSpace, left) && stripped != [] && (left != [] ==> !isSpace(left[0]))
    ensures !isSpace(stripped[0]) && !isSpace(stripped[|stripped| - 1])
  {}

  lemma CommentFound(isSpace: char -> bool, stripped: string, p: nat, core: string) returns (gap: string)
    requires SpaceClass(isSpace) && stripped != [] && !isSpace(stripped[0]) && !Mark(stripped[0])
    requires p == CommentAt(isSpace, stripped) < |stripped| && core == TrimRight(isSpace, stripped[..p])
    ensures stripped == core + gap + stripped[p + 1..] && White(isSpace, gap) && gap != ""
    ensures IsCore(isSpace, core) && Mark(stripped[p + 1])
  {
    PrefixStays(isSpace, stripped, p);
    PrefixOfPrefix(isSpace, stripped, p);
    gap := stripped[|core|..p + 1];
    forall k | 0 <= k < |gap|
      ensures isSpace(gap[k])
    {
      assert gap[k] == stripped[|core| + k];
      if |core| + k < p {
        assert stripped[..p][|core| + k] == stripped[|core| + k];
      }
    }
    assert core == stripped[..|core|];
  }

  lemma NoComment(isSpace: char -> bool, stripped: string)
    requires stripped != [] && !isSpace(stripped[0]) && !Mark(stripped[0]) && !isSpace(stripped[|stripped| - 1])
    requires CommentAt(isSpace, stripped) == |stripped|
    ensures IsCore(isSpace, stripped)
  {}

  lemma InFive(indent: string, core: string, gap: string, comment: string, end: string, stripped: string)
    requires stripped == core + gap + comment
    ensures indent + stripped + end == indent + core + gap + comment + end
  {}

  lemma StrippedMeans(isSpace: char -> bool, line: string, indent: string, stripped: string, end: string, h: Host)
    returns (core: string, gap: string)
    requires SpaceClass(isSpace) && line == indent + stripped + end && White(isSpace, indent) && White(isSpace, end)
    requires stripped != [] && !isSpace(stripped[0]) && !Mark(stripped[0]) && !isSpace(stripped[|stripped| - 1])
    requires h == SplitStripped(isSpace, indent, stripped)
    ensures LaidOut(isSpace, line, h, core, gap, end)
  {
    var p := CommentAt(isSpace, stripped);
    if p < |stripped| {
      core := TrimRight(isSpace, stripped[..p]);
      gap := CommentFound(isSpace, stripped, p, core);
      InFive(indent, core, gap, stripped[p + 1..], end, stripped);
    } else {
      core, gap := stripped, "";
      NoComment(isSpace, stripped);
      InFive(indent, core, gap, "", end, stripped);
    }
  }

  /** Whatever the line, its host is laid out in it. */
  lemma SplitMeans(isSpace: char -> bool, line: string) returns (core: string, gap: string, end: string)
    requires SpaceClass(isSpace) && Split(isSpace, line).Some?
    ensures LaidOut(isSpace, line, Split(isSpace, line).value, core, gap, end)
  {
    var body := TrimRight(EndOfLine, line);
    var left := TrimLeft(isSpace, body);
    var stripped := TrimRight(isSpace, left);
    var indent;
    indent, end := PartsOf(isSpace, line, body, left, stripped);
    StrippedEnds(isSpace, left, stripped);
    core, gap := StrippedMeans(isSpace, line, indent, stripped, end, Split(isSpace, line).value);
  }

  lemma AllWhite(isSpace: char -> bool, line: string, indent: string, end: string)
    requires line == indent + [] + end && White(isSpace, indent) && White(isSpace, end)
    ensures White(isSpace, line)
  {}

  lemma FirstPrinted(isSpace: char -> bool, line: string, indent: string, stripped: string, end: string)
    requires SpaceClass(isSpace) && line == indent + stripped + end && White(isSpace, indent)
    requires stripped != [] && !isSpace(stripped[0])
    ensures NoHost(isSpace, line) <==> Mark(stripped[0])
  {
    var j := |indent|;
    assert line[j] == stripped[0] && line[..j] == indent;
    if k :| 0 <= k < |line| && Mark(line[k]) && White(isSpace, line[..k]) {
      OnlyOne(isSpace, line, j, k);
    }
  }

  lemma OnlyOne(isSpace: char -> bool, line: string, j: nat, k: nat)
    requires SpaceClass(isSpace) && j < |line| && k < |line|
    requires White(isSpace, line[..j]) && !isSpace(line[j]) && White(isSpace, line[..k]) && Mark(line[k])
    ensures j == k
  {}

  /** A line has no host exactly when it is blank or a comment. */
  lemma SplitsExactly(isSpace: char -> bool, line: string)
    requires SpaceClass(isSpace)
    ensures Split(isSpace, line).None? <==> NoHost(isSpace, line)
  {
    var body := TrimRight(EndOfLine, line);
    var left := TrimLeft(isSpace, body);
    var stripped := TrimRight(isSpace, left);
    var indent, end := PartsOf(isSpace, line, body, left, stripped);
    if stripped == [] {
      AllWhite(isSpace, line, indent, end);
    } else {
      StrippedEnds(isSpace, left, stripped);
      FirstPrinted(isSpace, line, indent, stripped, end);
    }
  }
}
