/** `str.split()`, `" ".join(...)` and concatenation, over an arbitrary white-space class. */
module TextWords {

  /** `str.isspace` on an ASCII character */
  predicate AsciiSpace(c: char) {
    c == ' ' || 0x09 <= c as int <= 0x0D || 0x1C <= c as int <= 0x1F
  }

  /** Length of the run of non-space characters a text starts with. */
  function WordLength(isSpace: char -> bool, s: string): (n: nat)
    ensures n <= |s|
    ensures forall i :: 0 <= i < n ==> !isSpace(s[i])
    ensures n < |s| ==> isSpace(s[n])
  {
    if s == [] || isSpace(s[0]) then 0 else 1 + WordLength(isSpace, s[1..])
  }

  function Words(isSpace: char -> bool, s: string): seq<string>
    decreases |s|
  {
    if s == [] then []
    else if isSpace(s[0]) then Words(isSpace, s[1..])
    else
      var n := WordLength(isSpace, s);
      [s[..n]] + Words(isSpace, s[n..])
  }

  function Join(parts: seq<string>, separator: string): string {
    if parts == [] then ""
    else if |parts| == 1 then parts[0]
    else parts[0] + separator + Join(parts[1..], separator)
  }

  predicate IsWord(isSpace: char -> bool, w: string) {
    w != [] && forall i :: 0 <= i < |w| ==> !isSpace(w[i])
  }

  ghost predicate AllWords(isSpace: char -> bool, parts: seq<string>) {
    forall i :: 0 <= i < |parts| ==> IsWord(isSpace, parts[i])
  }

  lemma {:induction false} WordsAreWords(isSpace: char -> bool, s: string)
    ensures AllWords(isSpace, Words(isSpace, s))
    decreases |s|
  {
    if s != [] {
      if isSpace(s[0]) {
        WordsAreWords(isSpace, s[1..]);
      } else {
        WordsAreWords(isSpace, s[WordLength(isSpace, s)..]);
      }
    }
  }

  /** The first word of a text that starts with a word and then ends or goes on with white space. */
  lemma {:induction false} FirstWord(isSpace: char -> bool, w: string, rest: string)
    requires IsWord(isSpace, w) && (rest == [] || isSpace(rest[0]))
    ensures Words(isSpace, w + rest) == [w] + Words(isSpace, rest)
  {
    var s := w + rest;
    assert s[0] == w[0];
    var n := WordLength(isSpace, s);
    assert forall i :: 0 <= i < |w| ==> s[i] == w[i];
    assert rest != [] ==> s[|w|] == rest[0];
    assert s[..n] == w && s[n..] == rest;
  }

  lemma {:induction false} SplitOfJoin(isSpace: char -> bool, parts: seq<string>)
    requires AllWords(isSpace, parts) && isSpace(' ')
    ensures Words(isSpace, Join(parts, " ")) == parts
  {
    if |parts| == 1 {
      FirstWord(isSpace, parts[0], []);
      assert parts[0] + [] == parts[0];
    } else if |parts| > 1 {
      var tail := Join(parts[1..], " ");
      SplitOfJoin(isSpace, parts[1..]);
      assert IsWord(isSpace, parts[0]);
      FirstWord(isSpace, parts[0], " " + tail);
      assert parts[0] + " " + tail == parts[0] + (" " + tail);
      assert (" " + tail)[1..] == tail;
      assert parts == [parts[0]] + parts[1..];
    }
  }

  /** `s.split(c)` */
  function SplitOn(s: string, c: char): (parts: seq<string>)
    ensures parts != []
  {
    if s == [] then [[]]
    else
      var rest := SplitOn(s[1..], c);
      if s[0] == c then [[]] + rest else [[s[0]] + rest[0]] + rest[1..]
  }

  lemma {:induction false} SplitOnNone(s: string, c: char)
    requires c !in s
    ensures SplitOn(s, c) == [s]
  {
    if s != [] {
      SplitOnNone(s[1..], c);
      assert [s[0]] + s[1..] == s;
    }
  }

  lemma {:induction false} SplitOnFirst(a: string, c: char, rest: string)
    requires c !in a
    ensures SplitOn(a + [c] + rest, c) == [a] + SplitOn(rest, c)
  {
    if a == [] {
      assert (a + [c] + rest)[1..] == rest;
    } else {
      SplitOnFirst(a[1..], c, rest);
      assert (a + [c] + rest)[1..] == a[1..] + [c] + rest;
      assert [a[0]] + a[1..] == a;
    }
  }

  /** Parts without the separator come back. */
  lemma {:induction false} SplitOnJoin(parts: seq<string>, c: char)
    requires parts != [] && forall k :: 0 <= k < |parts| ==> c !in parts[k]
    ensures SplitOn(Join(parts, [c]), c) == parts
  {
    if |parts| == 1 {
      SplitOnNone(parts[0], c);
    } else {
      SplitOnJoin(parts[1..], c);
      SplitOnFirst(parts[0], c, Join(parts[1..], [c]));
      assert parts == [parts[0]] + parts[1..];
    }
  }

  /** Words with single blanks between them. */
  ghost predicate Spaced(isSpace: char -> bool, s: string) {
    && s != [] && !isSpace(s[0]) && !isSpace(s[|s| - 1])
    && forall k :: 0 < k < |s| && isSpace(s[k]) ==> s[k] == ' ' && !isSpace(s[k - 1])
  }

  lemma RestIsSpaced(isSpace: char -> bool, s: string, n: nat)
    requires Spaced(isSpace, s) && n < |s| && isSpace(s[n])
    ensures s[n] == ' ' && n + 1 < |s| && Spaced(isSpace, s[n + 1..])
  {
    assert n > 0;
    var c := s[n + 1];
    assert !isSpace(c);
    var rest := s[n + 1..];
    forall k | 0 < k < |rest| && isSpace(rest[k])
      ensures rest[k] == ' ' && !isSpace(rest[k - 1])
    {
      assert rest[k] == s[n + 1 + k] && rest[k - 1] == s[n + k];
    }
  }

  lemma BlankFirst(isSpace: char -> bool, s: string)
    requires s != [] && isSpace(s[0])
    ensures Words(isSpace, s) == Words(isSpace, s[1..])
  {}

  lemma WordFirst(isSpace: char -> bool, s: string, n: nat)
    requires s != [] && !isSpace(s[0]) && n == WordLength(isSpace, s)
    ensures n > 0 && Words(isSpace, s) == [s[..n]] + Words(isSpace, s[n..])
  {}

  lemma WordThenBlank(isSpace: char -> bool, s: string, n: nat, rest: string)
    requires s != [] && !isSpace(s[0]) && n == WordLength(isSpace, s) < |s| && rest == s[n + 1..]
    ensures Words(isSpace, s) == [s[..n]] + Words(isSpace, rest)
  {
    WordFirst(isSpace, s, n);
    BlankFirst(isSpace, s[n..]);
    assert s[n..][1..] == rest;
  }

  lemma {:induction false} JoinOfWords(isSpace: char -> bool, s: string)
    requires Spaced(isSpace, s)
    ensures Join(Words(isSpace, s), " ") == s
    decreases |s|
  {
    var n := WordLength(isSpace, s);
    if n == |s| {
      OneWord(isSpace, s);
    } else {
      var word, rest := s[..n], s[n + 1..];
      WordThenBlank(isSpace, s, n, rest);
      RestIsSpaced(isSpace, s, n);
      JoinOfWords(isSpace, rest);
      JoinFirst(word, Words(isSpace, rest));
      InThree(s, n);
    }
  }

  lemma OneWord(isSpace: char -> bool, s: string)
    requires s != [] && WordLength(isSpace, s) == |s|
    ensures Words(isSpace, s) == [s]
  {
    WordFirst(isSpace, s, |s|);
    assert s[..|s|] == s && s[|s|..] == [];
  }

  lemma InThree(s: string, n: nat)
    requires n < |s| && s[n] == ' '
    ensures s == s[..n] + " " + s[n + 1..]
  {}

  lemma JoinFirst(word: string, words: seq<string>)
    requires Join(words, " ") != ""
    ensures Join([word] + words, " ") == word + " " + Join(words, " ")
  {
    assert ([word] + words)[1..] == words;
  }

  // ---- concatenation -----------------------------------------------------------------------------

  function Concat(parts: seq<string>): string {
    if parts == [] then [] else Concat(parts[..|parts| - 1]) + parts[|parts| - 1]
  }

  lemma ConcatOne(s: string)
    ensures Concat([s]) == s
  {
    assert [s][..0] == [];
    assert Concat([s][..0]) == [];
  }

  lemma {:induction false} ConcatFirst(parts: seq<string>)
    requires parts != []
    ensures Concat(parts) == parts[0] + Concat(parts[1..])
  {
    if |parts| == 1 {
      ConcatOne(parts[0]);
      assert parts == [parts[0]] && parts[1..] == [] && parts[0] + [] == parts[0];
    } else {
      var front, last := parts[..|parts| - 1], parts[|parts| - 1];
      ConcatFirst(front);
      assert parts[1..][..|parts| - 2] == front[1..];
      assert parts[0] + Concat(front[1..]) + last == parts[0] + (Concat(front[1..]) + last);
    }
  }
}
