/** `prepare_local_block_volume_inventory` of bin/resize.py: every compute host line, and every NFS line of a
    host that is also a compute host, gets the variables of its instance. */
module PrepareInventory {
  import opened Wrappers
  import opened TextWords
  import opened InventoryFile
  import opened HostLine

  type Values = seq<(string, string)>

  /** What the cloud says about an instance: its display name and the variables for its host line. */
  datatype Answer = Answer(name: string, values: Values)

  type Cloud = string -> Result<Answer>

  const ID_PREFIX: string := "oci_instance_id="

  /** The values of the instance id tokens, in order. */
  function Ids(tokens: seq<string>): (ids: seq<string>)
    ensures tokens == [] ==> ids == []
  {
    if tokens == [] then []
    else
      var last := tokens[|tokens| - 1];
      Ids(tokens[..|tokens| - 1]) + if ID_PREFIX <= last then [last[|ID_PREFIX|..]] else []
  }

  /** `get_inventory_instance_id`; None for a line that is no host. */
  function InstanceId(isSpace: char -> bool, line: string): Result<Option<(string, string)>> {
    match Split(isSpace, line)
    case None => Ok(None)
    case Some(h) => HostId(h.tokens)
  }

  function HostId(tokens: seq<string>): Result<Option<(string, string)>> {
    var ids := Ids(tokens);
    if |ids| != 1 || ids[0] == "" then Err("exactly one oci_instance_id is needed") else Ok(Some((tokens[0], ids[0])))
  }

  /** Lines done so far and the variables of each host among them. */
  datatype Progress = Progress(lines: seq<string>, known: map<string, Values>)

  function PrepareLine(isSpace: char -> bool, cloud: Cloud, p: Progress, line: string): Result<Progress> {
    match InstanceId(isSpace, line)
    case Err(e) => Err(e)
    case Ok(None) => Ok(p.(lines := p.lines + [line]))
    case Ok(Some(host)) => PrepareHost(p, host.0, cloud(host.1), values => Rewrite(isSpace, line, values))
  }

  function PrepareHost(p: Progress, name: string, answer: Result<Answer>, rewrite: Values -> string): Result<Progress> {
    match answer
    case Err(e) => Err(e)
    case Ok(found) =>
      if found.name != name then Err("the host does not match its instance")
      else Ok(Progress(p.lines + [rewrite(found.values)], p.known[name := found.values]))
  }

  type LineStep = (Progress, string) -> Result<Progress>

  function LineStepOf(isSpace: char -> bool, cloud: Cloud): LineStep {
    (p, line) => PrepareLine(isSpace, cloud, p, line)
  }

  /** One line after the other, until one fails. */
  function EachLine(step: LineStep, lines: seq<string>, known: map<string, Values>): Result<Progress> {
    if lines == [] then Ok(Progress([], known))
    else
      match EachLine(step, lines[..|lines| - 1], known)
      case Err(e) => Err(e)
      case Ok(p) => step(p, lines[|lines| - 1])
  }

  function PrepareLines(isSpace: char -> bool, cloud: Cloud, lines: seq<string>, known: map<string, Values>)
    : Result<Progress>
  {
    EachLine(LineStepOf(isSpace, cloud), lines, known)
  }

  function NfsLine(isSpace: char -> bool, known: map<string, Values>, line: string): string {
    match Split(isSpace, line)
    case None => line
    case Some(h) => if h.tokens != [] && h.tokens[0] in known then Rewrite(isSpace, line, known[h.tokens[0]]) else line
  }

  function NfsLines(isSpace: char -> bool, known: map<string, Values>, lines: seq<string>): (r: seq<string>)
    ensures |r| == |lines|
  {
    seq(|lines|, k requires 0 <= k < |lines| => NfsLine(isSpace, known, lines[k]))
  }

  function SetLines(inventory: Inventory, name: string, lines: seq<string>): Inventory {
    if inventory == [] then []
    else if inventory[0].name == name then [Section(name, lines)] + inventory[1..]
    else [inventory[0]] + SetLines(inventory[1..], name, lines)
  }

  datatype Step = Step(inventory: Inventory, known: map<string, Values>)

  function PrepareSection(isSpace: char -> bool, cloud: Cloud, s: Step, name: string): Result<Step> {
    match LinesOf(s.inventory, name)
    case None => Err("missing section")
    case Some(lines) =>
      match PrepareLines(isSpace, cloud, lines, s.known)
      case Err(e) => Err(e)
      case Ok(p) => Ok(Step(SetLines(s.inventory, name, p.lines), p.known))
  }

  function PrepareNfs(isSpace: char -> bool, s: Step): Inventory {
    match LinesOf(s.inventory, "nfs")
    case None => s.inventory
    case Some(lines) => SetLines(s.inventory, "nfs", NfsLines(isSpace, s.known, lines))
  }

  function Prepared(isSpace: char -> bool, cloud: Cloud, inventory: Inventory): Result<Inventory> {
    match PrepareSection(isSpace, cloud, Step(inventory, map[]), "compute_configured")
    case Err(e) => Err(e)
    case Ok(first) =>
      match PrepareSection(isSpace, cloud, first, "compute_to_add")
      case Err(e) => Err(e)
      case Ok(second) => Ok(PrepareNfs(isSpace, second))
  }

  // ---- the script ----------------------------------------------------------------------------------

  method UpdateHosts(step: LineStep, lines: seq<string>, known: map<string, Values>) returns (r: Result<Progress>)
    ensures r == EachLine(step, lines, known)
  {
    var p := Progress([], known);
    for k := 0 to |lines|
      invariant EachLine(step, lines[..k], known) == Ok(p)
    {
      EachLineMore(step, lines[..k], known, lines[k]);
      assert lines[..k] + [lines[k]] == lines[..k + 1];
      var next := step(p, lines[k]);
      if next.Err? {
        FailsOn(step, lines, known, k + 1);
        return next;
      }
      p := next.value;
    }
    assert lines[..|lines|] == lines;
    r := Ok(p);
  }

  lemma EachLineMore(step: LineStep, lines: seq<string>, known: map<string, Values>, line: string)
    ensures EachLine(step, lines + [line], known) ==
      match EachLine(step, lines, known)
      case Err(e) => Err(e)
      case Ok(p) => step(p, line)
  {
    assert (lines + [line])[..|lines|] == lines;
  }

  /** An error ends the preparation, whatever follows. */
  lemma {:induction false} FailsOn(step: LineStep, lines: seq<string>, known: map<string, Values>, k: nat)
    requires k <= |lines| && EachLine(step, lines[..k], known).Err?
    ensures EachLine(step, lines, known) == EachLine(step, lines[..k], known)
    decreases |lines| - k
  {
    if k == |lines| {
      assert lines[..k] == lines;
    } else {
      EachLineMore(step, lines[..k], known, lines[k]);
      assert lines[..k] + [lines[k]] == lines[..k + 1];
      FailsOn(step, lines, known, k + 1);
    }
  }

  method Prepare(isSpace: char -> bool, cloud: Cloud, inventory: Inventory) returns (r: Result<Inventory>)
    ensures r == Prepared(isSpace, cloud, inventory)
    ensures r.Ok? <==> Preparable(ViewOf(isSpace, cloud), inventory)
    ensures r.Ok? && SpaceClass(isSpace) && GoodCloud(isSpace, cloud) ==>
      AllDone(ViewOf(isSpace, cloud), inventory, r.value)
  {
    PreparedExactly(isSpace, cloud, inventory);
    var prepared, known := inventory, map[];
    var names := ["compute_configured", "compute_to_add"];
    var s := Step(inventory, map[]);
    for k := 0 to 2
      invariant s == Step(prepared, known)
      invariant k == 0 ==> s == Step(inventory, map[])
      invariant k == 1 ==> PrepareSection(isSpace, cloud, Step(inventory, map[]), names[0]) == Ok(s)
      invariant k == 2 ==> match PrepareSection(isSpace, cloud, Step(inventory, map[]), names[0])
                           case Err(_) => false
                           case Ok(first) => PrepareSection(isSpace, cloud, first, names[1]) == Ok(s)
    {
      var lines := LinesOf(prepared, names[k]);
      if lines.None? {
        return Err("missing section");
      }
      var updated := UpdateHosts(LineStepOf(isSpace, cloud), lines.value, known);
      if updated.Err? {
        return Err(updated.error);
      }
      known := updated.value.known;
      prepared := SetLines(prepared, names[k], updated.value.lines);
      s := Step(prepared, known);
    }
    var nfs := LinesOf(prepared, "nfs");
    if nfs.Some? {
      var lines := nfs.value;
      for k := 0 to |lines|
        invariant |lines| == |nfs.value|
        invariant forall j :: 0 <= j < k ==> lines[j] == NfsLine(isSpace, known, nfs.value[j])
        invariant forall j :: k <= j < |lines| ==> lines[j] == nfs.value[j]
      {
        lines := lines[k := NfsLine(isSpace, known, lines[k])];
      }
      assert lines == NfsLines(isSpace, known, nfs.value);
      prepared := SetLines(prepared, "nfs", lines);
    }
    r := Ok(prepared);
  }

  // ---- preparing twice -----------------------------------------------------------------------------

  /** Variables that survive on a line, and no node is called like one of them. */
  ghost predicate GoodCloud(isSpace: char -> bool, cloud: Cloud) {
    forall id :: cloud(id).Ok? ==> GoodValues(isSpace, cloud(id).value.values) && !Managed(cloud(id).value.name)
  }

  ghost predicate GoodKnown(isSpace: char -> bool, known: map<string, Values>) {
    forall name :: name in known ==> GoodValues(isSpace, known[name]) && !Managed(name)
  }

  lemma {:induction false} IdsOfSum(a: seq<string>, b: seq<string>)
    ensures Ids(a + b) == Ids(a) + Ids(b)
  {
    if b == [] {
      assert a + b == a;
    } else {
      assert (a + b)[..|a + b| - 1] == a + b[..|b| - 1];
      IdsOfSum(a, b[..|b| - 1]);
    }
  }

  lemma IdIsNotManaged(token: string)
    requires ID_PREFIX <= token
    ensures !Managed(token)
  {
    var key := "oci_instance_id";
    assert token[..|key|] == key;
    BeforeAt(key, '=', token[|key| + 1..]);
    assert token == key + ['='] + token[|key| + 1..];
    assert key[0] == 'o';
  }

  lemma {:induction false} IdsOfKept(tokens: seq<string>)
    ensures Ids(Keep(tokens)) == Ids(tokens)
  {
    if tokens != [] {
      var front, last := tokens[..|tokens| - 1], tokens[|tokens| - 1];
      IdsOfKept(front);
      if ID_PREFIX <= last {
        IdIsNotManaged(last);
      }
      if !Managed(last) {
        assert (Keep(front) + [last])[..|Keep(front)|] == Keep(front);
      } else {
        assert Keep(front) + [] == Keep(front);
      }
    }
  }

  lemma {:induction false} IdsOfManaged(tokens: seq<string>)
    requires forall t :: t in tokens ==> Managed(t)
    ensures Ids(tokens) == []
  {
    if tokens != [] {
      var last := tokens[|tokens| - 1];
      IdsOfManaged(tokens[..|tokens| - 1]);
      if ID_PREFIX <= last {
        IdIsNotManaged(last);
      }
    }
  }

  lemma {:induction false} KeepFirst(tokens: seq<string>)
    requires tokens != [] && !Managed(tokens[0])
    ensures Keep(tokens) != [] && Keep(tokens)[0] == tokens[0]
  {
    if |tokens| > 1 {
      KeepFirst(tokens[..|tokens| - 1]);
    }
  }

  /** Rewriting changes neither the name nor the instance of a host. */
  lemma {:induction false} HostStays(tokens: seq<string>, added: seq<string>)
    requires tokens != [] && !Managed(tokens[0]) && forall t :: t in added ==> Managed(t)
    ensures var rewritten := Keep(tokens) + added;
      rewritten != [] && rewritten[0] == tokens[0] && HostId(rewritten) == HostId(tokens)
  {
    KeepFirst(tokens);
    IdsOfSum(Keep(tokens), added);
    IdsOfKept(tokens);
    IdsOfManaged(added);
    assert Ids(tokens) + [] == Ids(tokens);
  }

  lemma RewrittenHost(isSpace: char -> bool, line: string, values: Values)
    requires SpaceClass(isSpace) && GoodValues(isSpace, values) && Split(isSpace, line).Some?
    requires Split(isSpace, line).value.tokens != [] && !Managed(Split(isSpace, line).value.tokens[0])
    ensures var r := Rewrite(isSpace, line, values);
      && InstanceId(isSpace, r) == InstanceId(isSpace, line)
      && Split(isSpace, r).Some? && Split(isSpace, r).value.tokens != []
      && Split(isSpace, r).value.tokens[0] == Split(isSpace, line).value.tokens[0]
  {
    RewriteKeeps(isSpace, line, values);
    HostStays(Split(isSpace, line).value.tokens, Rendered(values));
  }

  lemma HostLineTwice(isSpace: char -> bool, line: string, host: (string, string), values: Values)
    requires SpaceClass(isSpace) && GoodValues(isSpace, values) && !Managed(host.0)
    requires InstanceId(isSpace, line) == Ok(Some(host))
    ensures InstanceId(isSpace, Rewrite(isSpace, line, values)) == Ok(Some(host))
    ensures Rewrite(isSpace, Rewrite(isSpace, line, values), values) == Rewrite(isSpace, line, values)
  {
    RewrittenHost(isSpace, line, values);
    RewriteTwice(isSpace, line, values, values);
  }

  /** A step that can be repeated: it adds one line, and does the same on that line. */
  ghost predicate Repeats(step: LineStep, p: Progress, line: string) {
    match step(p, line)
    case Err(_) => true
    case Ok(q) =>
      && |q.lines| == |p.lines| + 1 && q.lines == p.lines + [q.lines[|p.lines|]]
      && step(p, q.lines[|p.lines|]) == Ok(q)
  }

  lemma LineTwice(isSpace: char -> bool, cloud: Cloud, p: Progress, line: string)
    requires SpaceClass(isSpace) && GoodCloud(isSpace, cloud)
    ensures Repeats(LineStepOf(isSpace, cloud), p, line)
  {
    var id := InstanceId(isSpace, line);
    if id.Ok? && id.value.Some? {
      var host := id.value.value;
      if cloud(host.1).Ok? && cloud(host.1).value.name == host.0 {
        HostLineTwice(isSpace, line, host, cloud(host.1).value.values);
        HostRepeats(isSpace, cloud, p, line, host, cloud(host.1).value.values);
      }
    }
  }

  lemma HostRepeats(isSpace: char -> bool, cloud: Cloud, p: Progress, line: string, host: (string, string),
                    values: Values)
    requires cloud(host.1) == Ok(Answer(host.0, values)) && InstanceId(isSpace, line) == Ok(Some(host))
    requires var r := Rewrite(isSpace, line, values);
      InstanceId(isSpace, r) == Ok(Some(host)) && Rewrite(isSpace, r, values) == r
    ensures Repeats(LineStepOf(isSpace, cloud), p, line)
  {
    HostStep(isSpace, cloud, p, line, host, values);
    HostStep(isSpace, cloud, p, Rewrite(isSpace, line, values), host, values);
  }

  lemma HostStep(isSpace: char -> bool, cloud: Cloud, p: Progress, line: string, host: (string, string), values: Values)
    requires cloud(host.1) == Ok(Answer(host.0, values)) && InstanceId(isSpace, line) == Ok(Some(host))
    ensures LineStepOf(isSpace, cloud)(p, line)
         == Ok(Progress(p.lines + [Rewrite(isSpace, line, values)], p.known[host.0 := values]))
  {}

  lemma {:induction false} LinesTwice(step: LineStep, lines: seq<string>, known: map<string, Values>)
    requires forall p, line :: Repeats(step, p, line)
    requires EachLine(step, lines, known).Ok?
    ensures var p := EachLine(step, lines, known).value; EachLine(step, p.lines, known) == Ok(p)
  {
    if lines != [] {
      var front, last := lines[..|lines| - 1], lines[|lines| - 1];
      LinesTwice(step, front, known);
      var p := EachLine(step, front, known).value;
      assert Repeats(step, p, last);
      EachLineMore(step, p.lines, known, step(p, last).value.lines[|p.lines|]);
    }
  }

  lemma HostKnows(isSpace: char -> bool, p: Progress, name: string, answer: Result<Answer>, rewrite: Values -> string)
    requires GoodKnown(isSpace, p.known) && PrepareHost(p, name, answer, rewrite).Ok?
    requires answer.Ok? ==> GoodValues(isSpace, answer.value.values) && !Managed(answer.value.name)
    ensures GoodKnown(isSpace, PrepareHost(p, name, answer, rewrite).value.known)
  {}

  lemma StepKnows(isSpace: char -> bool, cloud: Cloud, p: Progress, line: string)
    requires GoodCloud(isSpace, cloud) && GoodKnown(isSpace, p.known) && PrepareLine(isSpace, cloud, p, line).Ok?
    ensures GoodKnown(isSpace, PrepareLine(isSpace, cloud, p, line).value.known)
  {
    var id := InstanceId(isSpace, line).value;
    if id.Some? {
      HostKnows(isSpace, p, id.value.0, cloud(id.value.1), values => Rewrite(isSpace, line, values));
    }
  }

  lemma {:induction false} LinesKnow(isSpace: char -> bool, cloud: Cloud, lines: seq<string>,
                                     known: map<string, Values>)
    requires GoodCloud(isSpace, cloud) && GoodKnown(isSpace, known) && PrepareLines(isSpace, cloud, lines, known).Ok?
    ensures GoodKnown(isSpace, PrepareLines(isSpace, cloud, lines, known).value.known)
  {
    if lines != [] {
      var front := lines[..|lines| - 1];
      LinesKnow(isSpace, cloud, front, known);
      StepKnows(isSpace, cloud, PrepareLines(isSpace, cloud, front, known).value, lines[|lines| - 1]);
    }
  }

  lemma NfsTwice(isSpace: char -> bool, known: map<string, Values>, lines: seq<string>)
    requires SpaceClass(isSpace) && GoodKnown(isSpace, known)
    ensures NfsLines(isSpace, known, NfsLines(isSpace, known, lines)) == NfsLines(isSpace, known, lines)
  {
    forall k | 0 <= k < |lines|
      ensures NfsLine(isSpace, known, NfsLine(isSpace, known, lines[k])) == NfsLine(isSpace, known, lines[k])
    {
      NfsLineTwice(isSpace, known, lines[k]);
    }
  }

  lemma NfsLineTwice(isSpace: char -> bool, known: map<string, Values>, line: string)
    requires SpaceClass(isSpace) && GoodKnown(isSpace, known)
    ensures NfsLine(isSpace, known, NfsLine(isSpace, known, line)) == NfsLine(isSpace, known, line)
  {
    var h := Split(isSpace, line);
    if h.Some? && h.value.tokens != [] && h.value.tokens[0] in known {
      var values := known[h.value.tokens[0]];
      RewrittenHost(isSpace, line, values);
      RewriteTwice(isSpace, line, values, values);
    }
  }

  lemma {:induction false} SetThenGet(inventory: Inventory, name: string, lines: seq<string>, other: string)
    requires LinesOf(inventory, name).Some?
    ensures LinesOf(SetLines(inventory, name, lines), other)
         == if other == name then Some(lines) else LinesOf(inventory, other)
  {
    if inventory[0].name != name {
      SetThenGet(inventory[1..], name, lines, other);
    }
  }

  lemma {:induction false} SetSame(inventory: Inventory, name: string)
    requires LinesOf(inventory, name).Some?
    ensures SetLines(inventory, name, LinesOf(inventory, name).value) == inventory
  {
    assert inventory == [inventory[0]] + inventory[1..];
    if inventory[0].name != name {
      SetSame(inventory[1..], name);
    }
  }

  /** A section, once prepared, is not changed by preparing it again, wherever the other sections stand. */
  lemma SectionTwice(isSpace: char -> bool, cloud: Cloud, s: Step, name: string, later: Inventory)
    requires SpaceClass(isSpace) && GoodCloud(isSpace, cloud) && GoodKnown(isSpace, s.known)
    requires PrepareSection(isSpace, cloud, s, name).Ok?
    requires LinesOf(later, name) == LinesOf(PrepareSection(isSpace, cloud, s, name).value.inventory, name)
    ensures var t := PrepareSection(isSpace, cloud, s, name).value;
      && PrepareSection(isSpace, cloud, Step(later, s.known), name) == Ok(Step(later, t.known))
      && GoodKnown(isSpace, t.known)
  {
    var lines := LinesOf(s.inventory, name).value;
    forall p, line
      ensures Repeats(LineStepOf(isSpace, cloud), p, line)
    {
      LineTwice(isSpace, cloud, p, line);
    }
    LinesTwice(LineStepOf(isSpace, cloud), lines, s.known);
    LinesKnow(isSpace, cloud, lines, s.known);
    SetThenGet(s.inventory, name, PrepareLines(isSpace, cloud, lines, s.known).value.lines, name);
    SetSame(later, name);
  }

  lemma SectionLeaves(isSpace: char -> bool, cloud: Cloud, s: Step, name: string, other: string)
    requires PrepareSection(isSpace, cloud, s, name).Ok? && other != name
    ensures LinesOf(PrepareSection(isSpace, cloud, s, name).value.inventory, other) == LinesOf(s.inventory, other)
  {
    var lines := LinesOf(s.inventory, name).value;
    SetThenGet(s.inventory, name, PrepareLines(isSpace, cloud, lines, s.known).value.lines, other);
  }

  lemma NfsLeaves(isSpace: char -> bool, s: Step, other: string)
    requires other != "nfs"
    ensures LinesOf(PrepareNfs(isSpace, s), other) == LinesOf(s.inventory, other)
  {
    if LinesOf(s.inventory, "nfs").Some? {
      SetThenGet(s.inventory, "nfs", NfsLines(isSpace, s.known, LinesOf(s.inventory, "nfs").value), other);
    }
  }

  lemma NfsSectionTwice(isSpace: char -> bool, s: Step)
    requires SpaceClass(isSpace) && GoodKnown(isSpace, s.known)
    ensures PrepareNfs(isSpace, Step(PrepareNfs(isSpace, s), s.known)) == PrepareNfs(isSpace, s)
  {
    var lines := LinesOf(s.inventory, "nfs");
    if lines.Some? {
      var out := PrepareNfs(isSpace, s);
      SetThenGet(s.inventory, "nfs", NfsLines(isSpace, s.known, lines.value), "nfs");
      NfsTwice(isSpace, s.known, lines.value);
      SetSame(out, "nfs");
    }
  }

  /** Preparing an inventory twice is preparing it once. */
  lemma {:induction false} PrepareTwice(isSpace: char -> bool, cloud: Cloud, inventory: Inventory)
    requires SpaceClass(isSpace) && GoodCloud(isSpace, cloud) && Prepared(isSpace, cloud, inventory).Ok?
    ensures var out := Prepared(isSpace, cloud, inventory).value; Prepared(isSpace, cloud, out) == Ok(out)
  {
    var start := Step(inventory, map[]);
    var first := PrepareSection(isSpace, cloud, start, "compute_configured").value;
    var second := PrepareSection(isSpace, cloud, first, "compute_to_add").value;
    var out := PrepareNfs(isSpace, second);
    SectionLeaves(isSpace, cloud, first, "compute_to_add", "compute_configured");
    NfsLeaves(isSpace, second, "compute_configured");
    NfsLeaves(isSpace, second, "compute_to_add");
    SectionTwice(isSpace, cloud, start, "compute_configured", out);
    SectionTwice(isSpace, cloud, first, "compute_to_add", out);
    NfsSectionTwice(isSpace, second);
  }

  /** The other sections are left alone. */
  lemma PrepareLeaves(isSpace: char -> bool, cloud: Cloud, inventory: Inventory, other: string)
    requires Prepared(isSpace, cloud, inventory).Ok? && other !in {"compute_configured", "compute_to_add", "nfs"}
    ensures LinesOf(Prepared(isSpace, cloud, inventory).value, other) == LinesOf(inventory, other)
  {
    var start := Step(inventory, map[]);
    var first := PrepareSection(isSpace, cloud, start, "compute_configured").value;
    var second := PrepareSection(isSpace, cloud, first, "compute_to_add").value;
    SectionLeaves(isSpace, cloud, start, "compute_configured", other);
    SectionLeaves(isSpace, cloud, first, "compute_to_add", other);
    NfsLeaves(isSpace, second, other);
  }

  // ---- what is written on which line ---------------------------------------------------------------

  predicate Named(isSpace: char -> bool, line: string, name: string) {
    var h := Split(isSpace, line);
    h.Some? && h.value.tokens != [] && h.value.tokens[0] == name
  }

  /** Exactly one token gives an instance id, and it is `id`. */
  ghost predicate OnlyId(tokens: seq<string>, id: string) {
    id != "" && exists k :: IdAt(tokens, k, id)
  }

  ghost predicate IdAt(tokens: seq<string>, k: int, id: string) {
    0 <= k < |tokens| && tokens[k] == ID_PREFIX + id
    && forall j :: 0 <= j < |tokens| && j != k ==> !(ID_PREFIX <= tokens[j])
  }

  ghost predicate HostIs(isSpace: char -> bool, line: string, name: string, id: string) {
    Named(isSpace, line, name) && OnlyId(Split(isSpace, line).value.tokens, id)
  }

  lemma {:induction false} NoIds(tokens: seq<string>)
    ensures Ids(tokens) == [] <==> forall j :: 0 <= j < |tokens| ==> !(ID_PREFIX <= tokens[j])
  {
    if tokens != [] {
      var front, last := tokens[..|tokens| - 1], tokens[|tokens| - 1];
      NoIds(front);
      assert tokens == front + [last];
      if Ids(tokens) == [] {
        assert Ids(front) == [] && !(ID_PREFIX <= last);
      }
    }
  }

  lemma {:induction false} OneIdFound(tokens: seq<string>, k: int, id: string)
    requires IdAt(tokens, k, id)
    ensures Ids(tokens) == [id]
  {
    var front, last := tokens[..|tokens| - 1], tokens[|tokens| - 1];
    if k == |tokens| - 1 {
      NoIds(front);
      assert last[|ID_PREFIX|..] == id;
    } else {
      assert IdAt(front, k, id);
      OneIdFound(front, k, id);
    }
  }

  lemma {:induction false} FoundIsOnly(tokens: seq<string>) returns (k: int)
    requires |Ids(tokens)| == 1
    ensures IdAt(tokens, k, Ids(tokens)[0])
  {
    var front, last := tokens[..|tokens| - 1], tokens[|tokens| - 1];
    if ID_PREFIX <= last {
      assert |Ids(front)| == 0;
      NoIds(front);
      k := |tokens| - 1;
      assert last == ID_PREFIX + last[|ID_PREFIX|..];
    } else {
      assert Ids(tokens) == Ids(front) + [];
      k := FoundIsOnly(front);
    }
  }

  lemma HostIdExactly(tokens: seq<string>)
    requires tokens != []
    ensures forall id :: HostId(tokens) == Ok(Some((tokens[0], id))) <==> OnlyId(tokens, id)
    ensures HostId(tokens).Ok? <==> exists id :: OnlyId(tokens, id)
    ensures HostId(tokens).Ok? ==> HostId(tokens).value.Some?
  {
    if |Ids(tokens)| == 1 {
      var k := FoundIsOnly(tokens);
    }
    forall id, k | IdAt(tokens, k, id)
      ensures Ids(tokens) == [id]
    {
      OneIdFound(tokens, k, id);
    }
  }

  /** The cloud knows this host line. */
  ghost predicate Answered(isSpace: char -> bool, cloud: Cloud, line: string, values: Values) {
    exists name, id :: HostIs(isSpace, line, name, id) && cloud(id) == Ok(Answer(name, values))
  }

  /** The same host with its indentation, its comment and its own tokens in order, and then these variables. */
  ghost predicate Carries(isSpace: char -> bool, before: string, after: string, values: Values) {
    var h := Split(isSpace, before);
    && h.Some?
    && Split(isSpace, after) == Some(Host(h.value.indent, Keep(h.value.tokens) + Rendered(values), h.value.comment))
  }

  /** How lines are looked at: is it a host line, of that host, what did the cloud answer for it, does the second one
      carry these variables, and what is written for them. */
  datatype View = View(
    host: string -> bool,
    named: (string, string) -> bool,
    answered: (string, Values) -> bool,
    carries: (string, string, Values) -> bool,
    rewrite: (string, Values) -> string)

  ghost function ViewOf(isSpace: char -> bool, cloud: Cloud): View {
    View(line => Split(isSpace, line).Some?,
         (line, name) => Named(isSpace, line, name),
         (line, values) => Answered(isSpace, cloud, line, values),
         (before, after, values) => Carries(isSpace, before, after, values),
         (line, values) => Rewrite(isSpace, line, values))
  }

  ghost predicate LineOk(v: View, line: string) {
    v.host(line) ==> exists values :: v.answered(line, values)
  }

  /** A compute host gets the variables the cloud answered for it; any other line stays. */
  ghost predicate ComputeDone(v: View, before: string, after: string) {
    if v.host(before) then CarriesAnswer(v, before, before, after) else after == before
  }

  /** The last of the compute lines for that host. */
  ghost predicate LastNamed(v: View, lines: seq<string>, name: string, k: int) {
    0 <= k < |lines| && v.named(lines[k], name)
    && forall j :: k < j < |lines| ==> !v.named(lines[j], name)
  }

  /** A node that is also a compute host gets the variables of its last compute line; any other line stays. */
  ghost predicate NfsDone(v: View, compute: seq<string>, before: string, after: string) {
    && (forall name, k :: v.named(before, name) && LastNamed(v, compute, name, k) ==>
          CarriesAnswer(v, compute[k], before, after))
    && ((forall name, k :: v.named(before, name) ==> !LastNamed(v, compute, name, k)) ==> after == before)
  }

  ghost predicate CarriesAnswer(v: View, host: string, before: string, after: string) {
    exists values :: v.answered(host, values) && v.carries(before, after, values)
  }

  /** The variables of the last compute line of each host, and of nobody else. */
  ghost predicate KnownIs(v: View, compute: seq<string>, known: map<string, Values>) {
    && (forall name :: name in known ==> exists k :: LastNamed(v, compute, name, k))
    && (forall name, k :: LastNamed(v, compute, name, k) ==>
          name in known && v.answered(compute[k], known[name]))
  }

  /** A line as it is rewritten with what the cloud answered. */
  ghost predicate WrittenAs(v: View, before: string, after: string) {
    if v.host(before) then exists values :: v.answered(before, values) && after == v.rewrite(before, values)
    else after == before
  }

  ghost predicate AllWritten(v: View, before: seq<string>, after: seq<string>) {
    |after| == |before| && forall k :: 0 <= k < |before| ==> WrittenAs(v, before[k], after[k])
  }

  /** What one step of the preparation must do. */
  ghost predicate StepDone(v: View, p: Progress, line: string, q: Progress) {
    if v.host(line) then
      exists name, values ::
        && v.named(line, name) && v.answered(line, values)
        && q == Progress(p.lines + [v.rewrite(line, values)], p.known[name := values])
    else q == Progress(p.lines + [line], p.known)
  }

  ghost predicate StepFits(v: View, step: LineStep) {
    && (forall line, name :: v.named(line, name) ==> v.host(line))
    && (forall p, line :: step(p, line).Ok? <==> LineOk(v, line))
    && (forall p, line :: step(p, line).Ok? ==> StepDone(v, p, line, step(p, line).value))
  }

  lemma LineFails(isSpace: char -> bool, cloud: Cloud, p: Progress, line: string)
    ensures PrepareLine(isSpace, cloud, p, line).Ok? <==>
      (Split(isSpace, line).Some? ==> exists values :: Answered(isSpace, cloud, line, values))
  {
    var h := Split(isSpace, line);
    if h.Some? && h.value.tokens != [] {
      HostIdExactly(h.value.tokens);
      var id := HostId(h.value.tokens);
      if id.Ok? {
        var host := id.value.value;
        assert HostIs(isSpace, line, host.0, host.1);
        if cloud(host.1).Ok? && cloud(host.1).value.name == host.0 {
          assert Answered(isSpace, cloud, line, cloud(host.1).value.values);
        }
      }
    }
  }

  /** A host line that is prepared: what is written and what is remembered. */
  lemma HostIsWritten(isSpace: char -> bool, cloud: Cloud, p: Progress, line: string)
    returns (name: string, values: Values)
    requires Split(isSpace, line).Some? && PrepareLine(isSpace, cloud, p, line).Ok?
    ensures Named(isSpace, line, name) && Answered(isSpace, cloud, line, values)
    ensures PrepareLine(isSpace, cloud, p, line)
         == Ok(Progress(p.lines + [Rewrite(isSpace, line, values)], p.known[name := values]))
  {
    var tokens := Split(isSpace, line).value.tokens;
    assert tokens != [];
    HostIdExactly(tokens);
    var host := HostId(tokens).value.value;
    name, values := host.0, cloud(host.1).value.values;
    assert HostIs(isSpace, line, name, host.1);
    HostStep(isSpace, cloud, p, line, host, values);
  }

  lemma OkInView(isSpace: char -> bool, cloud: Cloud, v: View, line: string)
    requires v == ViewOf(isSpace, cloud)
    ensures LineOk(v, line) <==>
      (Split(isSpace, line).Some? ==> exists values :: Answered(isSpace, cloud, line, values))
  {
    assert forall values :: v.answered(line, values) <==> Answered(isSpace, cloud, line, values);
  }

  lemma InView(isSpace: char -> bool, cloud: Cloud, v: View, line: string, name: string, values: Values)
    requires v == ViewOf(isSpace, cloud)
    ensures v.host(line) == Split(isSpace, line).Some? && v.named(line, name) == Named(isSpace, line, name)
    ensures v.answered(line, values) == Answered(isSpace, cloud, line, values)
    ensures v.rewrite(line, values) == Rewrite(isSpace, line, values)
  {}

  lemma NoHostStays(isSpace: char -> bool, cloud: Cloud, p: Progress, line: string)
    requires Split(isSpace, line).None?
    ensures PrepareLine(isSpace, cloud, p, line) == Ok(Progress(p.lines + [line], p.known))
  {}

  lemma HostStepDone(v: View, p: Progress, line: string, q: Progress, name: string, values: Values)
    requires v.host(line) && v.named(line, name) && v.answered(line, values)
    requires q == Progress(p.lines + [v.rewrite(line, values)], p.known[name := values])
    ensures StepDone(v, p, line, q)
  {}

  lemma StepDoneAt(isSpace: char -> bool, cloud: Cloud, v: View, p: Progress, line: string, q: Progress)
    requires v == ViewOf(isSpace, cloud) && PrepareLine(isSpace, cloud, p, line) == Ok(q)
    ensures StepDone(v, p, line, q)
  {
    if Split(isSpace, line).Some? {
      var name, values := HostIsWritten(isSpace, cloud, p, line);
      InView(isSpace, cloud, v, line, name, values);
      HostStepDone(v, p, line, q, name, values);
    } else {
      NoHostStays(isSpace, cloud, p, line);
      InView(isSpace, cloud, v, line, "", []);
    }
  }

  lemma LineStepFits(isSpace: char -> bool, cloud: Cloud, v: View)
    requires v == ViewOf(isSpace, cloud)
    ensures StepFits(v, LineStepOf(isSpace, cloud))
  {
    var step := LineStepOf(isSpace, cloud);
    forall p, line
      ensures step(p, line).Ok? <==> LineOk(v, line)
    {
      LineFails(isSpace, cloud, p, line);
      OkInView(isSpace, cloud, v, line);
    }
    forall p, line | step(p, line).Ok?
      ensures StepDone(v, p, line, step(p, line).value)
    {
      StepDoneAt(isSpace, cloud, v, p, line, step(p, line).value);
    }
    NamedAreHosts(isSpace, cloud, v);
  }

  lemma NamedAreHosts(isSpace: char -> bool, cloud: Cloud, v: View)
    requires v == ViewOf(isSpace, cloud)
    ensures forall line, name :: v.named(line, name) ==> v.host(line)
  {
    forall line, name | v.named(line, name)
      ensures v.host(line)
    {
      assert Named(isSpace, line, name);
    }
  }

  lemma LastOfFront(v: View, compute: seq<string>, line: string, name: string, k: int)
    requires LastNamed(v, compute + [line], name, k) && k < |compute|
    ensures LastNamed(v, compute, name, k)
  {
    forall j | k < j < |compute|
      ensures !v.named(compute[j], name)
    {
      assert (compute + [line])[j] == compute[j];
    }
  }

  lemma KnownMore(v: View, compute: seq<string>, known: map<string, Values>, line: string, name: string,
                  values: Values)
    requires KnownIs(v, compute, known) && v.named(line, name) && v.answered(line, values)
    requires forall n :: v.named(line, n) ==> n == name
    ensures KnownIs(v, compute + [line], known[name := values])
  {
    var all, more := compute + [line], known[name := values];
    assert LastNamed(v, all, name, |compute|);
    forall n | n in more
      ensures exists k :: LastNamed(v, all, n, k)
    {
      if n != name {
        var k :| LastNamed(v, compute, n, k);
        assert LastNamed(v, all, n, k);
      }
    }
    forall n, k | LastNamed(v, all, n, k)
      ensures n in more && v.answered(all[k], more[n])
    {
      if k < |compute| {
        assert !v.named(all[|compute|], n);
        LastOfFront(v, compute, line, n, k);
      }
    }
  }

  lemma KnownSame(v: View, compute: seq<string>, known: map<string, Values>, line: string)
    requires KnownIs(v, compute, known) && forall name :: !v.named(line, name)
    ensures KnownIs(v, compute + [line], known)
  {
    var all := compute + [line];
    forall n | n in known
      ensures exists k :: LastNamed(v, all, n, k)
    {
      var k :| LastNamed(v, compute, n, k);
      assert LastNamed(v, all, n, k);
    }
    forall n, k | LastNamed(v, all, n, k)
      ensures LastNamed(v, compute, n, k) && all[k] == compute[k]
    {
      assert k != |compute|;
      LastOfFront(v, compute, line, n, k);
    }
  }

  lemma WrittenMore(v: View, before: seq<string>, after: seq<string>, b: string, a: string)
    requires AllWritten(v, before, after) && WrittenAs(v, b, a)
    ensures AllWritten(v, before + [b], after + [a])
  {}

  ghost predicate AllOk(v: View, lines: seq<string>) {
    forall k :: 0 <= k < |lines| ==> LineOk(v, lines[k])
  }

  ghost predicate OneName(v: View) {
    forall line, m, n :: v.named(line, m) && v.named(line, n) ==> m == n
  }

  lemma LastLine(v: View, earlier: seq<string>, front: seq<string>, last: string, p: Progress, q: Progress)
    requires OneName(v) && (forall line, name :: v.named(line, name) ==> v.host(line))
    requires AllWritten(v, front, p.lines) && KnownIs(v, earlier, p.known) && StepDone(v, p, last, q)
    ensures AllWritten(v, front + [last], q.lines) && KnownIs(v, earlier + [last], q.known)
  {
    if v.host(last) {
      var name, values :|
        && v.named(last, name) && v.answered(last, values)
        && q == Progress(p.lines + [v.rewrite(last, values)], p.known[name := values]);
      KnownMore(v, earlier, p.known, last, name, values);
      WrittenMore(v, front, p.lines, last, v.rewrite(last, values));
    } else {
      KnownSame(v, earlier, p.known, last);
      WrittenMore(v, front, p.lines, last, last);
    }
  }

  /** The lines of a section: they are prepared exactly when the cloud knows every host among them. */
  lemma {:induction false} LinesExactly(v: View, step: LineStep, earlier: seq<string>, lines: seq<string>,
                                        known: map<string, Values>)
    requires OneName(v) && StepFits(v, step) && KnownIs(v, earlier, known)
    ensures var r := EachLine(step, lines, known);
      && (r.Ok? <==> AllOk(v, lines))
      && (r.Ok? ==> AllWritten(v, lines, r.value.lines) && KnownIs(v, earlier + lines, r.value.known))
  {
    if lines == [] {
      assert earlier + lines == earlier;
    } else {
      var front, last := lines[..|lines| - 1], lines[|lines| - 1];
      LinesExactly(v, step, earlier, front, known);
      assert lines == front + [last];
      var before := EachLine(step, front, known);
      if before.Ok? && step(before.value, last).Ok? {
        LastLine(v, earlier + front, front, last, before.value, step(before.value, last).value);
        assert earlier + lines == (earlier + front) + [last];
      }
    }
  }

  // ---- the whole inventory -------------------------------------------------------------------------

  /** Both compute sections are there and the cloud knows every host in them. */
  ghost predicate Preparable(v: View, inventory: Inventory) {
    && LinesOf(inventory, "compute_configured").Some? && LinesOf(inventory, "compute_to_add").Some?
    && AllOk(v, ComputeLines(inventory))
  }

  function OrEmpty(lines: Option<seq<string>>): seq<string> {
    if lines.Some? then lines.value else []
  }

  /** The lines of both compute sections, in the order they are prepared. */
  function ComputeLines(inventory: Inventory): seq<string> {
    OrEmpty(LinesOf(inventory, "compute_configured")) + OrEmpty(LinesOf(inventory, "compute_to_add"))
  }

  ghost predicate ComputeSectionDone(v: View, before: Option<seq<string>>, after: Option<seq<string>>) {
    && before.Some? && after.Some? && |after.value| == |before.value|
    && forall k :: 0 <= k < |before.value| ==> ComputeDone(v, before.value[k], after.value[k])
  }

  ghost predicate NfsSectionDone(v: View, compute: seq<string>, before: Option<seq<string>>,
                                 after: Option<seq<string>>) {
    && before.Some? == after.Some?
    && (before.Some? ==>
          && |after.value| == |before.value|
          && forall k :: 0 <= k < |before.value| ==> NfsDone(v, compute, before.value[k], after.value[k]))
  }

  /** Every section is where it was; its lines are the ones of before, prepared. */
  ghost predicate AllDone(v: View, before: Inventory, after: Inventory) {
    && SameSections(before, after)
    && ComputeSectionDone(v, LinesOf(before, "compute_configured"), LinesOf(after, "compute_configured"))
    && ComputeSectionDone(v, LinesOf(before, "compute_to_add"), LinesOf(after, "compute_to_add"))
    && NfsSectionDone(v, ComputeLines(before), LinesOf(before, "nfs"), LinesOf(after, "nfs"))
    && forall name :: name !in {"compute_configured", "compute_to_add", "nfs"} ==>
         LinesOf(after, name) == LinesOf(before, name)
  }

  predicate SameSections(before: Inventory, after: Inventory) {
    |after| == |before| && forall k :: 0 <= k < |before| ==> after[k].name == before[k].name
  }

  /** What is written for a host is read as carrying it. */
  ghost predicate Reads(v: View) {
    forall line, host, values :: v.host(line) && v.answered(host, values) ==>
      v.carries(line, v.rewrite(line, values), values)
  }

  lemma ViewReads(isSpace: char -> bool, cloud: Cloud, v: View)
    requires v == ViewOf(isSpace, cloud) && SpaceClass(isSpace) && GoodCloud(isSpace, cloud)
    ensures Reads(v)
  {
    forall line, host, values | v.host(line) && v.answered(host, values)
      ensures v.carries(line, v.rewrite(line, values), values)
    {
      assert Answered(isSpace, cloud, host, values);
      RewriteKeeps(isSpace, line, values);
      assert Carries(isSpace, line, Rewrite(isSpace, line, values), values);
    }
  }

  lemma WrittenSectionIsDone(v: View, before: seq<string>, after: seq<string>)
    requires Reads(v) && AllWritten(v, before, after)
    ensures ComputeSectionDone(v, Some(before), Some(after))
  {
    forall k | 0 <= k < |before|
      ensures ComputeDone(v, before[k], after[k])
    {
      assert WrittenAs(v, before[k], after[k]);
    }
  }

  /** An NFS line, given what is known of the compute hosts. */
  ghost predicate NfsWritten(v: View, known: map<string, Values>, before: string, after: string) {
    if v.host(before) && exists name :: name in known && v.named(before, name) then
      exists name :: name in known && v.named(before, name) && after == v.rewrite(before, known[name])
    else after == before
  }

  lemma NfsIsDone(v: View, compute: seq<string>, known: map<string, Values>, before: string, after: string)
    requires OneName(v) && (forall line, name :: v.named(line, name) ==> v.host(line))
    requires Reads(v) && KnownIs(v, compute, known) && NfsWritten(v, known, before, after)
    ensures NfsDone(v, compute, before, after)
  {
    forall name, k | v.named(before, name) && LastNamed(v, compute, name, k)
      ensures CarriesAnswer(v, compute[k], before, after)
    {
      assert name in known && v.answered(compute[k], known[name]);
      assert after == v.rewrite(before, known[name]);
    }
    if after != before {
      var name :| name in known && v.named(before, name);
      var k :| LastNamed(v, compute, name, k);
    }
  }

  lemma NfsHostLine(isSpace: char -> bool, known: map<string, Values>, line: string, name: string)
    requires Named(isSpace, line, name) && name in known
    ensures NfsLine(isSpace, known, line) == Rewrite(isSpace, line, known[name])
  {}

  lemma NfsOtherLine(isSpace: char -> bool, known: map<string, Values>, line: string)
    requires forall name :: name in known ==> !Named(isSpace, line, name)
    ensures NfsLine(isSpace, known, line) == line
  {
    var h := Split(isSpace, line);
    if h.Some? && h.value.tokens != [] {
      assert Named(isSpace, line, h.value.tokens[0]);
    }
  }

  lemma NfsLineWritten(isSpace: char -> bool, cloud: Cloud, v: View, known: map<string, Values>, line: string)
    requires v == ViewOf(isSpace, cloud)
    ensures NfsWritten(v, known, line, NfsLine(isSpace, known, line))
  {
    if name :| name in known && Named(isSpace, line, name) {
      NfsHostLine(isSpace, known, line, name);
      InView(isSpace, cloud, v, line, name, known[name]);
    } else {
      NfsOtherLine(isSpace, known, line);
      forall name | name in known
        ensures !v.named(line, name)
      {
        InView(isSpace, cloud, v, line, name, []);
      }
    }
  }

  lemma {:induction false} SetKeepsSections(inventory: Inventory, name: string, lines: seq<string>)
    ensures SameSections(inventory, SetLines(inventory, name, lines))
  {
    if inventory != [] && inventory[0].name != name {
      SetKeepsSections(inventory[1..], name, lines);
    }
  }

  /** This section has these lines now, and the others are as they were. */
  ghost predicate OnlySet(before: Inventory, after: Inventory, name: string, lines: seq<string>) {
    && SameSections(before, after)
    && LinesOf(after, name) == Some(lines)
    && forall other :: other != name ==> LinesOf(after, other) == LinesOf(before, other)
  }

  lemma SetExactly(inventory: Inventory, name: string, lines: seq<string>)
    requires LinesOf(inventory, name).Some?
    ensures OnlySet(inventory, SetLines(inventory, name, lines), name, lines)
  {
    SetKeepsSections(inventory, name, lines);
    forall other
      ensures LinesOf(SetLines(inventory, name, lines), other)
           == if other == name then Some(lines) else LinesOf(inventory, other)
    {
      SetThenGet(inventory, name, lines, other);
    }
  }

  /** One compute section, after the lines `earlier`. */
  lemma SectionExactly(isSpace: char -> bool, cloud: Cloud, v: View, earlier: seq<string>, s: Step, name: string,
                       lines: seq<string>)
    requires OneName(v) && StepFits(v, LineStepOf(isSpace, cloud)) && KnownIs(v, earlier, s.known)
    requires lines == OrEmpty(LinesOf(s.inventory, name))
    ensures var r := PrepareSection(isSpace, cloud, s, name);
      && (r.Ok? <==> LinesOf(s.inventory, name).Some? && AllOk(v, lines))
      && (r.Ok? ==> SectionWritten(v, s.inventory, r.value.inventory, name, lines))
      && (r.Ok? ==> KnownIs(v, earlier + lines, r.value.known))
  {
    if LinesOf(s.inventory, name).Some? {
      LinesExactly(v, LineStepOf(isSpace, cloud), earlier, lines, s.known);
      var p := PrepareLines(isSpace, cloud, lines, s.known);
      if p.Ok? {
        SetExactly(s.inventory, name, p.value.lines);
      }
    }
  }

  /** The lines of this section were written anew, the others left alone. */
  ghost predicate SectionWritten(v: View, before: Inventory, after: Inventory, name: string, lines: seq<string>) {
    exists written :: AllWritten(v, lines, written) && OnlySet(before, after, name, written)
  }

  /** The NFS section, once every compute host is known. */
  lemma NfsExactly(isSpace: char -> bool, cloud: Cloud, v: View, compute: seq<string>, s: Step)
    requires v == ViewOf(isSpace, cloud) && OneName(v) && StepFits(v, LineStepOf(isSpace, cloud)) && Reads(v)
    requires KnownIs(v, compute, s.known)
    ensures var after := PrepareNfs(isSpace, s);
      && SameSections(s.inventory, after)
      && NfsSectionDone(v, compute, LinesOf(s.inventory, "nfs"), LinesOf(after, "nfs"))
      && forall other :: other != "nfs" ==> LinesOf(after, other) == LinesOf(s.inventory, other)
  {
    var lines := LinesOf(s.inventory, "nfs");
    if lines.Some? {
      var written := NfsLines(isSpace, s.known, lines.value);
      SetExactly(s.inventory, "nfs", written);
      forall k | 0 <= k < |lines.value|
        ensures NfsDone(v, compute, lines.value[k], written[k])
      {
        NfsLineWritten(isSpace, cloud, v, s.known, lines.value[k]);
        NfsIsDone(v, compute, s.known, lines.value[k], written[k]);
      }
    }
  }

  lemma ViewFits(isSpace: char -> bool, cloud: Cloud, v: View)
    requires v == ViewOf(isSpace, cloud)
    ensures OneName(v) && StepFits(v, LineStepOf(isSpace, cloud))
  {
    LineStepFits(isSpace, cloud, v);
    forall line, m, n | v.named(line, m) && v.named(line, n)
      ensures m == n
    {
      assert Named(isSpace, line, m) && Named(isSpace, line, n);
    }
  }

  lemma NothingKnown(v: View)
    ensures KnownIs(v, [], map[])
  {}

  lemma AllOkSum(v: View, a: seq<string>, b: seq<string>)
    ensures AllOk(v, a + b) <==> AllOk(v, a) && AllOk(v, b)
  {
    if AllOk(v, a + b) {
      forall k | 0 <= k < |a|
        ensures LineOk(v, a[k])
      {
        assert (a + b)[k] == a[k];
      }
      forall k | 0 <= k < |b|
        ensures LineOk(v, b[k])
      {
        assert (a + b)[|a| + k] == b[k];
      }
    }
  }

  /** Both compute sections, one after the other. */
  lemma BothExactly(isSpace: char -> bool, cloud: Cloud, v: View, inventory: Inventory)
    requires OneName(v) && StepFits(v, LineStepOf(isSpace, cloud))
    ensures var first := PrepareSection(isSpace, cloud, Step(inventory, map[]), "compute_configured");
      if first.Err? then !Preparable(v, inventory)
      else
        var second := PrepareSection(isSpace, cloud, first.value, "compute_to_add");
        && (second.Ok? <==> Preparable(v, inventory))
        && (second.Ok? ==>
              && SectionWritten(v, inventory, first.value.inventory, "compute_configured",
                                OrEmpty(LinesOf(inventory, "compute_configured")))
              && SectionWritten(v, first.value.inventory, second.value.inventory, "compute_to_add",
                                OrEmpty(LinesOf(inventory, "compute_to_add")))
              && KnownIs(v, ComputeLines(inventory), second.value.known))
  {
    var a, b := OrEmpty(LinesOf(inventory, "compute_configured")), OrEmpty(LinesOf(inventory, "compute_to_add"));
    NothingKnown(v);
    AllOkSum(v, a, b);
    SectionExactly(isSpace, cloud, v, [], Step(inventory, map[]), "compute_configured", a);
    var first := PrepareSection(isSpace, cloud, Step(inventory, map[]), "compute_configured");
    if first.Ok? {
      assert [] + a == a;
      SectionLeaves(isSpace, cloud, Step(inventory, map[]), "compute_configured", "compute_to_add");
      SectionExactly(isSpace, cloud, v, a, first.value, "compute_to_add", b);
    }
  }

  lemma SectionsDone(v: View, before: Inventory, first: Inventory, second: Inventory, after: Inventory)
    requires Reads(v) && LinesOf(before, "compute_configured").Some? && LinesOf(before, "compute_to_add").Some?
    requires SectionWritten(v, before, first, "compute_configured", LinesOf(before, "compute_configured").value)
    requires SectionWritten(v, first, second, "compute_to_add", LinesOf(before, "compute_to_add").value)
    requires SameSections(second, after)
    requires forall other :: other != "nfs" ==> LinesOf(after, other) == LinesOf(second, other)
    requires NfsSectionDone(v, ComputeLines(before), LinesOf(second, "nfs"), LinesOf(after, "nfs"))
    ensures AllDone(v, before, after)
  {
    var a, b := LinesOf(before, "compute_configured").value, LinesOf(before, "compute_to_add").value;
    var x :| AllWritten(v, a, x) && OnlySet(before, first, "compute_configured", x);
    var y :| AllWritten(v, b, y) && OnlySet(first, second, "compute_to_add", y);
    WrittenSectionIsDone(v, a, x);
    WrittenSectionIsDone(v, b, y);
  }

  /** Preparation succeeds exactly when both compute sections are there and the cloud knows every host in them, and
      then every line is what it should be. */
  lemma PreparedExactly(isSpace: char -> bool, cloud: Cloud, inventory: Inventory)
    ensures var r, v := Prepared(isSpace, cloud, inventory), ViewOf(isSpace, cloud);
      && (r.Ok? <==> Preparable(v, inventory))
      && (r.Ok? && SpaceClass(isSpace) && GoodCloud(isSpace, cloud) ==> AllDone(v, inventory, r.value))
  {
    var v := ViewOf(isSpace, cloud);
    ViewFits(isSpace, cloud, v);
    BothExactly(isSpace, cloud, v, inventory);
    if Prepared(isSpace, cloud, inventory).Ok? && SpaceClass(isSpace) && GoodCloud(isSpace, cloud) {
      ViewReads(isSpace, cloud, v);
      var first := PrepareSection(isSpace, cloud, Step(inventory, map[]), "compute_configured").value;
      var second := PrepareSection(isSpace, cloud, first, "compute_to_add").value;
      NfsExactly(isSpace, cloud, v, ComputeLines(inventory), second);
      SectionsDone(v, inventory, first.inventory, second.inventory, PrepareNfs(isSpace, second));
    }
  }

  // ---- the script's own variables ------------------------------------------------------------------

  /** What is known of a node's local block volume; numbers as `str` prints them. */
  datatype LocalVolume = NoVolume | LocalVolume(size: string, mountPoint: string, ip: string, port: string, iqn: string)

  /** `local_block_volume_values` */
  function Variables(volume: LocalVolume): Values {
    match volume
    case NoVolume => [("use_local_block_volume", "false")]
    case LocalVolume(size, mountPoint, ip, port, iqn) =>
      [("use_local_block_volume", "true")]
      + [("local_block_volume_size", size)]
      + [("local_block_volume_mount_point", mountPoint)]
      + [("local_block_volume_iscsi_ip", ip)]
      + [("local_block_volume_iscsi_port", port)]
      + [("local_block_volume_iqn", iqn)]
  }

  predicate NoSpace(isSpace: char -> bool, s: string) {
    forall k :: 0 <= k < |s| ==> !isSpace(s[k])
  }

  predicate KeyCharacter(c: char) {
    'a' <= c <= 'z' || c == '_'
  }

  predicate ManagedKey(key: string) {
    && key != "" && (forall k :: 0 <= k < |key| ==> KeyCharacter(key[k]))
    && (key == "use_local_block_volume" || "local_block_volume_" <= key)
  }

  ghost predicate GoodVariable(isSpace: char -> bool, variable: (string, string)) {
    ManagedKey(variable.0) && NoSpace(isSpace, variable.1)
  }

  lemma VariableIsGood(isSpace: char -> bool, key: string, value: string)
    requires SpaceClass(isSpace) && GoodVariable(isSpace, (key, value))
    ensures var token := key + "=" + value; IsWord(isSpace, token) && !Mark(token[0]) && Managed(token)
  {
    var token := key + "=" + value;
    assert '=' !in key;
    TokenSplits(key, value);
    assert token[|key|] == '=';
    forall k | 0 <= k < |token|
      ensures !isSpace(token[k])
    {
      assert token[k] == if k < |key| then key[k] else if k == |key| then '=' else value[k - |key| - 1];
    }
    assert KeyCharacter(key[0]) && token[0] == key[0];
  }

  lemma VariablesAreGood(isSpace: char -> bool, values: Values)
    requires SpaceClass(isSpace) && values != [] && forall k :: 0 <= k < |values| ==> GoodVariable(isSpace, values[k])
    ensures GoodValues(isSpace, values)
  {
    forall k | 0 <= k < |values|
      ensures IsWord(isSpace, Rendered(values)[k]) && !Mark(Rendered(values)[k][0]) && Managed(Rendered(values)[k])
    {
      VariableIsGood(isSpace, values[k].0, values[k].1);
    }
  }

  lemma KeysOfSizes()
    ensures ManagedKey("use_local_block_volume") && ManagedKey("local_block_volume_size")
  {}

  lemma KeyOfMount()
    ensures ManagedKey("local_block_volume_mount_point") && ManagedKey("local_block_volume_iqn")
  {}

  lemma KeysOfTarget()
    ensures ManagedKey("local_block_volume_iscsi_ip") && ManagedKey("local_block_volume_iscsi_port")
  {}

  /** What the script writes for a node survives on the node's line, whatever the volume is. */
  lemma OwnVariablesAreGood(isSpace: char -> bool, volume: LocalVolume)
    requires SpaceClass(isSpace)
    requires volume.LocalVolume? ==>
      && NoSpace(isSpace, volume.size) && NoSpace(isSpace, volume.mountPoint) && NoSpace(isSpace, volume.ip)
      && NoSpace(isSpace, volume.port) && NoSpace(isSpace, volume.iqn)
    ensures GoodValues(isSpace, Variables(volume))
  {
    KeysOfSizes();
    KeyOfMount();
    KeysOfTarget();
    VariablesAreGood(isSpace, Variables(volume));
  }
}
