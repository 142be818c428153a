/** The runtime notification registry: how slurm_notification_registry_seed.py rewrites it and what
    slurm_oci_notification_cleanup.py later reads from it. */
module ScopeRegistry {
  import opened Wrappers
  import opened ScopeIdentity
  import opened TextWords

  /** A JSON member that should be a string. */
  datatype Field = Missing | Malformed | Text(text: string)

  /** A registry entry for one user's topic, or for one whose cleanup is pending. */
  datatype Entry = NotAnObject | Entry(managedBy: Field, topicId: Field)

  datatype RawScope = NotAScope | RawScope(name: Field, id: Field)

  /** `config["cleanup_scopes"]`; a missing list reads as the empty one. */
  datatype RawHistory = NotAList | Entries(scopes: seq<RawScope>)

  /** The registry file. A JSON object of users is a list of pairs with distinct names. */
  datatype Document = Document(
    deploymentId: Option<string>, name: Field, id: Field, enabled: bool,
    history: RawHistory, pending: seq<Entry>, users: seq<(string, Entry)>)

  const EMPTY := Document(None, Missing, Missing, false, Entries([]), [], [])

  /** What Terraform hands to the seed: `main` insists on a complete, non-empty configuration. */
  datatype Bootstrap = Bootstrap(deploymentId: string, scope: Scope, enabled: bool, user: string, topicId: string)

  predicate WholeScope(s: Scope) {
    s.clusterName != [] && s.scopeId != []
  }

  /** `notification_scope`: None for a configuration from before scopes existed. */
  function NotificationScope(name: Field, id: Field): Result<Option<Scope>> {
    if name.Missing? && id.Missing? then Ok(None)
    else if !name.Text? || name.text == [] then Err("cluster_name is invalid")
    else if !id.Text? || id.text == [] then Err("cluster_scope_id is invalid")
    else Ok(Some(Scope(name.text, id.text)))
  }

  function RawOf(s: Scope): RawScope {
    RawScope(Text(s.clusterName), Text(s.scopeId))
  }

  function RawOfAll(scopes: seq<Scope>): (r: seq<RawScope>)
    ensures |r| == |scopes| && forall i :: 0 <= i < |r| ==> r[i] == RawOf(scopes[i])
  {
    seq(|scopes|, i requires 0 <= i < |scopes| => RawOf(scopes[i]))
  }

  function AddOnce(scopes: seq<Scope>, s: Scope): seq<Scope> {
    if s in scopes then scopes else scopes + [s]
  }

  /** `cleanup_scope_history`, entry by entry */
  function ScopeHistory(raw: seq<RawScope>): Result<seq<Scope>> {
    if raw == [] then Ok([])
    else match ScopeHistory(raw[..|raw| - 1])
      case Err(e) => Err(e)
      case Ok(scopes) =>
        match raw[|raw| - 1]
        case NotAScope => Err("invalid cleanup scope")
        case RawScope(name, id) =>
          match NotificationScope(name, id)
          case Err(e) => Err(e)
          case Ok(None) => Err("empty cleanup scope")
          case Ok(Some(s)) => Ok(AddOnce(scopes, s))
  }

  method CleanupScopeHistory(history: RawHistory) returns (r: Result<seq<Scope>>)
    ensures history.NotAList? ==> r.Err?
    ensures history.Entries? ==> r.Err? == ScopeHistory(history.scopes).Err?
    ensures history.Entries? && r.Ok? ==> r == ScopeHistory(history.scopes)
  {
    if history.NotAList? {
      return Err("cleanup_scopes must be a list");
    }
    var raw := history.scopes;
    var result: seq<Scope> := [];
    var seen: set<Scope> := {};
    for i := 0 to |raw|
      invariant ScopeHistory(raw[..i]) == Ok(result)
      invariant forall s :: s in seen <==> s in result
    {
      assert raw[..i + 1][..i] == raw[..i];
      if raw[i].NotAScope? {
        HistoryFails(raw, i + 1);
        return Err("invalid cleanup scope");
      }
      var scope := NotificationScope(raw[i].name, raw[i].id);
      if scope.Err? || scope.value.None? {
        HistoryFails(raw, i + 1);
        return Err("invalid or empty cleanup scope");
      }
      if scope.value.value !in seen {
        seen := seen + {scope.value.value};
        result := result + [scope.value.value];
      }
    }
    assert raw[..|raw|] == raw;
    r := Ok(result);
  }

  lemma {:induction false} HistoryFails(raw: seq<RawScope>, k: nat)
    requires k <= |raw| && ScopeHistory(raw[..k]).Err?
    ensures ScopeHistory(raw).Err?
  {
    if k == |raw| {
      assert raw[..k] == raw;
    } else {
      var front := raw[..|raw| - 1];
      assert front[..k] == raw[..k];
      HistoryFails(front, k);
    }
  }

  /** `registry["users"][username] = ...` */
  function SetUser(users: seq<(string, Entry)>, name: string, entry: Entry): seq<(string, Entry)> {
    if users == [] then [(name, entry)]
    else if users[0].0 == name then [(name, entry)] + users[1..]
    else [users[0]] + SetUser(users[1..], name, entry)
  }

  /** The registry after `merge_registry`; on an error nothing is written. */
  function Merged(doc: Document, b: Bootstrap): Result<Document> {
    if doc.deploymentId.Some? && doc.deploymentId.value != b.deploymentId then Err("belongs to another deployment")
    else if doc.history.NotAList? then Err("cleanup_scopes must be a list")
    else match ScopeHistory(doc.history.scopes)
      case Err(e) => Err(e)
      case Ok(history) =>
        match NotificationScope(doc.name, doc.id)
        case Err(e) => Err(e)
        case Ok(previous) =>
          var kept := if previous.Some? && previous.value != b.scope then AddOnce(history, previous.value) else history;
          Ok(doc.(deploymentId := Some(b.deploymentId), name := Text(b.scope.clusterName),
                  id := Text(b.scope.scopeId), enabled := b.enabled, history := Entries(RawOfAll(kept)),
                  users := SetUser(doc.users, b.user, Entry(Text("terraform"), Text(b.topicId)))))
  }

  // ---- what a merge does ---------------------------------------------------------------------------

  ghost predicate IsScope(name: Field, id: Field, s: Scope) {
    name == Text(s.clusterName) && id == Text(s.scopeId) && WholeScope(s)
  }

  ghost predicate IsRawScope(raw: RawScope, s: Scope) {
    raw.RawScope? && IsScope(raw.name, raw.id, s)
  }

  /** No other deployment's, and all its scopes can be read; a registry from before there were scopes will do. */
  ghost predicate Mergeable(doc: Document, deploymentId: string) {
    && doc.deploymentId in {None, Some(deploymentId)}
    && ((doc.name.Missing? && doc.id.Missing?) || IsReadable(RawScope(doc.name, doc.id)))
    && doc.history.Entries?
    && forall raw :: raw in doc.history.scopes ==> IsReadable(raw)
  }

  predicate DistinctUsers(users: seq<(string, Entry)>) {
    forall j, k :: 0 <= j < k < |users| ==> users[j].0 != users[k].0
  }

  ghost predicate Remembers(history: RawHistory, s: Scope) {
    history.Entries? && RawOf(s) in history.scopes
  }

  /** The configuration is the new one, the replaced scope and every recorded one stay on record, each once and
      nothing else, and of the users only Terraform's entry changes. */
  ghost predicate Updated(a: Document, c: Document, b: Bootstrap) {
    && c.deploymentId == Some(b.deploymentId) && c.name == Text(b.scope.clusterName) && c.id == Text(b.scope.scopeId)
    && c.enabled == b.enabled && c.pending == a.pending
    && RecordKept(a, c, b.scope)
    && (forall u :: u in c.users && u.0 == b.user && DistinctUsers(a.users) ==> u.1 == TerraformEntry(b))
    && (b.user, TerraformEntry(b)) in c.users
    && (forall u: (string, Entry) :: u.0 != b.user ==> (u in c.users <==> u in a.users))
    && (DistinctUsers(a.users) ==> DistinctUsers(c.users))
  }

  function TerraformEntry(b: Bootstrap): Entry {
    Entry(Text("terraform"), Text(b.topicId))
  }

  function HistoryOf(doc: Document): seq<RawScope> {
    if doc.history.Entries? then doc.history.scopes else []
  }

  ghost predicate WasKnown(a: Document, next: Scope, s: Scope) {
    (exists raw :: raw in HistoryOf(a) && IsRawScope(raw, s)) || (s != next && IsScope(a.name, a.id, s))
  }

  lemma NotificationScopeExactly(name: Field, id: Field)
    ensures var r := NotificationScope(name, id);
      && (r == Ok(None) <==> name.Missing? && id.Missing?)
      && (forall s :: r == Ok(Some(s)) <==> IsScope(name, id, s))
      && (r.Ok? <==> (name.Missing? && id.Missing?) || exists s :: IsScope(name, id, s))
  {
    if NotificationScope(name, id).Ok? && NotificationScope(name, id).value.Some? {
      assert IsScope(name, id, NotificationScope(name, id).value.value);
    }
  }

  ghost predicate IsReadable(raw: RawScope) {
    exists s :: IsRawScope(raw, s)
  }

  /** The last entry is added to what the others gave. */
  lemma HistoryStep(raw: seq<RawScope>)
    requires raw != []
    ensures var before, last := ScopeHistory(raw[..|raw| - 1]), raw[|raw| - 1];
      && (ScopeHistory(raw).Ok? <==> before.Ok? && IsReadable(last))
      && (ScopeHistory(raw).Ok? ==>
            exists s :: IsRawScope(last, s) && ScopeHistory(raw).value == AddOnce(before.value, s))
  {
    var last := raw[|raw| - 1];
    if last.RawScope? {
      NotificationScopeExactly(last.name, last.id);
      assert forall s :: IsRawScope(last, s) <==> IsScope(last.name, last.id, s);
      assert IsReadable(last) <==> exists s :: IsScope(last.name, last.id, s);
      if NotificationScope(last.name, last.id).Ok? && NotificationScope(last.name, last.id).value.Some? {
        assert IsRawScope(last, NotificationScope(last.name, last.id).value.value);
      }
    }
  }

  lemma {:induction false} ScopeHistoryExactly(raw: seq<RawScope>)
    ensures var r := ScopeHistory(raw);
      && (r.Ok? <==> forall x :: x in raw ==> IsReadable(x))
      && (r.Ok? ==>
            && NoDuplicates(r.value)
            && forall s :: s in r.value <==> exists x :: x in raw && IsRawScope(x, s))
  {
    if raw != [] {
      var front, last := raw[..|raw| - 1], raw[|raw| - 1];
      ScopeHistoryExactly(front);
      HistoryStep(raw);
      assert forall x :: x in raw <==> x in front || x == last;
      if ScopeHistory(raw).Ok? {
        var s :| IsRawScope(last, s) && ScopeHistory(raw).value == AddOnce(ScopeHistory(front).value, s);
        AddOnceKeeps(ScopeHistory(front).value, s);
      }
    }
  }

  lemma {:induction false} SetUserExactly(users: seq<(string, Entry)>, name: string, entry: Entry)
    ensures var r := SetUser(users, name, entry);
      && (name, entry) in r
      && (forall u: (string, Entry) :: u.0 != name ==> (u in r <==> u in users))
      && (DistinctUsers(users) ==> DistinctUsers(r) && forall u :: u in r && u.0 == name ==> u.1 == entry)
  {
    if users != [] {
      assert users == [users[0]] + users[1..];
      if users[0].0 != name {
        SetUserExactly(users[1..], name, entry);
        KeepsDistinct(users, name, entry);
      }
    }
  }

  lemma KeepsDistinct(users: seq<(string, Entry)>, name: string, entry: Entry)
    requires users != [] && users[0].0 != name
    requires var r := SetUser(users[1..], name, entry);
      && (forall u: (string, Entry) :: u.0 != name ==> (u in r <==> u in users[1..]))
      && (DistinctUsers(users[1..]) ==> DistinctUsers(r))
    ensures DistinctUsers(users) ==> DistinctUsers(SetUser(users, name, entry))
  {
    if DistinctUsers(users) {
      var rest := SetUser(users[1..], name, entry);
      forall k | 0 <= k < |rest|
        ensures rest[k].0 != users[0].0
      {
        if rest[k].0 != name {
          assert rest[k] in users[1..];
        }
      }
    }
  }

  lemma KeptExactly(history: seq<Scope>, previous: Option<Scope>, next: Scope)
    requires NoDuplicates(history)
    ensures var kept := if previous.Some? && previous.value != next then AddOnce(history, previous.value) else history;
      NoDuplicates(kept) && forall s :: s in kept <==> s in history || (s != next && previous == Some(s))
  {
    if previous.Some? {
      AddOnceKeeps(history, previous.value);
    }
  }

  lemma RawsAreScopes(scopes: seq<Scope>)
    ensures forall s :: RawOf(s) in RawOfAll(scopes) <==> s in scopes
    ensures forall raw :: raw in RawOfAll(scopes) ==> exists s :: s in scopes && raw == RawOf(s)
    ensures NoDuplicates(scopes) ==>
      forall j, k :: 0 <= j < k < |RawOfAll(scopes)| ==> RawOfAll(scopes)[j] != RawOfAll(scopes)[k]
  {
    forall s | s in scopes
      ensures RawOf(s) in RawOfAll(scopes)
    {
      var i :| 0 <= i < |scopes| && scopes[i] == s;
      assert RawOfAll(scopes)[i] == RawOf(s);
    }
  }

  lemma RefusedExactly(doc: Document, b: Bootstrap)
    ensures Merged(doc, b).Ok? <==> Mergeable(doc, b.deploymentId)
  {
    NotificationScopeExactly(doc.name, doc.id);
    assert IsReadable(RawScope(doc.name, doc.id)) <==> exists s :: IsScope(doc.name, doc.id, s) by {
      assert forall s :: IsRawScope(RawScope(doc.name, doc.id), s) <==> IsScope(doc.name, doc.id, s);
    }
    if doc.history.Entries? {
      ScopeHistoryExactly(doc.history.scopes);
    }
  }

  /** The scopes on record after a merge. */
  function Kept(doc: Document, b: Bootstrap): (kept: seq<Scope>)
    requires Merged(doc, b).Ok?
    ensures Merged(doc, b).value.history == Entries(RawOfAll(kept))
  {
    var history, previous := ScopeHistory(doc.history.scopes).value, NotificationScope(doc.name, doc.id).value;
    if previous.Some? && previous.value != b.scope then AddOnce(history, previous.value) else history
  }

  lemma KeptMeans(doc: Document, b: Bootstrap)
    requires Merged(doc, b).Ok?
    ensures NoDuplicates(Kept(doc, b)) && forall s :: s in Kept(doc, b) ==> WholeScope(s)
    ensures forall s :: s in Kept(doc, b) <==> WasKnown(doc, b.scope, s)
  {
    var history, previous := ScopeHistory(doc.history.scopes).value, NotificationScope(doc.name, doc.id).value;
    ScopeHistoryExactly(doc.history.scopes);
    NotificationScopeExactly(doc.name, doc.id);
    KeptExactly(history, previous, b.scope);
    forall s
      ensures s in Kept(doc, b) <==> WasKnown(doc, b.scope, s)
    {
      assert s in history <==> exists raw :: raw in HistoryOf(doc) && IsRawScope(raw, s);
      assert previous == Some(s) <==> IsScope(doc.name, doc.id, s);
    }
  }

  /** The scopes on record are those known before, each once. */
  ghost predicate RecordKept(a: Document, c: Document, next: Scope) {
    && (forall s :: Remembers(c.history, s) <==> WasKnown(a, next, s))
    && (forall raw :: raw in HistoryOf(c) ==> exists s :: raw == RawOf(s) && WholeScope(s))
    && (forall j, k :: 0 <= j < k < |HistoryOf(c)| ==> HistoryOf(c)[j] != HistoryOf(c)[k])
  }

  lemma MergeKeepsRecord(doc: Document, b: Bootstrap)
    requires Merged(doc, b).Ok?
    ensures RecordKept(doc, Merged(doc, b).value, b.scope)
  {
    KeptMeans(doc, b);
    RawsAreScopes(Kept(doc, b));
  }

  /** When a merge is refused, and what it leaves when it is not. */
  lemma MergedExactly(doc: Document, b: Bootstrap)
    ensures Merged(doc, b).Ok? <==> Mergeable(doc, b.deploymentId)
    ensures Merged(doc, b).Ok? ==> Updated(doc, Merged(doc, b).value, b)
  {
    RefusedExactly(doc, b);
    if Merged(doc, b).Ok? {
      MergeKeepsRecord(doc, b);
      SetUserExactly(doc.users, b.user, TerraformEntry(b));
    }
  }

  /** The registry file, rewritten under its lock by atomic replacement. */
  class RegistryFile {
    var document: Document

    constructor ()
      ensures document == EMPTY
    {
      document := EMPTY;
    }

    method MergeRegistry(b: Bootstrap) returns (ok: bool)
      requires WholeScope(b.scope)
      modifies this
      ensures ok == Merged(old(document), b).Ok?
      ensures document == if ok then Merged(old(document), b).value else old(document)
      // Refused exactly for another deployment's registry, or one whose scopes cannot be read.
      ensures ok <==> Mergeable(old(document), b.deploymentId)
      ensures ok ==> Updated(old(document), document, b)
    {
      MergedExactly(document, b);
      var doc := document;
      if doc.deploymentId.Some? && doc.deploymentId.value != b.deploymentId {
        return false;
      }
      var history := CleanupScopeHistory(doc.history);
      var previous := NotificationScope(doc.name, doc.id);
      if history.Err? || previous.Err? {
        return false;
      }
      var kept := history.value;
      if previous.value.Some? && previous.value.value != b.scope && previous.value.value !in kept {
        kept := kept + [previous.value.value];
      }
      document := doc.(deploymentId := Some(b.deploymentId), name := Text(b.scope.clusterName),
      id := Text(b.scope.scopeId), enabled := b.enabled, history := Entries(RawOfAll(kept)),
      users := SetUser(doc.users, b.user, Entry(Text("terraform"), Text(b.topicId))));
      ok := true;
    }

    /** Nothing a later cleanup depends on is lost. */
    method DisableRegistry()
      modifies this
      ensures document == old(document).(enabled := false)
      ensures forall config :: LoadScopes(config, Some(document)) == LoadScopes(config, Some(old(document)))
      ensures forall config :: LoadKnownTopics(config, Some(document)) == LoadKnownTopics(config, Some(old(document)))
    {
      document := document.(enabled := false);
    }
  }

  // ---- what cleanup reads --------------------------------------------------------------------------

  const TOPIC_PREFIX: string := "ocid1.onstopic."

  /** `protectedIds` are Terraform's own topics; `scope` is the one the destroy runs under. */
  datatype CleanupConfig = CleanupConfig(scope: Scope, deploymentId: string, protectedIds: set<string>)

  /** `_scope_pair` with its deployment check. */
  function ScopeOf(name: Field, id: Field, identity: Identity): Result<Scope> {
    if !name.Text? || name.text == [] || !id.Text? || id.text == [] then Err("invalid scope field")
    else
      var scope := Scope(name.text, id.text);
      match DeploymentIdentity(scope)
      case Err(e) => Err(e)
      case Ok(other) => if other == identity then Ok(scope) else Err("belongs to another deployment")
  }

  function ReadRaw(raw: RawScope, identity: Identity): Result<Scope> {
    match raw
    case NotAScope => Err("must be an object")
    case RawScope(name, id) => ScopeOf(name, id, identity)
  }

  function Reader(identity: Identity): RawScope -> Result<Scope> {
    raw => ReadRaw(raw, identity)
  }

  /** The scopes after the history entries `raw` were added to `known`. */
  function WithHistory(known: seq<Scope>, raw: seq<RawScope>, read: RawScope -> Result<Scope>): Result<seq<Scope>> {
    if raw == [] then Ok(known)
    else match WithHistory(known, raw[..|raw| - 1], read)
      case Err(e) => Err(e)
      case Ok(scopes) =>
        match read(raw[|raw| - 1])
        case Err(e) => Err(e)
        case Ok(s) => Ok(AddOnce(scopes, s))
  }

  /** The scope part of `load_cleanup_metadata`; no registry file means the current scope alone. */
  function LoadScopes(config: CleanupConfig, registry: Option<Document>): Result<seq<Scope>> {
    match DeploymentIdentity(config.scope)
    case Err(e) => Err(e)
    case Ok(identity) =>
      match registry
      case None => Ok([config.scope])
      case Some(doc) =>
        if doc.deploymentId != Some(config.deploymentId) then Err("registry belongs to another deployment")
        else match ScopeOf(doc.name, doc.id, identity)
          case Err(e) => Err(e)
          case Ok(registered) =>
            if doc.history.NotAList? then Err("cleanup_scopes must be a list")
            else WithHistory(AddOnce([config.scope], registered), doc.history.scopes, Reader(identity))
  }

  /** `_registry_topic_id` */
  function RegistryTopicId(entry: Entry, protectedIds: set<string>, required: bool): Result<Option<string>> {
    if entry.NotAnObject? then Err("must be an object")
    else if entry.managedBy != Text("cluster-cli") then Ok(None)
    else if !required && (entry.topicId.Missing? || entry.topicId == Text("")) then Ok(None)
    else if !entry.topicId.Text? || !(TOPIC_PREFIX < entry.topicId.text)
            || (exists i :: 0 <= i < |entry.topicId.text| && AsciiSpace(entry.topicId.text[i])) then
      Err("invalid Topic OCID")
    else if entry.topicId.text in protectedIds then Ok(None)
    else Ok(Some(entry.topicId.text))
  }

  function KnownTopics(entries: seq<Entry>, protectedIds: set<string>, required: bool): Result<set<string>> {
    if entries == [] then Ok({})
    else match KnownTopics(entries[..|entries| - 1], protectedIds, required)
      case Err(e) => Err(e)
      case Ok(known) =>
        match RegistryTopicId(entries[|entries| - 1], protectedIds, required)
        case Err(e) => Err(e)
        case Ok(None) => Ok(known)
        case Ok(Some(id)) => Ok(known + {id})
  }

  function UserEntries(users: seq<(string, Entry)>): (r: seq<Entry>)
    ensures |r| == |users|
  {
    seq(|users|, i requires 0 <= i < |users| => users[i].1)
  }

  /** The topics the registry says cluster-cli manages. */
  function LoadKnownTopics(config: CleanupConfig, registry: Option<Document>): Result<set<string>> {
    match registry
    case None => Ok({})
    case Some(doc) =>
      if exists i :: 0 <= i < |doc.users| && doc.users[i].0 == [] then Err("invalid username")
      else match KnownTopics(UserEntries(doc.users), config.protectedIds, true)
        case Err(e) => Err(e)
        case Ok(users) =>
          match KnownTopics(doc.pending, config.protectedIds, false)
          case Err(e) => Err(e)
          case Ok(pending) => Ok(users + pending)
  }

  // ---- exactly what is loaded ----------------------------------------------------------------------

  /** An entry of cluster-cli's for the topic `id`. */
  ghost predicate Manages(e: Entry, id: string) {
    && e.Entry? && e.managedBy == Text("cluster-cli") && e.topicId == Text(id)
    && TOPIC_PREFIX < id && forall k :: 0 <= k < |id| ==> !AsciiSpace(id[k])
  }

  /** Somebody else's entry, one for a topic, or, where that is allowed, one whose topic never came to be. */
  ghost predicate Sensible(e: Entry, required: bool) {
    e.Entry? && (e.managedBy == Text("cluster-cli") ==>
                   (!required && e.topicId in {Missing, Text("")}) || exists id :: Manages(e, id))
  }

  lemma EntryExactly(e: Entry, protectedIds: set<string>, required: bool)
    ensures var r := RegistryTopicId(e, protectedIds, required);
      && (r.Ok? <==> Sensible(e, required))
      && forall id :: r == Ok(Some(id)) <==> Manages(e, id) && id !in protectedIds
  {
    if e.Entry? && e.topicId.Text? && RegistryTopicId(e, protectedIds, required).Ok?
       && e.managedBy == Text("cluster-cli") && !(!required && e.topicId in {Missing, Text("")}) {
      assert Manages(e, e.topicId.text);
    }
  }

  lemma {:induction false} EntriesExactly(entries: seq<Entry>, protectedIds: set<string>, required: bool)
    ensures var r := KnownTopics(entries, protectedIds, required);
      && (r.Ok? <==> forall e :: e in entries ==> Sensible(e, required))
      && (r.Ok? ==> forall id :: id in r.value <==> id !in protectedIds && exists e :: e in entries && Manages(e, id))
  {
    if entries != [] {
      var front, last := entries[..|entries| - 1], entries[|entries| - 1];
      EntriesExactly(front, protectedIds, required);
      EntryExactly(last, protectedIds, required);
      assert entries == front + [last];
      assert forall e :: e in entries <==> e in front || e == last;
    }
  }

  /** The registered topics are exactly those of cluster-cli's entries, users' and pending ones, that Terraform does
      not own; a registry with any other entry is refused. */
  lemma KnownTopicsExactly(config: CleanupConfig, doc: Document)
    ensures var r := LoadKnownTopics(config, Some(doc));
      && (r.Ok? <==>
            && (forall i :: 0 <= i < |doc.users| ==> doc.users[i].0 != [] && Sensible(doc.users[i].1, true))
            && (forall e :: e in doc.pending ==> Sensible(e, false)))
      && (r.Ok? ==> forall id :: id in r.value <==>
            && id !in config.protectedIds
            && exists e :: (e in UserEntries(doc.users) || e in doc.pending) && Manages(e, id))
  {
    EntriesExactly(UserEntries(doc.users), config.protectedIds, true);
    EntriesExactly(doc.pending, config.protectedIds, false);
    forall i | 0 <= i < |doc.users|
      ensures doc.users[i].1 in UserEntries(doc.users)
    {
      assert UserEntries(doc.users)[i] == doc.users[i].1;
    }
    assert (forall i :: 0 <= i < |doc.users| ==> Sensible(doc.users[i].1, true))
      <==> (forall e :: e in UserEntries(doc.users) ==> Sensible(e, true));
  }

  /** These fields hold the scope `s` of the deployment. */
  ghost predicate Holds(name: Field, id: Field, identity: Identity, s: Scope) {
    name == Text(s.clusterName) && id == Text(s.scopeId) && WholeScope(s) && DeploymentIdentity(s) == Ok(identity)
  }

  lemma ScopeOfExactly(name: Field, id: Field, identity: Identity)
    ensures forall s :: ScopeOf(name, id, identity) == Ok(s) <==> Holds(name, id, identity, s)
    ensures ScopeOf(name, id, identity).Ok? <==> exists s :: Holds(name, id, identity, s)
  {
    if ScopeOf(name, id, identity).Ok? {
      assert Holds(name, id, identity, ScopeOf(name, id, identity).value);
    }
  }

  ghost predicate HoldsRaw(raw: RawScope, identity: Identity, s: Scope) {
    raw.RawScope? && Holds(raw.name, raw.id, identity, s)
  }

  ghost predicate IsOwn(raw: RawScope, identity: Identity) {
    exists s :: HoldsRaw(raw, identity, s)
  }

  lemma {:induction false} HistoryExactly(known: seq<Scope>, raw: seq<RawScope>, read: RawScope -> Result<Scope>)
    requires NoDuplicates(known)
    ensures var r := WithHistory(known, raw, read);
      && (r.Ok? <==> forall x :: x in raw ==> read(x).Ok?)
      && (r.Ok? ==>
            && NoDuplicates(r.value)
            && forall s :: s in r.value <==> s in known || exists x :: x in raw && read(x) == Ok(s))
  {
    if raw != [] {
      var front, last := raw[..|raw| - 1], raw[|raw| - 1];
      HistoryExactly(known, front, read);
      assert forall x :: x in raw <==> x in front || x == last;
      var before := WithHistory(known, front, read);
      if before.Ok? && read(last).Ok? {
        AddOnceKeeps(before.value, read(last).value);
      }
    }
  }

  lemma ReadExactly(x: RawScope, identity: Identity)
    ensures forall s :: Reader(identity)(x) == Ok(s) <==> HoldsRaw(x, identity, s)
    ensures Reader(identity)(x).Ok? <==> IsOwn(x, identity)
  {
    if x.RawScope? {
      ScopeOfExactly(x.name, x.id, identity);
      if Reader(identity)(x).Ok? {
        assert HoldsRaw(x, identity, Reader(identity)(x).value);
      }
    }
  }

  /** Any registry: it can be loaded exactly when it is this deployment's and every scope in it is, and then the
      scopes are the destroy's own, the registered one and the recorded ones, each once. */
  lemma ScopesExactly(config: CleanupConfig, doc: Document, identity: Identity)
    requires DeploymentIdentity(config.scope) == Ok(identity)
    ensures var r := LoadScopes(config, Some(doc));
      && (r.Ok? <==>
            && doc.deploymentId == Some(config.deploymentId) && IsOwn(RawScope(doc.name, doc.id), identity)
            && doc.history.Entries? && forall x :: x in doc.history.scopes ==> IsOwn(x, identity))
      && (r.Ok? ==>
            && NoDuplicates(r.value)
            && forall s :: s in r.value <==>
                 || s == config.scope || HoldsRaw(RawScope(doc.name, doc.id), identity, s)
                 || exists x :: x in doc.history.scopes && HoldsRaw(x, identity, s))
  {
    var own := RawScope(doc.name, doc.id);
    forall x
      ensures forall s :: Reader(identity)(x) == Ok(s) <==> HoldsRaw(x, identity, s)
      ensures Reader(identity)(x).Ok? <==> IsOwn(x, identity)
    {
      ReadExactly(x, identity);
    }
    assert ScopeOf(doc.name, doc.id, identity) == Reader(identity)(own);
    if IsOwn(own, identity) && doc.history.Entries? {
      var registered := Reader(identity)(own).value;
      AddOnceKeeps([config.scope], registered);
      HistoryExactly(AddOnce([config.scope], registered), doc.history.scopes, Reader(identity));
    }
  }

  // ---- no scope is forgotten -----------------------------------------------------------------------

  datatype Update = Merge(bootstrap: Bootstrap) | Disable

  /** The registry after any updates; a failed merge writes nothing. */
  function AfterUpdates(updates: seq<Update>): Document {
    if updates == [] then EMPTY
    else
      var doc := AfterUpdates(updates[..|updates| - 1]);
      match updates[|updates| - 1]
      case Disable => doc.(enabled := false)
      case Merge(b) => match Merged(doc, b)
        case Err(_) => doc
        case Ok(next) => next
  }

  lemma AfterUpdatesMore(updates: seq<Update>, update: Update)
    ensures AfterUpdates(updates + [update]) ==
      match update
      case Disable => AfterUpdates(updates).(enabled := false)
      case Merge(b) => (match Merged(AfterUpdates(updates), b)
                        case Err(_) => AfterUpdates(updates)
                        case Ok(next) => next)
  {
    assert (updates + [update])[..|updates|] == updates;
  }

  /** The seed, started once for each update on one registry file; its runs leave what the theorems below are
      about. */
  method SeedRuns(updates: seq<Update>) returns (file: RegistryFile)
    requires forall i :: 0 <= i < |updates| && updates[i].Merge? ==> WholeScope(updates[i].bootstrap.scope)
    ensures fresh(file) && file.document == AfterUpdates(updates)
  {
    file := new RegistryFile();
    for k := 0 to |updates|
      invariant fresh(file) && file.document == AfterUpdates(updates[..k])
    {
      AfterUpdatesMore(updates[..k], updates[k]);
      assert updates[..k] + [updates[k]] == updates[..k + 1];
      match updates[k] {
        case Disable =>
          file.DisableRegistry();
        case Merge(b) =>
          var ok := file.MergeRegistry(b);
      }
    }
    assert updates[..|updates|] == updates;
  }

  /** All merges come from one Terraform deployment. */
  ghost predicate OneDeployment(updates: seq<Update>, deploymentId: string, identity: Identity) {
    forall i :: 0 <= i < |updates| && updates[i].Merge? ==>
      var b := updates[i].bootstrap;
      b.deploymentId == deploymentId && OwnScope(b.scope, identity)
  }

  predicate OwnScope(s: Scope, identity: Identity) {
    s.clusterName != [] && s.scopeId == PrintScopeId(s.clusterName, identity)
  }

  ghost predicate NoDuplicates(scopes: seq<Scope>) {
    forall i, j :: 0 <= i < j < |scopes| ==> scopes[i] != scopes[j]
  }

  /** Scopes that were current after some merge. */
  ghost predicate EverCurrent(updates: seq<Update>, s: Scope) {
    exists i :: 0 <= i < |updates| && updates[i].Merge? && updates[i].bootstrap.scope == s
  }

  /** The registry keeps the scopes `past` besides its current one. */
  ghost predicate Keeps(doc: Document, past: seq<Scope>, identity: Identity) {
    && doc.history == Entries(RawOfAll(past))
    && NoDuplicates(past)
    && forall s :: s in past ==> OwnScope(s, identity)
  }

  lemma RawStep(past: seq<Scope>)
    requires past != []
    ensures var n := |past| - 1;
            |RawOfAll(past)| == n + 1 && RawOfAll(past)[..n] == RawOfAll(past[..n])
              && RawOfAll(past)[n] == RawOf(past[n])
  {}

  lemma FrontAndLast(past: seq<Scope>)
    requires past != []
    ensures past == past[..|past| - 1] + [past[|past| - 1]]
    ensures forall s :: s in past <==> s in past[..|past| - 1] || s == past[|past| - 1]
    ensures NoDuplicates(past) ==> NoDuplicates(past[..|past| - 1]) && past[|past| - 1] !in past[..|past| - 1]
  {
    assert past == past[..|past| - 1] + [past[|past| - 1]];
  }

  lemma {:induction false} HistoryOfRaw(past: seq<Scope>)
    requires NoDuplicates(past) && forall s :: s in past ==> WholeScope(s)
    ensures ScopeHistory(RawOfAll(past)) == Ok(past)
  {
    if past == [] {
      assert RawOfAll(past) == [];
    } else {
      FrontAndLast(past);
      RawStep(past);
      HistoryOfRaw(past[..|past| - 1]);
      assert WholeScope(past[|past| - 1]);
    }
  }

  lemma AddOnceKeeps(scopes: seq<Scope>, s: Scope)
    requires NoDuplicates(scopes)
    ensures NoDuplicates(AddOnce(scopes, s)) && s in AddOnce(scopes, s)
    ensures forall x :: x in AddOnce(scopes, s) <==> x in scopes || x == s
  {}

  /** One merge within a deployment succeeds and moves the scope it replaces into the history. */
  lemma MergeKeeps(doc: Document, b: Bootstrap, past: seq<Scope>, identity: Identity) returns (kept: seq<Scope>)
    requires Keeps(doc, past, identity) && OwnScope(b.scope, identity)
    requires doc.deploymentId.Some? ==> doc.deploymentId.value == b.deploymentId
    requires doc.deploymentId.None? ==> doc.name.Missing? && doc.id.Missing?
    requires doc.deploymentId.Some? ==>
      doc.name.Text? && doc.id.Text? && OwnScope(Scope(doc.name.text, doc.id.text), identity)
    ensures Merged(doc, b).Ok?
    ensures Keeps(Merged(doc, b).value, kept, identity)
    ensures forall s :: s in past ==> s in kept
    ensures doc.deploymentId.Some? ==> Scope(doc.name.text, doc.id.text) in kept + [b.scope]
  {
    HistoryOfRaw(past);
    kept := past;
    if doc.deploymentId.Some? && Scope(doc.name.text, doc.id.text) != b.scope {
      kept := AddOnce(past, Scope(doc.name.text, doc.id.text));
      AddOnceKeeps(past, Scope(doc.name.text, doc.id.text));
    }
  }

  /** After any updates of one deployment, every scope that was ever current is the current one or in
      the history, once. */
  lemma {:induction false} UpdatesKeep(updates: seq<Update>, deploymentId: string, identity: Identity)
      returns (past: seq<Scope>)
    requires OneDeployment(updates, deploymentId, identity)
    ensures var doc := AfterUpdates(updates);
      && Keeps(doc, past, identity)
      && (doc.deploymentId.None? ==> doc == EMPTY.(enabled := doc.enabled))
      && (doc.deploymentId.Some? ==>
            && doc.deploymentId == Some(deploymentId) && doc.name.Text? && doc.id.Text?
            && OwnScope(Scope(doc.name.text, doc.id.text), identity))
      && (forall s :: EverCurrent(updates, s) ==>
            doc.deploymentId.Some? && (s in past || s == Scope(doc.name.text, doc.id.text)))
  {
    if updates == [] {
      past := [];
      assert RawOfAll([]) == [];
    } else {
      var front, last := updates[..|updates| - 1], updates[|updates| - 1];
      var before := UpdatesKeep(front, deploymentId, identity);
      var doc := AfterUpdates(front);
      past := before;
      if last.Merge? {
        assert OwnScope(last.bootstrap.scope, identity);
        past := MergeKeeps(doc, last.bootstrap, before, identity);
      }
      forall s | EverCurrent(updates, s)
        ensures EverCurrent(front, s) || (last.Merge? && s == last.bootstrap.scope)
      {
        var i :| 0 <= i < |updates| && updates[i].Merge? && updates[i].bootstrap.scope == s;
        if i < |front| {
          assert front[i] == updates[i];
        }
      }
    }
  }

  lemma OwnScopeIsRead(s: Scope, identity: Identity)
    requires OwnScope(s, identity) && Printable(identity)
    ensures ScopeOf(Text(s.clusterName), Text(s.scopeId), identity) == Ok(s)
    ensures DeploymentIdentity(s) == Ok(identity)
  {
    ParseOfPrint(s.clusterName, identity);
  }

  /** `scopes` lists `known` and `past`, each scope once. */
  ghost predicate Lists(scopes: seq<Scope>, known: seq<Scope>, past: seq<Scope>) {
    NoDuplicates(scopes) && forall s :: s in scopes <==> s in known || s in past
  }

  ghost predicate AllRead(past: seq<Scope>, read: RawScope -> Result<Scope>) {
    forall i :: 0 <= i < |past| ==> read(RawOf(past[i])) == Ok(past[i])
  }

  lemma ReadStep(known: seq<Scope>, past: seq<Scope>, read: RawScope -> Result<Scope>)
    requires past != [] && read(RawOf(past[|past| - 1])) == Ok(past[|past| - 1])
    requires WithHistory(known, RawOfAll(past[..|past| - 1]), read).Ok?
    ensures WithHistory(known, RawOfAll(past), read)
         == Ok(AddOnce(WithHistory(known, RawOfAll(past[..|past| - 1]), read).value, past[|past| - 1]))
  {
    RawStep(past);
  }

  lemma {:induction false} HistoryIsRead(known: seq<Scope>, past: seq<Scope>, read: RawScope -> Result<Scope>)
    requires NoDuplicates(known) && AllRead(past, read)
    ensures WithHistory(known, RawOfAll(past), read).Ok?
    ensures Lists(WithHistory(known, RawOfAll(past), read).value, known, past)
  {
    if past == [] {
      assert RawOfAll(past) == [];
    } else {
      var front, last := past[..|past| - 1], past[|past| - 1];
      HistoryIsRead(known, front, read);
      ReadStep(known, past, read);
      ListOneMore(WithHistory(known, RawOfAll(front), read).value, known, front, last);
      FrontAndLast(past);
    }
  }

  lemma ListOneMore(scopes: seq<Scope>, known: seq<Scope>, front: seq<Scope>, last: Scope)
    requires Lists(scopes, known, front)
    ensures Lists(AddOnce(scopes, last), known, front + [last])
  {
    AddOnceKeeps(scopes, last);
  }

  /** The registry file exists once anything was written to it. */
  function RegistryAfter(updates: seq<Update>): Option<Document> {
    if updates == [] then None else Some(AfterUpdates(updates))
  }

  /** No scope is forgotten: whatever the updates of one deployment were, if the destroy can load the
      registry it gets every scope that was ever current, its own included, without duplicates. It can,
      except when the registry was only ever disabled: such a file names no deployment. */
  lemma NoScopeForgotten(updates: seq<Update>, config: CleanupConfig, identity: Identity)
    requires Printable(identity) && OneDeployment(updates, config.deploymentId, identity)
    requires OwnScope(config.scope, identity)
    ensures var loaded := LoadScopes(config, RegistryAfter(updates));
      && (loaded.Ok? <==> updates == [] || exists s :: EverCurrent(updates, s))
      && (loaded.Ok? ==>
            && NoDuplicates(loaded.value) && config.scope in loaded.value
            && forall s :: EverCurrent(updates, s) ==> s in loaded.value)
  {
    OwnScopeIsRead(config.scope, identity);
    if updates != [] {
      var past := UpdatesKeep(updates, config.deploymentId, identity);
      var doc := AfterUpdates(updates);
      if doc.deploymentId.Some? {
        var registered := Scope(doc.name.text, doc.id.text);
        OwnScopeIsRead(registered, identity);
        AddOnceKeeps([config.scope], registered);
        forall i | 0 <= i < |past|
          ensures Reader(identity)(RawOf(past[i])) == Ok(past[i])
        {
          OwnScopeIsRead(past[i], identity);
        }
        HistoryIsRead(AddOnce([config.scope], registered), past, Reader(identity));
        MergedSomething(updates);
      }
    }
  }

  /** The one that fails: a registry that was disabled before it was ever merged. */
  lemma DisabledFirstFails(config: CleanupConfig, identity: Identity)
    requires Printable(identity) && OwnScope(config.scope, identity)
    ensures OneDeployment([Disable], config.deploymentId, identity) && LoadScopes(config, RegistryAfter([Disable])).Err?
  {
    OwnScopeIsRead(config.scope, identity);
    assert [Disable][..0] == [];
  }

  lemma OwnScopesAreWhole(updates: seq<Update>, deploymentId: string, identity: Identity)
    requires OneDeployment(updates, deploymentId, identity)
    ensures forall i :: 0 <= i < |updates| && updates[i].Merge? ==> WholeScope(updates[i].bootstrap.scope)
  {
    forall i | 0 <= i < |updates| && updates[i].Merge?
      ensures WholeScope(updates[i].bootstrap.scope)
    {
      var s := updates[i].bootstrap.scope;
      assert s.scopeId == PrintScopeId(s.clusterName, identity);
    }
  }

  /** Seed and cleanup, as run: the scopes the destroy loads from the file that the seed left. */
  method SeedThenLoad(updates: seq<Update>, config: CleanupConfig, identity: Identity) returns (r: Result<seq<Scope>>)
    requires Printable(identity) && OneDeployment(updates, config.deploymentId, identity) && updates != []
    requires OwnScope(config.scope, identity)
    ensures r.Ok? <==> exists s :: EverCurrent(updates, s)
    ensures r.Ok? ==> NoDuplicates(r.value) && config.scope in r.value
    ensures r.Ok? ==> forall s :: EverCurrent(updates, s) ==> s in r.value
  {
    OwnScopesAreWhole(updates, config.deploymentId, identity);
    var file := SeedRuns(updates);
    NoScopeForgotten(updates, config, identity);
    r := LoadScopes(config, Some(file.document));
  }

  lemma {:induction false} MergedSomething(updates: seq<Update>)
    requires AfterUpdates(updates).deploymentId.Some?
    ensures exists s :: EverCurrent(updates, s)
  {
    var front, last := updates[..|updates| - 1], updates[|updates| - 1];
    if last.Merge? {
      assert EverCurrent(updates, last.bootstrap.scope);
    } else {
      MergedSomething(front);
      var s :| EverCurrent(front, s);
      var i :| 0 <= i < |front| && front[i].Merge? && front[i].bootstrap.scope == s;
      assert updates[i] == front[i];
      assert EverCurrent(updates, s);
    }
  }
}
