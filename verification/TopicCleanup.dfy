/** The removal of cluster-cli topics during destroy: slurm_oci_notification_cleanup.py against a
    service whose listings may change in any way between reads. */
module TopicCleanup {
  import opened Wrappers
  import opened ScopeIdentity
  import opened ScopeRegistry

  /** `freeform-tags` of a listed topic. */
  datatype TagSet = NoTags | BadTags | Tags(tags: map<string, Field>)

  datatype Topic = Topic(id: string, name: Field, tags: TagSet, state: Field)

  /** One `oci ons topic list`. */
  datatype Listing = Failed | Topics(topics: seq<Topic>)

  /** `topicName` is the deterministic name, SHA-256 suffix included; `isSpace` is `str.isspace`. */
  datatype Rules = Rules(topicName: (Scope, string) -> string, isSpace: char -> bool)

  /** `_parse_topic_list` */
  predicate WellListed(topics: seq<Topic>) {
    && (forall i :: 0 <= i < |topics| ==> TOPIC_PREFIX <= topics[i].id)
    && (forall i, j :: 0 <= i < j < |topics| ==> topics[i].id != topics[j].id)
  }

  // ---- one topic ---------------------------------------------------------------------------------

  /** Owned by this deployment, still to be deleted or already on its way. */
  datatype Verdict = Foreign | Rejected | Owned(request: bool)

  function Tag(t: TagSet, key: string): Field {
    if t.Tags? && key in t.tags then t.tags[key] else Missing
  }

  predicate HasTag(t: TagSet, key: string) {
    t.Tags? && key in t.tags
  }

  /** The four tags a topic had before deployment ids existed. */
  predicate LegacyTags(t: TagSet, s: Scope) {
    && Tag(t, "managed_by") == Text("cluster-cli")
    && Tag(t, "notification_scope") == Text(s.scopeId)
    && Tag(t, "cluster_name") == Text(s.clusterName)
    && Tag(t, "parent_cluster") == Text(s.clusterName)
  }

  function FirstMatch(t: TagSet, scopes: seq<Scope>): (r: Option<Scope>)
    ensures r.Some? ==> r.value in scopes && LegacyTags(t, r.value)
    ensures r.None? ==> forall s :: s in scopes ==> !LegacyTags(t, s)
  {
    if scopes == [] then None
    else if LegacyTags(t, scopes[0]) then Some(scopes[0])
    else FirstMatch(t, scopes[1..])
  }

  /** The scope a topic claims: None if it is none of ours, an error if its tags contradict each other. */
  function MatchingScope(config: CleanupConfig, identity: Identity, scopes: seq<Scope>,
                         t: TagSet): Result<Option<Scope>> {
    if HasTag(t, "notification_deployment_id") then
      if Tag(t, "notification_deployment_id") != Text(config.deploymentId) then Ok(None)
      else if Tag(t, "managed_by") != Text("cluster-cli") then Err("invalid ownership tags")
      else
        match ScopeOf(Tag(t, "cluster_name"), Tag(t, "notification_scope"), identity)
        case Err(e) => Err(e)
        case Ok(s) =>
          if Tag(t, "parent_cluster") != Text(s.clusterName) then Err("invalid cluster tags") else Ok(Some(s))
    else Ok(FirstMatch(t, scopes))
  }

  predicate Blank(rules: Rules, s: string) {
    forall i :: 0 <= i < |s| ==> rules.isSpace(s[i])
  }

  /** The loop body of `_owned_topic_ids`. */
  function Judge(rules: Rules, config: CleanupConfig, identity: Identity, scopes: seq<Scope>, topic: Topic): Verdict {
    if topic.id in config.protectedIds then Foreign
    else if topic.tags.BadTags? then Rejected
    else match MatchingScope(config, identity, scopes, topic.tags)
      case Err(_) => Rejected
      case Ok(None) => Foreign
      case Ok(Some(s)) =>
        var user := Tag(topic.tags, "slurm_user");
        if !topic.name.Text? then Rejected
        else if !user.Text? || Blank(rules, user.text) then Rejected
        else if topic.name.text != rules.topicName(s, user.text) then Rejected
        else if topic.state !in {Text("ACTIVE"), Text("CREATING"), Text("DELETING")} then Rejected
        else Owned(topic.state != Text("DELETING"))
  }

  /** What may be deleted, independently of how it is found: not Terraform's, not another deployment's,
      and named after a scope of this deployment and the user it is tagged with. */
  ghost predicate MayDelete(rules: Rules, config: CleanupConfig, identity: Identity, scopes: seq<Scope>, topic: Topic) {
    && topic.id !in config.protectedIds
    && (HasTag(topic.tags, "notification_deployment_id") ==>
          Tag(topic.tags, "notification_deployment_id") == Text(config.deploymentId))
    && Tag(topic.tags, "managed_by") == Text("cluster-cli")
    && exists s: Scope, user: string ::
         && (s in scopes || DeploymentIdentity(s) == Ok(identity))
         && LegacyTags(topic.tags, s)
         && Tag(topic.tags, "slurm_user") == Text(user)
         && topic.name == Text(rules.topicName(s, user))
  }

  lemma OwnedMayBeDeleted(rules: Rules, config: CleanupConfig, identity: Identity, scopes: seq<Scope>, topic: Topic)
    requires Judge(rules, config, identity, scopes, topic).Owned?
    ensures MayDelete(rules, config, identity, scopes, topic)
  {
    var s := MatchingScope(config, identity, scopes, topic.tags).value.value;
    assert LegacyTags(topic.tags, s);
    assert s in scopes || DeploymentIdentity(s) == Ok(identity);
  }

  /** Its tags say that it is a topic of this deployment's scope `s`: by the deployment's id, or, from before
      there was one, by the tags of a scope the destroy knows. */
  ghost predicate Claims(config: CleanupConfig, identity: Identity, scopes: seq<Scope>, t: TagSet, s: Scope) {
    && LegacyTags(t, s)
    && if HasTag(t, "notification_deployment_id") then
         && Tag(t, "notification_deployment_id") == Text(config.deploymentId)
         && WholeScope(s) && DeploymentIdentity(s) == Ok(identity)
       else s in scopes
  }

  /** A topic of scope `s`, as cluster-cli makes it for `user`. */
  ghost predicate MadeFor(rules: Rules, topic: Topic, s: Scope, user: string) {
    && Tag(topic.tags, "slurm_user") == Text(user) && !Blank(rules, user)
    && topic.name == Text(rules.topicName(s, user))
    && topic.state in {Text("ACTIVE"), Text("CREATING"), Text("DELETING")}
  }

  /** Nobody's business: the tags name another deployment, or no scope the destroy knows. */
  ghost predicate ClaimsNothing(config: CleanupConfig, scopes: seq<Scope>, t: TagSet) {
    if HasTag(t, "notification_deployment_id") then
      Tag(t, "notification_deployment_id") != Text(config.deploymentId)
    else forall s :: s in scopes ==> !LegacyTags(t, s)
  }

  lemma OneClaim(config: CleanupConfig, identity: Identity, scopes: seq<Scope>, t: TagSet, s: Scope)
    requires Claims(config, identity, scopes, t, s)
    ensures MatchingScope(config, identity, scopes, t) == Ok(Some(s))
  {
    if !HasTag(t, "notification_deployment_id") {
      assert FirstMatch(t, scopes) == Some(s);
    }
  }

  lemma MatchIsClaim(config: CleanupConfig, identity: Identity, scopes: seq<Scope>, t: TagSet)
    ensures var m := MatchingScope(config, identity, scopes, t);
      && (m.Ok? && m.value.Some? ==> Claims(config, identity, scopes, t, m.value.value))
      && (m == Ok(None) <==> ClaimsNothing(config, scopes, t))
  {}

  ghost predicate Ours(rules: Rules, config: CleanupConfig, identity: Identity, scopes: seq<Scope>, topic: Topic) {
    && topic.id !in config.protectedIds && !topic.tags.BadTags?
    && exists s: Scope, user: string ::
         Claims(config, identity, scopes, topic.tags, s) && MadeFor(rules, topic, s, user)
  }

  /** All three verdicts: owned is exactly what this deployment made and does not protect, foreign exactly what
      it protects or has no claim on; everything else contradicts itself and ends the run. */
  lemma VerdictExactly(rules: Rules, config: CleanupConfig, identity: Identity, scopes: seq<Scope>, topic: Topic)
    ensures var verdict := Judge(rules, config, identity, scopes, topic);
      && (verdict.Owned? <==> Ours(rules, config, identity, scopes, topic))
      && (verdict.Owned? ==> verdict.request == (topic.state != Text("DELETING")))
      && (verdict == Foreign <==>
            topic.id in config.protectedIds
            || (!topic.tags.BadTags? && ClaimsNothing(config, scopes, topic.tags)))
  {
    MatchIsClaim(config, identity, scopes, topic.tags);
    var verdict := Judge(rules, config, identity, scopes, topic);
    if verdict.Owned? {
      var s := MatchingScope(config, identity, scopes, topic.tags).value.value;
      assert MadeFor(rules, topic, s, Tag(topic.tags, "slurm_user").text);
    }
    if Ours(rules, config, identity, scopes, topic) {
      var s: Scope, user: string :|
        Claims(config, identity, scopes, topic.tags, s) && MadeFor(rules, topic, s, user);
      OneClaim(config, identity, scopes, topic.tags, s);
    }
  }

  /** A topic from before deployment ids, of scope `s`, as the user `user` would have been given it. */
  ghost predicate LegacyTopic(rules: Rules, config: CleanupConfig, topic: Topic, s: Scope, user: string) {
    && topic.id !in config.protectedIds
    && !HasTag(topic.tags, "notification_deployment_id") && LegacyTags(topic.tags, s)
    && MadeFor(rules, topic, s, user)
  }

  /** A topic of today, tagged with this deployment's id, of any scope of the deployment. */
  ghost predicate TaggedTopic(rules: Rules, config: CleanupConfig, identity: Identity, topic: Topic, s: Scope,
                              user: string) {
    && topic.id !in config.protectedIds
    && Tag(topic.tags, "notification_deployment_id") == Text(config.deploymentId) && LegacyTags(topic.tags, s)
    && WholeScope(s) && DeploymentIdentity(s) == Ok(identity)
    && MadeFor(rules, topic, s, user)
  }

  /** A legacy topic of any scope the destroy knows is recognised as owned. */
  lemma LegacyTopicIsOwned(rules: Rules, config: CleanupConfig, identity: Identity, scopes: seq<Scope>,
                           topic: Topic, s: Scope, user: string)
    requires s in scopes && LegacyTopic(rules, config, topic, s, user)
    ensures Judge(rules, config, identity, scopes, topic) == Owned(topic.state != Text("DELETING"))
  {
    VerdictExactly(rules, config, identity, scopes, topic);
    assert Claims(config, identity, scopes, topic.tags, s);
  }

  /** A topic with this deployment's tag is owned, whatever the registry says. */
  lemma TaggedTopicIsOwned(rules: Rules, config: CleanupConfig, identity: Identity, scopes: seq<Scope>,
                           topic: Topic, s: Scope, user: string)
    requires TaggedTopic(rules, config, identity, topic, s, user)
    ensures Judge(rules, config, identity, scopes, topic) == Owned(topic.state != Text("DELETING"))
  {
    VerdictExactly(rules, config, identity, scopes, topic);
    assert Claims(config, identity, scopes, topic.tags, s);
  }

  /** Seed and cleanup together: a legacy topic of any cluster name the deployment ever had is found. */
  lemma PastTopicIsFound(rules: Rules, updates: seq<Update>, config: CleanupConfig, identity: Identity,
                         topic: Topic, s: Scope, user: string)
    requires Printable(identity) && OneDeployment(updates, config.deploymentId, identity)
      && OwnScope(config.scope, identity)
    requires EverCurrent(updates, s) && LegacyTopic(rules, config, topic, s, user)
    ensures var loaded := LoadScopes(config, RegistryAfter(updates));
            loaded.Ok? && Judge(rules, config, identity, loaded.value, topic) == Owned(topic.state != Text("DELETING"))
  {
    NoScopeForgotten(updates, config, identity);
    LegacyTopicIsOwned(rules, config, identity, LoadScopes(config, RegistryAfter(updates)).value, topic, s, user);
  }

  // ---- one listing -------------------------------------------------------------------------------

  /** The judgement of topics one run works with. */
  function Judging(rules: Rules, config: CleanupConfig, identity: Identity, scopes: seq<Scope>): Topic -> Verdict {
    topic => Judge(rules, config, identity, scopes, topic)
  }

  /** What the checks of one listing depend on: the judgement, and the registered topics. */
  datatype Context = Context(verdict: Topic -> Verdict, known: set<string>) {
    function OwnedIds(topics: seq<Topic>): set<string> {
      set i | 0 <= i < |topics| && verdict(topics[i]).Owned? :: topics[i].id
    }

    function ListedIds(topics: seq<Topic>): set<string> {
      set i | 0 <= i < |topics| :: topics[i].id
    }

    /** All checks of one listing: shape, tags, names, states, and registered topics still owned. */
    predicate Passes(listing: Listing) {
      && listing.Topics?
      && WellListed(listing.topics)
      && (forall i :: 0 <= i < |listing.topics| ==> verdict(listing.topics[i]) != Rejected)
      && known * ListedIds(listing.topics) <= OwnedIds(listing.topics)
    }
  }

  /** `_owned_topic_ids`: the ids to delete and the ids to wait for, in listing order. */
  method OwnedTopicIds(c: Context, topics: seq<Topic>) returns (r: Result<(seq<string>, seq<string>)>)
    ensures r.Ok? <==> forall i :: 0 <= i < |topics| ==> c.verdict(topics[i]) != Rejected
    ensures r.Ok? ==> IdsWith(c, topics, true) == r.value.0 && AsSet(r.value.1) == c.OwnedIds(topics)
  {
    var deleteIds: seq<string>, waitIds: seq<string> := [], [];
    for i := 0 to |topics|
      invariant forall j :: 0 <= j < i ==> c.verdict(topics[j]) != Rejected
      invariant deleteIds == IdsWith(c, topics[..i], true)
      invariant AsSet(waitIds) == c.OwnedIds(topics[..i])
    {
      assert topics[..i + 1][..i] == topics[..i];
      OwnedStep(c, topics, i);
      match c.verdict(topics[i]) {
        case Foreign =>
        case Rejected =>
          return Err("a listed topic contradicts itself");
        case Owned(request) =>
          AsSetAppend(waitIds, topics[i].id);
          waitIds := waitIds + [topics[i].id];
          if request {
            deleteIds := deleteIds + [topics[i].id];
          }
      }
    }
    assert topics[..|topics|] == topics;
    r := Ok((deleteIds, waitIds));
  }

  function AsSet(ids: seq<string>): set<string> {
    set id | id in ids
  }

  lemma AsSetAppend(ids: seq<string>, id: string)
    ensures AsSet(ids + [id]) == AsSet(ids) + {id}
  {}

  /** Ids of the topics judged Owned(request), in listing order. */
  function IdsWith(c: Context, topics: seq<Topic>, request: bool): seq<string> {
    if topics == [] then []
    else
      IdsWith(c, topics[..|topics| - 1], request)
      + (if c.verdict(topics[|topics| - 1]) == Owned(request) then [topics[|topics| - 1].id] else [])
  }

  lemma OwnedStep(c: Context, topics: seq<Topic>, i: nat)
    requires i < |topics|
    ensures c.OwnedIds(topics[..i + 1])
         == c.OwnedIds(topics[..i]) + (if c.verdict(topics[i]).Owned? then {topics[i].id} else {})
  {
    var a, b := topics[..i + 1], topics[..i];
    forall id | id in c.OwnedIds(a)
      ensures id in c.OwnedIds(b) || (c.verdict(topics[i]).Owned? && id == topics[i].id)
    {
      var j :| 0 <= j < |a| && c.verdict(a[j]).Owned? && a[j].id == id;
      if j < i {
        assert b[j] == a[j];
      }
    }
    forall id | id in c.OwnedIds(b)
      ensures id in c.OwnedIds(a)
    {
      var j :| 0 <= j < |b| && c.verdict(b[j]).Owned? && b[j].id == id;
      assert a[j] == b[j];
    }
    assert a[i] == topics[i];
  }

  lemma {:induction false} IdsAreTopics(c: Context, topics: seq<Topic>, request: bool)
    ensures forall id :: id in IdsWith(c, topics, request) <==>
              exists i :: 0 <= i < |topics| && topics[i].id == id && c.verdict(topics[i]) == Owned(request)
  {
    if topics != [] {
      var front, last := topics[..|topics| - 1], topics[|topics| - 1];
      IdsAreTopics(c, front, request);
      forall id
        ensures id in IdsWith(c, topics, request) <==>
                  exists i :: 0 <= i < |topics| && topics[i].id == id && c.verdict(topics[i]) == Owned(request)
      {
        if id in IdsWith(c, front, request) {
          var i :| 0 <= i < |front| && front[i].id == id && c.verdict(front[i]) == Owned(request);
          assert topics[i] == front[i];
        }
        if i :| 0 <= i < |topics| && topics[i].id == id && c.verdict(topics[i]) == Owned(request) {
          if i < |front| {
            assert front[i] == topics[i];
          }
        }
      }
    }
  }

  /** No id comes twice, since the listing has none twice. */
  lemma {:induction false} IdsAreDistinct(c: Context, topics: seq<Topic>, request: bool)
    requires WellListed(topics)
    ensures Distinct(IdsWith(c, topics, request))
  {
    if topics != [] {
      var front, last := topics[..|topics| - 1], topics[|topics| - 1];
      IdsAreDistinct(c, front, request);
      IdsAreTopics(c, front, request);
      assert forall i :: 0 <= i < |front| ==> front[i] == topics[i] && front[i].id != last.id;
      assert last.id !in IdsWith(c, front, request);
    }
  }

  ghost predicate Distinct(ids: seq<string>) {
    forall i, j :: 0 <= i < j < |ids| ==> ids[i] != ids[j]
  }

  // ---- one run -----------------------------------------------------------------------------------

  /** A delete request, with the listing (counted from 0) it followed. */
  datatype Request = Request(round: nat, id: string)

  datatype Outcome =
    | Cleaned(count: nat)
    | MetadataError
    | ListingError
    | DeleteError
    | TimedOut(remaining: set<string>)

  /** The run's view of the service: what listing k returns. */
  type Service = nat -> Listing

  function OwnedAt(c: Context, service: Service, k: nat): set<string> {
    if service(k).Topics? then c.OwnedIds(service(k).topics) else {}
  }

  function ListedAt(c: Context, service: Service, k: nat): set<string> {
    if service(k).Topics? then c.ListedIds(service(k).topics) else {}
  }

  function RequestedAt(c: Context, service: Service, k: nat): seq<string> {
    if service(k).Topics? then IdsWith(c, service(k).topics, true) else []
  }

  /** Everything seen as owned in the first `n` listings. */
  function Observed(c: Context, service: Service, n: nat): set<string> {
    if n == 0 then {} else Observed(c, service, n - 1) + OwnedAt(c, service, n - 1)
  }

  /** Owned at some listing among the first `n`, and listed ever since. */
  function Remaining(c: Context, service: Service, n: nat): set<string> {
    if n == 0 then {} else Remaining(c, service, n - 1) * ListedAt(c, service, n - 1) + OwnedAt(c, service, n - 1)
  }

  /** The first request at an id follows a listing that passed every check and shows the topic as owned
      and not yet deleting; requests follow the listings' order; no id is requested twice. */
  ghost predicate SafeRequests(c: Context, service: Service, requests: seq<Request>, rounds: nat) {
    && (forall j :: 0 <= j < |requests| ==>
          && requests[j].round < rounds
          && c.Passes(service(requests[j].round))
          && requests[j].id in RequestedAt(c, service, requests[j].round))
    && (forall j, k :: 0 <= j < k < |requests| ==>
          requests[j].id != requests[k].id && requests[j].round <= requests[k].round)
  }

  /** Whatever was found deletable has been requested, no later than with the listing that showed it. */
  ghost predicate AllRequested(c: Context, service: Service, requests: seq<Request>, rounds: nat) {
    forall k, id :: 0 <= k < rounds && id in RequestedAt(c, service, k) ==> RequestedBy(requests, id, k)
  }

  ghost predicate RequestedBy(requests: seq<Request>, id: string, k: nat) {
    exists j :: 0 <= j < |requests| && requests[j].id == id && requests[j].round <= k
  }

  function RequestedIds(requests: seq<Request>): set<string> {
    set j | 0 <= j < |requests| :: requests[j].id
  }

  lemma {:induction false} RemainingMeans(c: Context, service: Service, n: nat, k: nat, id: string)
    requires k < n && id in OwnedAt(c, service, k)
    ensures id in Remaining(c, service, n) || exists m :: k < m < n && id !in ListedAt(c, service, m)
  {
    if k < n - 1 {
      RemainingMeans(c, service, n - 1, k, id);
    }
  }

  /** Listing `round` has passed its checks: the ids still to delete and the ids it shows as owned. */
  method CheckListing(c: Context, listing: Listing) returns (r: Result<(seq<string>, seq<string>)>)
    ensures r.Ok? <==> c.Passes(listing)
    ensures r.Ok? ==> listing.Topics? && r.value.0 == IdsWith(c, listing.topics, true)
                      && AsSet(r.value.1) == c.OwnedIds(listing.topics)
  {
    if listing.Failed? || !WellListed(listing.topics) {
      return Err("unusable Topic list");
    }
    r := OwnedTopicIds(c, listing.topics);
    if r.Ok? && !(c.known * c.ListedIds(listing.topics) <= AsSet(r.value.1)) {
      r := Err("registered cluster-cli Topics failed ownership validation");
    }
  }

  predicate LastRefused(accepts: Request -> bool, requests: seq<Request>) {
    requests != [] && !accepts(requests[|requests| - 1])
  }

  /** The delete loops: every id not in `skip`, stopping at the first failing call. */
  method DeleteTopics(accepts: Request -> bool, round: nat, ids: seq<string>, skip: set<string>)
    returns (ok: bool, made: seq<Request>)
    requires Distinct(ids)
    ensures forall j :: 0 <= j < |made| ==> made[j].round == round && made[j].id in ids && made[j].id !in skip
    ensures forall j, k :: 0 <= j < k < |made| ==> made[j].id != made[k].id
    ensures ok ==> forall id :: id in ids ==> id in skip || Request(round, id) in made
    ensures !ok ==> LastRefused(accepts, made)
  {
    made := [];
    for i := 0 to |ids|
      invariant forall j :: 0 <= j < |made| ==> made[j].round == round && made[j].id in ids[..i] && made[j].id !in skip
      invariant forall j, k :: 0 <= j < k < |made| ==> made[j].id != made[k].id
      invariant forall j :: 0 <= j < i ==> ids[j] in skip || Request(round, ids[j]) in made
    {
      assert ids[i] !in ids[..i];
      assert ids[..i + 1] == ids[..i] + [ids[i]];
      if ids[i] !in skip {
        made := made + [Request(round, ids[i])];
        if !accepts(made[|made| - 1]) {
          return false, made;
        }
      }
    }
    ok := true;
  }

  lemma RequestsGrow(c: Context, service: Service, requests: seq<Request>, round: nat, made: seq<Request>)
    requires SafeRequests(c, service, requests, round) && c.Passes(service(round))
    requires forall j :: 0 <= j < |made| ==>
      made[j].round == round && made[j].id in RequestedAt(c, service, round) && made[j].id !in RequestedIds(requests)
    requires forall j, k :: 0 <= j < k < |made| ==> made[j].id != made[k].id
    ensures SafeRequests(c, service, requests + made, round + 1)
  {
    var all := requests + made;
    forall j, k | 0 <= j < k < |all|
      ensures all[j].id != all[k].id && all[j].round <= all[k].round
    {
      if j < |requests| <= k {
        assert all[j] == requests[j] && all[j].id in RequestedIds(requests);
        assert all[k] == made[k - |requests|];
      }
    }
  }

  lemma RequestsComplete(c: Context, service: Service, requests: seq<Request>, round: nat, made: seq<Request>)
    requires AllRequested(c, service, requests, round)
    requires forall j :: 0 <= j < |requests| ==> requests[j].round <= round
    requires forall id :: id in RequestedAt(c, service, round) ==>
      id in RequestedIds(requests) || Request(round, id) in made
    ensures AllRequested(c, service, requests + made, round + 1)
  {
    var all := requests + made;
    forall k, id | 0 <= k < round + 1 && id in RequestedAt(c, service, k)
      ensures RequestedBy(all, id, k)
    {
      if k < round {
        assert RequestedBy(requests, id, k);
        var j :| 0 <= j < |requests| && requests[j].id == id && requests[j].round <= k;
        assert all[j] == requests[j];
      } else if id in RequestedIds(requests) {
        var j :| 0 <= j < |requests| && requests[j].id == id;
        assert all[j] == requests[j];
      } else {
        var j :| 0 <= j < |made| && made[j] == Request(round, id);
        assert all[|requests| + j] == made[j];
      }
    }
  }

  /** The three sets `cleanup_topics` carries from listing to listing. */
  ghost predicate Tracked(c: Context, service: Service, n: nat, remaining: set<string>, observed: set<string>,
                          requested: set<string>, requests: seq<Request>) {
    && remaining == Remaining(c, service, n)
    && observed == Observed(c, service, n)
    && requested == RequestedIds(requests)
    && SafeRequests(c, service, requests, n)
    && AllRequested(c, service, requests, n)
  }

  /** One listing: check it, update the sets, request what is new. */
  method Round(c: Context, service: Service, accepts: Request -> bool, n: nat, remaining: set<string>,
               observed: set<string>, requested: set<string>, requests: seq<Request>)
    returns (failure: Option<Outcome>, remaining': set<string>, observed': set<string>, requested': set<string>,
             requests': seq<Request>)
    requires Running(c, service, n, remaining, observed, requested, requests)
    ensures requests <= requests'
    ensures failure.None? ==> Running(c, service, n + 1, remaining', observed', requested', requests')
    ensures failure.Some? ==> RoundFails(c, service, accepts, n, failure.value, requests')
  {
    remaining', observed', requested', requests' := remaining, observed, requested, requests;
    var current := service(n);
    var checked := CheckListing(c, current);
    if checked.Err? {
      return Some(ListingError), remaining', observed', requested', requests';
    }
    var (deleteIds, waitIds) := checked.value;
    remaining' := remaining * c.ListedIds(current.topics) + AsSet(waitIds);
    observed' := observed + AsSet(waitIds);
    IdsAreDistinct(c, current.topics, true);
    var ok, made := DeleteTopics(accepts, n, deleteIds, requested);
    requests' := requests + made;
    RequestsGrow(c, service, requests, n, made);
    if !ok {
      return Some(DeleteError), remaining', observed', requested', requests';
    }
    RequestsComplete(c, service, requests, n, made);
    RequestedUnion(requests, made);
    requested' := requested + RequestedIds(made);
    failure := None;
  }

  lemma RequestedUnion(a: seq<Request>, b: seq<Request>)
    ensures RequestedIds(a + b) == RequestedIds(a) + RequestedIds(b)
  {
    forall id | id in RequestedIds(a) + RequestedIds(b)
      ensures id in RequestedIds(a + b)
    {
      if id in RequestedIds(a) {
        var j :| 0 <= j < |a| && a[j].id == id;
        assert (a + b)[j] == a[j];
      } else {
        var j :| 0 <= j < |b| && b[j].id == id;
        assert (a + b)[|a| + j] == b[j];
      }
    }
  }

  // ---- loading -----------------------------------------------------------------------------------

  method AddHistory(known: seq<Scope>, raw: seq<RawScope>, identity: Identity) returns (r: Option<seq<Scope>>)
    ensures r.Some? <==> WithHistory(known, raw, Reader(identity)).Ok?
    ensures r.Some? ==> WithHistory(known, raw, Reader(identity)) == Ok(r.value)
  {
    var scopes := known;
    var read := Reader(identity);
    for i := 0 to |raw|
      invariant WithHistory(known, raw[..i], read) == Ok(scopes)
    {
      assert raw[..i + 1][..i] == raw[..i];
      var scope := read(raw[i]);
      if scope.Err? {
        HistoryStops(known, raw, read, i + 1);
        return None;
      }
      if scope.value !in scopes {
        scopes := scopes + [scope.value];
      }
    }
    assert raw[..|raw|] == raw;
    r := Some(scopes);
  }

  lemma {:induction false} HistoryStops(known: seq<Scope>, raw: seq<RawScope>, read: RawScope -> Result<Scope>, k: nat)
    requires k <= |raw| && WithHistory(known, raw[..k], read).Err?
    ensures WithHistory(known, raw, read).Err?
  {
    if k == |raw| {
      assert raw[..k] == raw;
    } else {
      var front := raw[..|raw| - 1];
      assert front[..k] == raw[..k];
      HistoryStops(known, front, read, k);
    }
  }

  method CollectTopics(entries: seq<Entry>, protectedIds: set<string>, required: bool) returns (r: Option<set<string>>)
    ensures r.Some? <==> KnownTopics(entries, protectedIds, required).Ok?
    ensures r.Some? ==> KnownTopics(entries, protectedIds, required) == Ok(r.value)
  {
    var known: set<string> := {};
    for i := 0 to |entries|
      invariant KnownTopics(entries[..i], protectedIds, required) == Ok(known)
    {
      assert entries[..i + 1][..i] == entries[..i];
      var id := RegistryTopicId(entries[i], protectedIds, required);
      if id.Err? {
        CollectionStops(entries, protectedIds, required, i + 1);
        return None;
      }
      if id.value.Some? {
        known := known + {id.value.value};
      }
    }
    assert entries[..|entries|] == entries;
    r := Some(known);
  }

  lemma {:induction false} CollectionStops(entries: seq<Entry>, protectedIds: set<string>, required: bool, k: nat)
    requires k <= |entries| && KnownTopics(entries[..k], protectedIds, required).Err?
    ensures KnownTopics(entries, protectedIds, required).Err?
  {
    if k == |entries| {
      assert entries[..k] == entries;
    } else {
      var front := entries[..|entries| - 1];
      assert front[..k] == entries[..k];
      CollectionStops(front, protectedIds, required, k);
    }
  }

  /** The scopes of a run: the current one, the registered one, then the history. */
  method ReadScopes(config: CleanupConfig, registry: Option<Document>) returns (r: Option<seq<Scope>>)
    ensures r.Some? <==> LoadScopes(config, registry).Ok?
    ensures r.Some? ==> LoadScopes(config, registry) == Ok(r.value)
  {
    var identity := DeploymentIdentity(config.scope);
    if identity.Err? {
      return None;
    }
    if registry.None? {
      return Some([config.scope]);
    }
    var doc := registry.value;
    var registered := ScopeOf(doc.name, doc.id, identity.value);
    if doc.deploymentId != Some(config.deploymentId) || registered.Err? || doc.history.NotAList? {
      return None;
    }
    r := AddHistory(AddOnce([config.scope], registered.value), doc.history.scopes, identity.value);
  }

  method ReadKnownTopics(config: CleanupConfig, registry: Option<Document>) returns (r: Option<set<string>>)
    ensures r.Some? <==> LoadKnownTopics(config, registry).Ok?
    ensures r.Some? ==> LoadKnownTopics(config, registry) == Ok(r.value)
  {
    if registry.None? {
      return Some({});
    }
    var doc := registry.value;
    if exists i :: 0 <= i < |doc.users| && doc.users[i].0 == [] {
      return None;
    }
    var users := CollectTopics(UserEntries(doc.users), config.protectedIds, true);
    var pending := CollectTopics(doc.pending, config.protectedIds, false);
    if users.None? || pending.None? {
      return None;
    }
    r := Some(users.value + pending.value);
  }

  /** `load_cleanup_metadata` */
  method LoadCleanupMetadata(rules: Rules, config: CleanupConfig, registry: Option<Document>)
    returns (r: Option<Context>)
    ensures r == ContextOf(rules, config, registry)
  {
    var scopes := ReadScopes(config, registry);
    if scopes.None? {
      return None;
    }
    var known := ReadKnownTopics(config, registry);
    if known.None? {
      return None;
    }
    r := Some(Context(Judging(rules, config, DeploymentIdentity(config.scope).value, scopes.value), known.value));
  }

  /** What the loaded metadata mean for the run. */
  function ContextOf(rules: Rules, config: CleanupConfig, registry: Option<Document>): Option<Context> {
    match LoadScopes(config, registry)
    case Err(_) => None
    case Ok(scopes) =>
      match LoadKnownTopics(config, registry)
      case Err(_) => None
      case Ok(known) => Some(Context(Judging(rules, config, DeploymentIdentity(config.scope).value, scopes), known))
  }

  /** What normal return promises: nothing owned is listed any more, every topic ever seen as owned was
      absent from a later listing, everything deletable was requested, and the count is exact. */
  ghost predicate FullyCleaned(c: Context, service: Service, requests: seq<Request>, rounds: nat, count: nat) {
    && rounds >= 2
    && OwnedAt(c, service, rounds - 1) == {}
    && AllRequested(c, service, requests, rounds)
    && count == |Observed(c, service, rounds)|
    && (forall k: nat, id: string :: k < rounds && id in OwnedAt(c, service, k) ==>
          exists m :: k < m < rounds && id !in ListedAt(c, service, m))
  }

  ghost predicate AllPass(c: Context, service: Service, n: nat) {
    forall k: nat :: k < n ==> c.Passes(service(k))
  }

  /** What each way to end means. */
  ghost predicate Reported(c: Context, service: Service, accepts: Request -> bool, pollAttempts: nat,
                           r: Outcome, requests: seq<Request>, rounds: nat) {
    && 1 <= rounds <= pollAttempts + 1
    && SafeRequests(c, service, requests, rounds)
    && match r
       case Cleaned(count) => AllPass(c, service, rounds) && FullyCleaned(c, service, requests, rounds, count)
       case TimedOut(remaining) =>
         && AllPass(c, service, rounds) && AllRequested(c, service, requests, rounds)
         && rounds == pollAttempts + 1 && remaining == Remaining(c, service, rounds)
         && (remaining != {} || pollAttempts == 0)
       case ListingError => !c.Passes(service(rounds - 1))
       case DeleteError => LastRefused(accepts, requests)
       case MetadataError => false
  }

  /** `cleanup_topics`, with the checks and loops of one listing in `Round`. */
  method CleanupLoop(c: Context, service: Service, accepts: Request -> bool, pollAttempts: nat)
    returns (r: Outcome, requests: seq<Request>, rounds: nat)
    ensures Reported(c, service, accepts, pollAttempts, r, requests, rounds)
  {
    var remaining: set<string>, observed: set<string>, requested: set<string> := {}, {}, {};
    var failure: Option<Outcome>;
    requests, rounds := [], 1;
    NothingYet(c, service);
    failure, remaining, observed, requested, requests :=
      Round(c, service, accepts, 0, remaining, observed, requested, requests);
    if failure.Some? {
      ReportFailure(c, service, accepts, pollAttempts, failure.value, requests, 0);
      return failure.value, requests, rounds;
    }
    for attempt := 0 to pollAttempts
      invariant rounds == attempt + 1
      invariant Running(c, service, rounds, remaining, observed, requested, requests)
      invariant attempt > 0 ==> remaining != {}
    {
      failure, remaining, observed, requested, requests :=
        Round(c, service, accepts, rounds, remaining, observed, requested, requests);
      rounds := rounds + 1;
      if failure.Some? {
        ReportFailure(c, service, accepts, pollAttempts, failure.value, requests, rounds - 1);
        return failure.value, requests, rounds;
      }
      if remaining == {} {
        ReportCleaned(c, service, accepts, pollAttempts, observed, requested, requests, rounds);
        return Cleaned(|observed|), requests, rounds;
      }
    }
    ReportTimeout(c, service, accepts, pollAttempts, remaining, observed, requested, requests);
    r := TimedOut(remaining);
  }

  ghost predicate Running(c: Context, service: Service, n: nat, remaining: set<string>, observed: set<string>,
                          requested: set<string>, requests: seq<Request>) {
    Tracked(c, service, n, remaining, observed, requested, requests) && AllPass(c, service, n)
  }

  ghost predicate RoundFails(c: Context, service: Service, accepts: Request -> bool, n: nat, failure: Outcome,
                             requests: seq<Request>) {
    && SafeRequests(c, service, requests, n + 1)
    && (if failure == ListingError then !c.Passes(service(n))
        else failure == DeleteError && LastRefused(accepts, requests))
  }

  lemma ReportFailure(c: Context, service: Service, accepts: Request -> bool, pollAttempts: nat, failure: Outcome,
                      requests: seq<Request>, n: nat)
    requires RoundFails(c, service, accepts, n, failure, requests) && n <= pollAttempts
    ensures Reported(c, service, accepts, pollAttempts, failure, requests, n + 1)
  {}

  lemma ReportCleaned(c: Context, service: Service, accepts: Request -> bool, pollAttempts: nat, observed: set<string>,
                      requested: set<string>, requests: seq<Request>, rounds: nat)
    requires Running(c, service, rounds, {}, observed, requested, requests) && 2 <= rounds <= pollAttempts + 1
    ensures Reported(c, service, accepts, pollAttempts, Cleaned(|observed|), requests, rounds)
  {
    AbsenceConfirmed(c, service, rounds);
  }

  lemma ReportTimeout(c: Context, service: Service, accepts: Request -> bool, pollAttempts: nat, remaining: set<string>,
                      observed: set<string>, requested: set<string>, requests: seq<Request>)
    requires Running(c, service, pollAttempts + 1, remaining, observed, requested, requests)
    requires remaining != {} || pollAttempts == 0
    ensures Reported(c, service, accepts, pollAttempts, TimedOut(remaining), requests, pollAttempts + 1)
  {}

  lemma NothingYet(c: Context, service: Service)
    ensures Running(c, service, 0, {}, {}, {}, [])
  {}

  lemma AbsenceConfirmed(c: Context, service: Service, n: nat)
    requires n > 0 && Remaining(c, service, n) == {}
    ensures OwnedAt(c, service, n - 1) == {}
    ensures forall k: nat, id: string :: k < n && id in OwnedAt(c, service, k) ==>
              exists m :: k < m < n && id !in ListedAt(c, service, m)
  {
    forall k: nat, id: string | k < n && id in OwnedAt(c, service, k)
      ensures exists m :: k < m < n && id !in ListedAt(c, service, m)
    {
      RemainingMeans(c, service, n, k, id);
    }
    assert forall id :: id in OwnedAt(c, service, n - 1) ==> id in Remaining(c, service, n);
  }

  /** Every request of a run goes to a topic that may be deleted. */
  ghost predicate OnlyOurs(rules: Rules, config: CleanupConfig, scopes: seq<Scope>, service: Service,
                           requests: seq<Request>) {
    forall j :: 0 <= j < |requests| ==>
      && service(requests[j].round).Topics?
      && DeploymentIdentity(config.scope).Ok?
      && exists i :: 0 <= i < |service(requests[j].round).topics|
           && service(requests[j].round).topics[i].id == requests[j].id
           && MayDelete(rules, config, DeploymentIdentity(config.scope).value, scopes,
                          service(requests[j].round).topics[i])
  }

  lemma SafeMeansOurs(rules: Rules, config: CleanupConfig, registry: Option<Document>, service: Service,
                      requests: seq<Request>, rounds: nat)
    requires ContextOf(rules, config, registry).Some?
    requires SafeRequests(ContextOf(rules, config, registry).value, service, requests, rounds)
    ensures OnlyOurs(rules, config, LoadScopes(config, registry).value, service, requests)
  {
    var c := ContextOf(rules, config, registry).value;
    var identity := DeploymentIdentity(config.scope).value;
    var scopes := LoadScopes(config, registry).value;
    forall j | 0 <= j < |requests|
      ensures exists i :: 0 <= i < |service(requests[j].round).topics|
                && service(requests[j].round).topics[i].id == requests[j].id
                && MayDelete(rules, config, identity, scopes, service(requests[j].round).topics[i])
    {
      var topics := service(requests[j].round).topics;
      IdsAreTopics(c, topics, true);
      var i :| 0 <= i < |topics| && topics[i].id == requests[j].id && c.verdict(topics[i]) == Owned(true);
      OwnedMayBeDeleted(rules, config, identity, scopes, topics[i]);
    }
  }

  /** Seen in listing `k`, requested unless on its way, absent from a later listing. */
  ghost predicate IsGone(c: Context, service: Service, requests: seq<Request>, rounds: nat, k: nat, topic: Topic) {
    && (topic.state == Text("DELETING") || RequestedBy(requests, topic.id, k))
    && exists m :: k < m < rounds && topic.id !in ListedAt(c, service, m)
  }

  lemma OwnedIsGone(c: Context, service: Service, requests: seq<Request>, rounds: nat, count: nat, k: nat, i: nat)
    requires FullyCleaned(c, service, requests, rounds, count)
    requires k < rounds && service(k).Topics? && i < |service(k).topics|
    requires c.verdict(service(k).topics[i]) == Owned(service(k).topics[i].state != Text("DELETING"))
    ensures IsGone(c, service, requests, rounds, k, service(k).topics[i])
  {
    var topic := service(k).topics[i];
    assert topic.id in OwnedAt(c, service, k);
    IdsAreTopics(c, service(k).topics, true);
    if topic.state != Text("DELETING") {
      assert topic.id in RequestedAt(c, service, k);
    }
  }

  /** Every topic this deployment made, of any listing of the run. */
  ghost predicate AllOursGone(rules: Rules, config: CleanupConfig, registry: Option<Document>, service: Service,
                              requests: seq<Request>, rounds: nat)
    requires ContextOf(rules, config, registry).Some?
  {
    forall k: nat, i: nat :: k < rounds && service(k).Topics? && i < |service(k).topics|
      && Ours(rules, config, DeploymentIdentity(config.scope).value, LoadScopes(config, registry).value,
              service(k).topics[i])
      ==> IsGone(ContextOf(rules, config, registry).value, service, requests, rounds, k, service(k).topics[i])
  }

  lemma CleanedMeansGone(rules: Rules, config: CleanupConfig, registry: Option<Document>, service: Service,
                         requests: seq<Request>, rounds: nat, count: nat)
    requires ContextOf(rules, config, registry).Some?
    requires FullyCleaned(ContextOf(rules, config, registry).value, service, requests, rounds, count)
    ensures AllOursGone(rules, config, registry, service, requests, rounds)
  {
    var c := ContextOf(rules, config, registry).value;
    var identity, scopes := DeploymentIdentity(config.scope).value, LoadScopes(config, registry).value;
    forall k: nat, i: nat | k < rounds && service(k).Topics? && i < |service(k).topics|
        && Ours(rules, config, identity, scopes, service(k).topics[i])
      ensures IsGone(c, service, requests, rounds, k, service(k).topics[i])
    {
      VerdictExactly(rules, config, identity, scopes, service(k).topics[i]);
      OwnedIsGone(c, service, requests, rounds, count, k, i);
    }
  }

  /** `cleanup_topics` from the destroy's configuration and the registry. */
  method CleanupTopics(rules: Rules, config: CleanupConfig, registry: Option<Document>, service: Service,
                       accepts: Request -> bool, pollAttempts: nat)
    returns (r: Outcome, requests: seq<Request>, rounds: nat)
    ensures ContextOf(rules, config, registry).None? ==> r == MetadataError && requests == [] && rounds == 0
    ensures ContextOf(rules, config, registry).Some? ==>
              && Reported(ContextOf(rules, config, registry).value, service, accepts, pollAttempts, r, requests, rounds)
              && OnlyOurs(rules, config, LoadScopes(config, registry).value, service, requests)
              && (r.Cleaned? ==> AllOursGone(rules, config, registry, service, requests, rounds))
  {
    var context := LoadCleanupMetadata(rules, config, registry);
    if context.None? {
      return MetadataError, [], 0;
    }
    r, requests, rounds := CleanupLoop(context.value, service, accepts, pollAttempts);
    SafeMeansOurs(rules, config, registry, service, requests, rounds);
    if r.Cleaned? {
      CleanedMeansGone(rules, config, registry, service, requests, rounds, r.count);
    }
  }

  /** End to end: when the destroy reports success, a legacy topic of any name the deployment ever had,
      seen in any listing of the run, was absent from a later one, and its deletion had been requested
      unless it was already under way. */
  lemma PastTopicIsGone(rules: Rules, updates: seq<Update>, config: CleanupConfig, identity: Identity, service: Service,
                        requests: seq<Request>, rounds: nat, count: nat, k: nat, i: nat, s: Scope, user: string)
    requires Printable(identity) && OneDeployment(updates, config.deploymentId, identity)
      && OwnScope(config.scope, identity)
    requires ContextOf(rules, config, RegistryAfter(updates)).Some?
    requires FullyCleaned(ContextOf(rules, config, RegistryAfter(updates)).value, service, requests, rounds, count)
    requires k < rounds && service(k).Topics? && i < |service(k).topics|
    requires EverCurrent(updates, s) && LegacyTopic(rules, config, service(k).topics[i], s, user)
    ensures IsGone(ContextOf(rules, config, RegistryAfter(updates)).value, service, requests, rounds, k,
                   service(k).topics[i])
  {
    var c := ContextOf(rules, config, RegistryAfter(updates)).value;
    OwnScopeIsRead(config.scope, identity);
    PastTopicIsFound(rules, updates, config, identity, service(k).topics[i], s, user);
    OwnedIsGone(c, service, requests, rounds, count, k, i);
  }

  /** The same for a topic with this deployment's tag, with any registry that can be loaded, or none. */
  lemma TaggedTopicIsGone(rules: Rules, config: CleanupConfig, registry: Option<Document>, service: Service,
                          requests: seq<Request>, rounds: nat, count: nat, k: nat, i: nat, s: Scope, user: string)
    requires ContextOf(rules, config, registry).Some?
    requires FullyCleaned(ContextOf(rules, config, registry).value, service, requests, rounds, count)
    requires k < rounds && service(k).Topics? && i < |service(k).topics|
    requires DeploymentIdentity(config.scope).Ok?
    requires TaggedTopic(rules, config, DeploymentIdentity(config.scope).value, service(k).topics[i], s, user)
    ensures IsGone(ContextOf(rules, config, registry).value, service, requests, rounds, k, service(k).topics[i])
  {
    TaggedTopicIsOwned(rules, config, DeploymentIdentity(config.scope).value, LoadScopes(config, registry).value,
                       service(k).topics[i], s, user);
    OwnedIsGone(ContextOf(rules, config, registry).value, service, requests, rounds, count, k, i);
  }
}
