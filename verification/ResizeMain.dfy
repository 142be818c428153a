/** The main script of bin/resize.py for clusters made of an instance pool: which mode may replay, finalize,
    remove and grow, and in what order. One call of `Resize` is one process; it holds the cluster's lock, so
    processes follow one another (module DestroyLock). */
module ResizeMain {
  import opened Wrappers
  import opened NodeDns
  import opened PoolWorld
  import opened PoolProgress
  import opened RemovalJournal
  import opened RemovalFinalization

  datatype Mode =
    | Add | Remove | RemoveUnreachable
    | List | Reconfigure | CleanupComputeCluster | PrepareLocalBlockVolume

  /** Failed: a non-zero exit, an exception or a crash. */
  datatype Exit = Completed | Failed

  predicate Removes(mode: Mode) {
    mode in {Remove, RemoveUnreachable}
  }

  datatype Node = Node(name: string, ip: nat)

  /** The caller has named every node whose removal is pending, or is about to destroy the cluster. */
  predicate MayResume(mode: Mode, requested: set<string>, journal: seq<Record>) {
    || mode == CleanupComputeCluster
    || (Removes(mode) && forall r :: r in journal ==> r.instanceName in requested)
  }

  /** `process_pending_local_block_volume_deletions_for_operation` */
  method ProcessPending(site: Site, mode: Mode, requested: set<string>) returns (reply: Reply<seq<Record>>)
    requires site.Valid()
    modifies site
    ensures site.Valid() && Kept(old(site.world), site.world) && SameFiles(old(site.world), site.world)
    ensures reply.Answer? ==> reply.value == site.world.journal && AllOver(site.world, site.world.journal)
    ensures !MayResume(mode, requested, old(site.world).journal) ==>
      site.world.detachRequests == old(site.world).detachRequests
    ensures AllOver(old(site.world), old(site.world).journal) ==> NoRequest(old(site.world), site.world)
    ensures RemovedOnly(old(site.world), site.world, Instances(old(site.world).journal))
    // An authorised replay does not stop because a node is still in the pool.
    ensures site.mishaps >= old(site.mishaps)
    ensures !reply.Answer? ==>
      || site.mishaps > old(site.mishaps)
      || site.Obstacle(old(site.world), site.world, old(site.world).journal,
                       MayResume(mode, requested, old(site.world).journal))
  {
    var loaded := site.Load();
    if !loaded.Answer? {
      return Stopped;
    }
    var names := set r | r in loaded.value :: r.instanceName;
    var resume := mode == CleanupComputeCluster || (Removes(mode) && names <= requested);
    reply := site.RetryPending(resume);
  }

  /** `get_instances`: the members with their names and addresses; one that does not answer is left out. */
  method ListNodes(site: Site) returns (reply: Reply<map<Id, Node>>)
    requires site.Valid()
    modifies site
    ensures site.Valid() && Drift(old(site.world), site.world) && !reply.NotFound?
    ensures reply.Answer? ==> reply.value.Keys <= site.world.members && Truthful(site.world, reply.value)
    ensures site.mishaps >= old(site.mishaps)
    ensures site.mishaps == old(site.mishaps) ==> reply.Answer? && reply.value.Keys == site.world.members
  {
    var listed := site.ListMembers();
    if !listed.Answer? {
      if listed.NotFound? {
        site.GiveUp();
      }
      return Stopped;
    }
    site.Sound();
    var silent: set<Id> := *;
    if silent * listed.value != {} {
      site.GiveUp();
    } else {
      assert forall i :: i in listed.value ==> i in silent ==> i in silent * listed.value;
      assert listed.value - silent == listed.value;
    }
    reply := Answer(map i | i in listed.value - silent ::
      Node(site.world.instances[i].name, site.world.instances[i].ip));
  }

  ghost predicate Truthful(w: World, nodes: map<Id, Node>) {
    forall i :: i in nodes ==> i in w.instances && nodes[i] == Node(w.instances[i].name, w.instances[i].ip)
  }

  function NamesOf(nodes: map<Id, Node>): set<string> {
    set i | i in nodes :: nodes[i].name
  }

  function IpsOf(nodes: map<Id, Node>): set<nat> {
    set i | i in nodes :: nodes[i].ip
  }

  /** `get_active_instance_identities`. The pool has at most the expected size, so a list of that length
      leaves nobody out. */
  method ActiveIdentities(site: Site, expected: int) returns (reply: Reply<Identities>)
    requires site.Valid() && !site.world.scaling && site.world.size <= expected
    modifies site
    ensures site.Valid() && Drift(old(site.world), site.world) && !reply.NotFound?
    ensures reply.Answer? ==>
      && |site.world.members| == expected && Distinguished(site.world)
      && Identified(site.world, reply.value) && OnlyMembers(site.world, reply.value)
    ensures site.mishaps >= old(site.mishaps)
    ensures reply.Stopped? ==>
      site.mishaps > old(site.mishaps) || |site.world.members| != expected || !Distinguished(site.world)
  {
    var nodes := ListNodes(site);
    if !nodes.Answer? {
      return Stopped;
    }
    var names, ips := NamesOf(nodes.value), IpsOf(nodes.value);
    if |nodes.value| != expected || |names| != expected || |ips| != expected {
      if nodes.value.Keys == site.world.members && Distinguished(site.world) {
        CountedAll(site.world, nodes.value);
      }
      return Stopped;
    }
    site.Sound();
    NobodyLeftOut(nodes.value.Keys, site.world.members);
    IdentitiesOf(site.world, nodes.value);
    reply := Answer(Identities(names, ips));
  }

  /** No two members share a name or an address. */
  ghost predicate Distinguished(w: World) {
    forall i, j :: i in w.members && j in w.members && i != j ==>
      i in w.instances && j in w.instances
      && w.instances[i].name != w.instances[j].name && w.instances[i].ip != w.instances[j].ip
  }

  lemma NobodyLeftOut(some: set<Id>, all: set<Id>)
    requires some <= all && |all| <= |some|
    ensures some == all
  {
    assert all == some + (all - some);
    assert |all| == |some| + |all - some|;
  }

  lemma {:induction false} ImageIsSmaller<T>(keys: set<Id>, f: Id -> T)
    ensures |set i | i in keys :: f(i)| <= |keys|
    decreases |keys|
  {
    if keys != {} {
      var k :| k in keys;
      ImageIsSmaller(keys - {k}, f);
      assert (set i | i in keys :: f(i)) == (set i | i in keys - {k} :: f(i)) + {f(k)};
    }
  }

  /** As many values as keys: no value is shared. */
  lemma OneToOne<T>(keys: set<Id>, f: Id -> T, i: Id, j: Id)
    requires |set k | k in keys :: f(k)| == |keys| && i in keys && j in keys && i != j
    ensures f(i) != f(j)
  {
    if f(i) == f(j) {
      assert (set k | k in keys :: f(k)) == (set k | k in keys - {i} :: f(k)) by {
        assert j in keys - {i};
      }
      ImageIsSmaller(keys - {i}, f);
    }
  }

  lemma AllDifferent(nodes: map<Id, Node>)
    requires |NamesOf(nodes)| == |IpsOf(nodes)| == |nodes|
    ensures forall i, j :: i in nodes && j in nodes && i != j ==>
      nodes[i].name != nodes[j].name && nodes[i].ip != nodes[j].ip
  {
    var name := i => if i in nodes then nodes[i].name else "";
    var ip := i => if i in nodes then nodes[i].ip else 0;
    assert NamesOf(nodes) == set k | k in nodes.Keys :: name(k);
    assert IpsOf(nodes) == set k | k in nodes.Keys :: ip(k);
    assert |nodes.Keys| == |nodes|;
    forall i, j | i in nodes && j in nodes && i != j
      ensures nodes[i].name != nodes[j].name && nodes[i].ip != nodes[j].ip
    {
      OneToOne(nodes.Keys, name, i, j);
      OneToOne(nodes.Keys, ip, i, j);
    }
  }

  lemma {:induction false} OneEach<T>(keys: set<Id>, f: Id -> T)
    requires forall i, j :: i in keys && j in keys && i != j ==> f(i) != f(j)
    ensures |set i | i in keys :: f(i)| == |keys|
    decreases |keys|
  {
    if keys != {} {
      var k :| k in keys;
      OneEach(keys - {k}, f);
      assert (set i | i in keys :: f(i)) == (set i | i in keys - {k} :: f(i)) + {f(k)};
    }
  }

  lemma IdentitiesOf(w: World, nodes: map<Id, Node>)
    requires nodes.Keys == w.members && Truthful(w, nodes)
    requires |NamesOf(nodes)| == |IpsOf(nodes)| == |nodes|
    ensures Distinguished(w)
    ensures var active := Identities(NamesOf(nodes), IpsOf(nodes)); Identified(w, active) && OnlyMembers(w, active)
  {
    AllDifferent(nodes);
    forall n | n in NamesOf(nodes)
      ensures MemberNamed(w, n)
    {
      var i :| i in nodes && nodes[i].name == n;
      assert w.instances[i].name == n;
    }
    forall a | a in IpsOf(nodes)
      ensures MemberAt(w, a)
    {
      var i :| i in nodes && nodes[i].ip == a;
      assert w.instances[i].ip == a;
    }
  }

  lemma CountedAll(w: World, nodes: map<Id, Node>)
    requires nodes.Keys == w.members && Truthful(w, nodes) && Distinguished(w)
    ensures |NamesOf(nodes)| == |IpsOf(nodes)| == |nodes| == |w.members|
  {
    AllCounted(nodes);
    assert |nodes.Keys| == |nodes|;
  }

  /** Without shared names and addresses there are as many of them as nodes. */
  lemma AllCounted(nodes: map<Id, Node>)
    requires forall i, j :: i in nodes && j in nodes && i != j ==>
      nodes[i].name != nodes[j].name && nodes[i].ip != nodes[j].ip
    ensures |NamesOf(nodes)| == |IpsOf(nodes)| == |nodes|
  {
    var name := i => if i in nodes then nodes[i].name else "";
    var ip := i => if i in nodes then nodes[i].ip else 0;
    assert NamesOf(nodes) == set k | k in nodes.Keys :: name(k);
    assert IpsOf(nodes) == set k | k in nodes.Keys :: ip(k);
    OneEach(nodes.Keys, name);
    OneEach(nodes.Keys, ip);
    assert |nodes.Keys| == |nodes|;
  }

  ghost predicate Identified(w: World, active: Identities) {
    forall i :: i in w.members ==>
      i in w.instances && w.instances[i].name in active.names && w.instances[i].ip in active.ips
  }

  ghost predicate MemberNamed(w: World, name: string) {
    exists i :: i in w.members && i in w.instances && w.instances[i].name == name
  }

  ghost predicate MemberAt(w: World, ip: nat) {
    exists i :: i in w.members && i in w.instances && w.instances[i].ip == ip
  }

  /** The identities are of nodes in the pool. */
  ghost predicate OnlyMembers(w: World, active: Identities) {
    (forall n :: n in active.names ==> MemberNamed(w, n)) && (forall a :: a in active.ips ==> MemberAt(w, a))
  }

  /** Of the nodes that were in the pool when their identities were read, none loses this name, unless it or a
      removed node is called what the other's Slurm name is. */
  ghost predicate SparesMembers(setup: Setup, seen: World, ready: seq<Record>, d: string)
    requires GoodSetup(setup)
  {
    && NameOf(setup.naming, ready, d)
    && (forall r :: r in ready ==> setup.naming.Domains(r.instanceName, r.ip).Ok?)
    && (setup.naming.Valid() ==> forall i :: i in seen.members ==> SparesMember(setup, seen, ready, d, i))
  }

  ghost predicate SparesMember(setup: Setup, seen: World, ready: seq<Record>, d: string, i: Id)
    requires setup.naming.Valid() && forall r :: r in ready ==> setup.naming.Domains(r.instanceName, r.ip).Ok?
  {
    i in seen.instances &&
    var node := seen.instances[i];
    setup.naming.Domains(node.name, node.ip).Ok? && d in setup.naming.Domains(node.name, node.ip).value ==>
      exists r :: r in ready && CalledLikeSlurmName(setup.naming, r, node.name, node.ip)
  }

  lemma DeletedNameSpares(setup: Setup, seen: World, ready: seq<Record>, active: Identities, d: string)
    requires GoodSetup(setup) && Identified(seen, active)
    requires NameOf(setup.naming, ready, d) && AllUnused(setup.naming, ready, active)
    ensures SparesMembers(setup, seen, ready, d)
  {
    if setup.naming.Valid() {
      forall i | i in seen.members
        ensures SparesMember(setup, seen, ready, d, i)
      {
        var node := seen.instances[i];
        if setup.naming.Domains(node.name, node.ip).Ok? {
          FinalizationSparesLiveNodes(setup.naming, ready, active, node.name, node.ip);
        }
      }
    }
  }

  lemma NoneTooLarge(setup: Setup, w: World)
    requires Inv(setup, w) && AllOver(w, w.journal)
    ensures forall r :: r in w.journal ==> w.size < r.sizeBefore
  {}

  /** The identities are needed only where names will be deleted. */
  method IdentitiesIfNeeded(site: Site, size: int) returns (reply: Reply<Option<Identities>>)
    requires site.Valid() && !site.world.scaling && site.world.size <= size
    modifies site
    ensures site.Valid() && Drift(old(site.world), site.world) && !reply.NotFound?
    ensures reply.Answer? ==> reply.value.Some? == site.setup.dnsEntries
    ensures reply.Answer? && reply.value.Some? ==>
      Identified(site.world, reply.value.value) && OnlyMembers(site.world, reply.value.value)
    ensures site.mishaps >= old(site.mishaps)
    ensures reply.Stopped? ==>
      site.mishaps > old(site.mishaps) || |site.world.members| != size || !Distinguished(site.world)
  {
    if !site.setup.dnsEntries {
      return Answer(None);
    }
    var running := site.WaitForRunning(Some(size));
    if !running.Answer? {
      return Stopped;
    }
    var identities := ActiveIdentities(site, size);
    reply := if identities.Answer? then Answer(Some(identities.value)) else Stopped;
  }

  /** A node of the pool has the name or the address of a removed one. */
  ghost predicate SharedWith(w: World, ready: seq<Record>) {
    exists r :: r in ready && (MemberNamed(w, r.instanceName) || MemberAt(w, r.ip))
  }

  /** What may keep replayed removals from being finalized although nothing failed. */
  ghost predicate NotFinalizable(setup: Setup, seen: World, ready: seq<Record>, size: int, outcome: Outcome)
    requires GoodSetup(setup)
  {
    match outcome
    case Finalized(_) => false
    case Interrupted => |seen.members| != size || !Distinguished(seen)
    case Refused(why) =>
      || (why == NotDecremented && exists r :: r in ready && size >= r.sizeBefore)
      || (setup.dnsEntries && (why == NoZone || (why == InUse && SharedWith(seen, ready))))
      || (why == BadNames && exists r :: r in ready && setup.naming.Domains(r.instanceName, r.ip).Err?)
  }

  lemma RefusedForAReason(setup: Setup, seen: World, journal: seq<Record>, ready: seq<Record>, size: int,
                          active: Option<Identities>, why: Refusal)
    requires GoodSetup(setup) && ready == journal && Loadable(journal)
    requires ready != [] && forall r :: r in journal ==> OwnRecord(setup, r)
    requires active.Some? == setup.dnsEntries && (active.Some? ==> OnlyMembers(seen, active.value))
    requires || Refuses(setup, journal, ready, Some(size), Some(setup.pool), why)
             || (setup.dnsEntries && RefusesNames(setup.naming, ready, active, why))
    ensures NotFinalizable(setup, seen, ready, size, Refused(why))
  {
    assert ValidRecord(ready[0]) && ready[0] in journal;
    assert forall r :: r in ready ==> ValidRecord(r);
  }

  /** Waiting for the pool to be running, the identities of its nodes, and the finalization of every pending
      removal. `seen` is the world the identities were read in. */
  method FinalizeReplayed(site: Site, ready: seq<Record>, size: int) returns (outcome: Outcome, ghost seen: World)
    requires site.Valid() && ready != [] && ready == site.world.journal && AllOver(site.world, ready)
    requires site.world.size <= size
    modifies site
    ensures site.Valid() && Kept(old(site.world), site.world) && Kept(old(site.world), seen) && Kept(seen, site.world)
    ensures site.world.detachRequests == old(site.world).detachRequests && site.world.removed == old(site.world).removed
    ensures site.world.journal in {old(site.world).journal, []}
    ensures old(site.world).size == size ==> outcome != Refused(NotDecremented)
    ensures site.mishaps >= old(site.mishaps)
    ensures !outcome.Finalized? ==>
      site.mishaps > old(site.mishaps) || NotFinalizable(site.setup, seen, ready, size, outcome)
    ensures outcome.Finalized? ==> site.world.journal == [] && (site.setup.autoscaling ==> Counted(site.world, size))
    ensures outcome.Finalized? && site.setup.dnsEntries ==>
      forall r :: r in ready ==> DnsSettled(site.setup, site.world, r)
    ensures forall d :: d in old(site.world).dns && d !in site.world.dns ==> SparesMembers(site.setup, seen, ready, d)
  {
    outcome, seen := Interrupted, site.world;
    site.Sound();
    NoneTooLarge(site.setup, site.world);
    WithoutAll(ready, Volumes(ready));
    site.SteadyWhilePending();
    var active := IdentitiesIfNeeded(site, size);
    seen := site.world;
    if !active.Answer? {
      return;
    }
    site.Sound();
    outcome := Finalize(site, ready, Some(size), Some(site.setup.pool), active.value);
    if outcome.Refused? {
      RefusedForAReason(site.setup, seen, ready, ready, size, active.value, outcome.why);
    }
    forall d | d in old(site.world).dns && d !in site.world.dns
      ensures SparesMembers(site.setup, seen, ready, d)
    {
      DeletedNameSpares(site.setup, seen, ready, active.value.value, d);
    }
  }

  // ---- removing the nodes asked for ----------------------------------------------------------------

  /** The nodes listed before the first removal; all of them were in the pool. */
  ghost predicate Listed(w: World, nodes: map<Id, Node>) {
    forall i :: i in nodes ==> i in w.members || i in w.removed
  }

  predicate Named(setup: Setup, w: World, name: string, i: Id) {
    i in w.instances && w.instances[i].name == name && w.instances[i].cluster == setup.cluster
    && w.instances[i].state != Terminated
  }

  function AllNamed(setup: Setup, w: World, name: string): (found: set<Id>)
    ensures forall i :: i in found <==> Named(setup, w, name, i)
  {
    set i | i in w.instances && Named(setup, w, name, i)
  }

  /** `find_cluster_instance_by_name`: two active instances of that name are an error. */
  method FindByName(site: Site, name: string) returns (reply: Reply<Id>)
    requires site.Valid()
    modifies site
    ensures site.Valid() && Kept(old(site.world), site.world) && SameFiles(old(site.world), site.world)
    ensures NoRequest(old(site.world), site.world)
    ensures reply.Answer? ==>
      reply.value in site.world.vetted && AllNamed(site.setup, site.world, name) == {reply.value}
    ensures reply.NotFound? ==> AllNamed(site.setup, site.world, name) == {}
  {
    site.Elapse();
    var failed := site.Fails();
    if failed {
      return Stopped;
    }
    var found := AllNamed(site.setup, site.world, name);
    if found == {} {
      return NotFound;
    }
    var i :| i in found;
    if found != {i} {
      return Stopped;
    }
    site.VetNode(i);
    assert AllNamed(site.setup, site.world, name) == found;
    reply := Answer(i);
  }

  ghost predicate Gone(w: World, i: Id) {
    InstanceOver(w, i) && i !in w.members
  }

  /** Records written since are for listed nodes, with the address they were listed with. */
  ghost predicate RecordsOf(a: World, b: World, nodes: map<Id, Node>) {
    a.journal <= b.journal
    && forall r :: r in b.journal ==> r in a.journal || (r.instance in nodes && r.ip == nodes[r.instance].ip)
  }

  /** Only an instance of that name, when it was looked up, was asked to go. */
  ghost predicate OnlyNamed(setup: Setup, a: World, seen: World, b: World, name: string) {
    && Kept(a, seen) && Kept(seen, b)
    && forall i :: i in b.removed && i !in a.removed ==> Named(setup, seen, name, i)
  }

  /** How the removal of one name ended. Missing: no such instance. Vanished: some call on the way answered 404
      and the script went on to the next name. Removed: `called` is the name it is cleaned up under; a recorded
      node's DNS names wait for the finalization. */
  datatype Fate = Missing | Vanished(node: Id) | Removed(node: Id, called: string, recorded: bool)

  /** A member of that name which nobody has renamed. */
  ghost predicate StillThere(setup: Setup, w: World, name: string, i: Id) {
    && i in w.members && i in w.instances && i !in w.relabelled
    && w.instances[i].name == name && w.instances[i].cluster == setup.cluster
  }

  /** No node of that name is left in the pool, except one that answered 404. */
  ghost predicate NobodyLeft(setup: Setup, w: World, name: string, fate: Fate) {
    forall i :: StillThere(setup, w, name, i) ==> fate == Vanished(i)
  }

  lemma NobodyComesBack(setup: Setup, a: World, b: World, name: string, fate: Fate)
    requires NobodyLeft(setup, a, name, fate) && Steady(a, b)
    ensures NobodyLeft(setup, b, name, fate)
  {
    forall i | StillThere(setup, b, name, i)
      ensures StillThere(setup, a, name, i)
    {}
  }

  lemma OnlyOneWasNamed(setup: Setup, seen: World, w: World, name: string, i: Id)
    requires Steady(seen, w) && PoolSound(w) && StillThere(setup, w, name, i)
    ensures i in AllNamed(setup, seen, name)
  {
    assert !InstanceOver(w, i);
  }

  ghost predicate RecordedAs(w: World, i: Id, called: string, ip: nat) {
    exists r :: r in w.journal && r.instance == i && r.instanceName == called && r.ip == ip
  }

  /** The host name is gone, and the Slurm name if the name was listed for this node alone. */
  ghost predicate NamesDropped(setup: Setup, w: World, nodes: map<Id, Node>, i: Id, called: string)
    requires GoodSetup(setup) && i in nodes
  {
    setup.dnsEntries ==>
      && setup.naming.HostDomain(called) !in w.dns
      && (NodesNamed(nodes, called) == {i} ==> BothNamesGone(setup.naming, w, called, nodes[i].ip))
  }

  /** What the loop leaves of a name it was given. */
  ghost predicate TakenDown(setup: Setup, w: World, nodes: map<Id, Node>, fate: Fate)
    requires GoodSetup(setup)
  {
    match fate
    case Missing => true
    case Vanished(_) => true
    case Removed(i, called, recorded) =>
      && i in nodes && Gone(w, i)
      && if recorded then RecordedAs(w, i, called, nodes[i].ip) else NamesDropped(setup, w, nodes, i, called)
  }

  lemma TakenDownStays(setup: Setup, a: World, b: World, nodes: map<Id, Node>, fate: Fate)
    requires GoodSetup(setup) && TakenDown(setup, a, nodes, fate)
    requires !a.scaling && Kept(a, b) && a.journal <= b.journal
    ensures TakenDown(setup, b, nodes, fate)
  {
    if fate.Removed? && fate.recorded {
      var r :| r in a.journal && r.instance == fate.node && r.instanceName == fate.called
        && r.ip == nodes[fate.node].ip;
      assert r in b.journal;
    }
  }

  /** One turn of the removal loop. `seen` is the world in which the name was looked up. */
  method RemoveVictim(site: Site, name: string, nodes: map<Id, Node>) returns (reply: Reply<Fate>, ghost seen: World)
    requires site.Valid() && !site.world.scaling && Listed(site.world, nodes)
    modifies site
    ensures site.Valid() && Kept(old(site.world), site.world) && Listed(site.world, nodes) && !reply.NotFound?
    ensures SameCounts(old(site.world), site.world)
    ensures RecordsOf(old(site.world), site.world, nodes)
    ensures OnlyNamed(site.setup, old(site.world), seen, site.world, name)
    ensures reply.Answer? ==> TakenDown(site.setup, site.world, nodes, reply.value)
    ensures reply.Answer? ==> NobodyLeft(site.setup, site.world, name, reply.value)
    ensures reply.Answer? && reply.value.Vanished? ==> Slipped(old(site.world), site.world, reply.value.node)
  {
    var found := FindByName(site, name);
    seen := site.world;
    if found.Stopped? {
      return Stopped, seen;
    } else if found.NotFound? {
      NamedIsAll(site, seen, name, Missing);
      return Answer(Missing), seen;
    }
    if found.value !in nodes {
      return Stopped, seen;
    }
    reply := RemoveListed(site, found.value, name, nodes);
    if reply.Answer? {
      NamedIsAll(site, seen, name, reply.value);
    }
  }

  /** The one instance of that name was dealt with, so no member of that name is left. */
  lemma NamedIsAll(site: Site, seen: World, name: string, fate: Fate)
    requires site.Valid() && Steady(seen, site.world)
    requires match fate
             case Missing => AllNamed(site.setup, seen, name) == {}
             case Vanished(i) => AllNamed(site.setup, seen, name) == {i}
             case Removed(i, _, _) => AllNamed(site.setup, seen, name) == {i} && Gone(site.world, i)
    ensures NobodyLeft(site.setup, site.world, name, fate)
  {
    site.Sound();
    forall i | StillThere(site.setup, site.world, name, i)
      ensures fate == Vanished(i)
    {
      OnlyOneWasNamed(site.setup, seen, site.world, name, i);
    }
  }

  /** The node and, when it needed no record, its names. */
  method RemoveListed(site: Site, i: Id, name: string, nodes: map<Id, Node>) returns (reply: Reply<Fate>)
    requires site.Valid() && !site.world.scaling && Listed(site.world, nodes) && i in nodes && i in site.world.vetted
    modifies site
    ensures site.Valid() && Kept(old(site.world), site.world) && Listed(site.world, nodes) && !reply.NotFound?
    ensures SameCounts(old(site.world), site.world)
    ensures RecordsOf(old(site.world), site.world, nodes) && RemovedOnly(old(site.world), site.world, {i})
    ensures reply.Answer? ==> TakenDown(site.setup, site.world, nodes, reply.value)
    ensures reply.Answer? ==> !reply.value.Missing? && reply.value.node == i
    ensures reply.Answer? && reply.value.Vanished? ==> Slipped(old(site.world), site.world, i)
  {
    var removed := site.RemoveMember(i, nodes[i].ip);
    if removed.Stopped? {
      return Stopped;
    } else if removed.NotFound? {
      return Answer(Vanished(i));
    }
    if removed.value.Some? {
      return Answer(Removed(i, removed.value.value.instanceName, true));
    }
    if site.setup.dnsEntries {
      var cleaned := DeleteVictimNames(site, name, nodes);
      if !cleaned.Answer? {
        return Stopped;
      }
    }
    reply := Answer(Removed(i, name, false));
  }

  function NodesNamed(nodes: map<Id, Node>, name: string): set<Id> {
    set i | i in nodes && nodes[i].name == name
  }

  /** The names of a node that needed no record: the host name, then the Slurm name of its address. */
  method DeleteVictimNames(site: Site, name: string, nodes: map<Id, Node>) returns (reply: Reply<()>)
    requires site.Valid()
    modifies site
    ensures site.Valid() && OnlyDns(old(site.world), site.world) && !reply.NotFound?
    ensures forall d :: d in old(site.world).dns && d !in site.world.dns ==>
      VictimName(site.setup.naming, name, nodes, d)
    ensures reply.Answer? ==> site.setup.naming.HostDomain(name) !in site.world.dns
    ensures reply.Answer? && NodesNamed(nodes, name) != {} ==>
      exists i :: i in NodesNamed(nodes, name) && BothNamesGone(site.setup.naming, site.world, name, nodes[i].ip)
  {
    var naming := site.setup.naming;
    var deleted := DeleteName(site, naming.HostDomain(name));
    if !deleted.Answer? {
      return Stopped;
    }
    var listed := NodesNamed(nodes, name);
    if listed == {} {
      return Answer(());
    }
    var i :| i in listed;
    var domains := naming.Domains(name, nodes[i].ip);
    if domains.Err? {
      return Stopped;
    }
    deleted := DeleteName(site, domains.value[1]);
    reply := if deleted.Answer? then Answer(()) else Stopped;
  }

  ghost predicate BothNamesGone(naming: Naming, w: World, name: string, ip: nat)
    requires naming.subnet.Some? ==> naming.subnet.value.prefix <= 32
  {
    naming.Domains(name, ip).Ok? && forall d :: d in naming.Domains(name, ip).value ==> d !in w.dns
  }

  ghost predicate VictimName(naming: Naming, name: string, nodes: map<Id, Node>, d: string)
    requires naming.subnet.Some? ==> naming.subnet.value.prefix <= 32
  {
    || d == naming.HostDomain(name)
    || exists i :: i in NodesNamed(nodes, name)
                   && naming.Domains(name, nodes[i].ip).Ok? && d in naming.Domains(name, nodes[i].ip).value
  }

  /** Every name dealt with: what was found is taken down, nobody of that name is left in the pool, and where a
      404 was taken for an answer the node had gone, left, or lost its volume. */
  ghost predicate AllTakenDown(setup: Setup, start: World, w: World, nodes: map<Id, Node>, names: seq<string>,
                               fates: seq<Fate>)
    requires GoodSetup(setup)
  {
    && |fates| == |names|
    && forall k :: 0 <= k < |names| ==> Handled(setup, start, w, nodes, names[k], fates[k])
  }

  ghost predicate Handled(setup: Setup, start: World, w: World, nodes: map<Id, Node>, name: string, fate: Fate)
    requires GoodSetup(setup)
  {
    && TakenDown(setup, w, nodes, fate) && NobodyLeft(setup, w, name, fate)
    && (fate.Vanished? ==> Slipped(start, w, fate.node))
  }

  lemma HandledStays(setup: Setup, start: World, a: World, b: World, nodes: map<Id, Node>, name: string, fate: Fate)
    requires GoodSetup(setup) && Handled(setup, start, a, nodes, name, fate)
    requires !a.scaling && Kept(a, b) && a.journal <= b.journal
    ensures Handled(setup, start, b, nodes, name, fate)
  {
    TakenDownStays(setup, a, b, nodes, fate);
    NobodyComesBack(setup, a, b, name, fate);
    if fate.Vanished? {
      SlippedLater(start, a, b, fate.node);
    }
  }

  lemma OneMoreHandled(setup: Setup, start: World, a: World, b: World, nodes: map<Id, Node>, names: seq<string>,
                       fates: seq<Fate>, fate: Fate)
    requires GoodSetup(setup) && |fates| < |names|
    requires AllTakenDown(setup, start, a, nodes, names[..|fates|], fates)
    requires Steady(start, a) && Kept(a, b) && !start.scaling && a.journal <= b.journal
    requires TakenDown(setup, b, nodes, fate) && NobodyLeft(setup, b, names[|fates|], fate)
    requires fate.Vanished? ==> Slipped(a, b, fate.node)
    ensures AllTakenDown(setup, start, b, nodes, names[..|fates| + 1], fates + [fate])
  {
    forall k | 0 <= k < |fates|
      ensures Handled(setup, start, b, nodes, names[k], fates[k])
    {
      assert names[..|fates|][k] == names[k];
      HandledStays(setup, start, a, b, nodes, names[k], fates[k]);
    }
    if fate.Vanished? {
      SlippedEarlier(start, a, b, fate.node);
    }
    assert Handled(setup, start, b, nodes, names[|fates|], fate);
  }

  method RemoveVictims(site: Site, names: seq<string>, nodes: map<Id, Node>) returns (reply: Reply<seq<Fate>>)
    requires site.Valid() && !site.world.scaling && Listed(site.world, nodes)
    modifies site
    ensures site.Valid() && Kept(old(site.world), site.world) && !reply.NotFound?
    ensures SameCounts(old(site.world), site.world)
    ensures RecordsOf(old(site.world), site.world, nodes)
    ensures reply.Answer? ==> AllTakenDown(site.setup, old(site.world), site.world, nodes, names, reply.value)
  {
    var fates: seq<Fate> := [];
    ghost var start := site.world;
    for k := 0 to |names|
      invariant site.Valid() && LoopStep(start, site.world, nodes)
      invariant |fates| == k && AllTakenDown(site.setup, start, site.world, nodes, names[..k], fates)
    {
      ghost var before := site.world;
      var fate, seen := RemoveVictim(site, names[k], nodes);
      LoopThen(start, before, site.world, nodes);
      if !fate.Answer? {
        return Stopped;
      }
      OneMoreHandled(site.setup, start, before, site.world, nodes, names, fates, fate.value);
      fates := fates + [fate.value];
    }
    assert names[..|names|] == names;
    reply := Answer(fates);
  }

  ghost predicate LoopStep(a: World, b: World, nodes: map<Id, Node>) {
    && !a.scaling && Kept(a, b) && SameCounts(a, b) && RecordsOf(a, b, nodes) && Listed(b, nodes)
  }

  lemma LoopThen(a: World, b: World, c: World, nodes: map<Id, Node>)
    requires LoopStep(a, b, nodes) && Kept(b, c) && SameCounts(b, c) && RecordsOf(b, c, nodes) && Listed(c, nodes)
    ensures LoopStep(a, c, nodes)
  {
    KeptThen(a, b, c);
  }

  /** After the loop: whatever was journaled is replayed, without resuming anybody, and finalized. */
  method SettleRemovals(site: Site) returns (done: bool)
    requires site.Valid() && !site.world.scaling
    modifies site
    ensures site.Valid() && Kept(old(site.world), site.world)
    ensures site.world.detachRequests == old(site.world).detachRequests
    ensures site.world.journal in {old(site.world).journal, []}
    ensures done ==> site.world.journal == []
    ensures done && site.setup.dnsEntries ==>
      forall r :: r in old(site.world).journal ==> DnsSettled(site.setup, site.world, r)
    ensures done && site.setup.autoscaling ==>
      exists n :: site.world.size <= n <= old(site.world).size && Counted(site.world, n)
  {
    var size := site.GetSummary();
    if !size.Answer? {
      return false;
    }
    var ready := site.RetryPending(false);
    if !ready.Answer? {
      return false;
    }
    if ready.value == [] {
      var updated := UpdateTerraform(site, size.value);
      assert updated.Answer? && site.setup.autoscaling ==> Counted(site.world, size.value);
      return updated.Answer?;
    }
    var outcome, seen := FinalizeReplayed(site, ready.value, size.value);
    assert outcome.Finalized? && site.setup.autoscaling ==> Counted(site.world, size.value);
    done := outcome.Finalized?;
  }

  // ---- what a completed removal leaves -------------------------------------------------------------

  /** Over, out of the pool, and without its DNS names. */
  ghost predicate CleanedUp(setup: Setup, w: World, nodes: map<Id, Node>, fate: Fate)
    requires GoodSetup(setup)
  {
    match fate
    case Missing => true
    case Vanished(_) => true
    case Removed(i, called, recorded) =>
      && i in nodes && Gone(w, i) && NamesDropped(setup, w, nodes, i, called)
      && (recorded && setup.dnsEntries ==> BothNamesGone(setup.naming, w, called, nodes[i].ip))
  }

  /** What a completed removal promises for one name. */
  ghost predicate RemovalCompleted(setup: Setup, w: World, nodes: map<Id, Node>, name: string, fate: Fate)
    requires GoodSetup(setup)
  {
    CleanedUp(setup, w, nodes, fate) && NobodyLeft(setup, w, name, fate)
  }

  lemma SettledIsCompleted(setup: Setup, start: World, a: World, b: World, nodes: map<Id, Node>, name: string,
                           fate: Fate)
    requires GoodSetup(setup) && Handled(setup, start, a, nodes, name, fate) && !a.scaling && Kept(a, b)
    requires setup.dnsEntries ==> forall r :: r in a.journal ==> DnsSettled(setup, b, r)
    ensures RemovalCompleted(setup, b, nodes, name, fate) && (fate.Vanished? ==> Slipped(start, b, fate.node))
  {
    SettledIsCleanedUp(setup, a, b, nodes, fate);
    NobodyComesBack(setup, a, b, name, fate);
    if fate.Vanished? {
      SlippedLater(start, a, b, fate.node);
    }
  }

  lemma SettledIsCleanedUp(setup: Setup, a: World, b: World, nodes: map<Id, Node>, fate: Fate)
    requires GoodSetup(setup) && TakenDown(setup, a, nodes, fate) && !a.scaling && Kept(a, b)
    requires setup.dnsEntries ==> forall r :: r in a.journal ==> DnsSettled(setup, b, r)
    ensures CleanedUp(setup, b, nodes, fate)
  {
    if fate.Removed? && fate.recorded {
      var r :| r in a.journal && r.instance == fate.node && r.instanceName == fate.called
        && r.ip == nodes[fate.node].ip;
      if setup.dnsEntries {
        assert DnsSettled(setup, b, r);
        var domains := setup.naming.Domains(r.instanceName, r.ip).value;
        assert domains[0] in domains;
      }
    }
  }

  /** Every explicit volume of every node that was ever asked to go is gone. */
  ghost predicate NoVolumeLeft(w: World) {
    forall i :: i in w.removed && w.removed[i].Explicit? ==> VolumeOver(w, w.removed[i].volume)
  }

  lemma NothingPendingNothingLeft(setup: Setup, w: World)
    requires Inv(setup, w) && w.journal == []
    ensures NoVolumeLeft(w)
  {}

  /** The removal part of the script; the pool is running and nothing is pending when it begins. */
  method RemoveNodes(site: Site, victims: seq<string>, nodes: map<Id, Node>)
    returns (done: bool, ghost fates: seq<Fate>)
    requires site.Valid() && !site.world.scaling && Listed(site.world, nodes)
    modifies site
    ensures site.Valid() && Kept(old(site.world), site.world)
    ensures done ==>
      && site.world.journal == [] && AllCompleted(site.setup, site.world, nodes, victims, fates)
      && OnlySlipped(old(site.world), site.world, fates)
  {
    done, fates := false, [];
    ghost var start := site.world;
    var removed := RemoveVictims(site, victims, nodes);
    if !removed.Answer? {
      return;
    }
    ghost var before := site.world;
    done := SettleRemovals(site);
    if done {
      fates := removed.value;
      forall k | 0 <= k < |fates|
        ensures RemovalCompleted(site.setup, site.world, nodes, victims[k], fates[k])
        ensures fates[k].Vanished? ==> Slipped(start, site.world, fates[k].node)
      {
        SettledIsCompleted(site.setup, start, before, site.world, nodes, victims[k], fates[k]);
      }
    }
  }

  ghost predicate AllCompleted(setup: Setup, w: World, nodes: map<Id, Node>, victims: seq<string>, fates: seq<Fate>)
    requires GoodSetup(setup)
  {
    && |fates| == |victims|
    && forall k :: 0 <= k < |victims| ==> RemovalCompleted(setup, w, nodes, victims[k], fates[k])
  }

  /** Where a 404 was taken for an answer, the node had gone, left the pool, or lost its volume. */
  ghost predicate OnlySlipped(start: World, w: World, fates: seq<Fate>) {
    forall k :: 0 <= k < |fates| && fates[k].Vanished? ==> Slipped(start, w, fates[k].node)
  }

  lemma SlippedBefore(a: World, b: World, w: World, fates: seq<Fate>)
    requires Steady(a, b) && OnlySlipped(b, w, fates)
    ensures OnlySlipped(a, w, fates)
  {
    forall k | 0 <= k < |fates| && fates[k].Vanished?
      ensures Slipped(a, w, fates[k].node)
    {
      SlippedEarlier(a, b, w, fates[k].node);
    }
  }

  // ---- growth --------------------------------------------------------------------------------------

  /** The script changed nothing but the size it asks for. */
  ghost predicate OnlySize(a: World, b: World) {
    && b.journal == a.journal && b.removed == a.removed && b.detachRequests == a.detachRequests
    && b.dns == a.dns && SameCounts(a, b)
  }

  /** `update_instance_pool_and_wait_for_state`: the size may be accepted although the call, or the process, ends
      before the pool is running again. */
  method AskForSize(site: Site, size: int) returns (reply: Reply<()>)
    requires site.Valid() && site.world.journal == []
    modifies site
    ensures site.Valid() && OnlySize(old(site.world), site.world) && !reply.NotFound?
    ensures reply.Answer? ==> !site.world.scaling
  {
    site.Elapse();
    var failed := site.Fails();
    if failed {
      return Stopped;
    }
    site.Do(RequestSize(size));
    failed := site.Fails();
    if failed {
      return Stopped;
    }
    reply := site.WaitForRunning(None);
  }

  /** `rollback_instance_pool_size`: its failure is only reported; a crash before it is one too. */
  method Rollback(site: Site, size: int)
    requires site.Valid() && site.world.journal == []
    modifies site
    ensures site.Valid() && OnlySize(old(site.world), site.world)
  {
    var crashed: bool := *;
    if !crashed {
      var asked := AskForSize(site, size);
    }
  }

  /** The size is asked for and reached; every node of the grown pool answers and `number` of them are new. */
  method Enlarge(site: Site, previous: set<Id>, size: int, number: int) returns (reply: Reply<map<Id, Node>>)
    requires site.Valid() && site.world.journal == []
    modifies site
    ensures site.Valid() && OnlySize(old(site.world), site.world) && !reply.NotFound?
    ensures reply.Answer? ==> Enlarged(site.world, previous, size, number, reply.value)
  {
    var asked := AskForSize(site, size);
    if !asked.Answer? {
      return Stopped;
    }
    var running := site.WaitForRunning(Some(size));
    if !running.Answer? {
      return Stopped;
    }
    site.Sound();
    reply := CountArrived(site, previous, size, number);
  }

  method CountArrived(site: Site, previous: set<Id>, size: int, number: int) returns (reply: Reply<map<Id, Node>>)
    requires site.Valid() && !site.world.scaling && site.world.size <= size
    modifies site
    ensures site.Valid() && Drift(old(site.world), site.world) && !reply.NotFound?
    ensures reply.Answer? ==> Enlarged(site.world, previous, size, number, reply.value)
  {
    var summary := site.GetSummary();
    if !summary.Answer? {
      return Stopped;
    }
    var nodes := ListNodes(site);
    if !nodes.Answer? || |nodes.value| != size {
      return Stopped;
    }
    var arrived := nodes.value - previous;
    if |arrived| != number {
      return Stopped;
    }
    var failed := site.Fails();
    if failed {
      return Stopped; // a new node's volume did not attach
    }
    site.Sound();
    NobodyLeftOut(nodes.value.Keys, site.world.members);
    reply := Answer(arrived);
  }

  ghost predicate Enlarged(w: World, previous: set<Id>, size: int, number: int, arrived: map<Id, Node>) {
    && !w.scaling && |w.members| == size
    && |arrived| == number && arrived.Keys <= w.members && arrived.Keys !! previous && Truthful(w, arrived)
  }

  ghost predicate OnlyNewNames(a: World, b: World) {
    && b.journal == a.journal && b.removed == a.removed && b.detachRequests == a.detachRequests
    && a.dns <= b.dns && SameCounts(a, b) && (!a.scaling ==> Steady(a, b))
  }

  method AddName(site: Site, d: string)
    requires site.Valid() && site.world.journal == []
    modifies site
    ensures site.Valid() && OnlyNewNames(old(site.world), site.world) && d in site.world.dns
  {
    site.Elapse();
    site.Do(AddDns(d));
  }

  ghost predicate BothNamesThere(naming: Naming, w: World, node: Node)
    requires naming.subnet.Some? ==> naming.subnet.value.prefix <= 32
  {
    var domains := naming.Domains(node.name, node.ip);
    domains.Ok? && forall d :: d in domains.value ==> d in w.dns
  }

  lemma NewNamesThen(a: World, b: World, c: World)
    requires OnlyNewNames(a, b) && OnlyNewNames(b, c)
    ensures OnlyNewNames(a, c)
  {}

  /** The Slurm name, then the host name. */
  method AddBothNames(site: Site, node: Node) returns (reply: Reply<()>)
    requires site.Valid() && site.world.journal == []
    modifies site
    ensures site.Valid() && OnlyNewNames(old(site.world), site.world) && !reply.NotFound?
    ensures reply.Answer? ==> BothNamesThere(site.setup.naming, site.world, node)
  {
    var domains := site.setup.naming.Domains(node.name, node.ip);
    if domains.Err? {
      return Stopped;
    }
    var failed := site.Fails();
    if failed {
      return Stopped;
    }
    ghost var start := site.world;
    AddName(site, domains.value[1]);
    failed := site.Fails();
    if failed {
      return Stopped;
    }
    ghost var between := site.world;
    AddName(site, domains.value[0]);
    NewNamesThen(start, between, site.world);
    reply := Answer(());
  }

  method AddNames(site: Site, arrived: map<Id, Node>) returns (reply: Reply<()>)
    requires site.Valid() && site.world.journal == []
    modifies site
    ensures site.Valid() && OnlyNewNames(old(site.world), site.world) && !reply.NotFound?
    ensures reply.Answer? ==> forall i :: i in arrived ==> BothNamesThere(site.setup.naming, site.world, arrived[i])
  {
    var left := arrived.Keys;
    ghost var start := site.world;
    while left != {}
      invariant site.Valid() && OnlyNewNames(start, site.world) && left <= arrived.Keys && site.world.journal == []
      invariant forall i :: i in arrived && i !in left ==> BothNamesThere(site.setup.naming, site.world, arrived[i])
    {
      var i :| i in left;
      ghost var before := site.world;
      var named := AddBothNames(site, arrived[i]);
      NewNamesThen(start, before, site.world);
      if !named.Answer? {
        return Stopped;
      }
      left := left - {i};
    }
    reply := Answer(());
  }

  /** Growth by `number` nodes to `size + number`; it begins with nothing pending. */
  method GrowPool(site: Site, previous: set<Id>, size: int, number: int)
    returns (done: bool, ghost grown: World, ghost arrived: map<Id, Node>)
    requires site.Valid() && site.world.journal == []
    modifies site
    ensures site.Valid() && site.world.journal == []
    ensures site.world.detachRequests == old(site.world).detachRequests && site.world.removed == old(site.world).removed
    ensures done ==> Enlarged(grown, previous, size + number, number, arrived) && Steady(grown, site.world)
    ensures done && site.setup.dnsEntries ==>
      forall i :: i in arrived ==> BothNamesThere(site.setup.naming, site.world, arrived[i])
    ensures done && site.setup.autoscaling ==> Counted(site.world, size + number)
  {
    done, grown, arrived := false, site.world, map[];
    var enlarged := Enlarge(site, previous, size + number, number);
    if !enlarged.Answer? {
      Rollback(site, size);
      return;
    }
    grown, arrived := site.world, enlarged.value;
    if site.setup.dnsEntries {
      var named := AddNames(site, enlarged.value);
      if !named.Answer? {
        return;
      }
    }
    var updated := UpdateTerraform(site, size + number);
    done := updated.Answer?;
  }

  /** A growth of the pool: the size it started from, the nodes listed before, those that arrived, and the world
      in which they were counted. */
  datatype Growth = Growth(from: int, previous: set<Id>, arrived: map<Id, Node>, world: World)

  /** The size was reached, `number` nodes arrived that were not listed before, each has both its names, and
      Terraform counts the pool as it was then; since then only what was asked to go has left. */
  ghost predicate Added(setup: Setup, w: World, number: int, growth: Growth)
    requires GoodSetup(setup)
  {
    && Enlarged(growth.world, growth.previous, growth.from + number, number, growth.arrived)
    && Steady(growth.world, w)
    && (setup.dnsEntries ==> forall i :: i in growth.arrived ==> BothNamesThere(setup.naming, w, growth.arrived[i]))
    && (setup.autoscaling ==> Counted(w, growth.from + number))
  }

  // ---- the script ----------------------------------------------------------------------------------

  /** The modes that change the pool, once nothing is pending and the pool is running at `current` nodes.
      `victims` is whatever the script decided to remove: named, unreachable, or the last ones. */
  method ChangePool(site: Site, mode: Mode, current: int, victims: seq<string>, number: int)
    returns (done: bool, ghost nodes: map<Id, Node>, ghost fates: seq<Fate>, ghost growth: Growth)
    requires site.Valid() && site.world.journal == [] && !site.world.scaling && site.world.size <= current
    requires mode in {Add, Remove, RemoveUnreachable}
    modifies site
    ensures site.Valid()
    ensures done ==> site.world.journal == []
    ensures mode != Add ==> Kept(old(site.world), site.world)
    ensures victims == [] ==> site.world.detachRequests == old(site.world).detachRequests && site.world.journal == []
    ensures done && mode != Add && victims != [] ==>
      AllCompleted(site.setup, site.world, nodes, victims, fates) && OnlySlipped(old(site.world), site.world, fates)
    ensures done && mode == Add ==>
      Added(site.setup, site.world, number, growth) && growth.from + |victims| <= current
  {
    done, nodes, fates, growth := false, map[], [], Growth(0, {}, map[], site.world);
    var running := site.WaitForRunning(None);
    if !running.Answer? {
      return;
    }
    var listed := ListNodes(site);
    if !listed.Answer? {
      return;
    }
    nodes := listed.value;
    var size := current;
    if victims != [] {
      var summary := site.GetSummary();
      if !summary.Answer? {
        return;
      }
      size := summary.value;
      ghost var before := site.world;
      done, fates := RemoveNodes(site, victims, listed.value);
      KeptThen(old(site.world), before, site.world);
      if !done {
        return;
      }
      SlippedBefore(old(site.world), before, site.world, fates);
    }
    done := true;
    if mode == Add {
      done, growth := AddNodes(site, size - |victims|, number);
    }
  }

  method AddNodes(site: Site, size: int, number: int) returns (done: bool, ghost growth: Growth)
    requires site.Valid() && site.world.journal == []
    modifies site
    ensures site.Valid() && site.world.journal == []
    ensures site.world.detachRequests == old(site.world).detachRequests
    ensures done ==> Added(site.setup, site.world, number, growth) && growth.from == size
  {
    done, growth := false, Growth(size, {}, map[], site.world);
    var previous := ListNodes(site);
    if !previous.Answer? {
      return;
    }
    ghost var grown, arrived;
    done, grown, arrived := GrowPool(site, previous.value.Keys, size, number);
    growth := Growth(size, previous.value.Keys, arrived, grown);
  }

  /** One process from start to end, for a cluster made of an instance pool. */
  method Resize(site: Site, mode: Mode, requested: set<string>, victims: seq<string>, number: int)
    returns (exit: Exit, ghost nodes: map<Id, Node>, ghost fates: seq<Fate>, ghost growth: Growth, ghost zone: bool)
    requires site.Valid()
    modifies site
    ensures site.Valid()
    // A normal end of a mode that looks at the pool leaves no removal pending, and no explicit volume of any node
    // ever removed.
    ensures exit == Completed && mode !in {CleanupComputeCluster, PrepareLocalBlockVolume} ==>
      site.world.journal == [] && NoVolumeLeft(site.world)
    // Of the nodes asked for, what was found is over, out of the pool and without its names, and nobody of these
    // names is left in the pool but a node that answered 404, which had gone, left, or lost its volume.
    ensures exit == Completed && Removes(mode) && old(site.world).journal == [] && victims != [] ==>
      && AllCompleted(site.setup, site.world, nodes, victims, fates)
      && (!old(site.world).scaling ==> OnlySlipped(old(site.world), site.world, fates))
    // The nodes to add are there, with their names, and counted.
    ensures exit == Completed && mode == Add ==>
      && Added(site.setup, site.world, number, growth)
      && (!old(site.world).scaling ==> growth.from + |victims| <= old(site.world).size)
    // Before the destruction of the cluster the journal is replayed but kept.
    ensures mode in {CleanupComputeCluster, PrepareLocalBlockVolume} ==> site.world.journal == old(site.world).journal
    // By then every pending removal is over and, if there is a zone, without its names; only a failing call, a
    // renamed node or volume, or a node without names keeps the cleanup from getting there.
    ensures exit == Completed && mode == CleanupComputeCluster ==>
      && AllOver(site.world, site.world.journal)
      && (site.setup.dnsEntries && zone ==>
            forall r :: r in site.world.journal ==> DnsSettled(site.setup, site.world, r))
    ensures exit == Failed && mode in {CleanupComputeCluster, PrepareLocalBlockVolume} ==>
      site.mishaps > old(site.mishaps) || CleanupBlocked(site, site.world)
    // Nobody is detached unless the caller named the pending nodes, or there are nodes to remove.
    ensures !MayResume(mode, requested, old(site.world).journal) && (victims == [] || mode in {List, Reconfigure}) ==>
      site.world.detachRequests == old(site.world).detachRequests
    // A removal asked for while others are pending finishes those and touches no other node.
    ensures Removes(mode) && old(site.world).journal != [] ==>
      RemovedOnly(old(site.world), site.world, Instances(old(site.world).journal))
    // Only `add` brings members and names.
    ensures mode != Add ==> NothingNew(old(site.world), site.world)
  {
    nodes, fates, growth, zone := map[], [], Growth(0, {}, map[], site.world), true;
    if mode == PrepareLocalBlockVolume {
      BeginProcess(site);
      return Completed, nodes, fates, growth, zone;
    }
    var ready := BeginAndReplay(site, mode, requested);
    if !ready.Answer? {
      return Failed, nodes, fates, growth, zone;
    }
    ghost var before := site.world;
    if mode == CleanupComputeCluster {
      exit, zone := CleanUpNames(site, ready.value);
      NothingNewThen(old(site.world), before, site.world);
      return exit, nodes, fates, growth, zone;
    }
    exit, nodes, fates, growth := Continue(site, mode, ready.value, victims, number);
    if mode != Add {
      NothingNewThen(old(site.world), before, site.world);
    }
    if !old(site.world).scaling && OnlySlipped(before, site.world, fates) {
      SlippedBefore(old(site.world), before, site.world, fates);
    }
  }

  /** A node or volume that is not what its record says, or a removed node that cannot have had names. */
  ghost predicate CleanupBlocked(site: Site, w: World)
    requires GoodSetup(site.setup)
  {
    exists r :: r in w.journal && (site.Unrecognised(w, r) || site.setup.naming.Domains(r.instanceName, r.ip).Err?)
  }

  /** Before the destruction: the names of what was replayed. */
  method CleanUpNames(site: Site, ready: seq<Record>) returns (exit: Exit, ghost zone: bool)
    requires site.Valid() && ready == site.world.journal && AllOver(site.world, ready)
    modifies site
    ensures site.Valid() && OnlyDns(old(site.world), site.world)
    ensures site.mishaps >= old(site.mishaps)
    ensures exit == Completed ==>
      && AllOver(site.world, ready)
      && (site.setup.dnsEntries && zone ==> forall r :: r in ready ==> DnsSettled(site.setup, site.world, r))
    ensures exit == Failed ==>
      || site.mishaps > old(site.mishaps)
      || exists r :: r in ready && site.setup.naming.Domains(r.instanceName, r.ip).Err?
  {
    site.Sound();
    site.SteadyWhilePending();
    var cleaned;
    cleaned, zone := CleanupDns(site, ready);
    exit := if cleaned.Answer? then Completed else Failed;
  }

  /** No names were added and, unless the pool was scaling, nothing appeared. */
  ghost predicate NothingNew(a: World, b: World) {
    b.dns <= a.dns && (!a.scaling ==> Steady(a, b))
  }

  lemma NothingNewThen(a: World, b: World, c: World)
    requires NothingNew(a, b) && Kept(b, c)
    ensures NothingNew(a, c)
  {}

  /** A new process, which first replays the journal. */
  method BeginAndReplay(site: Site, mode: Mode, requested: set<string>) returns (reply: Reply<seq<Record>>)
    requires site.Valid()
    modifies site
    ensures site.Valid() && site.world.journal == old(site.world).journal && NothingNew(old(site.world), site.world)
    ensures reply.Answer? ==> reply.value == site.world.journal && AllOver(site.world, site.world.journal)
    ensures !MayResume(mode, requested, old(site.world).journal) ==>
      site.world.detachRequests == old(site.world).detachRequests
    ensures RemovedOnly(old(site.world), site.world, Instances(old(site.world).journal))
    ensures site.mishaps >= old(site.mishaps)
    ensures !reply.Answer? ==>
      || site.mishaps > old(site.mishaps)
      || site.Obstacle(old(site.world), site.world, old(site.world).journal,
                       MayResume(mode, requested, old(site.world).journal))
  {
    BeginProcess(site);
    reply := ProcessPending(site, mode, requested);
  }

  /** What follows the replay. */
  method Continue(site: Site, mode: Mode, ready: seq<Record>, victims: seq<string>, number: int)
    returns (exit: Exit, ghost nodes: map<Id, Node>, ghost fates: seq<Fate>, ghost growth: Growth)
    requires site.Valid() && ready == site.world.journal && AllOver(site.world, ready)
    requires mode !in {CleanupComputeCluster, PrepareLocalBlockVolume}
    modifies site
    ensures site.Valid()
    ensures exit == Completed ==> site.world.journal == [] && NoVolumeLeft(site.world)
    ensures exit == Completed && Removes(mode) && ready == [] && victims != [] ==>
      && AllCompleted(site.setup, site.world, nodes, victims, fates)
      && (!old(site.world).scaling ==> OnlySlipped(old(site.world), site.world, fates))
    ensures exit == Completed && mode == Add ==>
      && Added(site.setup, site.world, number, growth)
      && (!old(site.world).scaling ==> growth.from + |victims| <= old(site.world).size)
    ensures victims == [] || mode in {List, Reconfigure} ==>
      site.world.detachRequests == old(site.world).detachRequests
    ensures Removes(mode) && ready != [] ==> site.world.removed == old(site.world).removed
    ensures mode != Add ==> Kept(old(site.world), site.world)
  {
    exit, nodes, fates, growth := Failed, map[], [], Growth(0, {}, map[], site.world);
    var size := SettleFirst(site, ready);
    if !size.Answer? {
      return;
    }
    if mode in {List, Reconfigure} || (ready != [] && Removes(mode)) {
      return Completed, nodes, fates, growth;
    }
    ghost var before := site.world;
    exit, nodes, fates, growth := Proceed(site, mode, size.value, victims, number);
    if mode != Add {
      KeptThen(old(site.world), before, site.world);
      if !old(site.world).scaling && exit == Completed && victims != [] {
        SlippedBefore(old(site.world), before, site.world, fates);
      }
    }
  }

  /** The pool's size, and whatever was replayed finalized. */
  method SettleFirst(site: Site, ready: seq<Record>) returns (size: Reply<int>)
    requires site.Valid() && ready == site.world.journal && AllOver(site.world, ready)
    modifies site
    ensures site.Valid() && Kept(old(site.world), site.world)
    ensures site.world.detachRequests == old(site.world).detachRequests && site.world.removed == old(site.world).removed
    ensures size.Answer? ==>
      && site.world.journal == [] && !site.world.scaling && site.world.size <= size.value && NoVolumeLeft(site.world)
      && (!old(site.world).scaling ==> size.value <= old(site.world).size)
  {
    site.SteadyWhilePending();
    size := site.GetSummary();
    if !size.Answer? {
      return;
    }
    ghost var before := site.world;
    var settled := SettleReplayed(site, ready, size.value);
    KeptThen(old(site.world), before, site.world);
    if !settled {
      return Stopped;
    }
    site.Sound();
    NothingPendingNothingLeft(site.setup, site.world);
  }

  /** What a mode that changes the pool leaves behind when it completes. */
  method Proceed(site: Site, mode: Mode, current: int, victims: seq<string>, number: int)
    returns (exit: Exit, ghost nodes: map<Id, Node>, ghost fates: seq<Fate>, ghost growth: Growth)
    requires site.Valid() && site.world.journal == [] && !site.world.scaling && site.world.size <= current
    requires mode in {Add, Remove, RemoveUnreachable}
    modifies site
    ensures site.Valid()
    ensures exit == Completed ==> site.world.journal == [] && NoVolumeLeft(site.world)
    ensures mode != Add ==> Kept(old(site.world), site.world)
    ensures victims == [] ==> site.world.detachRequests == old(site.world).detachRequests
    ensures exit == Completed && mode != Add && victims != [] ==>
      AllCompleted(site.setup, site.world, nodes, victims, fates) && OnlySlipped(old(site.world), site.world, fates)
    ensures exit == Completed && mode == Add ==>
      Added(site.setup, site.world, number, growth) && growth.from + |victims| <= current
  {
    var done;
    done, nodes, fates, growth := ChangePool(site, mode, current, victims, number);
    exit := if done then Completed else Failed;
    if done {
      site.Sound();
      NothingPendingNothingLeft(site.setup, site.world);
    }
  }

  /** Whatever was replayed is finalized. */
  method SettleReplayed(site: Site, ready: seq<Record>, size: int) returns (done: bool)
    requires site.Valid() && ready == site.world.journal && AllOver(site.world, ready)
    requires !site.world.scaling && site.world.size == size
    modifies site
    ensures site.Valid() && Kept(old(site.world), site.world)
    ensures done ==> site.world.journal == []
    ensures site.world.detachRequests == old(site.world).detachRequests && site.world.removed == old(site.world).removed
  {
    if ready == [] {
      return true;
    }
    var outcome, seen := FinalizeReplayed(site, ready, size);
    done := outcome.Finalized?;
  }

  method BeginProcess(site: Site)
    requires site.Valid()
    modifies site
    ensures site.Valid() && site.world == old(site.world).(vetted := {}, matched := {})
    ensures site.mishaps == old(site.mishaps)
  {
    site.Do(Start);
  }

  /** Any number of processes one after the other, each with its own arguments, each possibly cut short. All
      theorems of RemovalRuns hold of what has happened. */
  method AnyHistory(site: Site, processes: nat)
    requires site.Valid()
    modifies site
    ensures site.Valid() && Inv(site.setup, site.world)
  {
    for k := 0 to processes
      invariant site.Valid()
    {
      site.Elapse();
      var mode: Mode := *;
      var requested: set<string> := *;
      var victims: seq<string> := *;
      var number: int := *;
      var exit, nodes, fates, growth, zone := Resize(site, mode, requested, victims, number);
    }
    site.Sound();
  }

  /** Replaying a replayed journal asks for nothing. */
  method ReplayTwice(site: Site, resume: bool, again: bool)
    returns (first: Reply<seq<Record>>, second: Reply<seq<Record>>, ghost between: World)
    requires site.Valid()
    modifies site
    ensures site.Valid() && Kept(old(site.world), between) && Kept(between, site.world)
    ensures first.Answer? ==> NoRequest(between, site.world)
    ensures first.Answer? && second.Answer? ==> first == second == Answer(old(site.world).journal)
  {
    first := site.RetryPending(resume);
    between := site.world;
    second := site.RetryPending(again);
  }
}
