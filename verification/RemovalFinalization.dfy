/** Finalizing removals in bin/resize.py: their DNS names, Terraform's node count, and the journal last. */
module RemovalFinalization {
  import opened Wrappers
  import opened NodeDns
  import opened PoolWorld
  import opened PoolProgress
  import opened RemovalJournal

  datatype Refusal =
    | OtherCluster | Changed | NoSize | NoPool | OtherPool | NotDecremented
    | NoIdentities | NoZone | InUse | BadNames

  /** Refused: nothing was touched. Interrupted: some names may be gone, the journal is as before. */
  datatype Outcome = Finalized(count: nat) | Refused(why: Refusal) | Interrupted

  /** Display names and addresses of the instances that are in the pool now. */
  datatype Identities = Identities(names: set<string>, ips: set<nat>)

  ghost predicate NameOf(naming: Naming, ready: seq<Record>, d: string)
    requires naming.subnet.Some? ==> naming.subnet.value.prefix <= 32
  {
    exists r :: r in ready && OwnName(naming, r, d)
  }

  ghost predicate OwnName(naming: Naming, r: Record, d: string)
    requires naming.subnet.Some? ==> naming.subnet.value.prefix <= 32
  {
    var domains := naming.Domains(r.instanceName, r.ip);
    domains.Ok? && d in domains.value
  }

  /** Nothing the service knows of a removed node is shared with a node in the pool. */
  ghost predicate Unused(active: Identities, r: Record) {
    r.instanceName !in active.names && r.ip !in active.ips
  }

  ghost predicate AllUnused(naming: Naming, ready: seq<Record>, active: Identities)
    requires naming.subnet.Some? ==> naming.subnet.value.prefix <= 32
  {
    forall r :: r in ready ==> naming.Domains(r.instanceName, r.ip).Ok? && Unused(active, r)
  }

  function Volumes(records: seq<Record>): (done: set<Id>)
    ensures forall r :: r in records ==> r.volume in done
    ensures forall v :: v in done ==> HasVolume(records, v)
  {
    set r | r in records :: r.volume
  }

  /** The names of every record, collected before the first is deleted; a conflict or a record without
      names ends it. */
  method CollectNames(naming: Naming, ready: seq<Record>, active: Option<Identities>)
    returns (names: Result<seq<string>>)
    requires naming.subnet.Some? ==> naming.subnet.value.prefix <= 32
    ensures names.Ok? ==> forall d :: d in names.value <==> NameOf(naming, ready, d)
    ensures names.Ok? <==> forall r :: r in ready ==>
      naming.Domains(r.instanceName, r.ip).Ok? && (active.Some? ==> Unused(active.value, r))
    ensures names.Err? ==>
      if names.error == "in use" then active.Some? && exists r :: r in ready && !Unused(active.value, r)
      else names.error == "bad names" && exists r :: r in ready && naming.Domains(r.instanceName, r.ip).Err?
  {
    var collected: seq<string> := [];
    for k := 0 to |ready|
      invariant forall d :: d in collected <==> NameOf(naming, ready[..k], d)
      invariant forall j :: 0 <= j < k ==>
        naming.Domains(ready[j].instanceName, ready[j].ip).Ok? && (active.Some? ==> Unused(active.value, ready[j]))
    {
      var r := ready[k];
      if active.Some? && (r.instanceName in active.value.names || r.ip in active.value.ips) {
        assert r in ready && !Unused(active.value, r);
        return Err("in use");
      }
      var domains := naming.Domains(r.instanceName, r.ip);
      if domains.Err? {
        assert r in ready;
        return Err("bad names");
      }
      NameOfMore(naming, ready[..k], r);
      assert ready[..k + 1] == ready[..k] + [r];
      collected := collected + domains.value;
    }
    assert ready[..|ready|] == ready;
    names := Ok(collected);
  }

  lemma NameOfMore(naming: Naming, ready: seq<Record>, r: Record)
    requires naming.subnet.Some? ==> naming.subnet.value.prefix <= 32
    ensures forall d :: NameOf(naming, ready + [r], d) <==> NameOf(naming, ready, d) || OwnName(naming, r, d)
  {
    forall d
      ensures NameOf(naming, ready + [r], d) <==> NameOf(naming, ready, d) || OwnName(naming, r, d)
    {
      assert r in ready + [r];
      assert forall q :: q in ready ==> q in ready + [r];
    }
  }

  /** What one `delete_rr_set` may do to the world. */
  ghost predicate OnlyDns(a: World, b: World) {
    && Kept(a, b) && b.journal == a.journal && SameCounts(a, b)
    && b.vetted == a.vetted && b.matched == a.matched && b.removed == a.removed && b.detachRequests == a.detachRequests
  }

  /** `delete_private_dns_rrset_if_present`: a 404 is as good as a deletion. */
  method DeleteName(site: Site, d: string) returns (reply: Reply<()>)
    requires site.Valid()
    modifies site
    ensures site.Valid() && OnlyDns(old(site.world), site.world) && !reply.NotFound?
    ensures site.world.dns in {old(site.world).dns, old(site.world).dns - {d}}
    ensures reply.Answer? ==> d !in site.world.dns
    ensures site.mishaps >= old(site.mishaps) && (reply.Stopped? ==> site.mishaps > old(site.mishaps))
  {
    site.Elapse();
    var failed := site.Fails();
    if failed {
      return Stopped;
    }
    site.Do(DeleteDns(d));
    failed := site.Fails();
    if failed {
      return Stopped;
    }
    reply := Answer(());
  }

  method DeleteNames(site: Site, names: seq<string>) returns (reply: Reply<()>)
    requires site.Valid()
    modifies site
    ensures site.Valid() && OnlyDns(old(site.world), site.world) && !reply.NotFound?
    ensures forall d :: d in old(site.world).dns && d !in site.world.dns ==> d in names
    ensures reply.Answer? ==> forall d :: d in names ==> d !in site.world.dns
    ensures site.mishaps >= old(site.mishaps) && (reply.Stopped? ==> site.mishaps > old(site.mishaps))
  {
    for k := 0 to |names|
      invariant site.Valid() && OnlyDns(old(site.world), site.world) && site.mishaps >= old(site.mishaps)
      invariant forall d :: d in old(site.world).dns && d !in site.world.dns ==> d in names
      invariant forall j :: 0 <= j < k ==> names[j] !in site.world.dns
    {
      reply := DeleteName(site, names[k]);
      if !reply.Answer? {
        return;
      }
    }
    reply := Answer(());
  }

  /** Terraform's state is pushed before the variables are replaced; each is the old count or the new one. */
  ghost predicate CountStep(setup: Setup, a: World, b: World, size: int) {
    && b.terraformSize in {a.terraformSize, size} && b.variablesSize in {a.variablesSize, size}
    && (b.variablesSize != a.variablesSize ==> b.terraformSize == size)
    && (!setup.autoscaling ==> SameCounts(a, b))
  }

  /** `updateTFState`: nothing to do for /etc/ansible/hosts. */
  method UpdateTerraform(site: Site, size: int) returns (reply: Reply<()>)
    requires site.Valid()
    modifies site
    ensures site.Valid() && Kept(old(site.world), site.world) && !reply.NotFound?
    ensures site.world.journal == old(site.world).journal && site.world.dns == old(site.world).dns
    ensures site.world.detachRequests == old(site.world).detachRequests && site.world.removed == old(site.world).removed
    ensures CountStep(site.setup, old(site.world), site.world, size)
    ensures reply.Answer? && site.setup.autoscaling ==> Counted(site.world, size)
    ensures site.mishaps >= old(site.mishaps) && (reply.Stopped? ==> site.mishaps > old(site.mishaps))
  {
    if !site.setup.autoscaling {
      return Answer(());
    }
    var failed := site.Fails();
    if failed {
      return Stopped;
    }
    site.Do(PushTerraform(size));
    failed := site.Fails();
    if failed {
      return Stopped;
    }
    site.Do(WriteVariables(size));
    failed := site.Fails();
    if failed {
      return Stopped;
    }
    reply := Answer(());
  }

  predicate Counted(w: World, size: int) {
    w.terraformSize == size && w.variablesSize == size
  }

  /** The tests on the journal, the pool and its size, before anything is touched. */
  ghost predicate Finalizable(setup: Setup, pending: seq<Record>, ready: seq<Record>, size: int, pool: Id) {
    forall r :: r in ready ==>
      && ValidRecord(r) && r.cluster == setup.cluster && r.compartment == setup.compartment && r in pending
      && r.pool == pool && size < r.sizeBefore
  }

  /** What each refusal says. */
  ghost predicate Refuses(setup: Setup, pending: seq<Record>, ready: seq<Record>, size: Option<int>, pool: Option<Id>,
                          why: Refusal) {
    match why
    case Changed => exists r :: r in ready && (!ValidRecord(r) || r !in pending)
    case OtherCluster => exists r :: r in ready && (r.cluster != setup.cluster || r.compartment != setup.compartment)
    case NoSize => size.None?
    case NoPool => pool.None? || pool.value == ""
    case OtherPool => pool.Some? && exists r :: r in ready && r.pool != pool.value
    case NotDecremented => size.Some? && exists r :: r in ready && size.value >= r.sizeBefore
    case _ => false
  }

  /** The same for the DNS part: `conflict` and `unnamed` are among the records. */
  ghost predicate RefusesNames(naming: Naming, ready: seq<Record>, active: Option<Identities>, why: Refusal)
    requires naming.subnet.Some? ==> naming.subnet.value.prefix <= 32
  {
    match why
    case NoIdentities => active.None?
    case NoZone => true
    case InUse => active.Some? && exists r :: r in ready && !Unused(active.value, r)
    case BadNames => exists r :: r in ready && naming.Domains(r.instanceName, r.ip).Err?
    case _ => false
  }

  method CheckReady(setup: Setup, pending: seq<Record>, ready: seq<Record>, size: Option<int>, pool: Option<Id>)
    returns (why: Option<Refusal>)
    ensures why.None? <==>
      size.Some? && pool.Some? && pool.value != "" && Finalizable(setup, pending, ready, size.value, pool.value)
    ensures why.Some? ==> Refuses(setup, pending, ready, size, pool, why.value)
  {
    for k := 0 to |ready|
      invariant forall j :: 0 <= j < k ==>
        && ValidRecord(ready[j]) && ready[j].cluster == setup.cluster && ready[j].compartment == setup.compartment
        && ready[j] in pending
    {
      if !ValidRecord(ready[k]) || ready[k] !in pending {
        return Some(Changed);
      }
      if ready[k].cluster != setup.cluster || ready[k].compartment != setup.compartment {
        return Some(OtherCluster);
      }
    }
    if size.None? {
      return Some(NoSize);
    }
    if pool.None? || pool.value == "" {
      return Some(NoPool);
    }
    if exists r :: r in ready && r.pool != pool.value {
      return Some(OtherPool);
    }
    if exists r :: r in ready && size.value >= r.sizeBefore {
      return Some(NotDecremented);
    }
    why := None;
  }

  /** Every removal in `ready` may be forgotten. */
  lemma ReadyIsSettled(setup: Setup, w: World, ready: seq<Record>, size: int)
    requires GoodSetup(setup) && Inv(setup, w) && AllOver(w, ready) && w.size <= size
    requires forall r :: r in ready ==> r in w.journal && size < r.sizeBefore
    requires setup.autoscaling ==> Counted(w, size)
    requires setup.dnsEntries ==> forall r :: r in ready ==> DnsSettled(setup, w, r)
    ensures forall r :: r in w.journal && r.volume in Volumes(ready) ==> Settled(setup, w, r)
  {
    forall r | r in w.journal && r.volume in Volumes(ready)
      ensures Settled(setup, w, r)
    {
      var q :| q in ready && q.volume == r.volume;
      SameVolumeSameRecord(w.journal, q, r);
    }
  }

  lemma SameVolumeSameRecord(journal: seq<Record>, q: Record, r: Record)
    requires UniqueVolumes(journal) && q in journal && r in journal && q.volume == r.volume
    ensures q == r
  {
    var j :| 0 <= j < |journal| && journal[j] == q;
    var k :| 0 <= k < |journal| && journal[k] == r;
  }

  /** The DNS part: the zone must exist and no record may be in conflict before the first name goes. */
  method FinalizeNames(site: Site, ready: seq<Record>, active: Option<Identities>) returns (stop: Option<Outcome>)
    requires site.Valid()
    modifies site
    ensures site.Valid() && OnlyDns(old(site.world), site.world)
    ensures stop.Some? && stop.value.Refused? ==>
      && Quiet(old(site.world), site.world)
      && site.setup.dnsEntries && RefusesNames(site.setup.naming, ready, active, stop.value.why)
    ensures site.mishaps >= old(site.mishaps)
    ensures stop == Some(Interrupted) ==> site.mishaps > old(site.mishaps)
    ensures stop.Some? ==> !stop.value.Finalized?
    ensures stop.None? && site.setup.dnsEntries ==> forall r :: r in ready ==> DnsSettled(site.setup, site.world, r)
    ensures forall d :: d in old(site.world).dns && d !in site.world.dns ==>
      && site.setup.dnsEntries && NameOf(site.setup.naming, ready, d)
      && active.Some? && AllUnused(site.setup.naming, ready, active.value)
  {
    if !site.setup.dnsEntries {
      return None;
    }
    if active.None? {
      return Some(Refused(NoIdentities));
    }
    site.Elapse();
    var failed := site.Fails();
    if failed {
      return Some(Interrupted);
    }
    var zonePresent: bool := *;
    if !zonePresent {
      return Some(Refused(NoZone));
    }
    var names := CollectNames(site.setup.naming, ready, active);
    if names.Err? {
      return Some(Refused(if names.error == "in use" then InUse else BadNames));
    }
    var deleted := DeleteNames(site, names.value);
    if !deleted.Answer? {
      return Some(Interrupted);
    }
    NamesAreGone(site.setup, site.world, ready);
    stop := None;
  }

  lemma NamesAreGone(setup: Setup, w: World, ready: seq<Record>)
    requires GoodSetup(setup)
    requires forall r :: r in ready ==> setup.naming.Domains(r.instanceName, r.ip).Ok?
    requires forall d :: NameOf(setup.naming, ready, d) ==> d !in w.dns
    ensures forall r :: r in ready ==> DnsSettled(setup, w, r)
  {
    forall r | r in ready
      ensures DnsSettled(setup, w, r)
    {
      forall d | d in setup.naming.Domains(r.instanceName, r.ip).value
        ensures d !in w.dns
      {
        assert OwnName(setup.naming, r, d);
      }
    }
  }

  lemma {:induction false} WithoutNothing(journal: seq<Record>)
    ensures Without(journal, {}) == journal
  {
    if journal != [] {
      WithoutNothing(journal[1..]);
      assert journal == [journal[0]] + journal[1..];
    }
  }

  lemma {:induction false} WithoutAll(journal: seq<Record>, done: set<Id>)
    requires forall r :: r in journal ==> r.volume in done
    ensures Without(journal, done) == []
  {
    if journal != [] {
      assert journal == [journal[0]] + journal[1..];
      WithoutAll(journal[1..], done);
    }
  }

  /** What a finalization may do, wherever it ends: names of removed nodes go, Terraform's count is set, and
      the journal changes, if at all, last and in one step. */
  ghost predicate FinalizationStep(setup: Setup, a: World, b: World, ready: seq<Record>, size: Option<int>,
                                   active: Option<Identities>)
    requires GoodSetup(setup)
  {
    && Kept(a, b) && b.detachRequests == a.detachRequests && b.removed == a.removed
    && (b.journal == a.journal || b.journal == Without(a.journal, Volumes(ready)))
    && (if size.Some? then CountStep(setup, a, b, size.value) else SameCounts(a, b))
    && OnlyNamesOf(setup, a, b, ready, active)
  }

  ghost predicate OnlyNamesOf(setup: Setup, a: World, b: World, ready: seq<Record>, active: Option<Identities>)
    requires GoodSetup(setup)
  {
    forall d :: d in a.dns && d !in b.dns ==>
      && setup.dnsEntries && NameOf(setup.naming, ready, d)
      && active.Some? && AllUnused(setup.naming, ready, active.value)
  }

  /** `finalize_pending_local_block_volume_deletions` */
  method Finalize(site: Site, ready: seq<Record>, size: Option<int>, pool: Option<Id>, active: Option<Identities>)
    returns (outcome: Outcome)
    requires site.Valid() && AllOver(site.world, ready)
    requires size.Some? ==> site.world.size <= size.value
    modifies site
    ensures site.Valid() && FinalizationStep(site.setup, old(site.world), site.world, ready, size, active)
    ensures outcome.Refused? ==> Quiet(old(site.world), site.world)
    // It ends early only where a call fails or one of the tests does.
    ensures site.mishaps >= old(site.mishaps) && (outcome == Interrupted ==> site.mishaps > old(site.mishaps))
    ensures outcome.Refused? ==>
      || Refuses(site.setup, old(site.world).journal, ready, size, pool, outcome.why)
      || (site.setup.dnsEntries && RefusesNames(site.setup.naming, ready, active, outcome.why))
    ensures outcome.Finalized? ==>
      outcome.count == |ready| && site.world.journal == Without(old(site.world).journal, Volumes(ready))
    ensures outcome.Finalized? && ready != [] && site.setup.autoscaling ==>
      size.Some? && Counted(site.world, size.value)
    ensures outcome.Finalized? && site.setup.dnsEntries ==>
      forall r :: r in ready ==> DnsSettled(site.setup, site.world, r)
  {
    if ready == [] {
      assert Volumes(ready) == {};
      WithoutNothing(site.world.journal);
      return Finalized(0);
    }
    var loaded := site.Load();
    if !loaded.Answer? {
      return Interrupted;
    }
    var why := CheckReady(site.setup, loaded.value, ready, size, pool);
    if why.Some? {
      return Refused(why.value);
    }
    assert ready[0] in site.world.journal;
    site.SteadyWhilePending();
    outcome := FinalizeChecked(site, ready, size.value, active);
  }

  /** The names, then the count, then the journal. */
  method FinalizeChecked(site: Site, ready: seq<Record>, size: int, active: Option<Identities>)
    returns (outcome: Outcome)
    requires site.Valid() && !site.world.scaling && AllOver(site.world, ready) && site.world.size <= size
    requires forall r :: r in ready ==> r in site.world.journal && size < r.sizeBefore
    modifies site
    ensures site.Valid() && FinalizationStep(site.setup, old(site.world), site.world, ready, Some(size), active)
    ensures site.mishaps >= old(site.mishaps) && (outcome == Interrupted ==> site.mishaps > old(site.mishaps))
    ensures outcome.Refused? ==>
      && Quiet(old(site.world), site.world)
      && site.setup.dnsEntries && RefusesNames(site.setup.naming, ready, active, outcome.why)
    ensures outcome.Finalized? ==>
      && outcome.count == |ready| && site.world.journal == Without(old(site.world).journal, Volumes(ready))
      && (site.setup.autoscaling ==> Counted(site.world, size))
      && (site.setup.dnsEntries ==> forall r :: r in ready ==> DnsSettled(site.setup, site.world, r))
  {
    var stop := FinalizeNames(site, ready, active);
    if stop.Some? {
      return stop.value;
    }
    ghost var before := site.world;
    var done := SettleAndForget(site, ready, size);
    KeptThen(old(site.world), before, site.world);
    outcome := if done.Answer? then Finalized(|ready|) else Interrupted;
  }

  /** `updateTFState`, then the journal without the finished records. */
  method SettleAndForget(site: Site, ready: seq<Record>, size: int) returns (reply: Reply<()>)
    requires site.Valid() && !site.world.scaling && AllOver(site.world, ready) && site.world.size <= size
    requires forall r :: r in ready ==> r in site.world.journal && size < r.sizeBefore
    requires site.setup.dnsEntries ==> forall r :: r in ready ==> DnsSettled(site.setup, site.world, r)
    modifies site
    ensures site.Valid() && Kept(old(site.world), site.world) && !reply.NotFound?
    ensures site.world.dns == old(site.world).dns
    ensures site.world.detachRequests == old(site.world).detachRequests && site.world.removed == old(site.world).removed
    ensures site.world.journal == old(site.world).journal
      || site.world.journal == Without(old(site.world).journal, Volumes(ready))
    ensures CountStep(site.setup, old(site.world), site.world, size)
    ensures reply.Answer? ==> site.world.journal == Without(old(site.world).journal, Volumes(ready))
    ensures reply.Answer? && site.setup.autoscaling ==> Counted(site.world, size)
    ensures site.mishaps >= old(site.mishaps) && (reply.Stopped? ==> site.mishaps > old(site.mishaps))
  {
    var updated := UpdateTerraform(site, size);
    if !updated.Answer? {
      return Stopped;
    }
    var failed := site.Fails();
    if failed {
      return Stopped;
    }
    site.Sound();
    ReadyIsSettled(site.setup, site.world, ready, size);
    site.Do(Forget(Volumes(ready)));
    failed := site.Fails();
    if failed {
      return Stopped;
    }
    reply := Answer(());
  }

  /** The record is one the script may act on. */
  predicate Actionable(setup: Setup, pending: seq<Record>, r: Record) {
    ValidRecord(r) && r.cluster == setup.cluster && r.compartment == setup.compartment && r in pending
  }

  /** `cleanup_pending_local_block_volume_dns_records`: the names go, the journal stays until the cluster
      directory does. `zone` is whether the zone was found; without one there are no names. It stops only where a
      call fails, a record is not one of the journal's, or a record has no names. */
  method CleanupDns(site: Site, ready: seq<Record>) returns (reply: Reply<nat>, ghost zone: bool)
    requires site.Valid()
    modifies site
    ensures site.Valid() && OnlyDns(old(site.world), site.world) && !reply.NotFound?
    ensures reply.Answer? ==> reply.value == if site.setup.dnsEntries then |ready| else 0
    ensures reply.Answer? && site.setup.dnsEntries && zone ==>
      forall r :: r in ready ==> DnsSettled(site.setup, site.world, r)
    ensures !zone || !site.setup.dnsEntries ==> site.world.dns == old(site.world).dns
    ensures forall d :: d in old(site.world).dns && d !in site.world.dns ==>
      site.setup.dnsEntries && NameOf(site.setup.naming, ready, d)
    ensures site.mishaps >= old(site.mishaps)
    ensures reply.Stopped? ==>
      || site.mishaps > old(site.mishaps)
      || (exists r :: r in ready && !Actionable(site.setup, old(site.world).journal, r))
      || (zone && exists r :: r in ready && site.setup.naming.Domains(r.instanceName, r.ip).Err?)
  {
    zone := true;
    if ready == [] || !site.setup.dnsEntries {
      return Answer(0), zone;
    }
    var loaded := site.Load();
    if !loaded.Answer? {
      return Stopped, zone;
    }
    if exists r :: r in ready && !Actionable(site.setup, loaded.value, r) {
      return Stopped, zone;
    }
    site.Elapse();
    var failed := site.Fails();
    if failed {
      return Stopped, zone;
    }
    var zonePresent: bool := *;
    zone := zonePresent;
    if !zonePresent {
      return Answer(|ready|), zone;
    }
    var names := CollectNames(site.setup.naming, ready, None);
    if names.Err? {
      return Stopped, zone;
    }
    var deleted := DeleteNames(site, names.value);
    if !deleted.Answer? {
      return Stopped, zone;
    }
    NamesAreGone(site.setup, site.world, ready);
    reply := Answer(|ready|);
  }

  /** The names a finalization deletes belong to no live node, unless one node is called what another's
      Slurm name is. */
  lemma FinalizationSparesLiveNodes(naming: Naming, ready: seq<Record>, active: Identities, live: string, ip: nat)
    requires naming.Valid() && naming.Domains(live, ip).Ok?
    requires live in active.names && ip in active.ips
    requires AllUnused(naming, ready, active)
    ensures (exists d :: d in naming.Domains(live, ip).value && NameOf(naming, ready, d))
       <==> exists r :: r in ready && CalledLikeSlurmName(naming, r, live, ip)
  {
    forall r | r in ready
      ensures (exists d :: d in naming.Domains(live, ip).value && OwnName(naming, r, d)) <==>
        CalledLikeSlurmName(naming, r, live, ip)
    {
      SharedDomain(naming, r.instanceName, r.ip, live, ip);
    }
  }

  ghost predicate CalledLikeSlurmName(naming: Naming, r: Record, live: string, ip: nat)
    requires naming.Valid() && naming.Domains(r.instanceName, r.ip).Ok? && naming.Domains(live, ip).Ok?
  {
    || live == naming.SlurmName(naming.subnet.value.HostIndex(r.ip).value)
    || r.instanceName == naming.SlurmName(naming.subnet.value.HostIndex(ip).value)
  }
}
