/** The journal functions of bin/resize.py over the world of PoolWorld. Each remote call lets the cloud act
    first, then is one atomic step; any call may end the process, and so may any uncaught exception. */
module RemovalJournal {
  import opened Wrappers
  import opened PoolWorld
  import opened PoolProgress
  import opened RemovalRuns

  /** NotFound is a 404; Stopped is the end of the process: a crash, or an exception nobody catches. */
  datatype Reply<+T> = Answer(value: T) | NotFound | Stopped

  /** `load_pending_local_block_volume_deletions`, on the records of the file. */
  method LoadDeletions(records: seq<Record>) returns (r: Result<seq<Record>>)
    ensures r.Ok? <==> Loadable(records)
    ensures r.Ok? ==> r.value == records
  {
    var pending: seq<Record> := [];
    var seen: set<Id> := {};
    for k := 0 to |records|
      invariant pending == records[..k] && Loadable(pending)
      invariant seen == set j | 0 <= j < k :: records[j].volume
    {
      if !ValidRecord(records[k]) {
        return Err("invalid record");
      }
      if records[k].volume in seen {
        return Err("duplicate volume OCID");
      }
      seen := seen + {records[k].volume};
      pending := pending + [records[k]];
    }
    r := Ok(pending);
  }

  /** At most one record was added, and it is for node `i` at that address. */
  ghost predicate JournalGained(a: World, b: World, i: Id, ip: nat) {
    b.journal == a.journal || exists r: Record :: r.instance == i && r.ip == ip && b.journal == a.journal + [r]
  }

  function Instances(records: seq<Record>): set<Id> {
    set r | r in records :: r.instance
  }

  /** Every one of these removals is done but for DNS, Terraform and the journal. */
  ghost predicate AllOver(w: World, records: seq<Record>) {
    forall r :: r in records ==> InstanceOver(w, r.instance) && VolumeOver(w, r.volume)
  }

  class Site {
    const setup: Setup
    var world: World
    ghost var run: Run // everything that happened so far
    var mishaps: nat   // history: calls that failed, waits that ran out, kills

    ghost predicate Valid()
      reads this
    {
      GoodSetup(setup) && IsRun(setup, run) && world == Last(run)
    }

    constructor (setup: Setup, world: World)
      requires GoodSetup(setup) && Begin(world)
      ensures Valid() && this.setup == setup && this.world == world
    {
      this.setup := setup;
      this.world := world;
      run := Run([world], []);
      mishaps := 0;
    }

    lemma Sound()
      requires Valid()
      ensures Inv(setup, world)
    {
      InvAt(setup, run, |run.worlds| - 1);
    }

    /** A size change is over before a removal is recorded. */
    lemma SteadyWhilePending()
      requires Valid()
      ensures world.journal != [] ==> !world.scaling
    {
      Sound();
    }

    /** The only way anything changes. */
    method Do(e: Event)
      requires Valid() && Enabled(setup, world, e)
      modifies this
      ensures Valid() && run == Then(setup, old(run), e) && world == Next(old(world), e) && mishaps == old(mishaps)
      ensures KeepsAll(e) ==> Kept(old(world), world)
    {
      Sound();
      ThenIsRun(setup, run, e);
      if KeepsAll(e) {
        KeptAfter(setup, world, e);
      }
      world := Next(world, e);
      run := Then(setup, run, e);
    }

    /** Here a call or a file operation may fail, or the process be killed. */
    method Fails() returns (failed: bool)
      modifies this`mishaps
      ensures mishaps == old(mishaps) + if failed then 1 else 0
    {
      failed := *;
      if failed {
        mishaps := mishaps + 1;
      }
    }

    /** A wait has run out, or an answer that nobody expects is raised as an error. */
    method GiveUp()
      modifies this`mishaps
      ensures mishaps == old(mishaps) + 1
    {
      mishaps := mishaps + 1;
    }

    /** Time passes: the cloud does any number of things. */
    method Elapse()
      requires Valid()
      modifies this
      ensures Valid() && Drift(old(world), world) && mishaps == old(mishaps)
    {
      var n :| n >= 0;
      while n > 0
        invariant Valid() && Drift(old(world), world) && mishaps == old(mishaps)
      {
        var e: Event := *;
        if IsCloud(e) && CloudEnabled(world, e) {
          ghost var before := world;
          CloudIsQuiet(world, e);
          Do(e);
          DriftThen(old(world), before, world);
        }
        n := n - 1;
      }
    }

    method GetInstance(i: Id) returns (reply: Reply<Instance>)
      requires Valid()
      modifies this
      ensures Valid() && Drift(old(world), world)
      ensures mishaps >= old(mishaps) && (reply.Stopped? ==> mishaps > old(mishaps))
      ensures reply.Answer? ==> i in world.instances && reply.value == world.instances[i]
      ensures reply.NotFound? ==> i !in world.instances
    {
      Elapse();
      var failed := Fails();
      if failed {
        return Stopped;
      }
      reply := if i in world.instances then Answer(world.instances[i]) else NotFound;
    }

    method GetVolume(v: Id) returns (reply: Reply<Volume>)
      requires Valid()
      modifies this
      ensures Valid() && Drift(old(world), world)
      ensures mishaps >= old(mishaps) && (reply.Stopped? ==> mishaps > old(mishaps))
      ensures reply.Answer? ==> v in world.volumes && reply.value == world.volumes[v]
      ensures reply.NotFound? ==> v !in world.volumes
    {
      Elapse();
      var failed := Fails();
      if failed {
        return Stopped;
      }
      reply := if v in world.volumes then Answer(world.volumes[v]) else NotFound;
    }

    /** `list_instance_pool_instances`; the service may have forgotten an empty pool. */
    method ListMembers() returns (reply: Reply<set<Id>>)
      requires Valid()
      modifies this
      ensures Valid() && Drift(old(world), world)
      ensures mishaps >= old(mishaps) && (reply.Stopped? ==> mishaps > old(mishaps))
      ensures reply.Answer? ==> reply.value == world.members
      ensures reply.NotFound? ==> world.members == {}
    {
      Elapse();
      var failed := Fails();
      if failed {
        return Stopped;
      }
      var forgotten: bool := *;
      if forgotten && world.members == {} {
        return NotFound;
      }
      reply := Answer(world.members);
    }

    method GetPoolSize() returns (reply: Reply<int>)
      requires Valid()
      modifies this
      ensures Valid() && Drift(old(world), world)
      ensures mishaps >= old(mishaps) && (reply.Stopped? ==> mishaps > old(mishaps))
      ensures reply.Answer? ==> reply.value == world.size
      ensures reply.NotFound? ==> world.members == {}
    {
      Elapse();
      var failed := Fails();
      if failed {
        return Stopped;
      }
      var forgotten: bool := *;
      if forgotten && world.members == {} {
        return NotFound;
      }
      reply := Answer(world.size);
    }

    /** `get_summary`: only a pool in state RUNNING is found. */
    method GetSummary() returns (reply: Reply<int>)
      requires Valid()
      modifies this
      ensures Valid() && Drift(old(world), world)
      ensures mishaps >= old(mishaps) && (reply.Stopped? ==> mishaps > old(mishaps))
      ensures reply.Answer? ==> !world.scaling && reply.value == world.size == |world.members|
      ensures reply.NotFound? ==> world.scaling
    {
      Elapse();
      var failed := Fails();
      if failed {
        return Stopped;
      }
      if world.scaling {
        return NotFound;
      }
      Sound();
      reply := Answer(world.size);
    }

    /** `wait_for_running_status` */
    method WaitForRunning(expected: Option<int>) returns (reply: Reply<()>)
      requires Valid()
      modifies this
      ensures Valid() && Drift(old(world), world) && !reply.NotFound?
      ensures mishaps >= old(mishaps) && (reply.Stopped? ==> mishaps > old(mishaps))
      ensures reply.Answer? ==> !world.scaling && (expected.Some? ==> |world.members| == expected.value)
    {
      var polls :| polls >= 0;
      while polls > 0
        invariant Valid() && Drift(old(world), world) && mishaps >= old(mishaps)
      {
        Elapse();
        var failed := Fails();
        if failed {
          return Stopped;
        }
        if !world.scaling && (expected.None? || |world.members| == expected.value) {
          return Answer(());
        }
        polls := polls - 1;
      }
      GiveUp();
      reply := Stopped;
    }

    // ---- removing one node -------------------------------------------------------------------------

    /** `detach_instance_from_pool_if_needed` */
    method DetachIfNeeded(i: Id) returns (reply: Reply<()>)
      requires Valid() && !world.scaling && i in world.vetted && Covered(world, i)
      modifies this
      ensures Valid() && Kept(old(world), world) && SameBooks(old(world), world)
      ensures reply.Answer? ==> i !in world.members
      ensures i !in old(world).members ==> NoRequest(old(world), world)
      ensures world.detachRequests <= old(world).detachRequests + 1
      ensures RemovedOnly(old(world), world, {i})
      ensures reply.NotFound? ==> i !in world.members
      ensures mishaps >= old(mishaps) && (!reply.Answer? ==> mishaps > old(mishaps))
    {
      var listed := ListMembers();
      if listed.Stopped? {
        return Stopped;
      } else if listed.NotFound? {
        GiveUp();
        return NotFound;
      } else if i !in listed.value {
        return Answer(());
      }
      ghost var before := world;
      AskToDetach(i);
      KeptThen(old(world), before, world);
      ghost var asked := world;
      reply := AwaitLeaving(i);
      KeptThen(old(world), asked, world);
    }

    /** The service may accept the request. */
    method AskToDetach(i: Id)
      requires Valid() && !world.scaling && i in world.vetted && Covered(world, i)
      modifies this
      ensures Valid() && Kept(old(world), world) && SameBooks(old(world), world) && mishaps == old(mishaps)
      ensures i !in old(world).members ==> NoRequest(old(world), world)
      ensures world.detachRequests <= old(world).detachRequests + 1 && RemovedOnly(old(world), world, {i})
    {
      Elapse();
      var accepted: bool := *;
      if accepted && i in world.members {
        ghost var before := world;
        RequestDetachOf(i);
        KeptThen(old(world), before, world);
      }
    }

    /** The wait of the composite detach call: it succeeds only once the member has left. When it fails, the
        script looks for itself before it raises the failure. */
    method AwaitLeaving(i: Id) returns (reply: Reply<()>)
      requires Valid()
      modifies this
      ensures Valid() && Drift(old(world), world)
      ensures !reply.Stopped? ==> i !in world.members
      ensures mishaps >= old(mishaps) && (!reply.Answer? ==> mishaps > old(mishaps))
    {
      Elapse();
      var succeeded: bool := *;
      if succeeded && i !in world.members {
        return Answer(());
      }
      var polls :| polls >= 0;
      while polls > 0
        invariant Valid() && Drift(old(world), world) && mishaps >= old(mishaps)
      {
        var listed := ListMembers();
        if listed.Answer? && i !in listed.value {
          return Answer(());
        }
        polls := polls - 1;
      }
      GiveUp();
      var gone: bool := *;
      reply := if gone && i !in world.members then NotFound else Stopped;
    }

    method RequestDetachOf(i: Id)
      requires Valid() && i in world.vetted && i in world.members && Covered(world, i)
      modifies this
      ensures Valid() && Kept(old(world), world) && SameBooks(old(world), world)
      ensures i in world.removed && world.detachRequests == old(world).detachRequests + 1
      ensures RemovedOnly(old(world), world, {i}) && mishaps == old(mishaps)
    {
      Sound();
      Do(RequestDetach(i));
    }

    /** `terminate_instance_and_delete_launch_volumes` */
    method TerminateInstance(i: Id) returns (reply: Reply<()>)
      requires Valid() && !world.scaling && i in world.vetted && i !in world.members && Covered(world, i)
      modifies this
      ensures Valid() && Kept(old(world), world) && SameBooks(old(world), world)
      ensures world.detachRequests == old(world).detachRequests
      ensures !reply.NotFound? && (reply.Answer? ==> InstanceOver(world, i))
      ensures InstanceOver(old(world), i) ==> NoRequest(old(world), world)
      ensures RemovedOnly(old(world), world, {i})
      ensures mishaps >= old(mishaps) && (reply.Stopped? ==> mishaps > old(mishaps))
    {
      var found := GetInstance(i);
      if found.Stopped? {
        return Stopped;
      } else if found.NotFound? || found.value.state == Terminated {
        return Answer(());
      }
      if found.value.state != Terminating {
        ghost var before := world;
        var asked := AskToTerminate(i);
        KeptThen(old(world), before, world);
        if !asked.Answer? {
          return if asked.NotFound? then Answer(()) else Stopped;
        }
      }
      ghost var before := world;
      reply := AwaitTerminated(i);
      KeptThen(old(world), before, world);
    }

    /** The service terminates an instance that is running and ignores the request for one that is not. */
    method AskToTerminate(i: Id) returns (reply: Reply<()>)
      requires Valid() && !world.scaling && i in world.vetted && i !in world.members && Covered(world, i)
      modifies this
      ensures Valid() && Kept(old(world), world) && SameBooks(old(world), world)
      ensures world.detachRequests == old(world).detachRequests
      ensures reply.NotFound? ==> InstanceOver(world, i)
      ensures InstanceOver(old(world), i) ==> NoRequest(old(world), world)
      ensures RemovedOnly(old(world), world, {i})
      ensures mishaps >= old(mishaps) && (reply.Stopped? ==> mishaps > old(mishaps))
    {
      Elapse();
      var failed := Fails();
      if failed {
        return Stopped;
      }
      if i !in world.instances {
        return NotFound;
      }
      if world.instances[i].state == Running {
        ghost var before := world;
        RequestTerminateOf(i);
        KeptThen(old(world), before, world);
      }
      reply := Answer(());
    }

    method RequestTerminateOf(i: Id)
      requires Valid() && i in world.vetted && i !in world.members && Covered(world, i)
      requires i in world.instances && world.instances[i].state == Running
      modifies this
      ensures Valid() && Kept(old(world), world) && SameBooks(old(world), world)
      ensures world.detachRequests == old(world).detachRequests
      ensures RemovedOnly(old(world), world, {i}) && mishaps == old(mishaps)
    {
      Do(RequestTerminate(i));
    }

    method AwaitTerminated(i: Id) returns (reply: Reply<()>)
      requires Valid()
      modifies this
      ensures Valid() && Drift(old(world), world)
      ensures !reply.NotFound? && (reply.Answer? ==> InstanceOver(world, i))
      ensures mishaps >= old(mishaps) && (reply.Stopped? ==> mishaps > old(mishaps))
    {
      var polls :| polls >= 0;
      while polls > 0
        invariant Valid() && Drift(old(world), world) && mishaps >= old(mishaps)
      {
        var found := GetInstance(i);
        if found.Stopped? {
          return Stopped;
        } else if found.NotFound? || found.value.state == Terminated {
          return Answer(());
        }
        polls := polls - 1;
      }
      GiveUp();
      reply := Stopped;
    }

    /** Nothing but `asked` accepted deletion requests. */
    ghost predicate DeletionStep(a: World, b: World, asked: nat) {
      && Kept(a, b) && SameBooks(a, b)
      && b.removed == a.removed && b.detachRequests == a.detachRequests && b.effects == a.effects + asked
    }

    lemma DeletionThen(a: World, b: World, c: World, before: nat, more: nat)
      requires DeletionStep(a, b, before) && DeletionStep(b, c, more)
      ensures DeletionStep(a, c, before + more)
    {
      KeptThen(a, b, c);
    }

    /** `delete_managed_local_block_volume`: a volume that is still attached answers 409, which is waited out. */
    method DeleteVolume(v: Id, ghost r: Record) returns (reply: Reply<()>)
      requires Valid() && !world.scaling && r in world.journal && r.volume == v && Deletable(world, r)
      modifies this
      ensures Valid() && !reply.NotFound? && (reply.Answer? ==> VolumeOver(world, v))
      ensures DeletionStep(old(world), world, 0) || DeletionStep(old(world), world, 1)
      ensures VolumeOver(old(world), v) ==> DeletionStep(old(world), world, 0)
      ensures mishaps >= old(mishaps) && (reply.Stopped? ==> mishaps > old(mishaps))
    {
      var requested := false;
      var polls :| polls >= 0;
      ghost var start, asked := world, 0;
      while polls > 0
        invariant Valid() && DeletionStep(start, world, asked) && asked == if requested then 1 else 0
        invariant VolumeOver(start, v) ==> !requested
        invariant mishaps >= old(mishaps)
      {
        ghost var before := world;
        var found := GetVolume(v);
        DeletionThen(start, before, world, asked, 0);
        if found.Stopped? {
          return Stopped;
        } else if found.NotFound? || found.value.state == Terminated {
          return Answer(());
        }
        if !requested {
          before := world;
          var answer := AskVolumeDelete(v, r);
          requested := answer == Answer(true);
          asked := if requested then 1 else 0;
          DeletionThen(start, before, world, 0, asked);
          if answer.Stopped? {
            return Stopped;
          } else if answer.NotFound? {
            return Answer(());
          }
        }
        polls := polls - 1;
      }
      GiveUp();
      reply := Stopped;
    }

    /** One `delete_volume` call: true when accepted, false on a 409. */
    method AskVolumeDelete(v: Id, ghost r: Record) returns (reply: Reply<bool>)
      requires Valid() && !world.scaling && r in world.journal && r.volume == v && Deletable(world, r)
      modifies this
      ensures Valid() && DeletionStep(old(world), world, if reply == Answer(true) then 1 else 0)
      ensures reply.NotFound? ==> VolumeOver(world, v)
      ensures mishaps >= old(mishaps) && (reply.Stopped? ==> mishaps > old(mishaps))
    {
      Elapse();
      var failed := Fails();
      if failed {
        return Stopped;
      }
      if v !in world.volumes {
        return NotFound;
      }
      var refused: bool := *;
      if refused || Attached(world, v) {
        return Answer(false);
      }
      RequestVolumeDeleteOf(v, r);
      reply := Answer(true);
    }

    method RequestVolumeDeleteOf(v: Id, ghost r: Record)
      requires Valid() && r in world.journal && r.volume == v && Deletable(world, r)
      requires v in world.volumes && !Attached(world, v)
      modifies this
      ensures Valid() && DeletionStep(old(world), world, 1) && mishaps == old(mishaps)
    {
      Do(RequestVolumeDelete(v));
    }

    // ---- the journal file --------------------------------------------------------------------------

    /** What the script wrote it can read: only an unreadable file stops it. */
    method Load() returns (reply: Reply<seq<Record>>)
      requires Valid()
      modifies this`mishaps
      ensures Valid() && reply in {Answer(world.journal), Stopped}
      ensures mishaps == old(mishaps) + if reply.Stopped? then 1 else 0
    {
      var failed := Fails();
      if failed {
        return Stopped;
      }
      var loaded := LoadDeletions(world.journal);
      Sound();
      reply := Answer(loaded.value);
    }

    /** `remember_pending_local_block_volume_deletion`. The file is replaced in one step. */
    method RememberPending(r: Record) returns (reply: Reply<()>)
      requires Valid()
      requires HasVolume(world.journal, r.volume) || Enabled(setup, world, Remember(r))
      modifies this
      ensures Valid() && !reply.NotFound?
      ensures
        || world == old(world)
        || (world == old(world).(journal := old(world).journal + [r]) && !HasVolume(old(world).journal, r.volume))
      ensures reply.Answer? ==> r in world.journal
      ensures mishaps >= old(mishaps)
      ensures reply.Stopped? ==>
        mishaps > old(mishaps) || exists q :: q in old(world).journal && q.volume == r.volume && q != r
    {
      var loaded := Load();
      if !loaded.Answer? {
        return Stopped;
      }
      var pending := loaded.value;
      for k := 0 to |pending|
        invariant forall j :: 0 <= j < k ==> pending[j].volume != r.volume
      {
        if pending[k].volume == r.volume {
          return if pending[k] != r then Stopped else Answer(());
        }
      }
      var failed := Fails();
      if failed {
        return Stopped;
      }
      Do(Remember(r));
      reply := Answer(());
    }

    /** `build_pending_local_block_volume_deletion_record`; `seen` is the world the instance answered in. */
    method BuildRecord(i: Id, ip: nat, v: Id) returns (reply: Reply<Record>, ghost seen: World)
      requires Valid() && !world.scaling
      modifies this
      ensures Valid() && Kept(old(world), world) && SameFiles(old(world), world) && NoRequest(old(world), world)
      ensures reply.Answer? ==> var r := reply.value;
        && r.instance == i && r.ip == ip && r.volume == v && ValidRecord(r) && OwnRecord(setup, r)
        && r in world.matched && world.size <= r.sizeBefore <= seen.size <= old(world).size
        && Kept(old(world), seen) && Kept(seen, world) && i in seen.instances
        && r.instanceName == seen.instances[i].name && seen.instances[i].cluster == setup.cluster
      ensures reply.NotFound? ==> i !in world.instances || world.members == {} || v !in world.volumes
      ensures mishaps >= old(mishaps)
    {
      seen := world;
      var instance := GetInstance(i);
      seen := world;
      if !instance.Answer? {
        return if instance.NotFound? then NotFound else Stopped, seen;
      }
      if instance.value.cluster != setup.cluster {
        return Stopped, seen;
      }
      var size := GetPoolSize();
      if !size.Answer? {
        return if size.NotFound? then NotFound else Stopped, seen;
      }
      if size.value < 1 {
        return Stopped, seen;
      }
      var volume := GetVolume(v);
      if !volume.Answer? {
        return if volume.NotFound? then NotFound else Stopped, seen;
      }
      var info := volume.value.info;
      var r := Record(setup.cluster, setup.compartment, i, instance.value.name, ip, setup.pool,
                      size.value, v, info.name, info.sizeGb, info.vpus);
      if !ValidRecord(r) || !Matches(setup, r, info) {
        return Stopped, seen;
      }
      Match(r);
      reply := Answer(r);
    }

    method Match(r: Record)
      requires Valid() && r.volume in world.volumes && Matches(setup, r, world.volumes[r.volume].info)
      modifies this
      ensures Valid() && world == old(world).(matched := old(world).matched + {r}) && Kept(old(world), world)
      ensures mishaps == old(mishaps)
    {
      Do(VetVolume(r));
    }

    /** `get_exclusive_managed_local_block_volume_attachment`: what the node holds, seen after it answered. */
    method GetScratch(i: Id) returns (reply: Reply<Scratch>)
      requires Valid()
      modifies this
      ensures Valid() && Drift(old(world), world)
      ensures mishaps >= old(mishaps) && (reply.Stopped? ==> mishaps > old(mishaps))
      ensures reply.Answer? ==> reply.value == if i in world.instances then world.instances[i].scratch else NoScratch
      ensures reply.NotFound? ==> i !in world.instances
    {
      var instance := GetInstance(i);
      if !instance.Answer? {
        return if instance.NotFound? then NotFound else Stopped;
      }
      Elapse();
      var failed := Fails();
      if failed {
        return Stopped;
      }
      reply := Answer(if i in world.instances then world.instances[i].scratch else NoScratch);
    }

    /** The first half of `remove_instance_pool_member_and_managed_local_block_volume`: when the node holds an
        explicit volume its record is in the journal before anything is asked of the node. */
    method RecordVictim(i: Id, ip: nat) returns (reply: Reply<Option<Record>>)
      requires Valid() && !world.scaling && (i in world.members || i in world.removed)
      modifies this
      ensures Valid() && Kept(old(world), world) && NoRequest(old(world), world)
      ensures world.dns == old(world).dns && SameCounts(old(world), world)
      ensures JournalGained(old(world), world, i, ip)
      ensures reply.Answer? ==> Covered(world, i)
      ensures reply.Answer? && reply.value.None? ==> world.journal == old(world).journal
      ensures reply.Answer? && reply.value.Some? ==> var r := reply.value.value;
        r in world.journal && r in world.matched && r.instance == i && r.ip == ip
      ensures mishaps >= old(mishaps)
      ensures reply.NotFound? ==> Slipped(old(world), world, i)
    {
      var scratch := GetScratch(i);
      if !scratch.Answer? {
        return if scratch.NotFound? then NotFound else Stopped;
      }
      if !scratch.value.Explicit? {
        return Answer(None);
      }
      var built := BuildFor(i, ip, scratch.value.volume);
      if !built.Answer? {
        return if built.NotFound? then NotFound else Stopped;
      }
      var remembered := RememberPending(built.value);
      reply := if remembered.Answer? then Answer(Some(built.value)) else Stopped;
    }

    method BuildFor(i: Id, ip: nat, v: Id) returns (reply: Reply<Record>)
      requires Valid() && !world.scaling && (i in world.members || i in world.removed)
      requires i in world.instances && world.instances[i].scratch == Explicit(v)
      modifies this
      ensures Valid() && Kept(old(world), world) && SameFiles(old(world), world) && NoRequest(old(world), world)
      ensures reply.Answer? ==> var r := reply.value;
        && r.instance == i && r.ip == ip && r.volume == v && r in world.matched
        && (HasVolume(world.journal, v) || Enabled(setup, world, Remember(r)))
      ensures mishaps >= old(mishaps)
      ensures reply.NotFound? ==> Slipped(old(world), world, i)
    {
      ghost var start := world;
      Sound();
      ghost var seen;
      reply, seen := BuildRecord(i, ip, v);
      Sound();
      if reply.Answer? && !HasVolume(world.journal, v) {
        FreshVictim(setup, start, world, i, v);
      }
    }

    /** `remove_instance_pool_member_and_managed_local_block_volume` */
    method RemoveMember(i: Id, ip: nat) returns (reply: Reply<Option<Record>>)
      requires Valid() && !world.scaling && i in world.vetted && (i in world.members || i in world.removed)
      modifies this
      ensures Valid() && Kept(old(world), world) && JournalGained(old(world), world, i, ip)
      ensures world.dns == old(world).dns && SameCounts(old(world), world)
      ensures reply.Answer? ==> InstanceOver(world, i) && i !in world.members
      ensures reply.Answer? && reply.value.None? ==> world.journal == old(world).journal
      ensures reply.Answer? && reply.value.Some? ==> var r := reply.value.value;
        r in world.journal && r.instance == i && r.ip == ip && VolumeOver(world, r.volume)
      ensures mishaps >= old(mishaps)
      ensures RemovedOnly(old(world), world, {i})
      ensures reply.NotFound? ==> Slipped(old(world), world, i)
    {
      var recorded := RecordVictim(i, ip);
      if !recorded.Answer? {
        return if recorded.NotFound? then NotFound else Stopped;
      }
      var gone := TakeDown(i);
      if !gone.Answer? {
        return if gone.NotFound? then NotFound else Stopped;
      }
      if recorded.value.Some? {
        var r := recorded.value.value;
        var deleted := DeleteVolume(r.volume, r);
        if !deleted.Answer? {
          return Stopped;
        }
      }
      Sound();
      reply := Answer(recorded.value);
    }

    /** Detach, then terminate. */
    method TakeDown(i: Id) returns (reply: Reply<()>)
      requires Valid() && !world.scaling && i in world.vetted && Covered(world, i)
      modifies this
      ensures Valid() && Kept(old(world), world) && SameBooks(old(world), world)
      ensures reply.Answer? ==> InstanceOver(world, i) && i !in world.members
      ensures i !in old(world).members ==> world.detachRequests == old(world).detachRequests
      ensures InstanceOver(old(world), i) && i !in old(world).members ==> NoRequest(old(world), world)
      ensures world.detachRequests <= old(world).detachRequests + 1
      ensures RemovedOnly(old(world), world, {i})
      ensures reply.NotFound? ==> i !in world.members
      ensures mishaps >= old(mishaps) && (!reply.Answer? ==> mishaps > old(mishaps))
    {
      ghost var start := world;
      var detached := DetachIfNeeded(i);
      if !detached.Answer? {
        return if detached.NotFound? then NotFound else Stopped;
      }
      CoveredStays(start, world, i);
      reply := TerminateInstance(i);
    }

    // ---- replaying the journal ---------------------------------------------------------------------

    /** The instance or the volume of the record is not what the record says any more. */
    ghost predicate Unrecognised(w: World, r: Record) {
      || (r.instance in w.instances
          && (w.instances[r.instance].cluster != setup.cluster || w.instances[r.instance].name != r.instanceName))
      || (r.volume in w.volumes && !Matches(setup, r, w.volumes[r.volume].info))
    }

    /** The removal of a node that is still in the pool must be resumed by name. */
    ghost predicate Unresumed(w: World, r: Record, resume: bool) {
      !resume && r.instance in w.members
    }

    /** One turn of `retry_pending_local_block_volume_deletions`. */
    method RetryOne(r: Record, resume: bool) returns (reply: Reply<()>)
      requires Valid() && !world.scaling && r in world.journal
      modifies this
      ensures Valid() && Kept(old(world), world) && SameFiles(old(world), world) && !reply.NotFound?
      ensures reply.Answer? ==> InstanceOver(world, r.instance) && VolumeOver(world, r.volume)
      ensures !resume ==> world.detachRequests == old(world).detachRequests
      ensures InstanceOver(old(world), r.instance) && VolumeOver(old(world), r.volume) ==> NoRequest(old(world), world)
      ensures RemovedOnly(old(world), world, {r.instance})
      ensures mishaps >= old(mishaps)
      ensures reply.Stopped? ==>
        mishaps > old(mishaps) || Unrecognised(world, r) || Unresumed(old(world), r, resume)
    {
      Sound();
      if r.cluster != setup.cluster || r.compartment != setup.compartment {
        return Stopped;
      }
      var ended := RetryInstance(r, resume);
      if !ended.Answer? {
        return Stopped;
      }
      reply := RetryVolume(r);
    }

    method RetryInstance(r: Record, resume: bool) returns (reply: Reply<()>)
      requires Valid() && !world.scaling && r in world.journal
      modifies this
      ensures Valid() && Kept(old(world), world) && SameFiles(old(world), world) && !reply.NotFound?
      ensures reply.Answer? ==> InstanceOver(world, r.instance)
      ensures !resume ==> world.detachRequests == old(world).detachRequests
      ensures InstanceOver(old(world), r.instance) ==> NoRequest(old(world), world)
      ensures RemovedOnly(old(world), world, {r.instance})
      ensures mishaps >= old(mishaps)
      ensures reply.Stopped? ==>
        mishaps > old(mishaps) || Unrecognised(world, r) || Unresumed(old(world), r, resume)
    {
      var instance := GetInstance(r.instance);
      if instance.Stopped? {
        return Stopped;
      } else if instance.NotFound? {
        return Answer(());
      }
      if instance.value.cluster != setup.cluster || instance.value.name != r.instanceName {
        return Stopped;
      }
      if instance.value.state == Terminated {
        return Answer(());
      }
      VetNode(r.instance);
      reply := RetryTakeDown(r, resume);
    }

    method VetNode(i: Id)
      requires Valid() && i in world.instances && world.instances[i].cluster == setup.cluster
      modifies this
      ensures Valid() && world == old(world).(vetted := old(world).vetted + {i}) && Kept(old(world), world)
      ensures mishaps == old(mishaps)
    {
      Do(VetInstance(i));
    }

    method RetryTakeDown(r: Record, resume: bool) returns (reply: Reply<()>)
      requires Valid() && !world.scaling && r in world.journal && r.instance in world.vetted
      modifies this
      ensures Valid() && Kept(old(world), world) && SameFiles(old(world), world) && !reply.NotFound?
      ensures reply.Answer? ==> InstanceOver(world, r.instance)
      ensures !resume ==> world.detachRequests == old(world).detachRequests
      ensures RemovedOnly(old(world), world, {r.instance})
      ensures mishaps >= old(mishaps)
      ensures reply.Stopped? ==> mishaps > old(mishaps) || Unresumed(old(world), r, resume)
    {
      var listed := ListMembers();
      if listed.Stopped? {
        return Stopped;
      }
      Sound();
      if listed.Answer? && r.instance in listed.value {
        if !resume {
          return Stopped;
        }
        var gone := TakeDown(r.instance);
        reply := if gone.Answer? then gone else Stopped;
      } else {
        reply := TerminateInstance(r.instance);
      }
    }

    method RetryVolume(r: Record) returns (reply: Reply<()>)
      requires Valid() && !world.scaling && r in world.journal && InstanceOver(world, r.instance)
      modifies this
      ensures Valid() && Kept(old(world), world) && SameFiles(old(world), world) && !reply.NotFound?
      ensures reply.Answer? ==> VolumeOver(world, r.volume)
      ensures world.detachRequests == old(world).detachRequests && world.removed == old(world).removed
      ensures VolumeOver(old(world), r.volume) ==> NoRequest(old(world), world)
      ensures mishaps >= old(mishaps) && (reply.Stopped? ==> mishaps > old(mishaps) || Unrecognised(world, r))
    {
      var volume := GetVolume(r.volume);
      if volume.Stopped? {
        return Stopped;
      } else if volume.NotFound? {
        return Answer(());
      }
      if !Matches(setup, r, volume.value.info) {
        return Stopped;
      }
      Match(r);
      reply := DeleteVolume(r.volume, r);
    }

    /** Why a replay may stop although nothing failed. */
    ghost predicate Obstacle(a: World, b: World, pending: seq<Record>, resume: bool) {
      exists r :: r in pending && (Unrecognised(b, r) || Unresumed(a, r, resume))
    }

    /** `retry_pending_local_block_volume_deletions`: when it returns, every removal in the journal has run to
        its end and the list is the journal, in order. It detaches nobody unless told to resume, and where
        everything is already over it asks for nothing. It stops only where a call fails, an instance or a volume
        is not what its record says, or a node is still in the pool and it was not told to resume. */
    method RetryPending(resume: bool) returns (reply: Reply<seq<Record>>)
      requires Valid()
      modifies this
      ensures Valid() && Kept(old(world), world) && SameFiles(old(world), world) && !reply.NotFound?
      ensures reply.Answer? ==> reply.value == world.journal && AllOver(world, world.journal)
      ensures !resume ==> world.detachRequests == old(world).detachRequests
      ensures AllOver(old(world), old(world).journal) ==> NoRequest(old(world), world)
      ensures RemovedOnly(old(world), world, Instances(old(world).journal))
      ensures mishaps >= old(mishaps)
      ensures reply.Stopped? ==> mishaps > old(mishaps) || Obstacle(old(world), world, old(world).journal, resume)
    {
      var loaded := Load();
      if !loaded.Answer? {
        return Stopped;
      }
      SteadyWhilePending();
      reply := RetryEach(loaded.value, resume);
    }

    /** What the turns of the loop leave unchanged, or change only as told. */
    ghost predicate Replayed(a: World, b: World, resume: bool)
    {
      && Kept(a, b) && SameFiles(a, b)
      && (!resume ==> b.detachRequests == a.detachRequests)
      && (AllOver(a, a.journal) ==> NoRequest(a, b))
      && RemovedOnly(a, b, Instances(a.journal))
    }

    lemma ReplayedThen(a: World, b: World, c: World, r: Record, resume: bool)
      requires !a.scaling && r in a.journal && Replayed(a, b, resume) && Kept(b, c) && SameFiles(b, c)
      requires (!resume ==> c.detachRequests == b.detachRequests) && RemovedOnly(b, c, {r.instance})
      requires InstanceOver(b, r.instance) && VolumeOver(b, r.volume) ==> NoRequest(b, c)
      ensures Replayed(a, c, resume)
    {
      KeptThen(a, b, c);
    }

    method RetryEach(pending: seq<Record>, resume: bool) returns (reply: Reply<seq<Record>>)
      requires Valid() && pending == world.journal && (pending != [] ==> !world.scaling)
      modifies this
      ensures Valid() && Replayed(old(world), world, resume) && !reply.NotFound?
      ensures reply.Answer? ==> reply.value == pending && AllOver(world, pending)
      ensures mishaps >= old(mishaps)
      ensures reply.Stopped? ==> mishaps > old(mishaps) || Obstacle(old(world), world, pending, resume)
    {
      var ready := [];
      ghost var start := world;
      for k := 0 to |pending|
        invariant Valid() && Replayed(start, world, resume)
        invariant ready == pending[..k] && AllOver(world, ready) && mishaps >= old(mishaps)
      {
        ghost var before := world;
        var replayed := RetryNext(ready, pending[k], resume);
        ReplayedThen(start, before, world, pending[k], resume);
        if !replayed.Answer? {
          return Stopped;
        }
        ready := ready + [pending[k]];
      }
      reply := Answer(ready);
    }

    method RetryNext(ghost done: seq<Record>, r: Record, resume: bool) returns (reply: Reply<()>)
      requires Valid() && !world.scaling && r in world.journal && AllOver(world, done)
      modifies this
      ensures Valid() && Kept(old(world), world) && SameFiles(old(world), world) && !reply.NotFound?
      ensures reply.Answer? ==> AllOver(world, done + [r])
      ensures !resume ==> world.detachRequests == old(world).detachRequests
      ensures InstanceOver(old(world), r.instance) && VolumeOver(old(world), r.volume) ==> NoRequest(old(world), world)
      ensures RemovedOnly(old(world), world, {r.instance})
      ensures mishaps >= old(mishaps)
      ensures reply.Stopped? ==>
        mishaps > old(mishaps) || Unrecognised(world, r) || Unresumed(old(world), r, resume)
    {
      reply := RetryOne(r, resume);
    }
  }
}
