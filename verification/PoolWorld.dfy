/** The durable world of bin/resize.py - one instance pool, its scratch volumes, DNS, Terraform's node
    count and the removal journal - and the events that change it. A run is any interleaving of the
    script's own effects, processes starting anew after a crash, and the cloud finishing what it was asked. */
module PoolWorld {
  import opened Wrappers
  import opened NodeDns

  type Id = string

  datatype Lifecycle = Running | Terminating | Terminated

  /** The scratch attachment of an instance. Explicit: managed by the cluster and not created at launch,
      so nothing but an explicit delete ever removes its volume. */
  datatype Scratch = NoScratch | LaunchCreated(volume: Id) | Explicit(volume: Id)

  datatype Instance = Instance(state: Lifecycle, name: string, cluster: string, ip: nat, scratch: Scratch)

  /** What `validate_pending_local_block_volume` compares; `purpose` is the scratch tag. */
  datatype VolumeInfo = VolumeInfo(name: string, compartment: string, cluster: string, purpose: bool, sizeGb: int,
                                   vpus: int)

  datatype Volume = Volume(state: Lifecycle, info: VolumeInfo)

  /** A journal record. */
  datatype Record = Record(
    cluster: string, compartment: string, instance: Id, instanceName: string, ip: nat, pool: Id,
    sizeBefore: int, volume: Id, volumeName: string, sizeGb: int, vpus: int)

  /** What the script is started for. `autoscaling`: the inventory is not /etc/ansible/hosts. */
  datatype Setup = Setup(cluster: string, compartment: string, pool: Id, dnsEntries: bool, autoscaling: bool,
                         naming: Naming)

  datatype World = World(
    instances: map<Id, Instance>,
    volumes: map<Id, Volume>,
    members: set<Id>, size: int,   // the pool; its size is what was last asked for
    scaling: bool,                 // its state is not RUNNING: the members do not match the size yet
    detaching: set<Id>,            // detach requests the service has accepted
    dns: set<string>,
    terraformSize: int,            // "size" in Terraform's state
    variablesSize: int,            // the default of node_count in variables.tf
    journal: seq<Record>,
    removed: map<Id, Scratch>,     // history: attachment when the script first asked to detach or terminate
    vetted: set<Id>,               // instances the running process has matched against its cluster
    matched: set<Record>,          // records the running process has matched against their volume
    relabelled: set<Id>,           // history: instances somebody gave another name or cluster
    detachRequests: nat,           // history
    effects: nat                   // history: remote changes asked for by the script
  )

  datatype Event =
    // the cloud
    | InstanceTerminated(i: Id) | InstanceForgotten(i: Id)
    | Detached(i: Id) | AttachmentDropped(i: Id)
    | VolumeTerminated(v: Id) | VolumeForgotten(v: Id)
    | Arrived(i: Id, instance: Instance, brought: map<Id, Volume>) | Withdrawn(i: Id) | Scaled
    | InstanceRelabelled(i: Id, name: string, cluster: string) | VolumeRelabelled(v: Id, info: VolumeInfo)
    // the script
    | Start
    | VetInstance(i: Id) | VetVolume(r: Record)
    | Remember(r: Record)
    | RequestDetach(i: Id) | RequestTerminate(i: Id) | RequestVolumeDelete(v: Id)
    | DeleteDns(d: string) | AddDns(d: string) | PushTerraform(n: int) | WriteVariables(n: int)
    | Forget(volumesDone: set<Id>)
    | RequestSize(n: int)

  // ---- vocabulary --------------------------------------------------------------------------------

  predicate InstanceOver(w: World, i: Id) {
    i !in w.instances || w.instances[i].state == Terminated
  }

  predicate VolumeOver(w: World, v: Id) {
    v !in w.volumes || w.volumes[v].state == Terminated
  }

  predicate Journaled(w: World, i: Id, v: Id) {
    exists r :: r in w.journal && r.instance == i && r.volume == v
  }

  predicate HasVolume(journal: seq<Record>, v: Id) {
    exists r :: r in journal && r.volume == v
  }

  predicate Attached(w: World, v: Id) {
    exists i :: i in w.instances && w.instances[i].scratch == Explicit(v)
  }

  /** An explicit scratch volume of `i` that still exists is in the journal. */
  predicate Covered(w: World, i: Id) {
    i in w.instances && w.instances[i].scratch.Explicit? && !VolumeOver(w, w.instances[i].scratch.volume)
    ==> Journaled(w, i, w.instances[i].scratch.volume)
  }

  /** `validate_pending_local_block_volume_deletion_record` */
  predicate ValidRecord(r: Record) {
    && r.cluster != "" && r.compartment != "" && r.instance != "" && r.instanceName != "" && r.pool != ""
    && r.volume != "" && r.volumeName != ""
    && r.sizeGb >= 50 && r.vpus in {0, 10, 20} && r.sizeBefore >= 1
  }

  predicate OwnRecord(setup: Setup, r: Record) {
    r.cluster == setup.cluster && r.compartment == setup.compartment && r.pool == setup.pool
  }

  /** `validate_pending_local_block_volume` */
  predicate Matches(setup: Setup, r: Record, info: VolumeInfo) {
    && r.cluster == setup.cluster
    && r.compartment == setup.compartment
    && r.volumeName == setup.cluster + "-local-scratch"
    && info == VolumeInfo(r.volumeName, setup.compartment, setup.cluster, true, r.sizeGb, r.vpus)
  }

  predicate UniqueVolumes(journal: seq<Record>) {
    forall j, k :: 0 <= j < k < |journal| ==> journal[j].volume != journal[k].volume
  }

  /** `load_pending_local_block_volume_deletions` accepts the file. */
  predicate Loadable(journal: seq<Record>) {
    (forall j :: 0 <= j < |journal| ==> ValidRecord(journal[j])) && UniqueVolumes(journal)
  }

  function Without(journal: seq<Record>, done: set<Id>): (rest: seq<Record>)
    ensures forall r :: r in rest <==> r in journal && r.volume !in done
    ensures |rest| <= |journal|
  {
    if journal == [] then []
    else
      assert journal == [journal[0]] + journal[1..];
      (if journal[0].volume in done then [] else [journal[0]]) + Without(journal[1..], done)
  }

  /** Both DNS names of a removed node are gone. */
  predicate DnsSettled(setup: Setup, w: World, r: Record)
    requires setup.naming.subnet.Some? ==> setup.naming.subnet.value.prefix <= 32
  {
    var domains := setup.naming.Domains(r.instanceName, r.ip);
    domains.Ok? && forall d :: d in domains.value ==> d !in w.dns
  }

  /** Terraform's state and its variables count the pool as it is after this removal, if not later ones. */
  predicate CountSettled(w: World, r: Record) {
    w.size <= w.terraformSize < r.sizeBefore && w.size <= w.variablesSize < r.sizeBefore
  }

  /** A removal that is over in every respect. */
  predicate Settled(setup: Setup, w: World, r: Record)
    requires setup.naming.subnet.Some? ==> setup.naming.subnet.value.prefix <= 32
  {
    && InstanceOver(w, r.instance) && VolumeOver(w, r.volume)
    && r.instance !in w.members && w.size < r.sizeBefore
    && (setup.dnsEntries ==> DnsSettled(setup, w, r))
    && (setup.autoscaling ==> CountSettled(w, r))
  }

  predicate GoodSetup(setup: Setup) {
    setup.naming.subnet.Some? ==> setup.naming.subnet.value.prefix <= 32
  }

  // ---- events ------------------------------------------------------------------------------------

  predicate IsCloud(e: Event) {
    || e.InstanceTerminated? || e.InstanceForgotten? || e.Detached? || e.AttachmentDropped?
    || e.VolumeTerminated? || e.VolumeForgotten? || e.Arrived? || e.Withdrawn? || e.Scaled?
    || e.InstanceRelabelled? || e.VolumeRelabelled?
  }

  function SetState(w: World, i: Id, state: Lifecycle): World {
    if i in w.instances then w.(instances := w.instances[i := w.instances[i].(state := state)]) else w
  }

  function SetVolumeState(w: World, v: Id, state: Lifecycle): World {
    if v in w.volumes then w.(volumes := w.volumes[v := w.volumes[v].(state := state)]) else w
  }

  function NoteRemoval(w: World, i: Id): World {
    if i in w.instances && i !in w.removed then w.(removed := w.removed[i := w.instances[i].scratch]) else w
  }

  function DropAttachment(w: World, i: Id): World {
    if i in w.instances then w.(instances := w.instances[i := w.instances[i].(scratch := NoScratch)]) else w
  }

  function Relabel(w: World, i: Id, name: string, cluster: string): World {
    if i in w.instances then
      w.(instances := w.instances[i := w.instances[i].(name := name, cluster := cluster)],
         relabelled := w.relabelled + {i})
    else w
  }

  function RelabelVolume(w: World, v: Id, info: VolumeInfo): World {
    if v in w.volumes then w.(volumes := w.volumes[v := w.volumes[v].(info := info)]) else w
  }

  predicate LiveScratch(scratch: Scratch, volumes: map<Id, Volume>) {
    scratch.Explicit? ==> scratch.volume in volumes && volumes[scratch.volume].state == Running
  }

  /** A new instance: a new OCID, running, with its scratch volume. */
  predicate IsNew(w: World, i: Id, instance: Instance, brought: map<Id, Volume>) {
    && i !in w.instances && i !in w.members && i !in w.removed
    && brought.Keys !! w.volumes.Keys
    && (forall j :: j in w.removed && w.removed[j].Explicit? ==> w.removed[j].volume !in brought)
    && instance.state == Running && LiveScratch(instance.scratch, brought)
  }

  /** What the service can do by itself. A requested size is reached one instance at a time, up or down. OCIDs
      are never reused, and nobody else changes pool, volumes or journal. */
  predicate CloudEnabled(w: World, e: Event)
    requires IsCloud(e)
  {
    match e
    case InstanceTerminated(i) => i in w.instances && w.instances[i].state == Terminating
    case InstanceForgotten(i) => i in w.instances && w.instances[i].state == Terminated
    case Detached(i) => i in w.detaching && i in w.members
    case AttachmentDropped(i) => i in w.instances
    case VolumeTerminated(v) => v in w.volumes && w.volumes[v].state == Terminating
    case VolumeForgotten(v) => v in w.volumes && w.volumes[v].state == Terminated
    case Arrived(i, instance, brought) => w.scaling && |w.members| < w.size && IsNew(w, i, instance, brought)
    case Withdrawn(i) => w.scaling && w.size < |w.members| && i in w.members && i in w.instances
    case Scaled => w.scaling && |w.members| == w.size
    case InstanceRelabelled(i, _, _) => i in w.instances
    case VolumeRelabelled(v, _) => v in w.volumes
  }

  /** The instance of a journaled record is over, and this process matched the record against the volume. */
  predicate Deletable(w: World, r: Record) {
    InstanceOver(w, r.instance) && r in w.matched
  }

  /** What the script allows itself. */
  predicate ScriptEnabled(setup: Setup, w: World, e: Event)
    requires !IsCloud(e) && GoodSetup(setup)
  {
    match e
    case Start => true
    case VetInstance(i) => i in w.instances && w.instances[i].cluster == setup.cluster
    case VetVolume(r) => r.volume in w.volumes && Matches(setup, r, w.volumes[r.volume].info)
    case Remember(r) =>
      && !w.scaling && ValidRecord(r) && OwnRecord(setup, r) && !HasVolume(w.journal, r.volume) && r in w.matched
      && r.instance in w.members && r.instance !in w.removed && w.size <= r.sizeBefore
      && r.instance in w.instances && w.instances[r.instance].scratch in {Explicit(r.volume), NoScratch}
    case RequestDetach(i) => i in w.instances && i in w.vetted && Covered(w, i)
    case RequestTerminate(i) =>
      && i in w.instances && w.instances[i].state == Running
      && i in w.vetted && i !in w.members && Covered(w, i)
    case RequestVolumeDelete(v) =>
      v in w.volumes && !Attached(w, v) && exists r :: r in w.journal && r.volume == v && Deletable(w, r)
    case DeleteDns(_) => true
    case AddDns(_) => w.journal == []
    case PushTerraform(_) => setup.autoscaling
    case WriteVariables(_) => setup.autoscaling
    case Forget(done) => forall r :: r in w.journal && r.volume in done ==> Settled(setup, w, r)
    case RequestSize(_) => w.journal == []
  }

  predicate Enabled(setup: Setup, w: World, e: Event)
    requires GoodSetup(setup)
  {
    if IsCloud(e) then CloudEnabled(w, e) else ScriptEnabled(setup, w, e)
  }

  /** The world after an event; an event that is not enabled need not make sense. */
  function CloudNext(w: World, e: Event): World
    requires IsCloud(e)
  {
    match e
    case InstanceTerminated(i) => SetState(w, i, Terminated)
    case InstanceForgotten(i) => w.(instances := w.instances - {i})
    case Detached(i) => w.(members := w.members - {i}, size := w.size - 1)
    case AttachmentDropped(i) => DropAttachment(w, i)
    case VolumeTerminated(v) => SetVolumeState(w, v, Terminated)
    case VolumeForgotten(v) => w.(volumes := w.volumes - {v})
    case Arrived(i, instance, brought) =>
      w.(instances := w.instances[i := instance], volumes := w.volumes + brought, members := w.members + {i})
    case Withdrawn(i) => SetState(w, i, Terminating).(members := w.members - {i})
    case Scaled => w.(scaling := false)
    case InstanceRelabelled(i, name, cluster) => Relabel(w, i, name, cluster)
    case VolumeRelabelled(v, info) => RelabelVolume(w, v, info)
  }

  function ScriptNext(w: World, e: Event): World
    requires !IsCloud(e)
  {
    match e
    case Start => w.(vetted := {}, matched := {})
    case VetInstance(i) => w.(vetted := w.vetted + {i})
    case VetVolume(r) => w.(matched := w.matched + {r})
    case Remember(r) => w.(journal := w.journal + [r])
    case RequestDetach(i) =>
      NoteRemoval(w, i).(detaching := w.detaching + {i}, detachRequests := w.detachRequests + 1,
                         effects := w.effects + 1)
    case RequestTerminate(i) => SetState(NoteRemoval(w, i), i, Terminating).(effects := w.effects + 1)
    case RequestVolumeDelete(v) => StartDeletion(w, v).(effects := w.effects + 1)
    case DeleteDns(d) => w.(dns := w.dns - {d}, effects := w.effects + 1)
    case AddDns(d) => w.(dns := w.dns + {d}, effects := w.effects + 1)
    case PushTerraform(n) => w.(terraformSize := n, effects := w.effects + 1)
    case WriteVariables(n) => w.(variablesSize := n)
    case Forget(done) => w.(journal := Without(w.journal, done))
    case RequestSize(n) => w.(size := n, scaling := true, effects := w.effects + 1)
  }

  function StartDeletion(w: World, v: Id): World {
    if v in w.volumes && w.volumes[v].state == Running then SetVolumeState(w, v, Terminating) else w
  }

  function Next(w: World, e: Event): World {
    if IsCloud(e) then CloudNext(w, e) else ScriptNext(w, e)
  }

  // ---- what every event keeps ----------------------------------------------------------------------

  /** No orphan: an explicit volume that was attached when the script first asked to detach or terminate
      its instance, and that still exists, is in the journal. */
  ghost predicate NoOrphan(w: World) {
    forall i :: i in w.removed && w.removed[i].Explicit? && !VolumeOver(w, w.removed[i].volume)
                ==> Journaled(w, i, w.removed[i].volume)
  }

  ghost predicate JournalSound(setup: Setup, w: World) {
    && Loadable(w.journal)
    && (forall r :: r in w.journal ==> OwnRecord(setup, r))
    && (forall r :: r in w.journal && r.instance in w.instances ==>
          w.instances[r.instance].scratch in {Explicit(r.volume), NoScratch})
  }

  /** Attachments are never gained, and an attached volume is neither gone nor going. */
  ghost predicate AttachmentsSound(w: World) {
    && (forall i :: i in w.removed && i in w.instances ==> w.instances[i].scratch in {w.removed[i], NoScratch})
    && (forall i :: i in w.instances ==> LiveScratch(w.instances[i].scratch, w.volumes))
  }

  ghost predicate PoolSound(w: World) {
    && (!w.scaling ==> |w.members| == w.size)
    && w.detaching <= w.removed.Keys
    && (forall i :: i in w.members ==> i in w.instances && w.instances[i].state == Running)
  }

  /** The pool has shrunk, or is about to, for every pending removal. */
  ghost predicate SizeSound(w: World) {
    forall r :: r in w.journal ==> w.size <= r.sizeBefore && (r.instance !in w.members ==> w.size < r.sizeBefore)
  }

  /** A size change is over before a removal begins. */
  ghost predicate ScaleSound(w: World) {
    w.scaling ==> w.journal == []
  }

  ghost predicate Inv(setup: Setup, w: World) {
    NoOrphan(w) && JournalSound(setup, w) && AttachmentsSound(w) && PoolSound(w) && SizeSound(w) && ScaleSound(w)
  }

  lemma {:induction false} WithoutKeepsOrder(journal: seq<Record>, done: set<Id>)
    requires Loadable(journal)
    ensures Loadable(Without(journal, done))
  {
    if journal != [] {
      assert journal == [journal[0]] + journal[1..];
      WithoutKeepsOrder(journal[1..], done);
      var rest := Without(journal[1..], done);
      forall k | 0 <= k < |rest|
        ensures rest[k].volume != journal[0].volume
      {
        assert rest[k] in journal[1..];
      }
    }
  }

  /** The address never changes; name and cluster only when somebody changes them. */
  predicate SameLabels(a: Instance, b: Instance, relabelled: bool) {
    b.ip == a.ip && (relabelled || (b.name == a.name && b.cluster == a.cluster))
  }

  ghost predicate InstancesStep(w: World, e: Event, t: World) {
    match e
    case InstanceTerminated(i) => t.instances == SetState(w, i, Terminated).instances
    case InstanceForgotten(i) => t.instances == w.instances - {i}
    case AttachmentDropped(i) => t.instances == DropAttachment(w, i).instances
    case Withdrawn(i) => t.instances == SetState(w, i, Terminating).instances
    case InstanceRelabelled(i, name, cluster) => t.instances == Relabel(w, i, name, cluster).instances
    case RequestTerminate(i) => t.instances == SetState(w, i, Terminating).instances
    case Arrived(i, instance, _) => t.instances == w.instances[i := instance]
    case _ => t.instances == w.instances
  }

  lemma InstancesAfter(w: World, e: Event)
    ensures InstancesStep(w, e, Next(w, e))
  {}

  /** An event takes no instance but one it forgets, and changes none but the one it names. */
  lemma InstanceMoved(w: World, e: Event, t: World, i: Id)
    requires InstancesStep(w, e, t) && !e.Arrived?
    ensures
      if i in t.instances then
        && i in w.instances
        && t.instances[i].scratch in {w.instances[i].scratch, NoScratch}
        && SameLabels(w.instances[i], t.instances[i], e.InstanceRelabelled? && e.i == i)
        && (t.instances[i].state != w.instances[i].state ==>
              e == RequestTerminate(i) || e == Withdrawn(i) || e == InstanceTerminated(i))
      else i in w.instances ==> e == InstanceForgotten(i)
  {}

  lemma InstanceArrived(setup: Setup, w: World, e: Event, i: Id)
    requires GoodSetup(setup) && Enabled(setup, w, e) && e.Arrived?
    ensures var t := Next(w, e);
      i in t.instances ==>
        if i in w.instances then t.instances[i] == w.instances[i]
        else e.i == i && t.instances[i] == e.instance && LiveScratch(e.instance.scratch, t.volumes)
  {}

  /** What the service must have been asked before an instance ends or is forgotten. */
  lemma EndIsDue(setup: Setup, w: World, e: Event, i: Id)
    requires GoodSetup(setup) && Enabled(setup, w, e)
    ensures e == InstanceTerminated(i) ==> i in w.instances && w.instances[i].state == Terminating
    ensures e == InstanceForgotten(i) ==> i in w.instances && w.instances[i].state == Terminated
    ensures e == RequestTerminate(i) ==> i in w.instances && w.instances[i].state == Running && i !in w.members
  {}

  /** An instance after an event: the same one, possibly relabelled, detached or further on; or a new one. */
  lemma InstanceAfter(setup: Setup, w: World, e: Event, i: Id)
    requires GoodSetup(setup) && Enabled(setup, w, e) && i in Next(w, e).instances
    ensures var t := Next(w, e);
      if i in w.instances then
        && t.instances[i].scratch in {w.instances[i].scratch, NoScratch}
        && (t.instances[i].state != w.instances[i].state ==>
              || e == RequestTerminate(i) || e == Withdrawn(i)
              || (e == InstanceTerminated(i) && w.instances[i].state == Terminating))
      else e.Arrived? && e.i == i && t.instances[i] == e.instance && LiveScratch(e.instance.scratch, t.volumes)
  {
    if e.Arrived? {
      InstanceArrived(setup, w, e, i);
    } else {
      InstancesAfter(w, e);
      InstanceMoved(w, e, Next(w, e), i);
      EndIsDue(setup, w, e, i);
    }
  }

  lemma RelabelledAfter(w: World, e: Event)
    ensures w.relabelled <= Next(w, e).relabelled
    ensures e.InstanceRelabelled? && e.i in w.instances ==> e.i in Next(w, e).relabelled
  {}

  ghost predicate VolumesStep(w: World, e: Event, t: World) {
    match e
    case VolumeTerminated(v) => t.volumes == SetVolumeState(w, v, Terminated).volumes
    case VolumeForgotten(v) => t.volumes == w.volumes - {v}
    case VolumeRelabelled(v, info) => t.volumes == RelabelVolume(w, v, info).volumes
    case Arrived(_, _, brought) => t.volumes == w.volumes + brought
    case RequestVolumeDelete(v) => t.volumes == StartDeletion(w, v).volumes
    case _ => t.volumes == w.volumes
  }

  lemma VolumesAfter(w: World, e: Event)
    ensures VolumesStep(w, e, Next(w, e))
  {}

  lemma VolumeMoved(w: World, e: Event, t: World, v: Id)
    requires VolumesStep(w, e, t) && v in w.volumes && e != VolumeTerminated(v) && e != VolumeForgotten(v)
    requires e.Arrived? ==> e.brought.Keys !! w.volumes.Keys
    ensures v in t.volumes && (e != RequestVolumeDelete(v) ==> t.volumes[v].state == w.volumes[v].state)
  {}

  lemma VolumeAfter(setup: Setup, w: World, e: Event, v: Id)
    requires GoodSetup(setup) && Enabled(setup, w, e) && v in w.volumes && w.volumes[v].state == Running
    ensures var t := Next(w, e);
      v in t.volumes && (t.volumes[v].state == Running || (e == RequestVolumeDelete(v) && !Attached(w, v)))
  {
    VolumesAfter(w, e);
    VolumeMoved(w, e, Next(w, e), v);
  }

  ghost predicate JournalStep(w: World, e: Event, t: World) {
    match e
    case Remember(r) => t.journal == w.journal + [r]
    case Forget(done) => t.journal == Without(w.journal, done)
    case _ => t.journal == w.journal
  }

  lemma JournalAfter(w: World, e: Event)
    ensures JournalStep(w, e, Next(w, e))
  {}

  lemma KeepsJournal(setup: Setup, w: World, e: Event)
    requires GoodSetup(setup) && Enabled(setup, w, e) && Inv(setup, w)
    ensures JournalSound(setup, Next(w, e))
  {
    JournalAfter(w, e);
    if e.Forget? {
      WithoutKeepsOrder(w.journal, e.volumesDone);
    }
    var t := Next(w, e);
    forall r | r in t.journal && r.instance in t.instances
      ensures t.instances[r.instance].scratch in {Explicit(r.volume), NoScratch}
    {
      InstanceAfter(setup, w, e, r.instance);
    }
  }

  lemma KeepsAttachments(setup: Setup, w: World, e: Event)
    requires GoodSetup(setup) && Enabled(setup, w, e) && Inv(setup, w)
    ensures AttachmentsSound(Next(w, e))
  {
    var t := Next(w, e);
    RemovedAfter(w, e);
    forall i | i in t.removed && i in t.instances
      ensures t.instances[i].scratch in {t.removed[i], NoScratch}
    {
      InstanceAfter(setup, w, e, i);
      NotedOnce(w, e, t, i);
    }
    forall i | i in t.instances
      ensures LiveScratch(t.instances[i].scratch, t.volumes)
    {
      InstanceAfter(setup, w, e, i);
      if i in w.instances && t.instances[i].scratch.Explicit? {
        assert LiveScratch(w.instances[i].scratch, w.volumes) && Attached(w, t.instances[i].scratch.volume);
        VolumeAfter(setup, w, e, t.instances[i].scratch.volume);
      }
    }
  }

  ghost predicate RemovedStep(w: World, e: Event, t: World) {
    match e
    case RequestDetach(i) => t.removed == NoteRemoval(w, i).removed
    case RequestTerminate(i) => t.removed == NoteRemoval(w, i).removed
    case _ => t.removed == w.removed
  }

  lemma RemovedAfter(w: World, e: Event)
    ensures RemovedStep(w, e, Next(w, e))
  {}

  /** The history of an instance is written once, from the attachment of that moment. */
  lemma NotedOnce(w: World, e: Event, t: World, i: Id)
    requires RemovedStep(w, e, t) && i in t.removed
    ensures
      if i in w.removed then t.removed[i] == w.removed[i]
      else e in {RequestDetach(i), RequestTerminate(i)} && i in w.instances && t.removed[i] == w.instances[i].scratch
  {}

  ghost predicate MembersMove(w: World, e: Event, t: World) {
    match e
    case Detached(i) => t.members == w.members - {i} && t.size == w.size - 1
    case Arrived(i, _, _) => t.members == w.members + {i} && t.size == w.size
    case Withdrawn(i) => t.members == w.members - {i} && t.size == w.size
    case RequestSize(n) => t.members == w.members && t.size == n
    case _ => t.members == w.members && t.size == w.size
  }

  lemma MembersMoved(w: World, e: Event)
    ensures MembersMove(w, e, Next(w, e))
  {}

  ghost predicate MembersAllowed(w: World, e: Event) {
    match e
    case Detached(i) => i in w.members
    case Arrived(i, _, _) => w.scaling && i !in w.members && i !in w.removed
    case Withdrawn(i) => w.scaling && i in w.members
    case RequestSize(_) => w.journal == []
    case _ => true
  }

  lemma MembersVetted(setup: Setup, w: World, e: Event)
    requires GoodSetup(setup) && Enabled(setup, w, e)
    ensures MembersAllowed(w, e)
  {}

  /** Only a completed detach takes a member and lowers the size. Members come and go otherwise only while the
      pool scales, and a size is asked for only while no removal is pending. */
  ghost predicate MembersStep(w: World, e: Event, t: World) {
    MembersMove(w, e, t) && MembersAllowed(w, e)
  }

  lemma MembersAfter(setup: Setup, w: World, e: Event)
    requires GoodSetup(setup) && Enabled(setup, w, e)
    ensures MembersStep(w, e, Next(w, e))
  {
    MembersMoved(w, e);
    MembersVetted(setup, w, e);
  }

  ghost predicate ScaleMove(w: World, e: Event, t: World) {
    t.scaling == if e.RequestSize? then true else if e.Scaled? then false else w.scaling
  }

  lemma ScaleMoved(w: World, e: Event)
    ensures ScaleMove(w, e, Next(w, e))
  {}

  ghost predicate ScaleAllowed(w: World, e: Event) {
    match e
    case RequestSize(_) => w.journal == []
    case Scaled => w.scaling && |w.members| == w.size
    case Remember(_) => !w.scaling
    case _ => true
  }

  lemma ScaleVetted(setup: Setup, w: World, e: Event)
    requires GoodSetup(setup) && Enabled(setup, w, e)
    ensures ScaleAllowed(w, e)
  {}

  ghost predicate ScaleStep(w: World, e: Event, t: World) {
    ScaleMove(w, e, t) && ScaleAllowed(w, e)
  }

  lemma ScaleAfter(setup: Setup, w: World, e: Event)
    requires GoodSetup(setup) && Enabled(setup, w, e)
    ensures ScaleStep(w, e, Next(w, e))
  {
    ScaleMoved(w, e);
    ScaleVetted(setup, w, e);
  }

  lemma KeepsScale(setup: Setup, w: World, e: Event)
    requires GoodSetup(setup) && Enabled(setup, w, e) && ScaleSound(w)
    ensures ScaleSound(Next(w, e))
  {
    ScaleAfter(setup, w, e);
    JournalAfter(w, e);
  }

  lemma CountStep(w: World, e: Event, t: World)
    requires MembersStep(w, e, t) && ScaleStep(w, e, t) && (!w.scaling ==> |w.members| == w.size)
    ensures !t.scaling ==> |t.members| == t.size
  {}

  lemma KeepsCount(setup: Setup, w: World, e: Event)
    requires GoodSetup(setup) && Enabled(setup, w, e) && (!w.scaling ==> |w.members| == w.size)
    ensures !Next(w, e).scaling ==> |Next(w, e).members| == Next(w, e).size
  {
    MembersAfter(setup, w, e);
    ScaleAfter(setup, w, e);
    CountStep(w, e, Next(w, e));
  }

  ghost predicate DetachingStep(w: World, e: Event, t: World) {
    t.detaching == if e.RequestDetach? then w.detaching + {e.i} else w.detaching
  }

  lemma DetachingAfter(w: World, e: Event)
    ensures DetachingStep(w, e, Next(w, e))
  {}

  lemma DetachStep(w: World, e: Event, t: World)
    requires RemovedStep(w, e, t) && DetachingStep(w, e, t) && w.detaching <= w.removed.Keys
    requires e.RequestDetach? ==> e.i in w.instances
    ensures t.detaching <= t.removed.Keys
  {}

  lemma KeepsDetaching(setup: Setup, w: World, e: Event)
    requires GoodSetup(setup) && Enabled(setup, w, e) && w.detaching <= w.removed.Keys
    ensures Next(w, e).detaching <= Next(w, e).removed.Keys
  {
    RemovedAfter(w, e);
    DetachingAfter(w, e);
    if e.RequestDetach? {
      NotedIsCovered(setup, w, e, e.i);
    }
    DetachStep(w, e, Next(w, e));
  }

  /** A member leaves the map or its state only when the service withdraws it from a scaling pool. */
  lemma MemberAfter(setup: Setup, w: World, e: Event, i: Id)
    requires GoodSetup(setup) && Enabled(setup, w, e)
    requires i in w.members && i in w.instances && w.instances[i].state == Running && e != Withdrawn(i)
    ensures i in Next(w, e).instances && Next(w, e).instances[i].state == Running
  {
    if e.Arrived? {
      InstanceArrived(setup, w, e, i);
    } else {
      InstancesAfter(w, e);
      InstanceMoved(w, e, Next(w, e), i);
      EndIsDue(setup, w, e, i);
    }
  }

  lemma KeepsPool(setup: Setup, w: World, e: Event)
    requires GoodSetup(setup) && Enabled(setup, w, e) && Inv(setup, w)
    ensures PoolSound(Next(w, e))
  {
    KeepsCount(setup, w, e);
    KeepsDetaching(setup, w, e);
    MembersAfter(setup, w, e);
    var t := Next(w, e);
    forall i | i in t.members
      ensures i in t.instances && t.instances[i].state == Running
    {
      if i in w.members {
        MemberAfter(setup, w, e, i);
      }
    }
  }

  /** A volume that is over stays over; no arrival brings one back that the script ever noted. */
  lemma OverStays(w: World, e: Event, v: Id)
    requires VolumeOver(w, v)
    requires e.Arrived? ==> v !in e.brought
    ensures VolumeOver(Next(w, e), v)
  {
    VolumesAfter(w, e);
    OverStep(w, e, Next(w, e), v);
  }

  lemma OverStep(w: World, e: Event, t: World, v: Id)
    requires VolumesStep(w, e, t) && VolumeOver(w, v) && (e.Arrived? ==> v !in e.brought)
    ensures VolumeOver(t, v)
  {}

  lemma NoOrphanStep(w: World, e: Event, t: World, i: Id, v: Id)
    requires Journaled(w, i, v) && !VolumeOver(t, v) && JournalStep(w, e, t)
    requires e.Forget? ==> forall r :: r in w.journal && r.volume in e.volumesDone ==> VolumeOver(t, r.volume)
    ensures Journaled(t, i, v)
  {
    var r :| r in w.journal && r.instance == i && r.volume == v;
    assert r in t.journal;
  }

  lemma ForgottenAreOver(setup: Setup, w: World, e: Event)
    requires GoodSetup(setup) && Enabled(setup, w, e) && e.Forget?
    ensures forall r :: r in w.journal && r.volume in e.volumesDone ==> VolumeOver(Next(w, e), r.volume)
  {}

  lemma NotedIsCovered(setup: Setup, w: World, e: Event, i: Id)
    requires GoodSetup(setup) && Enabled(setup, w, e) && e in {RequestDetach(i), RequestTerminate(i)}
    ensures i in w.instances && Covered(w, i)
  {}

  lemma KeepsNoOrphan(setup: Setup, w: World, e: Event)
    requires GoodSetup(setup) && Enabled(setup, w, e) && Inv(setup, w)
    ensures NoOrphan(Next(w, e))
  {
    var t := Next(w, e);
    JournalAfter(w, e);
    RemovedAfter(w, e);
    if e.Forget? {
      ForgottenAreOver(setup, w, e);
    }
    forall i | i in t.removed && t.removed[i].Explicit? && !VolumeOver(t, t.removed[i].volume)
      ensures Journaled(t, i, t.removed[i].volume)
    {
      var v := t.removed[i].volume;
      NotedOnce(w, e, t, i);
      if VolumeOver(w, v) {
        if i in w.removed || !e.Arrived? {
          OverStays(w, e, v);
        }
      } else {
        if i !in w.removed {
          NotedIsCovered(setup, w, e, i);
        }
        NoOrphanStep(w, e, t, i, v);
      }
    }
  }

  lemma SizeStep(w: World, e: Event, t: World)
    requires SizeSound(w) && ScaleSound(w) && JournalStep(w, e, t) && MembersStep(w, e, t)
    requires e.Remember? ==> e.r.instance in w.members && w.size <= e.r.sizeBefore
    ensures SizeSound(t)
  {
    forall r | r in t.journal
      ensures t.size <= r.sizeBefore && (r.instance !in t.members ==> t.size < r.sizeBefore)
    {
      assert r in w.journal || (e.Remember? && r == e.r);
    }
  }

  lemma KeepsSize(setup: Setup, w: World, e: Event)
    requires GoodSetup(setup) && Enabled(setup, w, e) && Inv(setup, w)
    ensures SizeSound(Next(w, e))
  {
    JournalAfter(w, e);
    MembersAfter(setup, w, e);
    SizeStep(w, e, Next(w, e));
  }

  lemma KeepsInv(setup: Setup, w: World, e: Event)
    requires GoodSetup(setup) && Enabled(setup, w, e) && Inv(setup, w)
    ensures Inv(setup, Next(w, e))
  {
    KeepsNoOrphan(setup, w, e);
    KeepsJournal(setup, w, e);
    KeepsAttachments(setup, w, e);
    KeepsPool(setup, w, e);
    KeepsSize(setup, w, e);
    KeepsScale(setup, w, e);
  }
}
