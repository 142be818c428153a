/** What lies between two moments of one process: the world only moves forward. */
module PoolProgress {
  import opened Wrappers
  import opened PoolWorld

  /** Kept by everything but a new process, a new size and a new DNS name. While the pool scales, instances
      come and go; otherwise it is steady. */
  ghost predicate Kept(a: World, b: World) {
    BooksKept(a, b) && (!a.scaling ==> Steady(a, b))
  }

  ghost predicate BooksKept(a: World, b: World) {
    && a.vetted <= b.vetted && a.matched <= b.matched && a.removed.Keys <= b.removed.Keys
    && a.effects <= b.effects && a.detachRequests <= b.detachRequests && b.dns <= a.dns
  }

  ghost predicate Steady(a: World, b: World) {
    !b.scaling && PoolKept(a, b) && ThingsKept(a, b) && LabelsKept(a, b)
  }

  /** Only members whose removal was asked for leave. */
  ghost predicate PoolKept(a: World, b: World) {
    b.members <= a.members && b.size <= a.size && forall i :: i in a.members && i !in b.removed ==> i in b.members
  }

  /** What is over stays over; nothing appears; attachments are only lost. */
  ghost predicate ThingsKept(a: World, b: World) {
    && (forall i :: InstanceOver(a, i) ==> InstanceOver(b, i))
    && (forall v :: VolumeOver(a, v) ==> VolumeOver(b, v))
    && (forall i :: i in b.instances ==>
          i in a.instances && b.instances[i].scratch in {a.instances[i].scratch, NoScratch})
  }

  /** Addresses stay; names and clusters change only where the history says so. */
  ghost predicate LabelsKept(a: World, b: World) {
    && a.relabelled <= b.relabelled
    && forall i :: i in b.instances ==>
         i in a.instances && SameLabels(a.instances[i], b.instances[i], i in b.relabelled)
  }

  /** The script wrote nothing down and compared nothing. */
  ghost predicate SameBooks(a: World, b: World) {
    SameFiles(a, b) && b.vetted == a.vetted && b.matched == a.matched
  }

  ghost predicate SameFiles(a: World, b: World) {
    b.journal == a.journal && b.dns == a.dns && SameCounts(a, b)
  }

  ghost predicate SameCounts(a: World, b: World) {
    b.terraformSize == a.terraformSize && b.variablesSize == a.variablesSize
  }

  /** The script asked for the detachment or termination of no other node than these. */
  ghost predicate RemovedOnly(a: World, b: World, nodes: set<Id>) {
    b.removed.Keys <= a.removed.Keys + nodes
  }

  /** The script asked the service to change nothing. */
  ghost predicate NoRequest(a: World, b: World) {
    b.removed == a.removed && b.effects == a.effects && b.detachRequests == a.detachRequests
  }

  /** The script did nothing in between. */
  ghost predicate Quiet(a: World, b: World) {
    SameBooks(a, b) && NoRequest(a, b)
  }

  ghost predicate Drift(a: World, b: World) {
    Kept(a, b) && Quiet(a, b)
  }

  /** It held an explicit volume and has lost it. */
  ghost predicate LostVolume(a: World, b: World, i: Id) {
    && i in a.instances && a.instances[i].scratch.Explicit?
    && (i in b.instances ==> b.instances[i].scratch == NoScratch)
  }

  /** What a 404 on the way of a removal may mean. */
  ghost predicate Slipped(a: World, b: World, i: Id) {
    i !in b.instances || i !in b.members || LostVolume(a, b, i)
  }

  lemma KeptThen(a: World, b: World, c: World)
    requires Kept(a, b) && Kept(b, c)
    ensures Kept(a, c)
  {}

  lemma DriftThen(a: World, b: World, c: World)
    requires Drift(a, b) && Drift(b, c)
    ensures Drift(a, c)
  {
    KeptThen(a, b, c);
  }

  lemma CloudIsQuiet(w: World, e: Event)
    requires IsCloud(e) && CloudEnabled(w, e)
    ensures Quiet(w, CloudNext(w, e))
  {}

  lemma ThingsAfter(setup: Setup, w: World, e: Event)
    requires GoodSetup(setup) && Enabled(setup, w, e) && !e.Arrived? && PoolSound(w)
    ensures ThingsKept(w, Next(w, e))
  {
    var t := Next(w, e);
    forall i | InstanceOver(w, i)
      ensures InstanceOver(t, i)
    {
      InstanceOverStays(setup, w, e, i);
    }
    forall v | VolumeOver(w, v)
      ensures VolumeOver(t, v)
    {
      OverStays(w, e, v);
    }
    forall i | i in t.instances
      ensures i in w.instances && t.instances[i].scratch in {w.instances[i].scratch, NoScratch}
    {
      InstanceAfter(setup, w, e, i);
    }
  }

  lemma LabelsStay(w: World, e: Event)
    requires !e.Arrived?
    ensures LabelsKept(w, Next(w, e))
  {
    var t := Next(w, e);
    InstancesAfter(w, e);
    RelabelledAfter(w, e);
    forall i | i in t.instances
      ensures i in w.instances && SameLabels(w.instances[i], t.instances[i], i in t.relabelled)
    {
      InstanceMoved(w, e, t, i);
    }
  }

  lemma InstanceOverStays(setup: Setup, w: World, e: Event, i: Id)
    requires GoodSetup(setup) && Enabled(setup, w, e) && InstanceOver(w, i) && !e.Arrived?
    requires forall j :: j in w.members ==> j in w.instances && w.instances[j].state == Running
    ensures InstanceOver(Next(w, e), i)
  {
    InstancesAfter(w, e);
    InstanceMoved(w, e, Next(w, e), i);
    EndIsDue(setup, w, e, i);
    MembersVetted(setup, w, e);
  }

  lemma PoolAfter(setup: Setup, w: World, e: Event)
    requires GoodSetup(setup) && Enabled(setup, w, e) && !e.RequestSize? && !w.scaling && PoolSound(w)
    ensures PoolKept(w, Next(w, e)) && !Next(w, e).scaling
  {
    MembersAfter(setup, w, e);
    ScaleAfter(setup, w, e);
    RemovedAfter(w, e);
  }

  lemma RequestsCount(w: World, e: Event)
    ensures w.effects <= Next(w, e).effects && w.detachRequests <= Next(w, e).detachRequests
  {}

  lemma NamesGo(w: World, e: Event)
    requires !e.AddDns?
    ensures Next(w, e).dns <= w.dns
  {}

  lemma ComparisonsStay(w: World, e: Event)
    requires !e.Start?
    ensures w.vetted <= Next(w, e).vetted && w.matched <= Next(w, e).matched
  {}

  predicate KeepsAll(e: Event) {
    !e.Start? && !e.RequestSize? && !e.AddDns?
  }

  lemma KeptAfter(setup: Setup, w: World, e: Event)
    requires GoodSetup(setup) && Enabled(setup, w, e) && KeepsAll(e) && PoolSound(w)
    ensures Kept(w, Next(w, e))
  {
    var t := Next(w, e);
    RequestsCount(w, e);
    NamesGo(w, e);
    ComparisonsStay(w, e);
    RemovedAfter(w, e);
    assert w.removed.Keys <= t.removed.Keys;
    if !w.scaling {
      ThingsAfter(setup, w, e);
      LabelsStay(w, e);
      PoolAfter(setup, w, e);
    }
  }

  // ---- what survives the passing of time -----------------------------------------------------------

  lemma CoveredStays(a: World, b: World, i: Id)
    requires ThingsKept(a, b) && Covered(a, i) && (forall r :: r in a.journal ==> r in b.journal)
    ensures Covered(b, i)
  {
    if i in b.instances && b.instances[i].scratch.Explicit? && !VolumeOver(b, b.instances[i].scratch.volume) {
      var v := b.instances[i].scratch.volume;
      assert a.instances[i].scratch == Explicit(v) && !VolumeOver(a, v);
      var r :| r in a.journal && r.instance == i && r.volume == v;
      assert r in b.journal;
    }
  }

  lemma HeldIsRecorded(setup: Setup, w: World, i: Id, v: Id)
    requires Inv(setup, w) && i in w.instances && w.instances[i].scratch == Explicit(v)
    ensures i in w.removed ==> HasVolume(w.journal, v)
  {
    assert LiveScratch(w.instances[i].scratch, w.volumes);
  }

  /** A node seen with an explicit volume that has no record yet has not been removed: it is still in the pool. */
  lemma FreshVictim(setup: Setup, a: World, b: World, i: Id, v: Id)
    requires Inv(setup, a) && Kept(a, b) && !a.scaling && b.removed == a.removed && b.journal == a.journal
    requires i in a.instances && a.instances[i].scratch == Explicit(v) && !HasVolume(b.journal, v)
    requires i in a.members || i in a.removed
    requires PoolSound(b)
    ensures i in b.members && i !in b.removed
    ensures i in b.instances && b.instances[i].scratch in {Explicit(v), NoScratch}
  {
    HeldIsRecorded(setup, a, i, v);
  }

  lemma SlippedLater(a: World, b: World, c: World, i: Id)
    requires Steady(b, c) && Slipped(a, b, i)
    ensures Slipped(a, c, i)
  {}

  lemma SlippedEarlier(a: World, b: World, c: World, i: Id)
    requires Steady(a, b) && Slipped(b, c, i)
    ensures Slipped(a, c, i)
  {}
}
