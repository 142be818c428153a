/** Whole runs of the world in PoolWorld: any number of processes one after the other, a crash between any
    two of their effects (a `Start` may follow anything), the cloud acting in between. */
module RemovalRuns {
  import opened Wrappers
  import opened PoolWorld

  /** `worlds[k]` is the world before `events[k]`, `worlds[k + 1]` the one after. */
  datatype Run = Run(worlds: seq<World>, events: seq<Event>)

  /** Before the first removal. */
  ghost predicate Begin(w: World) {
    && w.journal == [] && w.removed == map[] && w.detaching == {} && w.matched == {} && w.vetted == {}
    && (!w.scaling ==> |w.members| == w.size)
    && (forall i :: i in w.members ==> i in w.instances && w.instances[i].state == Running)
    && (forall i :: i in w.instances ==> LiveScratch(w.instances[i].scratch, w.volumes))
  }

  ghost predicate Step(setup: Setup, w: World, e: Event, t: World)
    requires GoodSetup(setup)
  {
    Enabled(setup, w, e) && t == Next(w, e)
  }

  ghost predicate IsRun(setup: Setup, run: Run)
    requires GoodSetup(setup)
  {
    && |run.worlds| == |run.events| + 1
    && Begin(run.worlds[0])
    && forall k {:trigger run.events[k]} :: 0 <= k < |run.events| ==>
      Step(setup, run.worlds[k], run.events[k], run.worlds[k + 1])
  }

  lemma StepKeepsInv(setup: Setup, w: World, e: Event, t: World)
    requires GoodSetup(setup) && Step(setup, w, e, t) && Inv(setup, w)
    ensures Inv(setup, t)
  {
    KeepsInv(setup, w, e);
  }

  lemma BeginIsSound(setup: Setup, w: World)
    requires Begin(w)
    ensures Inv(setup, w)
  {}

  lemma {:induction false} InvAt(setup: Setup, run: Run, n: nat)
    requires GoodSetup(setup) && IsRun(setup, run) && n < |run.worlds|
    ensures Inv(setup, run.worlds[n])
  {
    if n == 0 {
      BeginIsSound(setup, run.worlds[0]);
    } else {
      InvAt(setup, run, n - 1);
      StepKeepsInv(setup, run.worlds[n - 1], run.events[n - 1], run.worlds[n]);
    }
  }

  // ---- the journal ---------------------------------------------------------------------------------

  ghost predicate Removal(e: Event, i: Id) {
    e == RequestDetach(i) || e == RequestTerminate(i)
  }

  lemma StaysRemoved(setup: Setup, w: World, e: Event, t: World, i: Id)
    requires GoodSetup(setup) && Step(setup, w, e, t) && i in w.removed
    ensures i in t.removed && t.removed[i] == w.removed[i]
  {
    RemovedAfter(w, e);
  }

  lemma {:induction false} RemovedStays(setup: Setup, run: Run, k: nat, n: nat, i: Id)
    requires GoodSetup(setup) && IsRun(setup, run) && k <= n < |run.worlds| && i in run.worlds[k].removed
    ensures i in run.worlds[n].removed && run.worlds[n].removed[i] == run.worlds[k].removed[i]
  {
    if k < n {
      RemovedStays(setup, run, k, n - 1, i);
      StaysRemoved(setup, run.worlds[n - 1], run.events[n - 1], run.worlds[n], i);
    }
  }

  lemma RemovalIsNoted(setup: Setup, w: World, e: Event, t: World, i: Id, v: Id)
    requires GoodSetup(setup) && Step(setup, w, e, t) && AttachmentsSound(w) && Removal(e, i)
    requires i in w.instances && w.instances[i].scratch == Explicit(v)
    ensures i in t.removed && t.removed[i] == Explicit(v)
    ensures Journaled(w, i, v)
  {
    NotedIsCovered(setup, w, e, i);
    RemovedAfter(w, e);
    assert LiveScratch(w.instances[i].scratch, w.volumes);
  }

  /** No orphaned volume: once the script has asked to detach or terminate an instance that held an explicit
      volume, that volume is in the journal for as long as it exists, whatever happens next. */
  lemma NoOrphanEver(setup: Setup, run: Run, k: nat, n: nat, i: Id, v: Id)
    requires GoodSetup(setup) && IsRun(setup, run) && k < |run.events| && k <= n < |run.worlds|
    requires Removal(run.events[k], i)
    requires i in run.worlds[k].instances && run.worlds[k].instances[i].scratch == Explicit(v)
    ensures VolumeOver(run.worlds[n], v) || Journaled(run.worlds[n], i, v)
  {
    InvAt(setup, run, k);
    RemovalIsNoted(setup, run.worlds[k], run.events[k], run.worlds[k + 1], i, v);
    if k < n {
      RemovedStays(setup, run, k + 1, n, i);
      InvAt(setup, run, n);
    }
  }

  ghost predicate RememberedBefore(run: Run, n: nat, r: Record) {
    exists j :: 0 <= j < n && j < |run.events| && run.events[j] == Remember(r)
  }

  lemma {:induction false} JournaledWasRemembered(setup: Setup, run: Run, n: nat, r: Record)
    requires GoodSetup(setup) && IsRun(setup, run) && n < |run.worlds| && r in run.worlds[n].journal
    ensures RememberedBefore(run, n, r)
  {
    if n > 0 {
      assert Step(setup, run.worlds[n - 1], run.events[n - 1], run.worlds[n]);
      JournalAfter(run.worlds[n - 1], run.events[n - 1]);
      if run.events[n - 1] != Remember(r) {
        JournaledWasRemembered(setup, run, n - 1, r);
      }
    }
  }

  /** Write ahead: the record of an explicit volume is written before anything is asked of its instance. */
  lemma RecordComesFirst(setup: Setup, run: Run, k: nat, i: Id, v: Id)
    requires GoodSetup(setup) && IsRun(setup, run) && k < |run.events| && Removal(run.events[k], i)
    requires i in run.worlds[k].instances && run.worlds[k].instances[i].scratch == Explicit(v)
    ensures exists r :: r in run.worlds[k].journal && r.instance == i && r.volume == v && RememberedBefore(run, k, r)
  {
    InvAt(setup, run, k);
    RemovalIsNoted(setup, run.worlds[k], run.events[k], run.worlds[k + 1], i, v);
    var r :| r in run.worlds[k].journal && r.instance == i && r.volume == v;
    JournaledWasRemembered(setup, run, k, r);
  }

  ghost predicate SettledBetween(setup: Setup, run: Run, k: nat, n: nat, r: Record)
    requires GoodSetup(setup)
  {
    exists j :: k <= j < n && j < |run.events| && j < |run.worlds| && run.events[j].Forget?
      && Settled(setup, run.worlds[j], r)
  }

  /** A record leaves the journal only in a finalization that found its instance and volume gone, its DNS
      names deleted and Terraform's node count adjusted. */
  lemma {:induction false} RecordLeavesSettled(setup: Setup, run: Run, k: nat, n: nat, r: Record)
    requires GoodSetup(setup) && IsRun(setup, run) && k <= n < |run.worlds|
    requires r in run.worlds[k].journal && r !in run.worlds[n].journal
    ensures SettledBetween(setup, run, k, n, r)
  {
    if r !in run.worlds[n - 1].journal {
      RecordLeavesSettled(setup, run, k, n - 1, r);
    } else {
      assert Step(setup, run.worlds[n - 1], run.events[n - 1], run.worlds[n]);
      JournalAfter(run.worlds[n - 1], run.events[n - 1]);
    }
  }

  // ---- what a process compares before it acts ------------------------------------------------------

  /** This event lies before `n`, with no new process since. */
  ghost predicate SinceStart(run: Run, n: nat, e: Event) {
    exists j :: 0 <= j < n && j < |run.events| && run.events[j] == e && NoStart(run.events, j + 1, n)
  }

  ghost predicate NoStart(events: seq<Event>, from: nat, to: nat) {
    forall m :: from <= m < to && m < |events| ==> events[m] != Start
  }

  lemma SinceStartLater(run: Run, n: nat, e: Event)
    requires n < |run.events| && run.events[n] != Start && SinceStart(run, n, e)
    ensures SinceStart(run, n + 1, e)
  {
    var j :| 0 <= j < n && run.events[j] == e && NoStart(run.events, j + 1, n);
    assert NoStart(run.events, j + 1, n + 1);
  }

  lemma JustNow(run: Run, n: nat)
    requires n < |run.events|
    ensures SinceStart(run, n + 1, run.events[n])
  {
    assert NoStart(run.events, n + 1, n + 1);
  }

  ghost predicate ComparedStep(w: World, e: Event, t: World) {
    match e
    case Start => t.matched == {} && t.vetted == {}
    case VetVolume(r) => t.matched == w.matched + {r} && t.vetted == w.vetted
    case VetInstance(i) => t.matched == w.matched && t.vetted == w.vetted + {i}
    case _ => t.matched == w.matched && t.vetted == w.vetted
  }

  lemma ComparedAfter(w: World, e: Event)
    ensures ComparedStep(w, e, Next(w, e))
  {}

  lemma {:induction false} MatchedWasVetted(setup: Setup, run: Run, n: nat, r: Record)
    requires GoodSetup(setup) && IsRun(setup, run) && n < |run.worlds| && r in run.worlds[n].matched
    ensures SinceStart(run, n, VetVolume(r))
  {
    if n > 0 {
      ComparedAfter(run.worlds[n - 1], run.events[n - 1]);
      if run.events[n - 1] == VetVolume(r) {
        JustNow(run, n - 1);
      } else {
        MatchedWasVetted(setup, run, n - 1, r);
        SinceStartLater(run, n - 1, VetVolume(r));
      }
    }
  }

  lemma {:induction false} VettedWasCompared(setup: Setup, run: Run, n: nat, i: Id)
    requires GoodSetup(setup) && IsRun(setup, run) && n < |run.worlds| && i in run.worlds[n].vetted
    ensures SinceStart(run, n, VetInstance(i))
  {
    if n > 0 {
      ComparedAfter(run.worlds[n - 1], run.events[n - 1]);
      if run.events[n - 1] == VetInstance(i) {
        JustNow(run, n - 1);
      } else {
        VettedWasCompared(setup, run, n - 1, i);
        SinceStartLater(run, n - 1, VetInstance(i));
      }
    }
  }

  /** Nothing is asked of an instance that the same process has not found to belong to its cluster. */
  lemma RemovalIsVetted(setup: Setup, run: Run, n: nat, i: Id)
    requires GoodSetup(setup) && IsRun(setup, run) && n < |run.events| && Removal(run.events[n], i)
    ensures SinceStart(run, n, VetInstance(i))
  {
    assert Step(setup, run.worlds[n], run.events[n], run.worlds[n + 1]);
    VettedWasCompared(setup, run, n, i);
  }

  // ---- volume deletion -----------------------------------------------------------------------------

  /** A volume is deleted last: its record is written and still there, the same process has matched that
      record against the volume, the instance is terminated or gone and out of the pool. */
  lemma VolumeIsDeletedLast(setup: Setup, run: Run, n: nat, v: Id) returns (r: Record)
    requires GoodSetup(setup) && IsRun(setup, run) && n < |run.events| && run.events[n] == RequestVolumeDelete(v)
    ensures r.volume == v && r in run.worlds[n].journal
    ensures RememberedBefore(run, n, r) && SinceStart(run, n, VetVolume(r))
    ensures InstanceOver(run.worlds[n], r.instance) && r.instance !in run.worlds[n].members
  {
    var w := run.worlds[n];
    assert Step(setup, w, run.events[n], run.worlds[n + 1]);
    r :| r in w.journal && r.volume == v && Deletable(w, r);
    JournaledWasRemembered(setup, run, n, r);
    MatchedWasVetted(setup, run, n, r);
    InvAt(setup, run, n);
  }

  // ---- the pool ------------------------------------------------------------------------------------

  lemma OneLess(before: set<Id>, w: World, e: Event, t: World)
    requires MembersStep(w, e, t) && !w.scaling && w.members <= before && !e.RequestSize?
    ensures t.members <= before && t.size + |before - t.members| == w.size + |before - w.members|
  {
    if e.Detached? {
      assert before - t.members == (before - w.members) + {e.i};
    }
  }

  /** While a removal is pending the pool is not scaling and only shrinks, by exactly one for each member that
      left: no size accepted earlier, by whatever process, brings a node in between. */
  lemma {:induction false} PoolNeverGrowsWhilePending(setup: Setup, run: Run, k: nat, n: nat)
    requires GoodSetup(setup) && IsRun(setup, run) && k <= n < |run.worlds|
    requires forall j :: k <= j < n ==> run.worlds[j].journal != []
    ensures run.worlds[n].members <= run.worlds[k].members && (k < n ==> !run.worlds[n].scaling)
    ensures run.worlds[n].size + |run.worlds[k].members - run.worlds[n].members| == run.worlds[k].size
  {
    if k < n {
      InvAt(setup, run, n - 1);
      PoolNeverGrowsWhilePending(setup, run, k, n - 1);
      assert Step(setup, run.worlds[n - 1], run.events[n - 1], run.worlds[n]);
      MembersAfter(setup, run.worlds[n - 1], run.events[n - 1]);
      ScaleAfter(setup, run.worlds[n - 1], run.events[n - 1]);
      OneLess(run.worlds[k].members, run.worlds[n - 1], run.events[n - 1], run.worlds[n]);
    }
  }

  ghost predicate ScaledBetween(run: Run, k: nat, n: nat) {
    exists j :: k < j < n && j < |run.events| && run.events[j] == Scaled
  }

  lemma {:induction false} ScalesUntilDone(setup: Setup, run: Run, k: nat, n: nat)
    requires GoodSetup(setup) && IsRun(setup, run) && k < n < |run.worlds| && run.events[k].RequestSize?
    ensures run.worlds[n].scaling || ScaledBetween(run, k, n)
  {
    assert Step(setup, run.worlds[n - 1], run.events[n - 1], run.worlds[n]);
    ScaleAfter(setup, run.worlds[n - 1], run.events[n - 1]);
    if k < n - 1 {
      ScalesUntilDone(setup, run, k, n - 1);
    }
  }

  /** Once a size was accepted, whatever became of the process that asked for it, no removal is recorded before
      the pool has reached its size: the size a record notes counts exactly the members. */
  lemma GrowthEndsBeforeRemoval(setup: Setup, run: Run, k: nat, n: nat, r: Record)
    requires GoodSetup(setup) && IsRun(setup, run) && k < n < |run.events|
    requires run.events[k].RequestSize? && run.events[n] == Remember(r)
    ensures ScaledBetween(run, k, n)
    ensures |run.worlds[n].members| == run.worlds[n].size <= r.sizeBefore
  {
    InvAt(setup, run, n);
    assert Step(setup, run.worlds[n], run.events[n], run.worlds[n + 1]);
    ScalesUntilDone(setup, run, k, n);
  }

  function Departures(events: seq<Event>): nat {
    if events == [] then 0
    else Departures(events[..|events| - 1]) + if events[|events| - 1].Detached? then 1 else 0
  }

  function Arrivals(events: seq<Event>): nat {
    if events == [] then 0
    else Arrivals(events[..|events| - 1]) + if events[|events| - 1].Arrived? then 1 else 0
  }

  function Withdrawals(events: seq<Event>): nat {
    if events == [] then 0
    else Withdrawals(events[..|events| - 1]) + if events[|events| - 1].Withdrawn? then 1 else 0
  }

  /** Conservation over the whole run; the size agrees with the members whenever the pool is not scaling. */
  lemma {:induction false} SizeIsAccounted(setup: Setup, run: Run, n: nat)
    requires GoodSetup(setup) && IsRun(setup, run) && n < |run.worlds|
    ensures var past := run.events[..n];
      |run.worlds[n].members| == |run.worlds[0].members| + Arrivals(past) - Departures(past) - Withdrawals(past)
    ensures !run.worlds[n].scaling ==> run.worlds[n].size == |run.worlds[n].members|
  {
    InvAt(setup, run, n);
    if n > 0 {
      SizeIsAccounted(setup, run, n - 1);
      assert Step(setup, run.worlds[n - 1], run.events[n - 1], run.worlds[n]);
      MembersAfter(setup, run.worlds[n - 1], run.events[n - 1]);
      assert run.events[..n][..n - 1] == run.events[..n - 1];
    }
  }

  lemma StaysGone(setup: Setup, w: World, e: Event, t: World, i: Id)
    requires GoodSetup(setup) && Step(setup, w, e, t) && i in w.removed && i !in w.members
    ensures i in t.removed && i !in t.members
  {
    StaysRemoved(setup, w, e, t, i);
    MembersAfter(setup, w, e);
  }

  lemma {:induction false} GoneStaysGone(setup: Setup, run: Run, k: nat, n: nat, i: Id)
    requires GoodSetup(setup) && IsRun(setup, run) && k <= n < |run.worlds|
    requires i in run.worlds[k].removed && i !in run.worlds[k].members
    ensures i in run.worlds[n].removed && i !in run.worlds[n].members
  {
    if k < n {
      GoneStaysGone(setup, run, k, n - 1, i);
      StaysGone(setup, run.worlds[n - 1], run.events[n - 1], run.worlds[n], i);
    }
  }

  /** A member leaves the pool, and decrements it, at most once, and only at the script's request. */
  lemma LeavesOnce(setup: Setup, run: Run, k: nat, n: nat, i: Id)
    requires GoodSetup(setup) && IsRun(setup, run) && k < n < |run.worlds| && run.events[k] == Detached(i)
    ensures i in run.worlds[k].removed && i !in run.worlds[n].members
    ensures n < |run.events| ==> run.events[n] != Detached(i)
  {
    assert Step(setup, run.worlds[k], run.events[k], run.worlds[k + 1]);
    InvAt(setup, run, k);
    StaysRemoved(setup, run.worlds[k], run.events[k], run.worlds[k + 1], i);
    MembersAfter(setup, run.worlds[k], run.events[k]);
    GoneStaysGone(setup, run, k + 1, n, i);
    assert n < |run.events| ==> Step(setup, run.worlds[n], run.events[n], run.worlds[n + 1]);
  }

  /** The size test of finalization never refuses: any size read after a record's instance is over, and used
      at any later time, is below the size that was noted in the record. */
  lemma SizeTestPasses(setup: Setup, run: Run, n: nat, r: Record)
    requires GoodSetup(setup) && IsRun(setup, run) && n < |run.worlds|
    requires r in run.worlds[n].journal && InstanceOver(run.worlds[n], r.instance)
    ensures r.instance !in run.worlds[n].members
    ensures run.worlds[n].size < r.sizeBefore
  {
    InvAt(setup, run, n);
  }

  // ---- appending an event --------------------------------------------------------------------------

  function Last(run: Run): World
    requires run.worlds != []
  {
    run.worlds[|run.worlds| - 1]
  }

  function Then(setup: Setup, run: Run, e: Event): Run
    requires GoodSetup(setup) && run.worlds != [] && Enabled(setup, Last(run), e)
  {
    Run(run.worlds + [Next(Last(run), e)], run.events + [e])
  }

  lemma ThenIsRun(setup: Setup, run: Run, e: Event)
    requires GoodSetup(setup) && IsRun(setup, run) && Enabled(setup, Last(run), e)
    ensures IsRun(setup, Then(setup, run, e))
  {
    var next := Then(setup, run, e);
    forall k | 0 <= k < |next.events|
      ensures Step(setup, next.worlds[k], next.events[k], next.worlds[k + 1])
    {
      if k < |run.events| {
        assert next.worlds[k] == run.worlds[k] && next.worlds[k + 1] == run.worlds[k + 1];
        assert next.events[k] == run.events[k];
      }
    }
  }
}
