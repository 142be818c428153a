/** The lock file and the destroy marker of one cluster directory, shared by any number of resize
    processes (bin/resize.py) and delete processes (bin/delete_cluster.sh). Opening the lock file, locking it,
    looking for the marker, writing it, unlocking, and each unlink of the final removal are steps of their own;
    steps of different processes interleave freely and a process may die between two. */
module DestroyLock {
  import opened Wrappers

  /** What a delete finds in the directory when it removes it. */
  datatype Name = Marker | LockFile

  /** Resize: Waiting, Holding, Working, Done. Delete: Waiting, Holding, Marking, Marked, Active, and, when it
      succeeds, Removing; Done. `left`: the entries still to be unlinked. */
  datatype Phase = Waiting | Holding | Working | Marking | Marked | Active | Removing(left: set<Name>) | Done

  datatype Role =
    | Resize(override: bool) // override: OCI_HPC_ALLOW_DURING_DESTROY=1
    | Delete(force: bool)

  /** `file`: the lock file it opened, which need not be the one of that name any more. */
  datatype Process = Process(role: Role, phase: Phase, file: nat)

  datatype State = State(
    processes: map<nat, Process>,
    marker: bool,          // currently_destroying exists
    lockFile: Option<nat>, // the file of that name
    files: nat,            // lock files ever created, numbered in order
    present: bool          // the cluster directory exists
  )

  datatype Action =
    | Start(p: nat, role: Role)
    | TryLock(p: nat)
    | CheckMarker(p: nat)
    | TouchMarker(p: nat)
    | Unlock(p: nat)
    | Finish(p: nat)
    | Fail(p: nat)
    | Succeed(p: nat)
    | Unlink(p: nat, entry: Name)
    | RemoveDirectory(p: nat)
    | Die(p: nat)

  const INITIAL := State(map[], false, None, 0, true)

  function Move(s: State, p: nat, phase: Phase): State
    requires p in s.processes
  {
    s.(processes := s.processes[p := s.processes[p].(phase := phase)])
  }

  predicate At(s: State, p: nat, phase: Phase) {
    p in s.processes && s.processes[p].phase == phase
  }

  /** In these phases a process holds the flock of the file it opened. */
  predicate HoldsLock(process: Process) {
    process.phase in {Holding, Working, Marking, Marked}
  }

  predicate Holds(s: State, p: nat) {
    p in s.processes && HoldsLock(s.processes[p])
  }

  predicate Locked(s: State, file: nat) {
    exists p :: p in s.processes && Holds(s, p) && s.processes[p].file == file
  }

  /** The lock file is opened, and created if there is none of that name. */
  function Open(s: State, p: nat, role: Role): State {
    match s.lockFile
    case Some(file) => s.(processes := s.processes[p := Process(role, Waiting, file)])
    case None =>
      s.(processes := s.processes[p := Process(role, Waiting, s.files)], lockFile := Some(s.files),
         files := s.files + 1)
  }

  /** Does the marker turn this process away? */
  predicate TurnedAway(s: State, role: Role) {
    s.marker && role in {Resize(false), Delete(false)}
  }

  function Entries(s: State): set<Name> {
    (if s.marker then {Marker} else {}) + (if s.lockFile.Some? then {LockFile} else {})
  }

  function Drop(s: State, entry: Name): State {
    match entry
    case Marker => s.(marker := false)
    case LockFile => s.(lockFile := None)
  }

  /** The state after one step; None when the step is not the process's next one. */
  function Act(s: State, a: Action): Option<State> {
    match a
    case Start(p, role) =>
      if p !in s.processes && s.present then Some(Open(s, p, role)) else None
    case TryLock(p) =>
      // flock never blocks: a process that finds its file locked ends. It works on the open file, wherever
      // that file is by now.
      if !At(s, p, Waiting) then None
      else Some(Move(s, p, if Locked(s, s.processes[p].file) then Done else Holding))
    case CheckMarker(p) =>
      if !At(s, p, Holding) then None
      else
        var role := s.processes[p].role;
        Some(Move(s, p, if TurnedAway(s, role) then Done else if role.Resize? then Working else Marking))
    case TouchMarker(p) =>
      // In a directory that is gone the write fails and the script goes on.
      if !At(s, p, Marking) then None else Some(Move(s, p, Marked).(marker := s.present))
    case Unlock(p) =>
      if !At(s, p, Marked) then None else Some(Move(s, p, Active))
    case Finish(p) =>
      // A resize keeps the lock until it exits.
      if !At(s, p, Working) then None else Some(Move(s, p, Done))
    case Fail(p) =>
      // A failed destroy removes the marker, without the lock.
      if !At(s, p, Active) then None else Some(Move(s, p, Done).(marker := false))
    case Succeed(p) =>
      // `rm -rf` of the directory: what it lists, it unlinks, in any order.
      if !At(s, p, Active) then None else Some(Move(s, p, Removing(Entries(s))))
    case Unlink(p, entry) =>
      if p in s.processes && s.processes[p].phase.Removing? && entry in s.processes[p].phase.left
      then Some(Drop(Move(s, p, Removing(s.processes[p].phase.left - {entry})), entry)) else None
    case RemoveDirectory(p) =>
      // Only an empty directory is removed; what was made after the listing stays, and the directory with it.
      if !At(s, p, Removing({})) then None
      else Some(Move(s, p, Done).(present := s.present && Entries(s) != {}))
    case Die(p) =>
      // The kernel drops the lock of a dead process; the marker stays.
      if p in s.processes then Some(Move(s, p, Done)) else None
  }

  function RunFrom(s: State, acts: seq<Action>): Option<State> {
    if acts == [] then Some(s)
    else match RunFrom(s, acts[..|acts| - 1])
      case None => None
      case Some(t) => Act(t, acts[|acts| - 1])
  }

  function Run(acts: seq<Action>): Option<State> {
    RunFrom(INITIAL, acts)
  }

  // ---- what every run keeps ------------------------------------------------------------------

  ghost predicate PhasesFit(s: State) {
    forall p :: p in s.processes ==>
      if s.processes[p].role.Resize? then s.processes[p].phase in {Waiting, Holding, Working, Done}
      else s.processes[p].phase != Working
  }

  /** One file is locked by one process at most. */
  ghost predicate LocksExclude(s: State) {
    forall p, q :: Holds(s, p) && Holds(s, q) && s.processes[p].file == s.processes[q].file ==> p == q
  }

  ghost predicate FilesFit(s: State) {
    && (s.marker || s.lockFile.Some? ==> s.present)
    && (s.lockFile.Some? ==> s.lockFile.value < s.files)
    && forall p :: p in s.processes ==> s.processes[p].file < s.files
  }

  ghost predicate Inv(s: State) {
    PhasesFit(s) && LocksExclude(s) && FilesFit(s)
  }

  /** A step changes no process but its own. */
  lemma Frame(s: State, a: Action, p: nat)
    requires Act(s, a).Some? && p != a.p
    ensures p in Act(s, a).value.processes <==> p in s.processes
    ensures p in s.processes ==> Act(s, a).value.processes[p] == s.processes[p]
  {}

  lemma OwnStep(s: State, a: Action)
    requires Act(s, a).Some?
    ensures var t := Act(s, a).value;
      && a.p in t.processes
      && (a.p in s.processes ==>
            t.processes[a.p] == s.processes[a.p].(phase := t.processes[a.p].phase))
      && (HoldsLock(t.processes[a.p]) ==>
            Holds(s, a.p) || (At(s, a.p, Waiting) && !Locked(s, s.processes[a.p].file)))
  {}

  lemma ActKeepsPhases(s: State, a: Action)
    requires PhasesFit(s) && Act(s, a).Some?
    ensures PhasesFit(Act(s, a).value)
  {
    var t := Act(s, a).value;
    forall p | p in t.processes && p != a.p
      ensures p in s.processes && t.processes[p] == s.processes[p]
    {
      Frame(s, a, p);
    }
  }

  lemma ActKeepsLocks(s: State, a: Action)
    requires LocksExclude(s) && Act(s, a).Some?
    ensures LocksExclude(Act(s, a).value)
  {
    var t := Act(s, a).value;
    OwnStep(s, a);
    forall p | Holds(t, p) && p != a.p
      ensures Holds(s, p) && t.processes[p] == s.processes[p]
    {
      Frame(s, a, p);
    }
  }

  lemma ActKeepsFiles(s: State, a: Action)
    requires FilesFit(s) && Act(s, a).Some?
    ensures FilesFit(Act(s, a).value)
  {
    var t := Act(s, a).value;
    OwnStep(s, a);
    forall p | p in t.processes && p != a.p
      ensures p in s.processes && t.processes[p] == s.processes[p]
    {
      Frame(s, a, p);
    }
  }

  lemma ActKeepsInv(s: State, a: Action)
    requires Inv(s) && Act(s, a).Some?
    ensures Inv(Act(s, a).value)
  {
    ActKeepsPhases(s, a);
    ActKeepsLocks(s, a);
    ActKeepsFiles(s, a);
  }

  lemma {:induction false} RunKeepsInv(acts: seq<Action>)
    requires Run(acts).Some?
    ensures Inv(Run(acts).value)
  {
    if acts != [] {
      RunKeepsInv(acts[..|acts| - 1]);
      ActKeepsInv(Run(acts[..|acts| - 1]).value, acts[|acts| - 1]);
    }
  }

  // ---- exact conditions over runs --------------------------------------------------------------

  ghost predicate Always(acts: seq<Action>, keeps: State -> bool)
    requires Run(acts).Some?
  {
    keeps(Run(acts).value) && (acts == [] || Always(acts[..|acts| - 1], keeps))
  }

  ghost predicate Never(acts: seq<Action>, breaks: (State, Action) -> bool)
    requires Run(acts).Some?
  {
    acts == []
    || (Never(acts[..|acts| - 1], breaks) && !breaks(Run(acts[..|acts| - 1]).value, acts[|acts| - 1]))
  }

  /** These steps, and no others, end the property. */
  ghost predicate EndsIt(keeps: State -> bool, breaks: (State, Action) -> bool) {
    forall s, a :: Inv(s) && Act(s, a).Some? && keeps(s) ==> (breaks(s, a) <==> !keeps(Act(s, a).value))
  }

  lemma {:induction false} AlwaysExactly(acts: seq<Action>, keeps: State -> bool, breaks: (State, Action) -> bool)
    requires Run(acts).Some? && keeps(INITIAL) && EndsIt(keeps, breaks)
    ensures Always(acts, keeps) <==> Never(acts, breaks)
  {
    if acts != [] {
      AlwaysExactly(acts[..|acts| - 1], keeps, breaks);
      RunKeepsInv(acts[..|acts| - 1]);
    }
  }

  // ---- one lock file ---------------------------------------------------------------------------

  /** It has the lock file open. */
  predicate Opens(s: State, p: nat) {
    p in s.processes && s.processes[p].phase in {Waiting, Holding, Working, Marking, Marked}
  }

  /** Every open lock file is the same one, and the one of that name. */
  ghost predicate OneLock(s: State) {
    && (forall p, q :: Opens(s, p) && Opens(s, q) ==> s.processes[p].file == s.processes[q].file)
    && (forall p :: Opens(s, p) && s.lockFile.Some? ==> s.processes[p].file == s.lockFile.value)
  }

  /** The lock file was unlinked, and a new one is made while somebody still has the old one open. */
  ghost predicate SecondLock(s: State, a: Action) {
    a.Start? && s.lockFile.None? && exists p :: Opens(s, p)
  }

  /** Only a start opens a lock file or makes one. */
  lemma NothingOpened(s: State, a: Action, p: nat)
    requires Act(s, a).Some? && !a.Start?
    ensures var t := Act(s, a).value;
      && t.lockFile in {s.lockFile, None}
      && (Opens(t, p) ==> Opens(s, p) && t.processes[p].file == s.processes[p].file)
  {
    if p != a.p {
      Frame(s, a, p);
    } else {
      OwnStep(s, a);
    }
  }

  lemma StartOpens(s: State, a: Action, p: nat)
    requires Act(s, a).Some? && a.Start?
    ensures var t := Act(s, a).value;
      && (p != a.p ==> (Opens(t, p) <==> Opens(s, p)))
      && (Opens(s, p) ==> t.processes[p].file == s.processes[p].file)
      && Opens(t, a.p) && !Opens(s, a.p)
      && t.lockFile == Some(t.processes[a.p].file)
      && t.processes[a.p].file == if s.lockFile.Some? then s.lockFile.value else s.files
  {
    if p != a.p {
      Frame(s, a, p);
    }
  }

  lemma StartStep(s: State, a: Action)
    requires FilesFit(s) && Act(s, a).Some? && OneLock(s) && a.Start?
    ensures SecondLock(s, a) <==> !OneLock(Act(s, a).value)
  {
    var t := Act(s, a).value;
    forall p
      ensures p != a.p ==> (Opens(t, p) <==> Opens(s, p))
      ensures Opens(s, p) ==> t.processes[p].file == s.processes[p].file
      ensures Opens(t, a.p) && !Opens(s, a.p)
      ensures t.lockFile == Some(t.processes[a.p].file)
      ensures t.processes[a.p].file == if s.lockFile.Some? then s.lockFile.value else s.files
    {
      StartOpens(s, a, p);
    }
    if SecondLock(s, a) {
      var p :| Opens(s, p);
      assert Opens(t, p) && Opens(t, a.p);
    }
  }

  lemma OneLockStep(s: State, a: Action)
    requires Inv(s) && Act(s, a).Some? && OneLock(s)
    ensures SecondLock(s, a) <==> !OneLock(Act(s, a).value)
  {
    if a.Start? {
      StartStep(s, a);
    } else {
      var t := Act(s, a).value;
      forall p
        ensures Opens(t, p) ==> Opens(s, p) && t.processes[p].file == s.processes[p].file
        ensures t.lockFile in {s.lockFile, None}
      {
        NothingOpened(s, a, p);
      }
    }
  }

  /** All processes meet at one lock file throughout a run exactly when nobody makes a new one while an old
      one is open. */
  lemma {:induction false} OneLockExactly(acts: seq<Action>)
    requires Run(acts).Some?
    ensures Always(acts, OneLock) <==> Never(acts, SecondLock)
  {
    forall s, a | Inv(s) && Act(s, a).Some? && OneLock(s)
      ensures SecondLock(s, a) <==> !OneLock(Act(s, a).value)
    {
      OneLockStep(s, a);
    }
    AlwaysExactly(acts, OneLock, SecondLock);
  }

  /** Past the lock there is one process at most. */
  lemma OneHolder(s: State, p: nat, q: nat)
    requires Inv(s) && OneLock(s) && Holds(s, p) && Holds(s, q)
    ensures p == q
  {
    assert Opens(s, p) && Opens(s, q);
  }

  // ---- resizes and the marker ------------------------------------------------------------------

  predicate PlainResizeWorks(s: State, p: nat) {
    p in s.processes && s.processes[p].role == Resize(false) && s.processes[p].phase == Working
  }

  /** While the marker exists no resize without the override is past its check. */
  ghost predicate ResizesKeptOut(s: State) {
    s.marker ==> forall p :: !PlainResizeWorks(s, p)
  }

  /** A delete writes the marker beside a resize, which holds another lock file. */
  ghost predicate LateMarker(s: State, a: Action) {
    a.TouchMarker? && s.present && exists p :: PlainResizeWorks(s, p)
  }

  lemma KeptOutStep(s: State, a: Action)
    requires Inv(s) && Act(s, a).Some? && ResizesKeptOut(s)
    ensures LateMarker(s, a) <==> !ResizesKeptOut(Act(s, a).value)
  {
    var t := Act(s, a).value;
    forall p | p != a.p
      ensures PlainResizeWorks(t, p) <==> PlainResizeWorks(s, p)
    {
      Frame(s, a, p);
    }
    if LateMarker(s, a) {
      var p :| PlainResizeWorks(s, p);
      assert PlainResizeWorks(t, p);
    }
  }

  /** With one lock file no marker is ever late. */
  lemma NeverLate(s: State, a: Action)
    requires Inv(s) && OneLock(s) && Act(s, a).Some?
    ensures !LateMarker(s, a)
  {
    if p :| a.TouchMarker? && PlainResizeWorks(s, p) {
      OneHolder(s, p, a.p);
    }
  }

  lemma {:induction false} OneLockIsNeverLate(acts: seq<Action>)
    requires Run(acts).Some? && Always(acts, OneLock)
    ensures Never(acts, LateMarker)
  {
    if acts != [] {
      OneLockIsNeverLate(acts[..|acts| - 1]);
      RunKeepsInv(acts[..|acts| - 1]);
      NeverLate(Run(acts[..|acts| - 1]).value, acts[|acts| - 1]);
    }
  }

  /** Whatever the interleaving, deaths and FORCE included: no plain resize is ever past its check while the
      marker exists, exactly when no marker is written beside one; and that takes a second lock file. */
  lemma {:induction false} ResizeExclusion(acts: seq<Action>)
    requires Run(acts).Some?
    ensures Always(acts, ResizesKeptOut) <==> Never(acts, LateMarker)
    ensures Never(acts, SecondLock) ==> Always(acts, ResizesKeptOut)
    ensures Never(acts, SecondLock) ==>
      forall p, q :: Holds(Run(acts).value, p) && Holds(Run(acts).value, q) ==> p == q
  {
    forall s, a | Inv(s) && Act(s, a).Some? && ResizesKeptOut(s)
      ensures LateMarker(s, a) <==> !ResizesKeptOut(Act(s, a).value)
    {
      KeptOutStep(s, a);
    }
    AlwaysExactly(acts, ResizesKeptOut, LateMarker);
    OneLockExactly(acts);
    if Never(acts, SecondLock) {
      OneLockIsNeverLate(acts);
      RunKeepsInv(acts);
      forall p, q | Holds(Run(acts).value, p) && Holds(Run(acts).value, q)
        ensures p == q
      {
        OneHolder(Run(acts).value, p, q);
      }
    }
  }

  // ---- what the marker guards ------------------------------------------------------------------

  predicate Destroying(s: State, p: nat) {
    p in s.processes && s.processes[p].role.Delete? && s.processes[p].phase in {Marking, Marked, Active}
  }

  /** A destroy that has written the marker, or tried to. */
  predicate Guarded(s: State, p: nat) {
    Destroying(s, p) && s.processes[p].phase != Marking
  }

  /** The marker stands as long as any destroy that wrote it is at work. */
  ghost predicate MarkerGuards(s: State) {
    forall p :: Guarded(s, p) ==> s.marker
  }

  /** The marker is removed, by a destroy that failed or one that succeeded, while another one relies on it. */
  ghost predicate Theft(s: State, a: Action) {
    match a
    case Fail(p) => At(s, p, Active) && exists q :: q != p && Guarded(s, q)
    case Unlink(_, entry) => entry == Marker && exists q :: Guarded(s, q)
    case _ => false
  }

  /** The marker is written where there is no directory any more. */
  predicate Blind(s: State, a: Action) {
    a.TouchMarker? && !s.present
  }

  ghost predicate Exposes(s: State, a: Action) {
    Theft(s, a) || Blind(s, a)
  }

  lemma TheftExposes(s: State, a: Action)
    requires PhasesFit(s) && Act(s, a).Some? && Exposes(s, a)
    ensures !MarkerGuards(Act(s, a).value)
  {
    var t := Act(s, a).value;
    if a.TouchMarker? {
      assert Guarded(t, a.p);
    } else {
      var q :| q != a.p && Guarded(s, q);
      Frame(s, a, q);
      assert Guarded(t, q);
    }
  }

  lemma ActKeepsMarker(s: State, a: Action)
    requires Inv(s) && MarkerGuards(s) && Act(s, a).Some? && !Exposes(s, a)
    ensures MarkerGuards(Act(s, a).value)
  {
    var t := Act(s, a).value;
    forall p | Guarded(t, p)
      ensures t.marker
    {
      if p != a.p {
        Frame(s, a, p);
        assert Guarded(s, p) && s.marker;
      } else {
        assert a.TouchMarker? || (a.Unlock? && Guarded(s, p));
      }
    }
  }

  /** The marker guards every destroy throughout a run exactly when none is removed while another destroy
      relies on it, and none is written where the directory is gone. */
  lemma {:induction false} GuardedExactly(acts: seq<Action>)
    requires Run(acts).Some?
    ensures Always(acts, MarkerGuards) <==> Never(acts, Exposes)
  {
    forall s, a | Inv(s) && Act(s, a).Some? && MarkerGuards(s)
      ensures Exposes(s, a) <==> !MarkerGuards(Act(s, a).value)
    {
      if Exposes(s, a) {
        TheftExposes(s, a);
      } else {
        ActKeepsMarker(s, a);
      }
    }
    AlwaysExactly(acts, MarkerGuards, Exposes);
  }

  /** A step that makes a second lock file, or leaves a destroy without its marker. */
  ghost predicate Unsafe(s: State, a: Action) {
    SecondLock(s, a) || Exposes(s, a)
  }

  ghost predicate Sound(s: State) {
    OneLock(s) && MarkerGuards(s)
  }

  lemma SoundStep(s: State, a: Action)
    requires Inv(s) && Act(s, a).Some? && Sound(s)
    ensures Unsafe(s, a) <==> !Sound(Act(s, a).value)
  {
    OneLockStep(s, a);
    if Exposes(s, a) {
      TheftExposes(s, a);
    } else {
      ActKeepsMarker(s, a);
    }
  }

  lemma {:induction false} SafeRunIsSound(acts: seq<Action>)
    requires Run(acts).Some?
    ensures Always(acts, Sound) <==> Never(acts, Unsafe)
  {
    forall s, a | Inv(s) && Act(s, a).Some? && Sound(s)
      ensures Unsafe(s, a) <==> !Sound(Act(s, a).value)
    {
      SoundStep(s, a);
    }
    AlwaysExactly(acts, Sound, Unsafe);
  }

  // ---- who gets in -----------------------------------------------------------------------------

  predicate Plain(role: Role) {
    role == Resize(false) || role == Delete(false)
  }

  predicate Waits(s: State, p: nat, role: Role) {
    At(s, p, Holding) && s.processes[p].role == role
  }

  /** A process of that role passes its check beside a destroy. */
  ghost predicate EntersBeside(s: State, a: Action, role: Role) {
    a.CheckMarker? && Waits(s, a.p, role) && !s.marker && exists q :: Destroying(s, q)
  }

  /** Lock and marker keep every plain process out. */
  lemma MarkerKeepsOut(s: State, a: Action, role: Role)
    requires Inv(s) && Sound(s) && Plain(role)
    ensures !EntersBeside(s, a, role)
  {
    forall q | Destroying(s, q) && a.CheckMarker? && Waits(s, a.p, role)
      ensures Guarded(s, q)
    {
      if !Guarded(s, q) {
        OneHolder(s, q, a.p);
      }
    }
  }

  predicate PlainDestroying(s: State, p: nat) {
    Destroying(s, p) && s.processes[p].role == Delete(false)
  }

  /** Only the check lets a process in. */
  lemma OnlyCheckEnters(s: State, a: Action)
    requires Act(s, a).Some? && PhasesFit(s)
    ensures var t := Act(s, a).value;
      && (Destroying(t, a.p) && !Destroying(s, a.p) ==>
            && a.CheckMarker? && At(s, a.p, Holding) && s.processes[a.p].role.Delete?
            && !TurnedAway(s, s.processes[a.p].role))
      && (PlainResizeWorks(t, a.p) && !PlainResizeWorks(s, a.p) ==>
            a.CheckMarker? && Waits(s, a.p, Resize(false)) && !s.marker)
  {}

  /** At most one destroy without FORCE is under way. */
  ghost predicate OnePlainDestroy(s: State) {
    forall p, q :: PlainDestroying(s, p) && PlainDestroying(s, q) ==> p == q
  }

  /** A plain delete finds no marker although a plain destroy is under way. */
  ghost predicate Joins(s: State, a: Action) {
    a.CheckMarker? && Waits(s, a.p, Delete(false)) && !s.marker && exists q :: PlainDestroying(s, q)
  }

  lemma OthersKeep(s: State, a: Action, p: nat)
    requires Act(s, a).Some? && p != a.p
    ensures var t := Act(s, a).value;
      && (PlainDestroying(t, p) <==> PlainDestroying(s, p))
      && (Destroying(t, p) <==> Destroying(s, p))
      && (PlainResizeWorks(t, p) <==> PlainResizeWorks(s, p))
  {
    Frame(s, a, p);
  }

  lemma JoinsPlain(s: State, a: Action)
    requires Inv(s) && Act(s, a).Some?
    ensures PlainDestroying(Act(s, a).value, a.p) && !PlainDestroying(s, a.p)
       <==> a.CheckMarker? && Waits(s, a.p, Delete(false)) && !s.marker
  {
    OwnStep(s, a);
    OnlyCheckEnters(s, a);
  }

  lemma JoinsStep(s: State, a: Action)
    requires Inv(s) && Act(s, a).Some? && OnePlainDestroy(s)
    ensures Joins(s, a) <==> !OnePlainDestroy(Act(s, a).value)
  {
    var t := Act(s, a).value;
    JoinsPlain(s, a);
    if Joins(s, a) {
      var q :| PlainDestroying(s, q);
      OthersKeep(s, a, q);
    } else {
      forall p, q | PlainDestroying(t, p) && PlainDestroying(t, q)
        ensures p == q
      {
        if p != a.p {
          OthersKeep(s, a, p);
        }
        if q != a.p {
          OthersKeep(s, a, q);
        }
      }
    }
  }

  /** No plain resize works beside any destroy. */
  ghost predicate NoneBeside(s: State) {
    forall p, q :: PlainResizeWorks(s, p) ==> !Destroying(s, q)
  }

  /** A plain resize finds no marker although a destroy is under way, or a delete passes its check beside a plain
      resize. */
  ghost predicate Meets(s: State, a: Action) {
    && a.CheckMarker? && At(s, a.p, Holding)
    && var role := s.processes[a.p].role;
       if role.Delete? then !TurnedAway(s, role) && exists q :: PlainResizeWorks(s, q)
       else role == Resize(false) && !s.marker && exists q :: Destroying(s, q)
  }

  lemma MeetsStep(s: State, a: Action)
    requires Inv(s) && Act(s, a).Some? && NoneBeside(s)
    ensures Meets(s, a) <==> !NoneBeside(Act(s, a).value)
  {
    var t := Act(s, a).value;
    forall p | p != a.p
      ensures Destroying(t, p) <==> Destroying(s, p)
      ensures PlainResizeWorks(t, p) <==> PlainResizeWorks(s, p)
    {
      OthersKeep(s, a, p);
    }
    OwnStep(s, a);
    OnlyCheckEnters(s, a);
    if Meets(s, a) {
      if s.processes[a.p].role.Delete? {
        var q :| PlainResizeWorks(s, q);
        assert PlainResizeWorks(t, q) && Destroying(t, a.p);
      } else {
        var q :| Destroying(s, q);
        assert Destroying(t, q) && PlainResizeWorks(t, a.p);
      }
    }
  }

  lemma {:induction false} SafeSoFar(acts: seq<Action>)
    requires Run(acts).Some? && Never(acts, Unsafe)
    ensures Inv(Run(acts).value) && Sound(Run(acts).value)
  {
    RunKeepsInv(acts);
    SafeRunIsSound(acts);
  }

  lemma SoundKeepsApart(s: State, a: Action)
    requires Inv(s) && Sound(s) && Act(s, a).Some?
    ensures !Joins(s, a) && !Meets(s, a)
  {
    MarkerKeepsOut(s, a, Delete(false));
    MarkerKeepsOut(s, a, Resize(false));
    assert Joins(s, a) ==> EntersBeside(s, a, Delete(false));
    if Meets(s, a) {
      assert s.processes[a.p].role.Delete?;
      var q :| PlainResizeWorks(s, q);
      OneHolder(s, a.p, q);
    }
  }

  lemma {:induction false} SafeRunsKeepApart(acts: seq<Action>)
    requires Run(acts).Some? && Never(acts, Unsafe)
    ensures Never(acts, Joins) && Never(acts, Meets)
  {
    if acts != [] {
      var before := acts[..|acts| - 1];
      SafeRunsKeepApart(before);
      SafeSoFar(before);
      SoundKeepsApart(Run(before).value, acts[|acts| - 1]);
    }
  }

  /** Plain destroys exclude each other, whatever FORCE deletes do, exactly when none finds the marker missing
      beside another; that never happens without a second lock file, a theft or a blind mark. */
  lemma {:induction false} PlainDestroysExclude(acts: seq<Action>)
    requires Run(acts).Some?
    ensures Always(acts, OnePlainDestroy) <==> Never(acts, Joins)
    ensures Never(acts, Unsafe) ==> Always(acts, OnePlainDestroy)
  {
    forall s, a | Inv(s) && Act(s, a).Some? && OnePlainDestroy(s)
      ensures Joins(s, a) <==> !OnePlainDestroy(Act(s, a).value)
    {
      JoinsStep(s, a);
    }
    AlwaysExactly(acts, OnePlainDestroy, Joins);
    if Never(acts, Unsafe) {
      SafeRunsKeepApart(acts);
    }
  }

  /** No plain resize works while any destroy, FORCE or not, is under way, exactly when neither passes its check
      beside the other; nor does that happen without an unsafe step. */
  lemma {:induction false} NoResizeDuringDestroy(acts: seq<Action>)
    requires Run(acts).Some?
    ensures Always(acts, NoneBeside) <==> Never(acts, Meets)
    ensures Never(acts, Unsafe) ==> Always(acts, NoneBeside)
  {
    forall s, a | Inv(s) && Act(s, a).Some? && NoneBeside(s)
      ensures Meets(s, a) <==> !NoneBeside(Act(s, a).value)
    {
      MeetsStep(s, a);
    }
    AlwaysExactly(acts, NoneBeside, Meets);
    if Never(acts, Unsafe) {
      SafeRunsKeepApart(acts);
    }
  }
}
