/** What can still happen once the marker or the lock file of DestroyLock does not guard any more: who gets in
    beside a destroy, who comes to hold a second lock, and the runs that show it. */
module DestroyDoor {
  import opened Wrappers
  import opened DestroyLock

  // ---- the open door ---------------------------------------------------------------------------

  /** A continuation without a further unsafe step. */
  ghost predicate QuietRun(s: State, more: seq<Action>) {
    && RunFrom(s, more).Some?
    && (more == [] || (QuietRun(s, more[..|more| - 1])
                       && !Unsafe(RunFrom(s, more[..|more| - 1]).value, more[|more| - 1])))
  }

  /** A continuation at whose end a process of that role enters beside a destroy. */
  ghost predicate Breach(s: State, more: seq<Action>, role: Role) {
    && more != [] && QuietRun(s, more)
    && EntersBeside(RunFrom(s, more[..|more| - 1]).value, more[|more| - 1], role)
  }

  /** It has the lock file open and has not looked for the marker yet. */
  predicate Tries(s: State, p: nat, role: Role) {
    p in s.processes && s.processes[p].role == role && s.processes[p].phase in {Waiting, Holding}
  }

  /** Nobody of that role can get in beside a destroy: lock and marker guard, or no one is left to try. */
  ghost predicate Closed(s: State, role: Role) {
    OneLock(s) && (MarkerGuards(s) || (!s.present && forall p :: !Tries(s, p, role)))
  }

  lemma NobodyNew(s: State, a: Action, p: nat, role: Role)
    requires Act(s, a).Some? && !s.present
    ensures Tries(Act(s, a).value, p, role) ==> Tries(s, p, role)
    ensures !Act(s, a).value.present
  {
    if p != a.p {
      Frame(s, a, p);
    }
  }

  lemma ActKeepsClosed(s: State, a: Action, role: Role)
    requires Inv(s) && Closed(s, role) && Act(s, a).Some? && !Unsafe(s, a)
    ensures Inv(Act(s, a).value) && Closed(Act(s, a).value, role)
  {
    ActKeepsInv(s, a);
    OneLockStep(s, a);
    if MarkerGuards(s) {
      ActKeepsMarker(s, a);
    } else {
      forall p
        ensures !Tries(Act(s, a).value, p, role) && !Act(s, a).value.present
      {
        NobodyNew(s, a, p, role);
      }
    }
  }

  lemma {:induction false} ClosedStays(s: State, more: seq<Action>, role: Role)
    requires Inv(s) && Closed(s, role) && QuietRun(s, more)
    ensures Inv(RunFrom(s, more).value) && Closed(RunFrom(s, more).value, role)
  {
    if more != [] {
      var front := more[..|more| - 1];
      ClosedStays(s, front, role);
      ActKeepsClosed(RunFrom(s, front).value, more[|more| - 1], role);
    }
  }

  lemma ClosedKeepsOut(s: State, more: seq<Action>, role: Role)
    requires Inv(s) && Closed(s, role) && Plain(role)
    ensures !Breach(s, more, role)
  {
    if more != [] && QuietRun(s, more) {
      var front := more[..|more| - 1];
      ClosedStays(s, front, role);
      var t := RunFrom(s, front).value;
      if MarkerGuards(t) {
        MarkerKeepsOut(t, more[|more| - 1], role);
      } else {
        assert !Tries(t, more[|more| - 1].p, role);
      }
    }
  }

  lemma QuietOneMore(s: State, more: seq<Action>, a: Action)
    requires QuietRun(s, more) && Act(RunFrom(s, more).value, a).Some? && !Unsafe(RunFrom(s, more).value, a)
    ensures QuietRun(s, more + [a]) && RunFrom(s, more + [a]) == Act(RunFrom(s, more).value, a)
  {
    assert (more + [a])[..|more + [a]| - 1] == more;
  }

  lemma {:induction false} FreshProcess(taken: set<nat>) returns (p: nat)
    ensures p !in taken && forall q :: q in taken ==> q < p
    decreases |taken|
  {
    if taken == {} {
      p := 0;
    } else {
      var q :| q in taken;
      var rest := FreshProcess(taken - {q});
      p := if q < rest then rest else q + 1;
      assert forall r :: r in taken ==> r == q || r in taken - {q};
    }
  }

  /** A destroy runs without its marker; `s` may be any state between. */
  ghost predicate Bare(s: State, q: nat) {
    Guarded(s, q) && !s.marker
  }

  ghost function Openers(s: State, keep: set<nat>): set<nat> {
    set p | p in s.processes && Opens(s, p) && p !in keep
  }

  /** The directory, the files and these processes are as they were. */
  ghost predicate Undisturbed(s: State, t: State, keep: set<nat>) {
    && t.present == s.present && t.lockFile == s.lockFile && t.processes.Keys == s.processes.Keys
    && forall p :: p in keep && p in s.processes ==> t.processes[p] == s.processes[p]
  }

  /** An open process other than these ends: the destroy goes on, anybody else dies. */
  function Closing(q: nat, p: nat): Action {
    if p == q then Unlock(p) else Die(p)
  }

  ghost predicate OneClosed(s: State, t: State, q: nat, keep: set<nat>, p: nat) {
    Inv(t) && Bare(t, q) && Openers(t, keep) == Openers(s, keep) - {p} && Undisturbed(s, t, keep)
  }

  lemma CloseOne(s: State, q: nat, keep: set<nat>, p: nat)
    requires Inv(s) && Bare(s, q) && p in Openers(s, keep)
    ensures var a := Closing(q, p);
      Act(s, a).Some? && !Unsafe(s, a) && OneClosed(s, Act(s, a).value, q, keep, p)
  {
    ActKeepsInv(s, Closing(q, p));
    MovedOn(s, q, keep, p);
  }

  lemma MovedOn(s: State, q: nat, keep: set<nat>, p: nat)
    requires Bare(s, q) && p in Openers(s, keep)
    ensures var t := Move(s, p, if p == q then Active else Done);
      Bare(t, q) && Openers(t, keep) == Openers(s, keep) - {p} && Undisturbed(s, t, keep)
  {}

  lemma UndisturbedThen(s: State, t: State, u: State, keep: set<nat>)
    requires Undisturbed(s, t, keep) && Undisturbed(t, u, keep)
    ensures Undisturbed(s, u, keep)
  {}

  /** Everybody else can be gone. */
  lemma {:induction false} CloseOthers(s: State, before: seq<Action>, t: State, q: nat, keep: set<nat>)
    returns (more: seq<Action>, u: State)
    requires QuietRun(s, before) && RunFrom(s, before) == Some(t) && Inv(t) && Bare(t, q)
    ensures QuietRun(s, more) && RunFrom(s, more) == Some(u)
    ensures Inv(u) && Bare(u, q) && Openers(u, keep) == {} && Undisturbed(t, u, keep)
    decreases |Openers(t, keep)|
  {
    if Openers(t, keep) == {} {
      more, u := before, t;
    } else {
      var p :| p in Openers(t, keep);
      CloseOne(t, q, keep, p);
      QuietOneMore(s, before, Closing(q, p));
      var next := Act(t, Closing(q, p)).value;
      more, u := CloseOthers(s, before + [Closing(q, p)], next, q, keep);
      UndisturbedThen(t, next, u, keep);
    }
  }

  lemma CheckEnters(s: State, more: seq<Action>, u: State, q: nat, p: nat, role: Role)
    requires QuietRun(s, more) && RunFrom(s, more) == Some(u)
    requires Waits(u, p, role) && Bare(u, q) && Plain(role)
    ensures Breach(s, more + [CheckMarker(p)], role)
  {
    QuietOneMore(s, more, CheckMarker(p));
    assert (more + [CheckMarker(p)])[..|more + [CheckMarker(p)]| - 1] == more;
  }

  /** Alone with its lock file, a process locks it. */
  lemma LocksAlone(t: State, q: nat, p: nat, role: Role)
    requires Bare(t, q) && Tries(t, p, role) && At(t, p, Waiting) && Openers(t, {p}) == {}
    ensures var u := Act(t, TryLock(p)); u.Some? && Waits(u.value, p, role) && Bare(u.value, q)
  {
    forall h | Holds(t, h)
      ensures h == p
    {
      assert h == p || h in Openers(t, {p});
    }
    assert !Locked(t, t.processes[p].file);
    Frame(t, TryLock(p), q);
  }

  /** Alone with its lock file, a process that tries gets in. */
  lemma TriesAlone(s: State, before: seq<Action>, t: State, q: nat, p: nat, role: Role) returns (more: seq<Action>)
    requires QuietRun(s, before) && RunFrom(s, before) == Some(t) && Plain(role)
    requires Bare(t, q) && Tries(t, p, role) && Openers(t, {p}) == {}
    ensures Breach(s, more, role)
  {
    if t.processes[p].phase == Holding {
      CheckEnters(s, before, t, q, p, role);
      more := before + [CheckMarker(p)];
    } else {
      LocksAlone(t, q, p, role);
      QuietOneMore(s, before, TryLock(p));
      CheckEnters(s, before + [TryLock(p)], Act(t, TryLock(p)).value, q, p, role);
      more := before + [TryLock(p)] + [CheckMarker(p)];
    }
  }

  lemma StartsAlone(t: State, q: nat, p: nat, role: Role)
    requires Bare(t, q) && p !in t.processes && t.present && Openers(t, {}) == {}
    ensures var u := Act(t, Start(p, role));
      && u.Some? && !Unsafe(t, Start(p, role))
      && Bare(u.value, q) && Tries(u.value, p, role) && Openers(u.value, {p}) == {}
  {
    var u := Act(t, Start(p, role)).value;
    Frame(t, Start(p, role), q);
    forall r
      ensures !Opens(t, r)
      ensures r != p ==> !Opens(u, r)
    {
      assert r !in Openers(t, {});
      StartOpens(t, Start(p, role), r);
    }
    assert Openers(u, {p}) == {};
  }

  /** With the directory there, a newcomer gets in. */
  lemma NewcomerEnters(s: State, q: nat, role: Role) returns (more: seq<Action>)
    requires Inv(s) && Bare(s, q) && s.present && Plain(role)
    ensures Breach(s, more, role)
  {
    var before, t := CloseOthers(s, [], s, q, {});
    var p := FreshProcess(t.processes.Keys);
    assert p !in t.processes.Keys;
    StartsAlone(t, q, p, role);
    QuietOneMore(s, before, Start(p, role));
    more := TriesAlone(s, before + [Start(p, role)], Act(t, Start(p, role)).value, q, p, role);
  }

  /** Who has the lock file open gets in, whether there is a directory or not. */
  lemma TryingEnters(s: State, q: nat, p: nat, role: Role) returns (more: seq<Action>)
    requires Inv(s) && Bare(s, q) && Tries(s, p, role) && Plain(role)
    ensures Breach(s, more, role)
  {
    var before, t := CloseOthers(s, [], s, q, {p});
    more := TriesAlone(s, before, t, q, p, role);
  }

  lemma {:induction false} BareIsOpen(s: State, role: Role)
    requires Inv(s) && !MarkerGuards(s) && Plain(role) && (s.present || exists p :: Tries(s, p, role))
    ensures exists more :: Breach(s, more, role)
  {
    var q :| Guarded(s, q) && !s.marker;
    if p :| Tries(s, p, role) {
      var more := TryingEnters(s, q, p, role);
    } else {
      var more := NewcomerEnters(s, q, role);
    }
  }

  /** Once a destroy runs without its marker some continuation, without a further unsafe step, lets a plain
      delete, or a plain resize, in beside a destroy; it takes the directory, or a process that has the lock
      file open already. While all processes meet at one lock file, there is no other way. */
  lemma {:induction false} DoorExactly(acts: seq<Action>, role: Role)
    requires Run(acts).Some? && Plain(role)
    ensures var s := Run(acts).value;
      var open := !MarkerGuards(s) && (s.present || exists p :: Tries(s, p, role));
      && (open ==> exists more :: Breach(s, more, role))
      && (OneLock(s) ==> ((exists more :: Breach(s, more, role)) ==> open))
  {
    var s := Run(acts).value;
    RunKeepsInv(acts);
    if !MarkerGuards(s) && (s.present || exists p :: Tries(s, p, role)) {
      BareIsOpen(s, role);
    } else if OneLock(s) {
      forall more
        ensures !Breach(s, more, role)
      {
        ClosedKeepsOut(s, more, role);
      }
    }
  }

  /** A destroy that takes another one's marker while the directory is there opens the door, for plain deletes
      and plain resizes alike. */
  lemma {:induction false} TheftOpens(acts: seq<Action>, a: Action, role: Role)
    requires Run(acts).Some? && Act(Run(acts).value, a).Some? && Theft(Run(acts).value, a) && Plain(role)
    requires Run(acts).value.present
    ensures exists more :: Breach(Run(acts + [a]).value, more, role)
  {
    RunKeepsInv(acts);
    RunExtends(acts, a);
    TheftExposes(Run(acts).value, a);
    DoorExactly(acts + [a], role);
  }

  // ---- two lock files --------------------------------------------------------------------------

  /** Two processes are past the lock at once. */
  ghost predicate TwoHold(s: State) {
    exists p, q :: p != q && Holds(s, p) && Holds(s, q)
  }

  ghost predicate Clash(s: State, more: seq<Action>) {
    QuietRun(s, more) && TwoHold(RunFrom(s, more).value)
  }

  /** Whoever has a lock file open, or holds it, still does. */
  ghost predicate HoldersStay(s: State, t: State) {
    && (forall p :: Holds(s, p) ==> Holds(t, p) && t.processes[p].file == s.processes[p].file)
    && (forall p :: Opens(s, p) ==> Opens(t, p) && t.processes[p].file == s.processes[p].file)
  }

  lemma FreeLockIsTaken(s: State, p: nat)
    requires Inv(s) && At(s, p, Waiting) && !Locked(s, s.processes[p].file)
    ensures var a := TryLock(p);
      Act(s, a).Some? && !Unsafe(s, a) && Inv(Act(s, a).value) && Holds(Act(s, a).value, p)
      && HoldersStay(s, Act(s, a).value)
  {
    var t := Act(s, TryLock(p)).value;
    ActKeepsInv(s, TryLock(p));
    forall r | r != p
      ensures r in t.processes <==> r in s.processes
      ensures r in s.processes ==> t.processes[r] == s.processes[r]
    {
      Frame(s, TryLock(p), r);
    }
  }

  /** Somebody comes to hold the file that `p` has open. */
  lemma SomebodyHolds(s: State, before: seq<Action>, t: State, p: nat) returns (more: seq<Action>, u: State, h: nat)
    requires QuietRun(s, before) && RunFrom(s, before) == Some(t) && Inv(t) && Opens(t, p)
    ensures QuietRun(s, more) && RunFrom(s, more) == Some(u)
    ensures Inv(u) && Holds(u, h) && u.processes[h].file == t.processes[p].file && HoldersStay(t, u)
  {
    more, u, h := before, t, p;
    if t.processes[p].phase == Waiting {
      if Locked(t, t.processes[p].file) {
        h :| Holds(t, h) && t.processes[h].file == t.processes[p].file;
      } else {
        FreeLockIsTaken(t, p);
        QuietOneMore(s, before, TryLock(p));
        more, u := before + [TryLock(p)], Act(t, TryLock(p)).value;
      }
    }
  }

  lemma TwoFilesClash(s: State, before: seq<Action>, t: State, p: nat, q: nat) returns (more: seq<Action>)
    requires QuietRun(s, before) && RunFrom(s, before) == Some(t)
    requires Inv(t) && Opens(t, p) && Opens(t, q) && t.processes[p].file != t.processes[q].file
    ensures Clash(s, more)
  {
    var first, u, g := SomebodyHolds(s, before, t, p);
    var end, h;
    more, end, h := SomebodyHolds(s, first, u, q);
    assert Holds(end, g) && Holds(end, h) && g != h;
  }

  lemma ReplacedClashes(s: State, p: nat) returns (more: seq<Action>)
    requires Inv(s) && Opens(s, p) && s.lockFile.Some? && s.processes[p].file != s.lockFile.value
    ensures Clash(s, more)
  {
    var q := FreshProcess(s.processes.Keys);
    assert q !in s.processes.Keys;
    var a := Start(q, Resize(false));
    QuietOneMore(s, [], a);
    ActKeepsInv(s, a);
    Frame(s, a, p);
    more := TwoFilesClash(s, [] + [a], Act(s, a).value, p, q);
  }

  lemma {:induction false} OneLockStays(s: State, more: seq<Action>, t: State)
    requires Inv(s) && OneLock(s) && QuietRun(s, more) && RunFrom(s, more) == Some(t)
    ensures Inv(t) && OneLock(t)
  {
    if more != [] {
      var front := more[..|more| - 1];
      var u := RunFrom(s, front).value;
      OneLockStays(s, front, u);
      ActKeepsInv(u, more[|more| - 1]);
      OneLockStep(u, more[|more| - 1]);
    }
  }

  /** Two processes can come to be past the lock at once exactly when they no longer meet at one lock file. */
  lemma {:induction false} ClashExactly(acts: seq<Action>)
    requires Run(acts).Some?
    ensures (exists more :: Clash(Run(acts).value, more)) <==> !OneLock(Run(acts).value)
  {
    var s := Run(acts).value;
    RunKeepsInv(acts);
    if OneLock(s) {
      forall more
        ensures !Clash(s, more)
      {
        if QuietRun(s, more) {
          var t := RunFrom(s, more).value;
          OneLockStays(s, more, t);
          forall p, q | Holds(t, p) && Holds(t, q)
            ensures p == q
          {
            OneHolder(t, p, q);
          }
        }
      }
    } else if p, q :| Opens(s, p) && Opens(s, q) && s.processes[p].file != s.processes[q].file {
      var more := TwoFilesClash(s, [], s, p, q);
    } else {
      var p :| Opens(s, p) && s.lockFile.Some? && s.processes[p].file != s.lockFile.value;
      var more := ReplacedClashes(s, p);
    }
  }

  // ---- runs that fail --------------------------------------------------------------------------

  lemma RunExtends(acts: seq<Action>, a: Action)
    requires Run(acts).Some?
    ensures Run(acts + [a]) == Act(Run(acts).value, a)
  {
    assert (acts + [a])[..|acts + [a]| - 1] == acts;
  }

  /** Equality, field by field. */
  ghost predicate Same(s: State, t: State) {
    && s.processes == t.processes && s.marker == t.marker && s.lockFile == t.lockFile && s.files == t.files
    && s.present == t.present
  }

  /** One more action, with the state before and after. */
  lemma Goes(acts: seq<Action>, s: State, a: Action, t: State)
    requires Run(acts) == Some(s) && Act(s, a).Some? && Same(Act(s, a).value, t)
    ensures Run(acts + [a]) == Some(t)
  {
    RunExtends(acts, a);
  }

  lemma Overwrite(m: map<nat, Process>, p: nat, a: Process, b: Process)
    ensures m[p := a][p := b] == m[p := b]
  {}

  /** The steps of an entry that follow the opening of the lock file. */
  function Enters(p: nat): seq<Action> {
    [TryLock(p)] + [CheckMarker(p)] + [TouchMarker(p)] + [Unlock(p)]
  }

  /** It has the lock file open, and neither lock nor marker stops it. */
  ghost predicate CanEnter(s: State, p: nat) {
    At(s, p, Waiting) && !TurnedAway(s, s.processes[p].role) && forall q :: !Holds(s, q)
  }

  lemma EnterChecked(acts: seq<Action>, s: State, p: nat)
    requires Run(acts) == Some(s) && CanEnter(s, p)
    ensures Run(acts + Enters(p)[..2]) == Some(Move(s, p, if s.processes[p].role.Resize? then Working else Marking))
  {
    var phase := if s.processes[p].role.Resize? then Working else Marking;
    assert !Locked(s, s.processes[p].file);
    Goes(acts, s, TryLock(p), Move(s, p, Holding));
    Overwrite(s.processes, p, s.processes[p].(phase := Holding), s.processes[p].(phase := phase));
    Goes(acts + [TryLock(p)], Move(s, p, Holding), CheckMarker(p), Move(s, p, phase));
    assert acts + Enters(p)[..2] == acts + [TryLock(p)] + [CheckMarker(p)];
  }

  lemma EnterDestroys(acts: seq<Action>, s: State, p: nat)
    requires Run(acts) == Some(s) && CanEnter(s, p) && s.processes[p].role.Delete?
    ensures Run(acts + Enters(p)) == Some(Move(s, p, Active).(marker := s.present))
  {
    EnterChecked(acts, s, p);
    var before := acts + Enters(p)[..2];
    var process := s.processes[p];
    Overwrite(s.processes, p, process.(phase := Marking), process.(phase := Marked));
    Overwrite(s.processes, p, process.(phase := Marked), process.(phase := Active));
    var marked := Move(s, p, Marked).(marker := s.present);
    Goes(before, Move(s, p, Marking), TouchMarker(p), marked);
    Goes(before + [TouchMarker(p)], marked, Unlock(p), Move(s, p, Active).(marker := s.present));
    assert acts + Enters(p) == before + [TouchMarker(p)] + [Unlock(p)];
  }

  function Of(role: Role, phase: Phase): Process {
    Process(role, phase, 0)
  }

  /** Process `p` opens lock file 0. */
  lemma Starts(acts: seq<Action>, s: State, p: nat, role: Role)
    requires Run(acts) == Some(s) && s.present && p !in s.processes && s.lockFile in {Some(0), None}
    requires s.lockFile.None? ==> s.files == 0
    ensures Run(acts + [Start(p, role)])
         == Some(s.(processes := s.processes[p := Of(role, Waiting)], lockFile := Some(0),
                    files := if s.lockFile.None? then 1 else s.files))
  {
    RunExtends(acts, Start(p, role));
  }

  const FIRST: seq<Action> := [Start(0, Delete(false))] + Enters(0)

  lemma AfterFirst()
    ensures Run(FIRST) == Some(State(map[0 := Of(Delete(false), Active)], true, Some(0), 1, true))
  {
    Starts([], INITIAL, 0, Delete(false));
    assert [] + [Start(0, Delete(false))] == [Start(0, Delete(false))];
    var waiting := State(map[0 := Of(Delete(false), Waiting)], false, Some(0), 1, true);
    EnterDestroys([Start(0, Delete(false))], waiting, 0);
    assert Move(waiting, 0, Active).processes == map[0 := Of(Delete(false), Active)];
  }

  /** Delete 0 destroys; FORCE delete 1 joins it, fails and takes the marker away. */
  const FORCED: seq<Action> := FIRST + [Start(1, Delete(true))] + Enters(1) + [Fail(1)]

  lemma AfterForce()
    ensures Run(FORCED)
         == Some(State(map[0 := Of(Delete(false), Active), 1 := Of(Delete(true), Done)], false, Some(0), 1, true))
  {
    AfterFirst();
    var zero := Of(Delete(false), Active);
    Starts(FIRST, State(map[0 := zero], true, Some(0), 1, true), 1, Delete(true));
    var waiting := State(map[0 := zero, 1 := Of(Delete(true), Waiting)], true, Some(0), 1, true);
    var active := State(map[0 := zero, 1 := Of(Delete(true), Active)], true, Some(0), 1, true);
    var done := State(map[0 := zero, 1 := Of(Delete(true), Done)], false, Some(0), 1, true);
    EnterDestroys(FIRST + [Start(1, Delete(true))], waiting, 1);
    assert Move(waiting, 1, Active).processes == active.processes;
    Goes(FIRST + [Start(1, Delete(true))] + Enters(1), active, Fail(1), done);
  }

  /** The smallest such run: after it a second plain delete, or a plain resize, is let in while delete 0 is
      still destroying. */
  lemma ForceOpensTheDoor()
    ensures var both := Run(FORCED + [Start(2, Delete(false))] + Enters(2));
            both.Some? && PlainDestroying(both.value, 0) && PlainDestroying(both.value, 2)
    ensures var mixed := Run(FORCED + [Start(2, Resize(false))] + Enters(2)[..2]);
            mixed.Some? && Destroying(mixed.value, 0) && PlainResizeWorks(mixed.value, 2)
  {
    AfterForce();
    var s := Run(FORCED).value;
    Starts(FORCED, s, 2, Delete(false));
    EnterDestroys(FORCED + [Start(2, Delete(false))], Run(FORCED + [Start(2, Delete(false))]).value, 2);
    Starts(FORCED, s, 2, Resize(false));
    EnterChecked(FORCED + [Start(2, Resize(false))], Run(FORCED + [Start(2, Resize(false))]).value, 2);
  }

  /** Delete 0 succeeds and removes the directory, while two others have the lock file open. */
  function Removed(role: Role): seq<Action> {
    FIRST + [Start(1, Delete(false))] + [Start(2, role)]
    + [Succeed(0)] + [Unlink(0, Marker)] + [Unlink(0, LockFile)] + [RemoveDirectory(0)]
  }

  function Two(zero: Phase, role: Role): map<nat, Process> {
    map[0 := Of(Delete(false), zero), 1 := Of(Delete(false), Waiting), 2 := Of(role, Waiting)]
  }

  lemma AfterRemoval(role: Role)
    ensures Run(Removed(role)) == Some(State(Two(Done, role), false, None, 1, false))
  {
    AfterFirst();
    var zero := Of(Delete(false), Active);
    Starts(FIRST, State(map[0 := zero], true, Some(0), 1, true), 1, Delete(false));
    var a1 := FIRST + [Start(1, Delete(false))];
    Starts(a1, State(map[0 := zero, 1 := Of(Delete(false), Waiting)], true, Some(0), 1, true), 2, role);
    var a2 := a1 + [Start(2, role)];
    var s2 := State(Two(Active, role), true, Some(0), 1, true);
    assert Run(a2) == Some(s2);
    Removal(a2, s2, 0);
    assert Move(s2, 0, Done).processes == Two(Done, role);
  }

  /** One unlink of a removal. */
  lemma Unlinks(acts: seq<Action>, s: State, p: nat, left: set<Name>, name: Name, rest: set<Name>)
    requires Run(acts) == Some(s) && At(s, p, Removing(left)) && name in left && rest == left - {name}
    ensures Run(acts + [Unlink(p, name)]) == Some(Drop(Move(s, p, Removing(rest)), name))
  {
    RunExtends(acts, Unlink(p, name));
  }

  lemma Removal(acts: seq<Action>, s: State, p: nat)
    requires Run(acts) == Some(s) && At(s, p, Active) && s.marker && s.lockFile.Some? && s.present
    ensures Run(acts + [Succeed(p)] + [Unlink(p, Marker)] + [Unlink(p, LockFile)] + [RemoveDirectory(p)])
         == Some(Move(s, p, Done).(marker := false, lockFile := None, present := false))
  {
    var all, some, none := Entries(s), Entries(s) - {Marker}, Entries(s) - {Marker} - {LockFile};
    assert none == {};
    var process := s.processes[p];
    var a1 := acts + [Succeed(p)];
    var a2 := a1 + [Unlink(p, Marker)];
    var a3 := a2 + [Unlink(p, LockFile)];
    RunExtends(acts, Succeed(p));
    Unlinks(a1, Move(s, p, Removing(all)), p, all, Marker, some);
    Overwrite(s.processes, p, process.(phase := Removing(all)), process.(phase := Removing(some)));
    var s2 := Move(s, p, Removing(some)).(marker := false);
    assert Run(a2) == Some(s2);
    Unlinks(a2, s2, p, some, LockFile, none);
    Overwrite(s.processes, p, process.(phase := Removing(some)), process.(phase := Removing(none)));
    var s3 := Move(s, p, Removing(none)).(marker := false, lockFile := None);
    assert Run(a3) == Some(s3);
    Overwrite(s.processes, p, process.(phase := Removing(none)), process.(phase := Done));
    RunExtends(a3, RemoveDirectory(p));
  }

  /** A destroy that succeeds leaves those who have the lock file open without a marker: delete 1 enters, and
      a second plain delete, or a plain resize, enters beside it. Nobody's marker was taken. */
  lemma LateDeletesMeet()
    ensures var both := Run(Removed(Delete(false)) + Enters(1) + Enters(2));
            both.Some? && PlainDestroying(both.value, 1) && PlainDestroying(both.value, 2) && !both.value.marker
    ensures var mixed := Run(Removed(Resize(false)) + Enters(1) + Enters(2)[..2]);
            mixed.Some? && Destroying(mixed.value, 1) && PlainResizeWorks(mixed.value, 2)
  {
    AfterRemoval(Delete(false));
    var s := Run(Removed(Delete(false))).value;
    EnterDestroys(Removed(Delete(false)), s, 1);
    EnterDestroys(Removed(Delete(false)) + Enters(1), Run(Removed(Delete(false)) + Enters(1)).value, 2);
    AfterRemoval(Resize(false));
    var t := Run(Removed(Resize(false))).value;
    EnterDestroys(Removed(Resize(false)), t, 1);
    EnterChecked(Removed(Resize(false)) + Enters(1), Run(Removed(Resize(false)) + Enters(1)).value, 2);
  }

  /** Resize 1 has the lock file open while delete 0 unlinks it and its marker; delete 2 makes a new one. */
  const REPLACED: seq<Action> :=
    FIRST + [Start(1, Resize(false))] + [Succeed(0)] + [Unlink(0, LockFile)] + [Unlink(0, Marker)]
    + [Start(2, Delete(false))]

  function Third(one: Phase, two: Phase, left: set<Name>): map<nat, Process> {
    map[0 := Of(Delete(false), Removing(left)), 1 := Of(Resize(false), one), 2 := Process(Delete(false), two, 1)]
  }

  lemma AfterReplacing()
    ensures Run(REPLACED) == Some(State(Third(Waiting, Waiting, {}), false, Some(1), 2, true))
  {
    AfterFirst();
    var one := Of(Resize(false), Waiting);
    Starts(FIRST, State(map[0 := Of(Delete(false), Active)], true, Some(0), 1, true), 1, Resize(false));
    var a1 := FIRST + [Start(1, Resize(false))];
    var s1 := State(map[0 := Of(Delete(false), Active), 1 := one], true, Some(0), 1, true);
    var s2 := State(map[0 := Of(Delete(false), Removing({Marker, LockFile})), 1 := one], true, Some(0), 1, true);
    var s3 := State(map[0 := Of(Delete(false), Removing({Marker})), 1 := one], true, None, 1, true);
    var s4 := State(map[0 := Of(Delete(false), Removing({})), 1 := one], false, None, 1, true);
    assert Run(a1) == Some(s1) && Entries(s1) == {Marker, LockFile};
    Goes(a1, s1, Succeed(0), s2);
    assert {Marker, LockFile} - {LockFile} == {Marker} && {Marker} - {Marker} == {};
    Goes(a1 + [Succeed(0)], s2, Unlink(0, LockFile), s3);
    Goes(a1 + [Succeed(0)] + [Unlink(0, LockFile)], s3, Unlink(0, Marker), s4);
    Goes(a1 + [Succeed(0)] + [Unlink(0, LockFile)] + [Unlink(0, Marker)], s4, Start(2, Delete(false)),
         State(Third(Waiting, Waiting, {}), false, Some(1), 2, true));
  }

  function Race(one: Phase, two: Phase, marker: bool): State {
    State(Third(one, two, {}), marker, Some(1), 2, true)
  }

  /** Each locks its own file. */
  lemma BothLock(acts: seq<Action>)
    requires Run(acts) == Some(Race(Waiting, Waiting, false))
    ensures Run(acts + [TryLock(1)] + [TryLock(2)]) == Some(Race(Holding, Holding, false))
  {
    var s0, s1 := Race(Waiting, Waiting, false), Race(Holding, Waiting, false);
    assert !Locked(s0, 0) && !Locked(s1, 1);
    Goes(acts, s0, TryLock(1), s1);
    Goes(acts + [TryLock(1)], s1, TryLock(2), Race(Holding, Holding, false));
  }

  /** Both find no marker, and it is written under the working resize. */
  lemma BothEnter(acts: seq<Action>)
    requires Run(acts) == Some(Race(Holding, Holding, false))
    ensures Run(acts + [CheckMarker(1)] + [CheckMarker(2)] + [TouchMarker(2)]) == Some(Race(Working, Marked, true))
  {
    var s2, s3, s4 := Race(Holding, Holding, false), Race(Working, Holding, false), Race(Working, Marking, false);
    Goes(acts, s2, CheckMarker(1), s3);
    Goes(acts + [CheckMarker(1)], s3, CheckMarker(2), s4);
    Goes(acts + [CheckMarker(1)] + [CheckMarker(2)], s4, TouchMarker(2), Race(Working, Marked, true));
  }

  /** Two hold the lock, each its own, and a plain resize works under the marker. */
  lemma ReplacedLockBreaksExclusion()
    ensures var end := Run(REPLACED + [TryLock(1)] + [TryLock(2)] + [CheckMarker(1)] + [CheckMarker(2)]
                           + [TouchMarker(2)]);
            end.Some? && end.value.marker && PlainResizeWorks(end.value, 1) && TwoHold(end.value)
  {
    AfterReplacing();
    BothLock(REPLACED);
    BothEnter(REPLACED + [TryLock(1)] + [TryLock(2)]);
    assert Holds(Race(Working, Marked, true), 1) && Holds(Race(Working, Marked, true), 2);
  }
}
