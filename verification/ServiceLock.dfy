/**
 The single-owner lock file (`service_lock.py`) as interleaved steps of any number of processes.
 Creating the file, writing the pid, looking whether it exists, reading it, the liveness check, the unlink
 and the release are one step each.
 */
module ServiceLock {
  import opened Text

  /** What a read of the lock file yields: a pid, or nothing usable (empty, corrupt, no pid). */
  datatype Content = Unusable | OwnedBy(pid: nat)

  /** The file at the lock path; `creator` is the process whose exclusive create made it, if known. */
  datatype LockFile = LockFile(content: Content, creator: Option<nat>)

  datatype Phase =
    | Idle                       // not locked; an acquire may (re)try the exclusive create
    | Creating                   // the create succeeded, the pid is not written yet
    | Held                       // `_locked` is true
    | Inspecting                 // the create failed and stale cleanup is on
    | Reading                    // the file was found to exist
    | Deciding(candidate: nat)   // the file was read; 0 stands for an unusable content
    | Unlinking                  // the candidate was found dead
    | Releasing                  // the file is removed, `_locked` not yet cleared

  datatype Process = Process(pid: nat, alive: bool, cleanup: bool, phase: Phase)

  datatype System = System(file: Option<LockFile>, processes: map<nat, Process>)

  datatype Step =
    | Spawn(i: nat, pid: nat, cleanup: bool)
    | TryCreate(i: nat)
    | WritePid(i: nat)
    | FailWrite(i: nat)
    | Inspect(i: nat)
    | Read(i: nat)
    | Decide(i: nat)
    | Unlink(i: nat)
    | Release(i: nat)
    | FinishRelease(i: nat)
    | Die(i: nat)

  predicate PidRunning(s: System, pid: nat) {
    exists i :: i in s.processes && s.processes[i].alive && s.processes[i].pid == pid
  }

  predicate At(s: System, i: nat, phase: Phase) {
    i in s.processes && s.processes[i].alive && s.processes[i].phase == phase
  }

  function Move(s: System, i: nat, phase: Phase): System
    requires i in s.processes
  {
    s.(processes := s.processes[i := s.processes[i].(phase := phase)])
  }

  function CandidateOf(content: Content): nat {
    match content
    case Unusable => 0
    case OwnedBy(pid) => pid
  }

  /** One step; a step that is not enabled changes nothing. */
  function Next(s: System, step: Step): System {
    match step
    case Spawn(i, pid, cleanup) =>
      if i in s.processes || pid == 0 || PidRunning(s, pid) then s
      else s.(processes := s.processes[i := Process(pid, true, cleanup, Idle)])
    case TryCreate(i) =>
      if !At(s, i, Idle) then s
      else if s.file.None? then Move(s, i, Creating).(file := Some(LockFile(Unusable, Some(i))))
      else if s.processes[i].cleanup then Move(s, i, Inspecting)
      else s
    case WritePid(i) =>
      if !At(s, i, Creating) then s
      else if s.file.Some? && s.file.value.creator == Some(i) then
        Move(s, i, Held).(file := Some(LockFile(OwnedBy(s.processes[i].pid), Some(i))))
      else Move(s, i, Held)  // the write goes to a file that is no longer at the path
    case FailWrite(i) =>
      if At(s, i, Creating) then Move(s, i, if s.processes[i].cleanup then Inspecting else Idle) else s
    case Inspect(i) =>
      if !At(s, i, Inspecting) then s
      else if s.file.None? then Move(s, i, Idle)
      else Move(s, i, Reading)
    case Read(i) =>
      if !At(s, i, Reading) then s
      else Move(s, i, Deciding(if s.file.None? then 0 else CandidateOf(s.file.value.content)))
    case Decide(i) =>
      if !(i in s.processes && s.processes[i].alive && s.processes[i].phase.Deciding?) then s
      else
        var candidate := s.processes[i].phase.candidate;
        if candidate == 0 || !PidRunning(s, candidate) then Move(s, i, Unlinking) else Move(s, i, Idle)
    case Unlink(i) =>
      if At(s, i, Unlinking) then Move(s, i, Idle).(file := None) else s
    case Release(i) =>
      if At(s, i, Held) then Move(s, i, Releasing).(file := None) else s
    case FinishRelease(i) =>
      if At(s, i, Releasing) then Move(s, i, Idle) else s
    case Die(i) =>
      if i in s.processes then s.(processes := s.processes[i := s.processes[i].(alive := false)]) else s
  }

  function After(s: System, run: seq<Step>): System
    decreases |run|
  {
    if |run| == 0 then s else After(Next(s, run[0]), run[1..])
  }

  /** Before any process ran: the path may hold a leftover file of any content. */
  ghost predicate Initial(s: System) {
    s.processes == map[] && (s.file.Some? ==> s.file.value.creator.None?)
  }

  // ---------------------------------------------------------------- safety without misjudged cleanups

  ghost predicate Owner(s: System, i: nat) {
    At(s, i, Creating) || At(s, i, Held)
  }

  ghost predicate AtMostOneHolder(s: System) {
    forall i: nat, j: nat :: At(s, i, Held) && At(s, j, Held) ==> i == j
  }

  /** A cleanup that removes the file of a live owner. */
  ghost predicate Misjudged(s: System, step: Step) {
    && step.Unlink?
    && At(s, step.i, Unlinking)
    && s.file.Some?
    && s.file.value.creator.Some?
    && Owner(s, s.file.value.creator.value)
  }

  ghost predicate NoneMisjudged(s: System, run: seq<Step>)
    decreases |run|
  {
    |run| > 0 ==> !Misjudged(s, run[0]) && NoneMisjudged(Next(s, run[0]), run[1..])
  }

  /** A live process that created the lock file and has not given it up is the file's creator. */
  ghost predicate Sound(s: System) {
    forall i: nat :: Owner(s, i) ==> s.file.Some? && s.file.value.creator == Some(i)
  }

  /** Every run starts in a state that all the theorems below apply to. */
  lemma InitialIsSafe(s: System)
    requires Initial(s)
    ensures Sound(s) && NoCleanup(s) && Settled(s)
  {
  }

  lemma SoundStep(s: System, step: Step)
    requires Sound(s) && !Misjudged(s, step)
    ensures Sound(Next(s, step))
  {
    var t := Next(s, step);
    assert step.Release? && At(s, step.i, Held) ==> Owner(s, step.i);
    forall i: nat | Owner(t, i) ensures t.file.Some? && t.file.value.creator == Some(i) {
      if Owner(s, i) {
        assert s.file.Some? && s.file.value.creator == Some(i);
      }
    }
  }

  /** Mutual exclusion can only be lost through a cleanup that removed a live owner's file. */
  lemma {:induction false} ExclusiveUnlessMisjudged(s: System, run: seq<Step>)
    requires Sound(s) && NoneMisjudged(s, run)
    ensures Sound(After(s, run)) && AtMostOneHolder(After(s, run))
    decreases |run|
  {
    hide Next, Misjudged;
    if |run| > 0 {
      SoundStep(s, run[0]);
      ExclusiveUnlessMisjudged(Next(s, run[0]), run[1..]);
    } else {
      forall i: nat, j: nat | At(s, i, Held) && At(s, j, Held) ensures i == j {
        assert Owner(s, i) && Owner(s, j);
      }
    }
  }

  // ---------------------------------------------------------------- cleanup switched off

  ghost predicate NoCleanup(s: System) {
    forall i :: i in s.processes ==>
      !s.processes[i].cleanup && s.processes[i].phase in {Idle, Creating, Held, Releasing}
  }

  ghost predicate SpawnsNoCleanup(run: seq<Step>) {
    forall k :: 0 <= k < |run| && run[k].Spawn? ==> !run[k].cleanup
  }

  /** Without cleanup the only step that removes a lock file is its owner's release. */
  lemma NoCleanupStep(s: System, step: Step)
    requires NoCleanup(s) && Sound(s) && (step.Spawn? ==> !step.cleanup)
    ensures NoCleanup(Next(s, step)) && !Misjudged(s, step)
    ensures s.file.Some? && Next(s, step).file.None? ==>
              step.Release? && At(s, step.i, Held) && s.file.value.creator == Some(step.i)
  {
  }

  /** With stale cleanup off, no interleaving of any number of processes gives two holders. */
  lemma {:induction false} ExclusiveWithoutCleanup(s: System, run: seq<Step>)
    requires NoCleanup(s) && Sound(s) && SpawnsNoCleanup(run)
    ensures NoneMisjudged(s, run) && AtMostOneHolder(After(s, run)) && NoCleanup(After(s, run)) && Sound(After(s, run))
    decreases |run|
  {
    hide Next, Misjudged, NoCleanup, Sound;
    if |run| > 0 {
      NoCleanupStep(s, run[0]);
      SoundStep(s, run[0]);
      ExclusiveWithoutCleanup(Next(s, run[0]), run[1..]);
    } else {
      ExclusiveUnlessMisjudged(s, run);
    }
  }

  // ---------------------------------------------------------------- cleanup on, critical sections atomic

  /** Creation together with its pid, and read, liveness check and unlink together, as one action each. */
  datatype Action =
    | Single(step: Step)
    | CreateAndWrite(i: nat)
    | Cleanup(i: nat)

  ghost predicate Allowed(a: Action) {
    a.Single? ==> a.step.Spawn? || a.step.Release? || a.step.FinishRelease? || a.step.Die?
  }

  function Steps(a: Action): seq<Step> {
    match a
    case Single(step) => [step]
    case CreateAndWrite(i) => [TryCreate(i), WritePid(i)]
    case Cleanup(i) => [Inspect(i), Read(i), Decide(i), Unlink(i)]
  }

  function AllSteps(actions: seq<Action>): seq<Step> {
    if |actions| == 0 then [] else Steps(actions[0]) + AllSteps(actions[1..])
  }

  /** Between atomic actions nobody is inside a critical section, live pids differ, and a held file names its holder. */
  ghost predicate Settled(s: System) {
    && Sound(s)
    && (forall i :: i in s.processes && s.processes[i].alive ==>
          s.processes[i].pid != 0 && s.processes[i].phase in {Idle, Held, Inspecting, Releasing})
    && (forall i, j ::
          (i in s.processes && j in s.processes && s.processes[i].alive && s.processes[j].alive
           && s.processes[i].pid == s.processes[j].pid) ==> i == j)
    && (forall i: nat :: At(s, i, Held) ==> s.file == Some(LockFile(OwnedBy(s.processes[i].pid), Some(i))))
  }

  lemma SettledSingle(s: System, step: Step)
    requires Settled(s) && Allowed(Single(step))
    ensures Settled(Next(s, step)) && !Misjudged(s, step)
  {
    hide Sound, Misjudged;
    SoundSingle(s, step);
  }

  lemma SoundSingle(s: System, step: Step)
    requires Sound(s) && Allowed(Single(step))
    ensures Sound(Next(s, step)) && !Misjudged(s, step)
  {
    SoundStep(s, step);
  }

  lemma SettledCreate(s: System, i: nat)
    requires Settled(s)
    ensures var m := Next(s, TryCreate(i));
            Settled(Next(m, WritePid(i))) && !Misjudged(s, TryCreate(i)) && !Misjudged(m, WritePid(i))
  {
    SoundStep(s, TryCreate(i));
    SoundStep(Next(s, TryCreate(i)), WritePid(i));
  }

  lemma SettledCleanup(s: System, i: nat)
    requires Settled(s)
    ensures var m := Next(s, Inspect(i)); var r := Next(m, Read(i)); var n := Next(r, Decide(i));
            && !Misjudged(s, Inspect(i)) && !Misjudged(m, Read(i))
            && !Misjudged(r, Decide(i)) && !Misjudged(n, Unlink(i))
            && Settled(Next(n, Unlink(i)))
  {
    hide Sound, Misjudged, Next;
    CleanupSparesOwner(s, i);
    CleanupOutcome(s, i);
  }

  /** What an uninterrupted cleanup amounts to. */
  lemma CleanupOutcome(s: System, i: nat)
    requires Settled(s)
    ensures var t := Next(Next(Next(Next(s, Inspect(i)), Read(i)), Decide(i)), Unlink(i));
            || t == s
            || (At(s, i, Inspecting) && t == Move(s, i, Idle))
            || (At(s, i, Inspecting) && t == Move(s, i, Idle).(file := None)
                && forall owner: nat :: !At(s, owner, Held))
  {
    hide Sound, Move, Next;
    if At(s, i, Inspecting) && s.file.Some? {
      LooksAtFile(s, i);
      HolderIsRunning(s, i);
      JudgeOutcome(s, i, CandidateOf(s.file.value.content));
    } else {
      NothingToClean(s, i);
    }
  }

  lemma NothingToClean(s: System, i: nat)
    requires Settled(s) && !(At(s, i, Inspecting) && s.file.Some?)
    ensures var t := Next(Next(Next(Next(s, Inspect(i)), Read(i)), Decide(i)), Unlink(i));
      t == if At(s, i, Inspecting) then Move(s, i, Idle) else s
  {
    hide Sound;
  }

  /** The file goes exactly if its candidate is not running. */
  lemma JudgeOutcome(s: System, i: nat, candidate: nat)
    requires At(s, i, Inspecting)
    ensures var m := Move(s, i, Deciding(candidate));
      Next(Next(m, Decide(i)), Unlink(i)) ==
      if candidate == 0 || !PidRunning(m, candidate) then Move(s, i, Idle).(file := None) else Move(s, i, Idle)
  {
    var m := Move(s, i, Deciding(candidate));
    assert Move(m, i, Unlinking) == Move(s, i, Unlinking) && Move(m, i, Idle) == Move(s, i, Idle);
    assert Move(Move(s, i, Unlinking), i, Idle) == Move(s, i, Idle);
  }

  /** Found and read without interruption, the file yields the candidate it holds. */
  lemma LooksAtFile(s: System, i: nat)
    requires At(s, i, Inspecting) && s.file.Some?
    ensures Next(Next(s, Inspect(i)), Read(i)) == Move(s, i, Deciding(CandidateOf(s.file.value.content)))
  {
  }

  /** Uninterrupted, a cleanup removes the file only when nobody holds it. */
  lemma CleanupSparesOwner(s: System, i: nat)
    requires Settled(s)
    ensures var m := Next(s, Inspect(i)); var r := Next(m, Read(i)); var n := Next(r, Decide(i));
            var t := Next(n, Unlink(i));
            && !Misjudged(s, Inspect(i)) && !Misjudged(m, Read(i))
            && !Misjudged(r, Decide(i)) && !Misjudged(n, Unlink(i))
            && Sound(t)
  {
    var m := Next(s, Inspect(i));
    var r := Next(m, Read(i));
    var n := Next(r, Decide(i));
    SoundStep(s, Inspect(i));
    SoundStep(m, Read(i));
    SoundStep(r, Decide(i));
    UnlinkSpares(s, i);
    hide Sound;
    SoundStep(n, Unlink(i));
  }

  lemma UnlinkSpares(s: System, i: nat)
    requires Settled(s)
    ensures !Misjudged(Next(Next(Next(s, Inspect(i)), Read(i)), Decide(i)), Unlink(i))
  {
    if At(s, i, Inspecting) && s.file.Some? {
      LooksAtFile(s, i);
      HolderIsRunning(s, i);
    }
  }

  lemma HolderIsRunning(s: System, i: nat)
    requires Settled(s) && At(s, i, Inspecting) && s.file.Some?
    ensures forall owner: nat :: At(s, owner, Held) ==>
              && s.file.value.content == OwnedBy(s.processes[owner].pid)
              && PidRunning(Move(s, i, Deciding(CandidateOf(s.file.value.content))), s.processes[owner].pid)
  {
    var m := Move(s, i, Deciding(CandidateOf(s.file.value.content)));
    forall owner: nat | At(s, owner, Held) ensures PidRunning(m, s.processes[owner].pid) {
      assert owner in m.processes && m.processes[owner].alive && m.processes[owner].pid == s.processes[owner].pid;
    }
  }

  lemma {:induction false} NoneMisjudgedSplit(s: System, a: seq<Step>, b: seq<Step>)
    requires NoneMisjudged(s, a) && NoneMisjudged(After(s, a), b)
    ensures NoneMisjudged(s, a + b) && After(s, a + b) == After(After(s, a), b)
    decreases |a|
  {
    hide Next, Misjudged;
    if |a| == 0 {
      assert a + b == b;
    } else {
      assert (a + b)[1..] == a[1..] + b;
      NoneMisjudgedSplit(Next(s, a[0]), a[1..], b);
    }
  }

  lemma SettledAction(s: System, a: Action)
    requires Settled(s) && Allowed(a)
    ensures NoneMisjudged(s, Steps(a)) && Settled(After(s, Steps(a)))
  {
    hide Next, Misjudged, Settled;
    match a {
      case Single(step) =>
        SettledSingle(s, step);
        assert [step][1..] == [];
      case CreateAndWrite(i) =>
        SettledCreate(s, i);
        var steps := Steps(a);
        assert steps[1..] == [WritePid(i)] && steps[1..][1..] == [];
        var m := Next(s, TryCreate(i));
        assert NoneMisjudged(m, [WritePid(i)]);
        assert After(m, [WritePid(i)]) == After(Next(m, WritePid(i)), []);
      case Cleanup(i) =>
        SettledCleanup(s, i);
        CleanupUnrolled(s, i);
    }
  }

  lemma CleanupUnrolled(s: System, i: nat)
    ensures var m := Next(s, Inspect(i)); var r := Next(m, Read(i)); var n := Next(r, Decide(i));
      && After(s, Steps(Cleanup(i))) == Next(n, Unlink(i))
      && ((&& !Misjudged(s, Inspect(i)) && !Misjudged(m, Read(i))
           && !Misjudged(r, Decide(i)) && !Misjudged(n, Unlink(i))) ==> NoneMisjudged(s, Steps(Cleanup(i))))
  {
    hide Next, Misjudged;
    var steps := Steps(Cleanup(i));
    var m := Next(s, Inspect(i));
    var r := Next(m, Read(i));
    var n := Next(r, Decide(i));
    assert steps[1..] == [Read(i), Decide(i), Unlink(i)] && steps[1..][1..] == [Decide(i), Unlink(i)];
    assert steps[1..][1..][1..] == [Unlink(i)] && steps[1..][1..][1..][1..] == [];
    FourSteps(s, steps);
    if !Misjudged(n, Unlink(i)) { assert NoneMisjudged(n, [Unlink(i)]); }
    if !Misjudged(r, Decide(i)) && !Misjudged(n, Unlink(i)) { assert NoneMisjudged(r, [Decide(i), Unlink(i)]); }
    if !Misjudged(m, Read(i)) && !Misjudged(r, Decide(i)) && !Misjudged(n, Unlink(i)) {
      assert NoneMisjudged(m, [Read(i), Decide(i), Unlink(i)]);
    }
  }

  /**
   With cleanup on, no interleaving gives two live holders provided creation includes writing the pid
   and read, liveness check and unlink are not interrupted.
   */
  lemma {:induction false} ExclusiveWhenAtomic(s: System, actions: seq<Action>)
    requires Settled(s) && forall k :: 0 <= k < |actions| ==> Allowed(actions[k])
    ensures NoneMisjudged(s, AllSteps(actions))
    ensures Settled(After(s, AllSteps(actions))) && AtMostOneHolder(After(s, AllSteps(actions)))
    decreases |actions|
  {
    hide Next, Misjudged, Allowed;
    if |actions| > 0 {
      var first, rest := Steps(actions[0]), AllSteps(actions[1..]);
      SettledAction(s, actions[0]);
      ExclusiveWhenAtomic(After(s, first), actions[1..]);
      NoneMisjudgedSplit(s, first, rest);
    }
  }

  // ---------------------------------------------------------------- why atomicity is needed

  /** Two live processes with cleanup on, in the given phases. */
  function Two(file: Option<LockFile>, one: Phase, two: Phase): System {
    System(file, map[1 := Process(11, true, true, one), 2 := Process(12, true, true, two)])
  }

  ghost predicate BothHold(s: System) {
    At(s, 1, Held) && At(s, 2, Held)
  }

  lemma StepsOfOne(file: Option<LockFile>, one: Phase, two: Phase)
    ensures one == Idle && file.None? ==>
              Next(Two(file, one, two), TryCreate(1)) == Two(Some(LockFile(Unusable, Some(1))), Creating, two)
    ensures one == Idle && file.Some? ==> Next(Two(file, one, two), TryCreate(1)) == Two(file, Inspecting, two)
    ensures one == Creating && file == Some(LockFile(Unusable, Some(1))) ==>
              Next(Two(file, one, two), WritePid(1)) == Two(Some(LockFile(OwnedBy(11), Some(1))), Held, two)
    ensures one == Creating && file.Some? && file.value.creator != Some(1) ==>
              Next(Two(file, one, two), WritePid(1)) == Two(file, Held, two)
    ensures one == Inspecting && file.Some? ==> Next(Two(file, one, two), Inspect(1)) == Two(file, Reading, two)
    ensures one == Reading && file.Some? ==>
              Next(Two(file, one, two), Read(1)) == Two(file, Deciding(CandidateOf(file.value.content)), two)
    ensures one.Deciding? && one.candidate !in {11, 12} ==>
              Next(Two(file, one, two), Decide(1)) == Two(file, Unlinking, two)
    ensures one == Unlinking ==> Next(Two(file, one, two), Unlink(1)) == Two(None, Idle, two)
  {
    forall phase: Phase ensures Move(Two(file, one, two), 1, phase) == Two(file, phase, two) {
    }
  }

  lemma StepsOfTwo(file: Option<LockFile>, one: Phase, two: Phase)
    ensures two == Idle && file.None? ==>
              Next(Two(file, one, two), TryCreate(2)) == Two(Some(LockFile(Unusable, Some(2))), one, Creating)
    ensures two == Idle && file.Some? ==> Next(Two(file, one, two), TryCreate(2)) == Two(file, one, Inspecting)
    ensures two == Creating && file == Some(LockFile(Unusable, Some(2))) ==>
              Next(Two(file, one, two), WritePid(2)) == Two(Some(LockFile(OwnedBy(12), Some(2))), one, Held)
    ensures two == Creating && file.Some? && file.value.creator != Some(2) ==>
              Next(Two(file, one, two), WritePid(2)) == Two(file, one, Held)
    ensures two == Inspecting && file.Some? ==> Next(Two(file, one, two), Inspect(2)) == Two(file, one, Reading)
    ensures two == Reading && file.Some? ==>
              Next(Two(file, one, two), Read(2)) == Two(file, one, Deciding(CandidateOf(file.value.content)))
    ensures two.Deciding? && two.candidate !in {11, 12} ==>
              Next(Two(file, one, two), Decide(2)) == Two(file, one, Unlinking)
    ensures two == Unlinking ==> Next(Two(file, one, two), Unlink(2)) == Two(None, one, Idle)
  {
    forall phase: Phase ensures Move(Two(file, one, two), 2, phase) == Two(file, one, phase) {
    }
  }

  /**
   A file seen between its creation and the write of its pid counts as stale.  Even a cleanup that is not
   interrupted then removes it, and both processes end up holding the lock.
   */
  lemma UnwrittenPidIsTakenForStale()
    ensures var run := [TryCreate(1), TryCreate(2)] + Steps(Cleanup(2)) + [TryCreate(2), WritePid(2), WritePid(1)];
            BothHold(After(Two(None, Idle, Idle), run))
  {
    var blank := Some(LockFile(Unusable, Some(1)));
    var first := [TryCreate(1), TryCreate(2), Inspect(2), Read(2)];
    var second := [Decide(2), Unlink(2), TryCreate(2), WritePid(2)];
    var run := [TryCreate(1), TryCreate(2)] + Steps(Cleanup(2)) + [TryCreate(2), WritePid(2), WritePid(1)];
    assert run == first + (second + [WritePid(1)]);
    StaleSeen();
    StaleRemoved();
    var s := Two(None, Idle, Idle);
    AfterJoin(s, first, second + [WritePid(1)]);
    AfterJoin(After(s, first), second, [WritePid(1)]);
    OneStep(After(After(s, first), second), WritePid(1));
    StepsOfOne(Some(LockFile(OwnedBy(12), Some(2))), Creating, Held);
    BothHeld(Some(LockFile(OwnedBy(12), Some(2))));
  }

  lemma StaleSeen()
    ensures After(Two(None, Idle, Idle), [TryCreate(1), TryCreate(2), Inspect(2), Read(2)])
         == Two(Some(LockFile(Unusable, Some(1))), Creating, Deciding(0))
  {
    var blank := Some(LockFile(Unusable, Some(1)));
    FourSteps(Two(None, Idle, Idle), [TryCreate(1), TryCreate(2), Inspect(2), Read(2)]);
    hide Next, Two;
    StepsOfOne(None, Idle, Idle);
    StepsOfTwo(blank, Creating, Idle);
    StepsOfTwo(blank, Creating, Inspecting);
    StepsOfTwo(blank, Creating, Reading);
  }

  lemma StaleRemoved()
    ensures After(Two(Some(LockFile(Unusable, Some(1))), Creating, Deciding(0)),
                  [Decide(2), Unlink(2), TryCreate(2), WritePid(2)])
         == Two(Some(LockFile(OwnedBy(12), Some(2))), Creating, Held)
  {
    var blank := Some(LockFile(Unusable, Some(1)));
    FourSteps(Two(blank, Creating, Deciding(0)), [Decide(2), Unlink(2), TryCreate(2), WritePid(2)]);
    hide Next, Two;
    StepsOfTwo(blank, Creating, Deciding(0));
    StepsOfTwo(blank, Creating, Unlinking);
    StepsOfTwo(None, Creating, Idle);
    StepsOfTwo(Some(LockFile(Unusable, Some(2))), Creating, Creating);
  }

  lemma OneStep(s: System, step: Step)
    ensures After(s, [step]) == Next(s, step)
  {
    hide Next;
    assert [step][1..] == [];
  }

  lemma AfterJoin(s: System, a: seq<Step>, b: seq<Step>)
    ensures After(s, a + b) == After(After(s, a), b)
  {
    hide Next;
    AfterSplit(s, a + b, |a|);
    assert (a + b)[..|a|] == a && (a + b)[|a|..] == b;
  }

  lemma BothHeld(file: Option<LockFile>)
    ensures BothHold(Two(file, Held, Held))
  {
  }

  lemma FourSteps(s: System, r: seq<Step>)
    requires |r| == 4
    ensures After(s, r) == Next(Next(Next(Next(s, r[0]), r[1]), r[2]), r[3])
  {
    hide Next;
    var s1 := Next(s, r[0]);
    var s2 := Next(s1, r[1]);
    assert After(s1, r[1..]) == After(s2, r[1..][1..]);
    assert r[1..][1..] == r[2..];
    assert After(s2, r[2..]) == After(Next(s2, r[2]), r[2..][1..]);
    assert r[2..][1..] == [r[3]];
    assert [r[3]][1..] == [];
  }

  lemma {:induction false} AfterSplit(s: System, r: seq<Step>, k: nat)
    requires k <= |r|
    ensures After(s, r) == After(After(s, r[..k]), r[k..])
    decreases k
  {
    hide Next;
    if k > 0 {
      AfterSplit(Next(s, r[0]), r[1..], k - 1);
      assert r[1..][..k - 1] == r[..k][1..] && r[1..][k - 1..] == r[k..];
    }
  }

  /** Two processes judge the same dead owner; the slower unlink removes the new owner's file. */
  lemma LateUnlinkRemovesNewOwner()
    ensures var stale := Some(LockFile(OwnedBy(99), None));
            var judge1 := [TryCreate(1), Inspect(1), Read(1), Decide(1)];
            var judge2 := [TryCreate(2), Inspect(2), Read(2), Decide(2)];
            var takeOver := [Unlink(1), TryCreate(1), WritePid(1), Unlink(2)];
            var run := judge1 + judge2 + takeOver + [TryCreate(2), WritePid(2)];
            BothHold(After(Two(stale, Idle, Idle), run))
  {
    var stale := Some(LockFile(OwnedBy(99), None));
    var first, second := [TryCreate(1), Inspect(1), Read(1), Decide(1)], [TryCreate(2), Inspect(2), Read(2), Decide(2)];
    var third, last := [Unlink(1), TryCreate(1), WritePid(1), Unlink(2)], [TryCreate(2), WritePid(2)];
    var s := Two(stale, Idle, Idle);
    FirstJudges();
    SecondJudges();
    FirstTakesOver();
    AfterJoin(s, first + second + third, last);
    AfterJoin(s, first + second, third);
    AfterJoin(s, first, second);
    SecondTakesOver();
  }

  lemma FirstJudges()
    ensures After(Two(Some(LockFile(OwnedBy(99), None)), Idle, Idle), [TryCreate(1), Inspect(1), Read(1), Decide(1)])
         == Two(Some(LockFile(OwnedBy(99), None)), Unlinking, Idle)
  {
    var stale := Some(LockFile(OwnedBy(99), None));
    FourSteps(Two(stale, Idle, Idle), [TryCreate(1), Inspect(1), Read(1), Decide(1)]);
    hide Next, Two;
    StepsOfOne(stale, Idle, Idle);
    StepsOfOne(stale, Inspecting, Idle);
    StepsOfOne(stale, Reading, Idle);
    StepsOfOne(stale, Deciding(99), Idle);
  }

  lemma SecondJudges()
    ensures After(Two(Some(LockFile(OwnedBy(99), None)), Unlinking, Idle),
        [TryCreate(2), Inspect(2), Read(2), Decide(2)])
         == Two(Some(LockFile(OwnedBy(99), None)), Unlinking, Unlinking)
  {
    var stale := Some(LockFile(OwnedBy(99), None));
    FourSteps(Two(stale, Unlinking, Idle), [TryCreate(2), Inspect(2), Read(2), Decide(2)]);
    hide Next, Two;
    StepsOfTwo(stale, Unlinking, Idle);
    StepsOfTwo(stale, Unlinking, Inspecting);
    StepsOfTwo(stale, Unlinking, Reading);
    StepsOfTwo(stale, Unlinking, Deciding(99));
  }

  /** The first removes the leftover file and acquires; the second then removes the first one's file. */
  lemma FirstTakesOver()
    ensures After(Two(Some(LockFile(OwnedBy(99), None)), Unlinking, Unlinking),
                  [Unlink(1), TryCreate(1), WritePid(1), Unlink(2)])
         == Two(None, Held, Idle)
  {
    var stale := Some(LockFile(OwnedBy(99), None));
    FourSteps(Two(stale, Unlinking, Unlinking), [Unlink(1), TryCreate(1), WritePid(1), Unlink(2)]);
    hide Next, Two;
    StepsOfOne(stale, Unlinking, Unlinking);
    StepsOfOne(None, Idle, Unlinking);
    StepsOfOne(Some(LockFile(Unusable, Some(1))), Creating, Unlinking);
    StepsOfTwo(Some(LockFile(OwnedBy(11), Some(1))), Held, Unlinking);
  }

  lemma SecondTakesOver()
    ensures BothHold(After(Two(None, Held, Idle), [TryCreate(2), WritePid(2)]))
  {
    var s := Two(None, Held, Idle);
    AfterJoin(s, [TryCreate(2)], [WritePid(2)]);
    assert [TryCreate(2), WritePid(2)] == [TryCreate(2)] + [WritePid(2)];
    OneStep(s, TryCreate(2));
    OneStep(Next(s, TryCreate(2)), WritePid(2));
    hide Next, Two;
    StepsOfTwo(None, Held, Idle);
    StepsOfTwo(Some(LockFile(Unusable, Some(2))), Held, Creating);
    BothHeld(Some(LockFile(OwnedBy(12), Some(2))));
  }
}
