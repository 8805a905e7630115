/**
 The journaled restore across Core and the Local rounds database (`coordinated_restore.py`).  Every step may
 fail, with or without having taken effect, and the process may die during it; Core may answer as it likes,
 except that a successful rollback leaves it on the old side, a successful commit on the new side, and a
 committed transaction is never undone.
 */
module CoordinatedRestore {
  import opened Text

  /** Which content a database holds, relative to the restore under way. */
  datatype Side = Old | New

  datatype Phase =
    | Prepared | BeginPending | AppliedPending | RoundsApplied | HealthyPending | Committed | RolledBack | Inconsistent

  /** The durable journal: its state, and whether Core's transaction id is recorded. */
  datatype Journal = Journal(phase: Phase, transaction: bool)

  datatype Step = Works | Fails(effect: bool) | Dies(effect: bool)

  datatype Exit = Done | Raised(kind: Kind) | Crashed
  datatype Kind = Plain | WasInconsistent | WasCompensated

  datatype UndoStep =
    | RewritePending | StopAgain | RollbackCall | RestoreCopy | VerifyCopy | StartAgain | HealthyAgain
    | WriteRolledBack | Mark

  datatype CleanStep = DropSnapshot | DropStaging | DropJournal | SyncDirectory

  datatype Site =
    | BackUp | WritePrepared
    | StopCore | WriteBegin | BeginCall | WriteApplied | ManifestMatches | ReplaceCopy | WriteRounds
    | StartCore | Healthy | ManifestKept | WriteHealthy | CommitCall | WriteCommitted
    | Undo(undo: UndoStep) | Clean(phase: Phase, clean: CleanStep) | RecoveryMark

  /** What each step does during one call, and where a Core call that brings no success leaves Core. */
  datatype Env = Env(step: Site -> Step, coreAfter: Site -> Side, committedAnyway: bool)

  function ExitOf(o: Step): Exit {
    match o
    case Works => Done
    case Fails(_) => Raised(Plain)
    case Dies(_) => Crashed
  }

  predicate TookEffect(o: Step) {
    o.Works? || o.effect
  }

  const BEGIN_SITES: set<Site> := {WriteBegin, BeginCall, WriteApplied, ManifestMatches}

  const INSTALL_SITES: set<Site> :=
    {ReplaceCopy, WriteRounds, StartCore, Healthy, ManifestKept, WriteHealthy, CommitCall}

  const UNDO_SITES: set<Site> :=
    {Undo(StopAgain), Undo(RollbackCall), Undo(RestoreCopy), Undo(VerifyCopy), Undo(StartAgain), Undo(HealthyAgain)}

  ghost predicate Work(env: Env, sites: set<Site>) {
    forall site :: site in sites ==> env.step(site).Works?
  }

  ghost predicate AllWork(env: Env) {
    forall site :: env.step(site).Works?
  }

  /** Journal states in which recovery still decides by itself what to do with both databases. */
  predicate Open(journal: Option<Journal>) {
    journal.Some? && journal.value.phase !in {Prepared, Committed}
  }

  class CoordinatedRestoreService {
    var journal: Option<Journal>
    var core: Side
    var rounds: Side
    /** Core has committed the transaction. */
    var final: bool
    /** The rollback snapshot of the rounds database exists. */
    var snapshot: bool

    /**
     Without a journal both databases are on the same side; a prepared journal promises that nothing was
     touched, and a committed one that both are new.
     */
    ghost predicate Inv()
      reads this
    {
      && (journal.None? ==> core == rounds)
      && (journal.Some? && journal.value.phase == Prepared ==>
            !journal.value.transaction && core == Old && rounds == Old && !final)
      && (journal.Some? && journal.value.phase == Committed ==> core == New && rounds == New && final)
      && (journal.Some? && !journal.value.transaction ==> journal.value.phase in {Prepared, BeginPending, Inconsistent})
      && (final ==> core == New)
    }

    constructor ()
      ensures Inv() && journal.None?
    {
      journal, core, rounds, final, snapshot := None, Old, Old, false, false;
    }

    // -------------------------------------------------------------- single steps

    /** `_write_journal`: the replacement is atomic, but a failure may come after it. */
    method Write(j: Journal, o: Step) returns (e: Exit)
      modifies this`journal
      ensures e == ExitOf(o)
      ensures journal == if TookEffect(o) then Some(j) else old(journal)
    {
      if TookEffect(o) {
        journal := Some(j);
      }
      e := ExitOf(o);
    }

    /** `begin_restore`: idempotent in the token; Core may end up on either side unless it has committed. */
    method Begin(env: Env) returns (e: Exit)
      modifies this`core
      ensures e == ExitOf(env.step(BeginCall))
      ensures core == if final then old(core) else env.coreAfter(BeginCall)
    {
      if !final {
        core := env.coreAfter(BeginCall);
      }
      e := ExitOf(env.step(BeginCall));
    }

    /** `commit_restore`: success is final; after a lost answer Core may have committed or not. */
    method Commit(env: Env) returns (e: Exit)
      requires final ==> core == New
      modifies this`core, this`final
      ensures e == ExitOf(env.step(CommitCall))
      ensures e == Done ==> core == New && final
      ensures (old(final) ==> final) && (final ==> core == New)
    {
      if env.step(CommitCall).Works? || env.committedAnyway {
        core, final := New, true;
      } else if !final {
        core := env.coreAfter(CommitCall);
      }
      e := ExitOf(env.step(CommitCall));
    }

    /** `rollback_restore`: refused once committed; success leaves Core on the old side. */
    method Rollback(env: Env) returns (e: Exit)
      modifies this`core
      ensures e == Done ==> core == Old && !final
      ensures final ==> core == old(core) && e != Done
      ensures e == if final && env.step(Undo(RollbackCall)).Works? then Raised(Plain)
                   else ExitOf(env.step(Undo(RollbackCall)))
    {
      e := ExitOf(env.step(Undo(RollbackCall)));
      if final {
        e := if e == Done then Raised(Plain) else e;
      } else {
        core := if e == Done then Old else env.coreAfter(Undo(RollbackCall));
      }
    }

    /** `_replace_rounds_database`. */
    method ReplaceRounds(o: Step) returns (e: Exit)
      modifies this`rounds
      ensures e == ExitOf(o) && rounds == if TookEffect(o) then New else old(rounds)
    {
      if TookEffect(o) {
        rounds := New;
      }
      e := ExitOf(o);
    }

    /** `_restore_rounds_database`: refused when the snapshot is gone. */
    method RestoreRounds(o: Step) returns (e: Exit)
      modifies this`rounds
      ensures e == if !snapshot && o.Works? then Raised(Plain) else ExitOf(o)
      ensures rounds == if snapshot && TookEffect(o) then Old else old(rounds)
    {
      e := ExitOf(o);
      if !snapshot {
        e := if e == Done then Raised(Plain) else e;
      } else if TookEffect(o) {
        rounds := Old;
      }
    }

    /** `_cleanup_success` and, without the last step, `_cleanup_failed_before_begin`: the journal goes last. */
    method Cleanup(env: Env, phase: Phase) returns (e: Exit)
      modifies this`journal, this`snapshot
      ensures e == Done ==> journal.None? && !snapshot
      ensures journal == old(journal) || (journal.None? && !snapshot)
      ensures snapshot == (old(snapshot) && !TookEffect(env.step(Clean(phase, DropSnapshot))))
      ensures e.Raised? ==> e.kind == Plain
      ensures !env.step(Clean(phase, DropSnapshot)).Works? ==>
                e == ExitOf(env.step(Clean(phase, DropSnapshot))) && journal == old(journal)
      ensures (forall step :: env.step(Clean(phase, step)).Works?) ==> e == Done
    {
      var first := env.step(Clean(phase, DropSnapshot));
      if TookEffect(first) {
        snapshot := false;
      }
      if !first.Works? {
        return ExitOf(first);
      }
      var second := env.step(Clean(phase, DropStaging));
      if !second.Works? {
        return ExitOf(second);
      }
      var third := env.step(Clean(phase, DropJournal));
      if TookEffect(third) {
        journal := None;
      }
      if !third.Works? {
        return ExitOf(third);
      }
      e := if phase == Prepared then Done else ExitOf(env.step(Clean(phase, SyncDirectory)));
    }

    // -------------------------------------------------------------- compensation

    /** `_mark_inconsistent`: a failed write is swallowed. */
    method MarkInconsistent(j: Journal, o: Step) returns (e: Exit)
      modifies this`journal
      ensures e == if o.Dies? then Crashed else Done
      ensures journal == if TookEffect(o) then Some(j.(phase := Inconsistent)) else old(journal)
    {
      e := Write(j.(phase := Inconsistent), o);
      if e.Raised? {
        e := Done;
      }
    }

    /** Both databases are new for good and the old rounds database is gone. */
    ghost predicate SettledNew()
      reads this
    {
      final && core == New && rounds == New && !snapshot
    }

    /**
     `_compensate`, which never returns normally.  It keeps the invariant from any open journal, and from a
     settled restore; an outcome reported as compensated or inconsistent is what the journal says or both
     databases agree.
     */
    method Compensate(j: Journal, stopped: bool, env: Env) returns (e: Exit)
      requires final ==> core == New
      modifies this
      ensures e != Done && (old(final) ==> final)
      ensures old(Inv()) && (!j.transaction || old(Open(journal)) || old(SettledNew())) ==> Inv()
      ensures !j.transaction ==> core == old(core) && rounds == old(rounds) && final == old(final)
      ensures !j.transaction && env.step(Undo(RewritePending)).Works? ==> journal == Some(j.(phase := BeginPending))
      // the rounds database goes back even if Core refuses to
      ensures j.transaction && old(final) && old(snapshot) && Work(env, UNDO_SITES) && !env.step(Undo(Mark)).Dies? ==>
                && e == Raised(WasInconsistent) && core == old(core) && rounds == Old
                && journal == if TookEffect(env.step(Undo(Mark))) then Some(j.(phase := Inconsistent)) else old(journal)
    {
      if !j.transaction {
        e := Write(j.(phase := BeginPending), env.step(Undo(RewritePending)));
        if e.Raised? {
          e := MarkInconsistent(j, env.step(Undo(Mark)));
          return if e == Done then Raised(WasInconsistent) else e;
        }
        return if e == Done then Raised(WasCompensated) else e;
      }
      var failed;
      e, failed := UndoBoth(stopped, env);
      if e == Crashed {
        return;
      }
      if failed {
        e := MarkInconsistent(j, env.step(Undo(Mark)));
        return if e == Done then Raised(WasInconsistent) else e;
      }
      e := Write(j.(phase := RolledBack), env.step(Undo(WriteRolledBack)));
      if e == Done {
        e := Cleanup(env, RolledBack);
      }
      if e == Done {
        e := Raised(WasCompensated);
      }
    }

    /** The attempts of the compensation, each made whether or not the ones before it failed. */
    method UndoBoth(stopped: bool, env: Env) returns (e: Exit, failed: bool)
      requires final ==> core == New
      modifies this`core, this`rounds
      ensures e in {Done, Crashed} && (final ==> core == New)
      ensures e == Done && !failed ==> core == Old && rounds == Old && !final
      ensures final ==> failed || e == Crashed
      ensures !snapshot ==> rounds == old(rounds)
      ensures Work(env, UNDO_SITES) ==>
                e == Done && (snapshot ==> rounds == Old) && (final ==> failed && core == old(core))
    {
      failed := false;
      if !stopped {
        e := ExitOf(env.step(Undo(StopAgain)));
        if e == Crashed { return; }
        failed := e != Done;
      }
      e := Rollback(env);
      if e == Crashed { return; }
      failed := failed || e != Done;
      e := RestoreRounds(env.step(Undo(RestoreCopy)));
      if e == Crashed { return; }
      failed := failed || e != Done;
      if e == Done {
        e := ExitOf(env.step(Undo(VerifyCopy)));
        if e == Crashed { return; }
        failed := failed || e != Done;
      }
      e := ExitOf(env.step(Undo(StartAgain)));
      if e == Done {
        e := ExitOf(env.step(Undo(HealthyAgain)));
      }
      if e == Crashed { return; }
      failed := failed || e != Done;
      e := Done;
    }

    // -------------------------------------------------------------- the saga

    /** `prepare_restore`: a new restore calls what both databases hold now the old side. */
    method Prepare(env: Env) returns (e: Exit)
      requires Inv()
      modifies this
      ensures Inv()
      ensures old(journal).Some? ==> unchanged(this) && e != Crashed
      ensures e == Done ==> journal.Some?
      ensures old(journal).None? && e == Done ==> journal == Some(Journal(Prepared, false)) && snapshot
      ensures old(journal).None? && AllWork(env) ==> e == Done
    {
      if journal.Some? {
        return if journal.value.phase == Inconsistent then Raised(WasInconsistent) else Done;
      }
      core, rounds, final := Old, Old, false;
      e := ExitOf(env.step(BackUp));
      snapshot := TookEffect(env.step(BackUp));
      if e == Done {
        e := Write(Journal(Prepared, false), env.step(WritePrepared));
      }
      if e.Raised? {
        snapshot := false;
      }
    }

    /** `_begin_if_needed`: the journal says so before Core is asked, so no begin goes unrecorded. */
    method BeginIfNeeded(j: Journal, env: Env) returns (e: Exit, k: Journal)
      requires Inv() && journal == Some(j) && j.phase !in {Committed, Inconsistent}
      modifies this
      ensures Inv()
      ensures e == Done ==> k.transaction && journal == Some(k) && Open(journal)
      ensures e == Done ==> snapshot == old(snapshot) && final == old(final) && rounds == old(rounds)
      ensures j.transaction ==> e == Done && k == j && unchanged(this)
      ensures Work(env, BEGIN_SITES) ==> e == Done
      ensures e == Done && final ==> core == old(core)
      // an answer that is lost leaves the begin recorded as pending
      ensures !j.transaction && env.step(WriteBegin).Works? && env.step(BeginCall).Fails? && !old(final) ==>
                && e == Raised(Plain) && journal == Some(Journal(BeginPending, false))
                && core == env.coreAfter(BeginCall) && rounds == old(rounds) && !final
    {
      k := j;
      if j.transaction {
        return Done, j;
      }
      e := Write(j.(phase := BeginPending), env.step(WriteBegin));
      if e != Done {
        return;
      }
      e := Begin(env);
      if e != Done {
        return;
      }
      k := Journal(AppliedPending, true);
      e := Write(k, env.step(WriteApplied));
      if e != Done {
        return;
      }
      if !env.step(ManifestMatches).Works? {
        e := if env.step(ManifestMatches).Dies? then Crashed else Raised(Plain);
        if e.Raised? {
          e := Compensate(k, true, env);
        }
      }
    }

    /** From the rounds database to the committed journal; `stopped` is the handler's view of Core on a failure. */
    method Install(k: Journal, env: Env) returns (e: Exit, stopped: bool)
      requires k.transaction && journal == Some(k) && Open(journal) && (final ==> core == New)
      modifies this`journal, this`core, this`rounds, this`final
      ensures (final ==> core == New) && journal.Some? && journal.value.transaction
      ensures e == Done ==> journal == Some(Journal(Committed, true)) && core == New && rounds == New && final
      ensures e != Done ==>
                || Open(journal)
                || (&& TookEffect(env.step(WriteCommitted)) && e == ExitOf(env.step(WriteCommitted))
                    && journal == Some(Journal(Committed, true)) && core == New && rounds == New && final)
      ensures Work(env, INSTALL_SITES) ==>
                e == ExitOf(env.step(WriteCommitted)) && core == New && rounds == New && final
      ensures Work(env, INSTALL_SITES) && TookEffect(env.step(WriteCommitted)) ==>
                journal == Some(Journal(Committed, true))
    {
      stopped := true;
      e := ReplaceRounds(env.step(ReplaceCopy));
      if e != Done { return; }
      e := Write(k.(phase := RoundsApplied), env.step(WriteRounds));
      if e != Done { return; }
      stopped := false;
      e := ExitOf(env.step(StartCore));
      if e != Done { return; }
      e := ExitOf(env.step(Healthy));
      if e != Done { return; }
      e := ExitOf(env.step(ManifestKept));
      if e != Done { return; }
      e := Write(k.(phase := HealthyPending), env.step(WriteHealthy));
      if e != Done { return; }
      e := Commit(env);
      if e != Done { return; }
      e := Write(k.(phase := Committed), env.step(WriteCommitted));
    }

    /**
     What `apply_restore` needs of its environment: Core stops when its begin is still in doubt, and once the
     committed journal is written nothing raises while the rollback snapshot exists.
     */
    static predicate Safe(env: Env, before: Option<Journal>) {
      && (before.Some? && before.value.phase == BeginPending ==> !env.step(StopCore).Fails?)
      && NoLateFailure(env)
    }

    /** Nothing raises between the committed journal and the deletion of the snapshot. */
    static predicate NoLateFailure(env: Env) {
      env.step(WriteCommitted) != Fails(true) && env.step(Clean(Committed, DropSnapshot)) != Fails(false)
    }

    /** A journal that `apply_restore` carries on with. */
    static predicate Resumable(journal: Option<Journal>) {
      journal.Some? && journal.value.phase !in {Committed, Inconsistent}
    }

    /** All goes well up to the committed journal; then its write or the deletion of the snapshot fails. */
    static ghost predicate Torn(env: Env) {
      && env.step(StopCore).Works? && Work(env, BEGIN_SITES) && Work(env, INSTALL_SITES) && Work(env, UNDO_SITES)
      && (|| env.step(WriteCommitted) == Fails(true)
          || (env.step(WriteCommitted).Works? && env.step(Clean(Committed, DropSnapshot)) == Fails(false)))
    }

    /** The begin is recorded as pending, and its answer is lost. */
    static ghost predicate BeginIsLost(env: Env) {
      && env.step(StopCore).Works? && env.step(WriteBegin).Works? && env.step(BeginCall).Fails?
      && env.step(Undo(RewritePending)).Works?
    }

    /** `apply_restore` on the durable journal. */
    method Apply(env: Env) returns (e: Exit)
      requires Inv()
      modifies this
      ensures Safe(env, old(journal)) ==> Inv()
      ensures e == Done ==> Inv() && core == New && rounds == New && final
      ensures e == Done && old(Resumable(journal)) ==> journal.None?
      // an environment in which everything works completes the restore
      ensures old(Resumable(journal)) && AllWork(env) ==> e == Done
      // an answer to the begin that is lost leaves the journal pending, on whatever side Core is
      ensures old(journal) == Some(Journal(Prepared, false)) && BeginIsLost(env) ==>
                journal == Some(Journal(BeginPending, false)) && core == env.coreAfter(BeginCall) && rounds == Old
      // if Core then does not stop, the journal goes nevertheless
      ensures (&& old(journal) == Some(Journal(BeginPending, false)) && env.step(StopCore).Fails?
               && forall step :: env.step(Clean(Prepared, step)).Works?) ==>
                journal.None? && core == old(core) && rounds == old(rounds) && (Inv() <==> old(core) == old(rounds))
      // a failure after the committed journal was written takes the rounds database back alone
      ensures old(Resumable(journal)) && old(snapshot) && Torn(env) && !env.step(Undo(Mark)).Dies? ==> TornApart(env)
    {
      hide Torn, BeginIsLost, TornApart;
      if journal.None? {
        return Raised(Plain);
      }
      var j := journal.value;
      if j.phase == Committed {
        return Done;
      }
      if j.phase == Inconsistent {
        return Raised(WasInconsistent);
      }
      StopsFirst(env);
      e := ExitOf(env.step(StopCore));
      if e == Crashed {
        return;
      }
      if e.Raised? {
        if j.transaction {
          e := Compensate(j, false, env);
        } else {
          e := Cleanup(env, Prepared);
          e := if e == Done then Raised(Plain) else e;
        }
        return;
      }
      e := Proceed(j, env);
    }

    static lemma StopsFirst(env: Env)
      ensures Torn(env) || BeginIsLost(env) ==> env.step(StopCore).Works?
    {
    }

    /** Core alone is new, and the journal says so only if the mark could be written. */
    ghost predicate TornApart(env: Env)
      reads this
    {
      && core == New && rounds == Old && (Inv() <==> TookEffect(env.step(Undo(Mark))))
      && (!Inv() ==> journal == Some(Journal(Committed, true)))
    }

    /** `apply_restore` once Core is stopped. */
    method Proceed(j: Journal, env: Env) returns (e: Exit)
      requires Inv() && journal == Some(j) && Resumable(journal)
      modifies this
      ensures NoLateFailure(env) ==> Inv()
      ensures e == Done ==> Inv() && core == New && rounds == New && final && journal.None?
      ensures AllWork(env) ==> e == Done
      ensures j == Journal(Prepared, false) && BeginIsLost(env) ==>
                journal == Some(Journal(BeginPending, false)) && core == env.coreAfter(BeginCall) && rounds == Old
      ensures old(snapshot) && Torn(env) && !env.step(Undo(Mark)).Dies? ==> TornApart(env)
    {
      var k;
      e, k := BeginIfNeeded(j, env);
      if e == Crashed || (e.Raised? && e.kind != Plain) {
        return;
      }
      if e.Raised? {
        e := Compensate(j, true, env);
        return;
      }
      e := InstallOrUndo(k, env);
    }

    /** The rest of `apply_restore`, with the compensation of its failures. */
    method InstallOrUndo(k: Journal, env: Env) returns (e: Exit)
      requires Inv() && journal == Some(k) && k.transaction && Open(journal)
      modifies this
      ensures NoLateFailure(env) ==> Inv()
      ensures e == Done ==> Inv() && core == New && rounds == New && final && journal.None?
      ensures AllWork(env) ==> e == Done
      ensures old(snapshot) && Torn(env) && !env.step(Undo(Mark)).Dies? ==> TornApart(env)
    {
      var stopped;
      e, stopped := Install(k, env);
      if e == Done {
        e := Cleanup(env, Committed);
        stopped := false;
      }
      if e.Raised? {
        e := Compensate(k, stopped, env);
      }
    }

    /**
     `recover`.  From every state a crash can leave, and whatever fails: when it returns, the journal is gone
     and both databases are on the same side; when it does not, the journal is still there or they agree.
     */
    method Recover(env: Env) returns (e: Exit)
      requires Inv() || (journal.Some? && journal.value.phase == Committed)
      modifies this
      ensures old(Inv()) ==> Inv()
      ensures e == Done ==> journal.None?
      ensures old(Inv()) && e == Done ==> core == rounds
      ensures old(Inv()) ==> core == rounds || journal.Some?
      ensures e == Raised(WasInconsistent) && env.step(RecoveryMark).Works? ==>
                journal.Some? && journal.value.phase == Inconsistent
      // a journal that is not settled is rolled back when everything works and Core has not committed
      ensures (&& old(Open(journal)) && old(journal).value.phase != Inconsistent && old(snapshot) && !old(final)
               && AllWork(env)) ==> e == Done && core == Old && rounds == Old
      // after a commit that never reached the journal, recovery gives up, leaving both databases as they are
      ensures (&& old(Open(journal)) && old(journal).value.phase != Inconsistent && old(final)
               && AllWork(env)) ==> e == Raised(WasInconsistent) && core == old(core) && rounds == old(rounds)
      // a committed journal is believed
      ensures old(journal).Some? && old(journal).value.phase == Committed ==> core == old(core) && rounds == old(rounds)
      ensures old(journal).Some? && old(journal).value.phase == Committed && AllWork(env) ==> e == Done
    {
      if journal.None? {
        return Done;
      }
      var j := journal.value;
      if j.phase == Inconsistent {
        return Raised(WasInconsistent);
      }
      if j.phase == Committed {
        e := Cleanup(env, Committed);
        return;
      }
      if j.phase == Prepared && !j.transaction {
        e := Cleanup(env, Prepared);
        return;
      }
      e := RollBack(j, env);
      if e.Raised? {
        e := MarkInconsistent(j, env.step(RecoveryMark));
        e := if e == Done then Raised(WasInconsistent) else e;
      }
    }

    /** The try block of `recover`. */
    method RollBack(j: Journal, env: Env) returns (e: Exit)
      requires Inv() && journal == Some(j) && Open(journal) && j.phase != Inconsistent
      modifies this
      ensures Inv()
      ensures e == Done ==> journal.None? && core == Old && rounds == Old
      ensures AllWork(env) ==>
                if old(final) then e.Raised? && core == old(core) && rounds == old(rounds) && Open(journal)
                else old(snapshot) ==> e == Done
    {
      e := ExitOf(env.step(StopCore));
      if e != Done { return; }
      var k;
      e, k := BeginIfNeeded(j, env);
      if e != Done { return; }
      e := Rollback(env);
      if e != Done { return; }
      e := RestoreRounds(env.step(Undo(RestoreCopy)));
      if e != Done { return; }
      e := ExitOf(env.step(Undo(VerifyCopy)));
      if e != Done { return; }
      e := ExitOf(env.step(StartCore));
      if e != Done { return; }
      e := ExitOf(env.step(Healthy));
      if e != Done { return; }
      e := Write(k.(phase := RolledBack), env.step(Undo(WriteRolledBack)));
      if e != Done { return; }
      e := Cleanup(env, RolledBack);
    }

    /** Any sequence of calls, each of which may fail or die anywhere: the invariant is never lost. */
    method Run(calls: seq<Call>)
      requires Inv()
      requires forall i :: 0 <= i < |calls| && calls[i].CallApply? ==> SafeAnywhere(calls[i].env)
      modifies this
      ensures Inv()
    {
      for k := 0 to |calls|
        invariant Inv()
      {
        match calls[k] {
          case CallPrepare(env) => var _ := Prepare(env);
          case CallApply(env) => var _ := Apply(env);
          case CallRecover(env) => var _ := Recover(env);
        }
      }
    }

    /** Safe whatever the journal says. */
    static predicate SafeAnywhere(env: Env) {
      !env.step(StopCore).Fails? && NoLateFailure(env)
    }
  }

  datatype Call = CallPrepare(env: Env) | CallApply(env: Env) | CallRecover(env: Env)

  /** Everything works, except at the given sites; failing Core calls leave Core on the new side. */
  function Except(bad: map<Site, Step>): Env {
    Env((site: Site) => if site in bad then bad[site] else Works, (site: Site) => New, false)
  }

  lemma NothingBad()
    ensures AllWork(Except(map[]))
  {
  }

  lemma LostAnswer()
    ensures var env := Except(map[BeginCall := Fails(true)]);
      CoordinatedRestoreService.BeginIsLost(env) && env.coreAfter(BeginCall) == New
  {
  }

  lemma StuckCore()
    ensures var env := Except(map[StopCore := Fails(false)]);
      env.step(StopCore).Fails? && forall step :: env.step(Clean(Prepared, step)).Works?
  {
  }

  lemma LateFailure()
    ensures var env := Except(map[Clean(Committed, DropSnapshot) := Fails(false), Undo(Mark) := Fails(false)]);
      CoordinatedRestoreService.Torn(env) && env.step(Undo(Mark)) == Fails(false)
  {
    var bad := map[Clean(Committed, DropSnapshot) := Fails(false), Undo(Mark) := Fails(false)];
    var env := Except(bad);
    forall site | site in BEGIN_SITES + INSTALL_SITES + UNDO_SITES ensures env.step(site).Works? {
      assert site !in bad;
    }
    assert StopCore !in bad && WriteCommitted !in bad;
  }

  /** A lost answer to the begin, then a Core that does not stop: no journal is left, and Core alone is new. */
  method BeginIsForgotten() returns (s: CoordinatedRestoreService)
    ensures s.journal.None? && s.core == New && s.rounds == Old
  {
    hide AllWork, CoordinatedRestoreService.BeginIsLost, Except;
    NothingBad();
    LostAnswer();
    StuckCore();
    s := new CoordinatedRestoreService();
    var e := s.Prepare(Except(map[]));
    e := s.Apply(Except(map[BeginCall := Fails(true)]));
    e := s.Apply(Except(map[StopCore := Fails(false)]));
  }

  /**
   A snapshot that cannot be deleted after the commit, and a mark that cannot be written: the rounds database
   goes back, the journal still says committed, and recovery believes it.
   */
  method CommitIsTorn() returns (s: CoordinatedRestoreService, e: Exit)
    ensures e == Done && s.journal.None? && s.core == New && s.rounds == Old
  {
    hide AllWork, CoordinatedRestoreService.Torn, Except;
    NothingBad();
    LateFailure();
    s := new CoordinatedRestoreService();
    e := s.Prepare(Except(map[]));
    e := s.Apply(Except(map[Clean(Committed, DropSnapshot) := Fails(false), Undo(Mark) := Fails(false)]));
    e := s.Recover(Except(map[]));
  }
}
