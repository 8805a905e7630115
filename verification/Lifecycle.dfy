/**
 The lifecycle of the Local runtime (`bootstrap.py`): start, partial start, incomplete stop and retry,
 with every outside step free to fail and every worker free to outlive its shutdown timeout.
 */
module Lifecycle {
  import opened Text

  datatype Name = Retention | CoreCommands | CoreModelTasks

  const WORKER_ORDER: seq<Name> := [Retention, CoreCommands, CoreModelTasks]

  /** A worker handle: its thread, whether that thread is alive, and the gateway it was built with. */
  datatype Worker = Worker(thread: nat, alive: bool, core: Option<nat>)

  datatype PidOutcome = Done | LeftBehind | Raised

  /** What the outside world does during one call. */
  datatype Env = Env(
    directoriesWork: bool,
    lockAvailable: bool,
    migrationsWork: bool,
    pidWrite: PidOutcome,
    factoryWorks: bool,
    coreHealthy: bool,
    maintenanceWorks: bool,
    stopArrivesEarly: bool,
    stopArrivesLate: bool,
    enabled: set<Name>,
    buildable: set<Name>,
    stuck: set<Name>,        // threads still alive when their shutdown timeout passes
    shutdownRaises: set<Name>,
    rerankerCloses: bool,
    pidRemoval: PidOutcome,
    releaseWorks: bool)

  ghost predicate Alive(workers: map<Name, Worker>, n: Name) {
    n in workers && workers[n].alive
  }

  /** Live threads and the handles they belong to: no live thread has lost its handle, and handles tell the truth. */
  ghost predicate Handles(workers: map<Name, Worker>, live: map<nat, Name>) {
    && (forall t :: t in live ==> Alive(workers, live[t]) && workers[live[t]].thread == t)
    && (forall n :: Alive(workers, n) ==> workers[n].thread in live && live[workers[n].thread] == n)
  }

  /** Threads and gateways are numbered below `nextId`. */
  ghost predicate Numbered(live: map<nat, Name>, nextId: nat) {
    forall t :: t in live ==> t < nextId
  }

  /** Asking this worker to stop raises, or its live thread outlasts the timeout. */
  predicate TimesOut(env: Env, workers: map<Name, Worker>, n: Name) {
    n in workers && (n in env.shutdownRaises || (n in env.stuck && workers[n].alive))
  }

  /** Every existing worker stops in time. */
  ghost predicate AllStop(env: Env, workers: map<Name, Worker>) {
    forall n :: !TimesOut(env, workers, n)
  }

  function Ended(workers: map<Name, Worker>, n: Name): map<Name, Worker> {
    if n in workers then workers[n := workers[n].(alive := false)] else workers
  }

  lemma HandlesEnded(workers: map<Name, Worker>, live: map<nat, Name>, n: Name)
    requires Handles(workers, live) && n in workers
    ensures Handles(Ended(workers, n), if workers[n].alive then live - {workers[n].thread} else live)
    ensures !Alive(Ended(workers, n), n) && Ended(workers, n).Keys == workers.Keys
    ensures forall m :: m in workers ==> Ended(workers, n)[m].core == workers[m].core
    ensures forall m :: m in workers && m != n ==> Ended(workers, n)[m] == workers[m]
  {
  }

  /** Every handle was built with the current gateway, which `GatewayOpen` says is not closed. */
  ghost predicate SameCore(workers: map<Name, Worker>, gateway: Option<nat>) {
    forall n :: n in workers ==> workers[n].core == gateway
  }

  /** Every worker that talks to Core was built with a gateway. */
  ghost predicate CoreBacked(workers: map<Name, Worker>) {
    forall n :: n in workers && n != Retention ==> workers[n].core.Some?
  }

  lemma NoHandles()
    ensures Handles(map[], map[]) && (forall nextId: nat :: Numbered(map[], nextId)) && CoreBacked(map[])
    ensures forall gateway :: SameCore(map[], gateway)
  {
  }

  lemma Shrinks(before: map<nat, Name>, after: map<nat, Name>, nextId: nat)
    requires after.Keys <= before.Keys && Numbered(before, nextId)
    ensures Numbered(after, nextId)
    ensures before == map[] ==> after == map[]
  {
    assert forall t :: t in after ==> t in before;
  }

  lemma CoresKept(before: map<Name, Worker>, after: map<Name, Worker>, gateway: Option<nat>)
    requires SameCore(before, gateway) && after.Keys == before.Keys
    requires forall m :: m in after ==> after[m].core == before[m].core
    ensures SameCore(after, gateway) && (before == map[] ==> after == map[])
    ensures CoreBacked(before) ==> CoreBacked(after)
  {
    assert forall m :: m in after ==> m in before;
  }

  ghost predicate GatewayOpen(gateway: Option<nat>, closed: set<nat>, nextId: nat) {
    && (forall g :: g in closed ==> g < nextId)
    && (gateway.Some? ==> gateway.value < nextId && gateway.value !in closed)
  }

  class LocalRuntime {
    /** `_service_lock`: None, or the lock object with its own `_locked` flag. */
    var lockObject: Option<bool>
    var lockAcquired: bool
    var pidOwned: bool
    var started: bool
    var initialized: bool
    var starting: bool
    var stopRequested: bool
    var migrationsApplied: bool
    var coreReady: bool
    var gateway: Option<nat>
    var workers: map<Name, Worker>
    var shutdownIncomplete: bool
    var nextId: nat

    // The outside world: this process's lock file, its pid file, closed gateways and live threads.
    var lockFile: bool
    var pidFile: bool
    ghost var pidAbandoned: bool
    ghost var closed: set<nat>
    ghost var live: map<nat, Name>

    ghost predicate Tracked()
      reads this`workers, this`live, this`nextId, this`gateway, this`closed
    {
      Handles(workers, live) && Numbered(live, nextId) && GatewayOpen(gateway, closed, nextId)
    }

    /** What a live worker may rely on. */
    ghost predicate Supported()
      reads this
    {
      live != map[] ==>
        && migrationsApplied
        && lockAcquired && lockObject == Some(true) && lockFile
    }

    /** A started runtime that nobody asked to stop holds the lock over a migrated database. */
    ghost predicate Ready()
      reads this
    {
      started && !stopRequested ==>
        && lockAcquired && lockObject == Some(true) && lockFile && migrationsApplied
        && (coreReady ==> gateway.Some?)
    }

    ghost predicate Valid()
      reads this
    {
      && Ready()
      && Tracked()
      && Supported()
      && SameCore(workers, gateway) && CoreBacked(workers)
      && (live != map[] ==> started || shutdownIncomplete)
      && (started && workers != map[] ==> initialized || stopRequested)
      && (pidFile ==> pidOwned || pidAbandoned)
      && (lockFile && lockObject.Some? && lockObject.value ==> lockAcquired)
    }

    constructor (core: bool)
      ensures Valid() && !started && live == map[] && !lockFile && !pidFile && !lockAcquired && lockObject == None
      ensures !pidAbandoned && !shutdownIncomplete && !starting && !pidOwned
      ensures workers == map[] && gateway.Some? == core
    {
      lockObject, lockAcquired, pidOwned, started, initialized := None, false, false, false, false;
      starting, stopRequested, migrationsApplied, coreReady := false, false, false, false;
      gateway := if core then Some(0) else None;
      workers, shutdownIncomplete, nextId := map[], false, 1;
      lockFile, pidFile, pidAbandoned, closed, live := false, false, false, {}, map[];
    }

    /** A worker thread ends by itself. */
    method WorkerExits(n: Name)
      requires Valid()
      modifies this`workers, this`live
      ensures Valid() && live.Keys <= old(live.Keys) && workers.Keys == old(workers.Keys)
    {
      hide Handles, Numbered, SameCore, CoreBacked, GatewayOpen;
      if n in workers {
        EndThread(n);
        Shrinks(old(live), live, nextId);
        CoresKept(old(workers), workers, gateway);
      }
    }

    /** A thread that is no longer running has left `live`, and its handle says so. */
    method EndThread(n: Name)
      requires Handles(workers, live) && n in workers
      modifies this`workers, this`live
      ensures Handles(workers, live) && live.Keys <= old(live.Keys) && workers == Ended(old(workers), n)
      ensures !Alive(workers, n) && workers.Keys == old(workers.Keys)
      ensures forall m :: m in workers ==> workers[m].core == old(workers)[m].core
      ensures forall m :: m in workers && m != n ==> workers[m] == old(workers)[m]
    {
      hide Handles;
      HandlesEnded(workers, live, n);
      if workers[n].alive {
        live := live - {workers[n].thread};
      }
      workers := Ended(workers, n);
    }

    /** `request_stop`. */
    method RequestStop()
      modifies this`stopRequested
      ensures stopRequested
    {
      stopRequested := true;
    }

    /** `handle.loop.shutdown`: true when the thread has ended and asking did not raise. */
    method ShutdownOne(name: Name, env: Env) returns (stopped: bool)
      requires Handles(workers, live) && name in workers
      modifies this`workers, this`live
      ensures Handles(workers, live) && live.Keys <= old(live.Keys) && workers.Keys == old(workers.Keys)
      ensures forall m :: m in workers ==> workers[m].core == old(workers)[m].core
      ensures forall m :: m in workers && m != name ==> workers[m] == old(workers)[m]
      ensures Alive(workers, name) ==> !stopped
      ensures stopped <==> !TimesOut(env, old(workers), name)
    {
      hide Handles;
      if name !in env.stuck {
        EndThread(name);
      }
      stopped := name !in env.shutdownRaises && !workers[name].alive;
    }

    /**
     The shutdown loop of `stop` and `_cleanup_after_failed_start`: ask each worker to stop and join it.
     A worker counts as timed out when it is still alive or when asking it raised.
     */
    method ShutdownWorkers(env: Env) returns (timedOut: seq<Name>)
      requires Handles(workers, live)
      modifies this`workers, this`live
      ensures Handles(workers, live) && live.Keys <= old(live.Keys) && workers.Keys == old(workers.Keys)
      ensures forall m :: m in workers ==> workers[m].core == old(workers)[m].core
      ensures timedOut == [] ==> live == map[]
      ensures timedOut == [] <==> AllStop(env, old(workers))
    {
      hide Handles;
      timedOut := [];
      var k := |WORKER_ORDER|;
      while k > 0
        invariant 0 <= k <= |WORKER_ORDER|
        invariant Handles(workers, live) && live.Keys <= old(live.Keys) && workers.Keys == old(workers.Keys)
        invariant forall m :: m in workers ==> workers[m].core == old(workers)[m].core
        invariant timedOut == [] ==> forall i :: k <= i < |WORKER_ORDER| ==> !Alive(workers, WORKER_ORDER[i])
        invariant forall i :: 0 <= i < k && WORKER_ORDER[i] in workers ==>
                    workers[WORKER_ORDER[i]] == old(workers)[WORKER_ORDER[i]]
        invariant timedOut == [] <==>
                    forall i :: k <= i < |WORKER_ORDER| ==> !TimesOut(env, old(workers), WORKER_ORDER[i])
      {
        k := k - 1;
        var name := WORKER_ORDER[k];
        if name in workers {
          var stopped := ShutdownOne(name, env);
          if !stopped {
            timedOut := timedOut + [name];
          }
        }
      }
      if timedOut == [] {
        forall n: Name ensures !Alive(workers, n) && !TimesOut(env, old(workers), n) {
          EveryName(n);
        }
        NobodyLive(workers, live);
      }
    }

    static lemma NobodyLive(workers: map<Name, Worker>, live: map<nat, Name>)
      requires Handles(workers, live) && forall n :: !Alive(workers, n)
      ensures live == map[]
    {
      assert forall t :: t !in live;
    }

    static lemma SomebodyLive(workers: map<Name, Worker>, live: map<nat, Name>)
      requires Handles(workers, live) && exists n :: n in workers && workers[n].alive
      ensures live != map[]
    {
      var n :| n in workers && workers[n].alive;
      assert Alive(workers, n);
    }

    static lemma EveryName(n: Name)
      ensures exists i :: 0 <= i < |WORKER_ORDER| && WORKER_ORDER[i] == n
    {
      assert WORKER_ORDER[if n == Retention then 0 else if n == CoreCommands then 1 else 2] == n;
    }

    /**
     The tail shared by `stop` and the failed-start cleanup, reached only without live workers: close the
     gateway, give up the pid file, and release the lock last.
     */
    method GiveUpOwnership(env: Env) returns (raised: bool)
      requires GatewayOpen(gateway, closed, nextId) && live == map[] && (pidFile ==> pidOwned || pidAbandoned)
      modifies this`gateway, this`closed, this`pidOwned, this`pidFile, this`pidAbandoned, this`lockFile,
               this`lockObject, this`lockAcquired
      ensures GatewayOpen(gateway, closed, nextId) && gateway == None && !pidOwned && (pidFile ==> pidAbandoned)
      ensures old(gateway).Some? ==> old(gateway).value in closed
      ensures raised ==> lockFile == old(lockFile) && lockObject == old(lockObject) && lockAcquired == old(lockAcquired)
      ensures !raised ==>
                && lockObject == None
                && (old(lockObject).Some? ==> !lockAcquired)
                && lockFile == (old(lockFile) && !(old(lockObject) == Some(true) && old(lockAcquired)))
      ensures raised <==> old(GiveUpRaises(env))
      ensures env.pidRemoval == Done && !old(pidAbandoned) ==> !pidFile
    {
      if gateway.Some? {
        closed := closed + {gateway.value};
        gateway := None;
      }
      raised := RemovePid(env);
      if !raised {
        raised := ReleaseLock(env);
      }
    }

    /** The pid file of a runtime that owns one; ownership ends whether or not the remover succeeds. */
    method RemovePid(env: Env) returns (raised: bool)
      requires pidFile ==> pidOwned || pidAbandoned
      modifies this`pidOwned, this`pidFile, this`pidAbandoned
      ensures !pidOwned && (pidFile ==> pidAbandoned)
      ensures raised <==> old(pidOwned) && env.pidRemoval == Raised
      ensures env.pidRemoval == Done && !old(pidAbandoned) ==> !pidFile
    {
      raised := false;
      if pidOwned {
        pidOwned := false;
        if env.pidRemoval == Done {
          pidFile := false;
        } else {
          pidAbandoned := true;
          raised := env.pidRemoval == Raised;
        }
      }
    }

    /** `_release_service_lock` and the drop of the lock object. */
    method ReleaseLock(env: Env) returns (raised: bool)
      modifies this`lockFile, this`lockObject, this`lockAcquired
      ensures raised <==> old(lockObject).Some? && old(lockAcquired) && !env.releaseWorks
      ensures raised ==> lockFile == old(lockFile) && lockObject == old(lockObject) && lockAcquired == old(lockAcquired)
      ensures !raised ==>
                && lockObject == None
                && (old(lockObject).Some? ==> !lockAcquired)
                && lockFile == (old(lockFile) && !(old(lockObject) == Some(true) && old(lockAcquired)))
    {
      raised := false;
      if lockObject.Some? {
        if lockAcquired {
          if !env.releaseWorks {
            return true;
          }
          if lockObject == Some(true) {
            lockFile := false;
          }
          lockAcquired := false;
        }
        lockObject := None;
      }
    }

    /** The pid file cannot be removed, or the lock it has cannot be released. */
    predicate GiveUpRaises(env: Env)
      reads this`pidOwned, this`lockObject, this`lockAcquired
    {
      (pidOwned && env.pidRemoval == Raised) || (lockObject.Some? && lockAcquired && !env.releaseWorks)
    }

    /** The lock, the gateway, the pid file and the migrated database are as they were. */
    twostate predicate SameOwnership()
      reads this
    {
      && lockFile == old(lockFile) && lockAcquired == old(lockAcquired) && lockObject == old(lockObject)
      && gateway == old(gateway) && closed == old(closed) && migrationsApplied == old(migrationsApplied)
      && pidFile == old(pidFile) && pidOwned == old(pidOwned) && pidAbandoned == old(pidAbandoned)
      && starting == old(starting)
    }

    /** `request_stop` and the shutdown loop: everything a surviving worker relies on is still there. */
    method JoinWorkers(env: Env) returns (timedOut: seq<Name>)
      requires Valid()
      modifies this`workers, this`live, this`stopRequested
      ensures Valid() && live.Keys <= old(live.Keys) && stopRequested
      ensures timedOut == [] ==> live == map[]
      ensures timedOut == [] <==> AllStop(env, old(workers))
    {
      hide Handles, Numbered, SameCore, CoreBacked, GatewayOpen;
      RequestStop();
      timedOut := ShutdownWorkers(env);
      Shrinks(old(live), live, nextId);
      CoresKept(old(workers), workers, gateway);
    }

    /** Signal and join every worker.  Handles are dropped only when no worker timed out. */
    method StopWorkers(env: Env) returns (complete: bool)
      requires Valid()
      modifies this`workers, this`live, this`stopRequested, this`started, this`shutdownIncomplete
      ensures Valid() && live.Keys <= old(live.Keys) && stopRequested
      ensures complete ==> live == map[] && workers == map[] && !shutdownIncomplete && started == old(started)
      ensures !complete ==> shutdownIncomplete && !started
      ensures complete <==> AllStop(env, old(workers))
    {
      hide Handles, Numbered, SameCore, CoreBacked, GatewayOpen;
      NoHandles();
      var timedOut := JoinWorkers(env);
      complete := timedOut == [];
      if complete {
        workers, shutdownIncomplete := map[], false;
      } else {
        shutdownIncomplete, started := true, false;
      }
    }

    /**
     `stop`.  With a worker that outlives its timeout nothing it relies on is given up, and a later call
     can finish; otherwise workers, Core, pid file and lock go in that order.
     */
    method Stop(env: Env) returns (outcome: StopOutcome)
      requires Valid()
      modifies this
      ensures Valid() && live.Keys <= old(live.Keys) && starting == old(starting)
      ensures outcome == Incomplete ==>
                SameOwnership() && shutdownIncomplete && !started && initialized == old(initialized)
      ensures outcome in {Stopped, StopRaised} ==> live == map[] && workers == map[] && !shutdownIncomplete
      ensures outcome == Stopped ==> Gone() && !started && !initialized
                                     && (old(lockObject) == Some(true) && old(lockAcquired) ==> !lockFile)
      ensures outcome == NothingToDo <==> !old(started) && old(lockObject).None? && !old(pidOwned)
      ensures outcome == Incomplete <==> outcome != NothingToDo && !AllStop(env, old(workers))
      ensures outcome == StopRaised <==>
                outcome != NothingToDo && AllStop(env, old(workers)) && (!env.rerankerCloses || old(GiveUpRaises(env)))
      ensures outcome == NothingToDo ==> unchanged(this)
      ensures old(lockFile) && !lockFile ==> Gone()
      ensures lockFile ==> old(lockFile)
      ensures Cooperative(env) ==> outcome in {Stopped, NothingToDo}
    {
      hide Handles, Numbered, SameCore, CoreBacked, GatewayOpen;
      if !started && lockObject.None? && !pidOwned {
        return NothingToDo;
      }
      var complete := StopWorkers(env);
      if !complete {
        return Incomplete;
      }
      outcome := FinishStop(env);
    }

    method FinishStop(env: Env) returns (outcome: StopOutcome)
      requires Valid() && live == map[] && workers == map[] && !shutdownIncomplete && stopRequested
      modifies this
      ensures Valid() && live == map[] && workers == map[] && !shutdownIncomplete && starting == old(starting)
      ensures outcome == if !env.rerankerCloses || old(GiveUpRaises(env)) then StopRaised else Stopped
      ensures outcome == Stopped ==> Gone() && !started && !initialized
                                     && (old(lockObject) == Some(true) && old(lockAcquired) ==> !lockFile)
      ensures old(lockFile) && !lockFile ==> Gone()
      ensures lockFile ==> old(lockFile)
      ensures Cooperative(env) ==> outcome == Stopped
    {
      hide Handles, Numbered, SameCore, CoreBacked, GatewayOpen;
      NoHandles();
      if !env.rerankerCloses {
        return StopRaised;
      }
      var raised := GiveUpOwnership(env);
      if raised {
        return StopRaised;
      }
      started, initialized, stopRequested := false, false, false;
      outcome := Stopped;
    }

    /** No worker, no gateway, no owned pid file and no lock object is left. */
    ghost predicate Gone()
      reads this
    {
      && live == map[] && workers == map[] && gateway == None
      && !pidOwned && (pidFile ==> pidAbandoned) && lockObject == None
    }

    static predicate Cooperative(env: Env) {
      env.stuck + env.shutdownRaises == {} && env.rerankerCloses && env.pidRemoval != Raised && env.releaseWorks
    }

    /** `_cleanup_after_failed_start`. */
    method CleanupAfterFailedStart(env: Env)
      requires Valid()
      modifies this
      ensures Valid() && live.Keys <= old(live.Keys) && starting == old(starting)
      ensures old(lockFile) && !lockFile ==> Gone()
      ensures live != map[] ==> SameOwnership() && shutdownIncomplete && !started
      ensures started ==> old(started)
      ensures AllStop(env, old(workers)) && !old(GiveUpRaises(env)) ==>
                && Gone() && !started
                && (lockFile ==> old(lockFile) && !(old(lockObject) == Some(true) && old(lockAcquired)))
    {
      hide Handles, Numbered, SameCore, CoreBacked, GatewayOpen;
      NoHandles();
      var complete := StopWorkers(env);
      if !complete {
        return;
      }
      var raised := GiveUpOwnership(env);
      if raised {
        return;
      }
      started, initialized := false, false;
    }

    /** `_start_core_if_available`: a failed handshake or health check leaves capture running without Core. */
    method StartCore(env: Env)
      requires GatewayOpen(gateway, closed, nextId)
      modifies this`gateway, this`closed, this`coreReady, this`nextId
      ensures GatewayOpen(gateway, closed, nextId) && old(nextId) <= nextId && coreReady == gateway.Some?
      ensures gateway.Some? <==> (old(gateway).Some? || env.factoryWorks) && env.coreHealthy
      ensures old(gateway).Some? ==> gateway == old(gateway) || old(gateway).value in closed
    {
      if gateway.None? && env.factoryWorks {
        gateway := Some(nextId);
        nextId := nextId + 1;
      }
      coreReady := gateway.Some? && env.coreHealthy;
      if !coreReady && gateway.Some? {
        closed := closed + {gateway.value};
        gateway := None;
      }
    }

    /** `start_capture`. */
    method StartCapture(env: Env) returns (ok: bool)
      requires Valid()
      modifies this
      ensures Valid() && live.Keys <= old(live.Keys)
      ensures old(started) ==> ok && unchanged(this)
      ensures !old(started) && old(live) != map[] ==> !ok && unchanged(this)
      ensures !old(started) && ok ==>
                && started && !starting && !initialized && live == map[] && migrationsApplied && pidOwned
                && lockAcquired && lockFile && lockObject == Some(true)
      ensures !old(started) && !old(shutdownIncomplete) && !old(starting) ==> (ok <==> CanStart(env, old(lockFile)))
      // a failed start gives up again whatever it had acquired
      ensures !ok && old(live) == map[] && !old(starting) && Cooperative(env) ==>
                Gone() && !started && (lockFile ==> old(lockFile))
    {
      hide Handles, Numbered, SameCore, CoreBacked, GatewayOpen;
      if started {
        return true;
      }
      if shutdownIncomplete {
        if exists n :: n in workers && workers[n].alive {
          SomebodyLive(workers, live);
          return false;
        }
        NobodyLive(workers, live);
        var outcome := Stop(env);
        if outcome == StopRaised {
          return false;
        }
      }
      Shrinks(old(live), live, nextId);
      if starting {
        return false;
      }
      ResetForStart();
      ok := AcquireAndMigrate(env);
      if !ok {
        CleanupAfterFailedStart(env);
      }
      starting := false;
    }

    method ResetForStart()
      requires Valid() && live == map[] && !started
      modifies this
      ensures Valid() && live == map[] && workers == map[] && !started && !shutdownIncomplete && !stopRequested
      ensures lockFile == old(lockFile) && starting && !initialized
    {
      hide Handles, Numbered, SameCore, CoreBacked, GatewayOpen;
      NoHandles();
      starting, stopRequested, initialized := true, false, false;
      workers, coreReady, shutdownIncomplete, migrationsApplied := map[], false, false, false;
    }

    /** The guarded body of `start_capture`, in its order: lock, migrations, pid file, Core. */
    method AcquireAndMigrate(env: Env) returns (ok: bool)
      requires Valid() && live == map[] && workers == map[] && !started && !shutdownIncomplete
      modifies this
      ensures Valid() && live == map[] && workers == map[] && starting == old(starting)
      ensures ok ==> started && migrationsApplied && lockAcquired && lockFile && pidOwned && lockObject == Some(true)
      ensures ok ==> stopRequested == old(stopRequested) && initialized == old(initialized)
      ensures !ok ==> !started
      ensures ok <==> CanStart(env, old(lockFile))
      ensures lockFile && !old(lockFile) ==> lockObject == Some(true) && lockAcquired
    {
      hide Handles, Numbered, SameCore, CoreBacked, GatewayOpen;
      ok := env.directoriesWork;
      if ok {
        ok := TakeLock(env);
      }
      if ok {
        ok := Publish(env);
      }
    }

    static predicate CanStart(env: Env, lockFile: bool) {
      env.directoriesWork && env.lockAvailable && !lockFile && env.migrationsWork && env.pidWrite == Done
    }

    method TakeLock(env: Env) returns (ok: bool)
      requires Valid() && live == map[] && !started
      modifies this`lockObject, this`lockFile, this`lockAcquired
      ensures Valid()
      ensures ok ==> lockAcquired && lockFile && lockObject == Some(true)
      ensures !ok ==> lockFile == old(lockFile)
      ensures ok <==> env.lockAvailable && !old(lockFile)
    {
      hide Tracked, SameCore, CoreBacked;
      lockObject := Some(false);
      // our own leftover lock file names a running pid, so it blocks like any other owner's
      ok := env.lockAvailable && !lockFile;
      if ok {
        lockFile, lockObject, lockAcquired := true, Some(true), true;
      }
    }

    method Publish(env: Env) returns (ok: bool)
      requires Valid() && live == map[] && workers == map[] && !started
      requires lockAcquired && lockObject == Some(true) && lockFile
      modifies this`migrationsApplied, this`pidFile, this`pidAbandoned, this`pidOwned, this`gateway, this`closed,
               this`coreReady, this`nextId, this`started
      ensures Valid() && started == ok
      ensures ok ==> migrationsApplied && pidOwned
      ensures ok <==> env.migrationsWork && env.pidWrite == Done
    {
      hide Handles, Numbered, SameCore, CoreBacked, GatewayOpen;
      NoHandles();
      if !env.migrationsWork {
        return false;
      }
      migrationsApplied := true;
      if env.pidWrite != Done {
        pidFile := pidFile || env.pidWrite == LeftBehind;
        pidAbandoned := pidAbandoned || pidFile;
        return false;
      }
      pidFile, pidOwned := true, true;
      StartCore(env);
      started := true;
      ok := true;
    }

    /** Which workers `_start_workers` brings up. */
    predicate Starts(env: Env, n: Name)
      reads this`coreReady
    {
      n in env.enabled && n in env.buildable && (n == Retention || coreReady)
    }

    /** `_start_workers`: one worker's failure does not prevent the others. */
    method StartWorkers(env: Env)
      requires workers == map[] && live == map[]
      modifies this`workers, this`live, this`nextId
      ensures Handles(workers, live) && Numbered(live, nextId) && SameCore(workers, gateway) && old(nextId) <= nextId
      ensures forall n :: n in workers <==> Starts(env, n)
      ensures forall n :: n in workers ==> workers[n].alive && (n == Retention || coreReady)
    {
      for k := 0 to |WORKER_ORDER|
        invariant Handles(workers, live) && Numbered(live, nextId) && old(nextId) <= nextId
        invariant SameCore(workers, gateway)
        invariant forall n :: n in workers ==> n in WORKER_ORDER[..k] && Starts(env, n) && workers[n].alive
        invariant forall i :: 0 <= i < k && Starts(env, WORKER_ORDER[i]) ==> WORKER_ORDER[i] in workers
      {
        var name := WORKER_ORDER[k];
        assert name !in WORKER_ORDER[..k];
        if name in env.enabled && (coreReady || name == Retention) && name in env.buildable {
          HandlesAdded(workers, live, name, nextId, gateway);
          workers := workers[name := Worker(nextId, true, gateway)];
          live := live[nextId := name];
          nextId := nextId + 1;
        }
      }
      forall n: Name ensures n in workers <==> Starts(env, n) {
        EveryName(n);
      }
    }

    static lemma HandlesAdded(workers: map<Name, Worker>, live: map<nat, Name>, n: Name, id: nat, gateway: Option<nat>)
      requires Handles(workers, live) && Numbered(live, id) && SameCore(workers, gateway) && n !in workers
      ensures Handles(workers[n := Worker(id, true, gateway)], live[id := n])
      ensures Numbered(live[id := n], id + 1) && SameCore(workers[n := Worker(id, true, gateway)], gateway)
    {
    }

    /** `finish_start`; a stop request may arrive at any point and is then honoured before workers start. */
    method FinishStart(env: Env) returns (ok: bool)
      requires Valid()
      modifies this
      ensures Valid()
      ensures ok <==> old(initialized) || (old(started) && !old(starting) && env.maintenanceWorks)
      ensures old(initialized) ==> unchanged(this)
      ensures !old(initialized) && !old(started) ==> unchanged(this)
      ensures !old(initialized) && ok ==> initialized == !stopRequested
      ensures old(stopRequested) ==> live == old(live) && stopRequested
      ensures env.stopArrivesEarly || !ok ==> live == old(live)
      ensures !old(initialized) && ok && !old(stopRequested) && !env.stopArrivesEarly ==>
                forall n :: n in workers <==> Starts(env, n)
      ensures started == old(started) && lockFile == old(lockFile)
      ensures lockObject == old(lockObject) && lockAcquired == old(lockAcquired)
    {
      hide Handles, Numbered, SameCore, CoreBacked, GatewayOpen, Starts;
      if initialized {
        return true;
      }
      if !started || starting {
        return false;
      }
      starting := true;
      if !env.maintenanceWorks {
        starting := false;
        return false;
      }
      if env.stopArrivesEarly {
        RequestStop();
      }
      if stopRequested {
        initialized := false;
      } else {
        Launch(env);
      }
      starting := false;
      ok := true;
    }

    /** Worker startup without a stop request so far; one that arrives now is seen by the final check. */
    method Launch(env: Env)
      requires Valid() && started && !stopRequested && !initialized
      modifies this`workers, this`live, this`nextId, this`stopRequested, this`initialized
      ensures Valid() && initialized == !stopRequested
      ensures forall n :: n in workers <==> Starts(env, n)
    {
      hide Handles, Numbered, SameCore, CoreBacked, GatewayOpen, Starts;
      NobodyHandled(workers, live);
      StartWorkers(env);
      StillOpen(gateway, closed, old(nextId), nextId);
      BackedByCore(workers, gateway, coreReady);
      if env.stopArrivesLate {
        RequestStop();
      }
      initialized := !stopRequested;
    }

    static lemma BackedByCore(workers: map<Name, Worker>, gateway: Option<nat>, coreReady: bool)
      requires SameCore(workers, gateway) && (coreReady ==> gateway.Some?)
      requires forall n :: n in workers ==> n == Retention || coreReady
      ensures CoreBacked(workers)
    {
    }

    static lemma StillOpen(gateway: Option<nat>, closed: set<nat>, before: nat, after: nat)
      requires GatewayOpen(gateway, closed, before) && before <= after
      ensures GatewayOpen(gateway, closed, after)
    {
    }

    static lemma NobodyHandled(workers: map<Name, Worker>, live: map<nat, Name>)
      requires Handles(workers, live) && workers == map[]
      ensures live == map[]
    {
      assert forall t :: t !in live;
    }

    /** `start`: a failure after the capture plane came up is cleaned up again. */
    method Start(env: Env, cleanup: Env) returns (ok: bool)
      requires Valid()
      modifies this
      ensures Valid()
      // `initialized` survives an incomplete stop, so a start right after one does nothing and reports success
      ensures old(initialized) ==> ok && unchanged(this)
      ensures ok && !old(initialized) ==> started && (initialized || stopRequested)
      ensures !old(initialized) && !old(shutdownIncomplete) && !old(starting) ==>
                (ok <==> (old(started) || CanStart(env, old(lockFile))) && env.maintenanceWorks)
      ensures !ok && old(live) == map[] && !old(starting) && Cooperative(env) && Cooperative(cleanup) ==>
                Gone() && !started && (lockFile ==> old(lockFile))
    {
      hide Handles, Numbered, SameCore, CoreBacked, GatewayOpen;
      if initialized {
        return true;
      }
      ok := StartCapture(env);
      if !ok {
        return;
      }
      ok := FinishStart(env);
      if !ok {
        CleanupAfterFailedStart(cleanup);
      }
    }
  }

  datatype StopOutcome = NothingToDo | Incomplete | Stopped | StopRaised

  datatype Call =
    | CallStart(env: Env, cleanup: Env)
    | CallStartCapture(env: Env)
    | CallFinishStart(env: Env)
    | CallRequestStop
    | CallStop(env: Env)
    | WorkerEnds(name: Name)

  /**
   Any sequence of lifecycle calls, with `stop` never overlapping `finish_start`: throughout, a live
   worker has the migrated database, the held lock and an open gateway.
   */
  method Run(runtime: LocalRuntime, calls: seq<Call>)
    requires runtime.Valid()
    modifies runtime
    ensures runtime.Valid() && runtime.Supported()
    ensures SameCore(runtime.workers, runtime.gateway) && CoreBacked(runtime.workers)
    ensures GatewayOpen(runtime.gateway, runtime.closed, runtime.nextId)
  {
    for k := 0 to |calls|
      invariant runtime.Valid()
    {
      match calls[k] {
        case CallStart(env, cleanup) => var _ := runtime.Start(env, cleanup);
        case CallStartCapture(env) => var _ := runtime.StartCapture(env);
        case CallFinishStart(env) => var _ := runtime.FinishStart(env);
        case CallRequestStop => runtime.RequestStop();
        case CallStop(env) => var _ := runtime.Stop(env);
        case WorkerEnds(name) => runtime.WorkerExits(name);
      }
    }
  }

  /** A stop left incomplete by a stuck worker is finished by a later stop, which releases the lock. */
  method IncompleteStopThenRetry(
    runtime: LocalRuntime, stuck: Env, later: Env) returns (first: StopOutcome, second: StopOutcome)
    requires runtime.Valid() && LocalRuntime.Cooperative(later)
    requires runtime.started && runtime.lockAcquired && runtime.lockObject == Some(true)
    modifies runtime
    ensures first == Incomplete ==>
              second == Stopped && !runtime.lockFile && runtime.live == map[] && runtime.gateway == None
  {
    first := runtime.Stop(stuck);
    second := NothingToDo;
    if first == Incomplete {
      second := runtime.Stop(later);
    }
  }

  /** A start right after an incomplete stop of an initialized runtime reports success and starts nothing. */
  method StartAfterIncompleteStop(runtime: LocalRuntime, stuck: Env, env: Env, cleanup: Env)
    returns (outcome: StopOutcome, ok: bool)
    requires runtime.Valid() && runtime.initialized
    modifies runtime
    ensures outcome == Incomplete ==> ok && !runtime.started && runtime.shutdownIncomplete && runtime.initialized
    ensures outcome == Incomplete ==> runtime.live.Keys <= old(runtime.live.Keys)
  {
    outcome := runtime.Stop(stuck);
    ok := false;
    if outcome == Incomplete {
      ok := runtime.Start(env, cleanup);
    }
  }

  /**
   Why `stop` must not overlap `finish_start`: the worker loop of a `finish_start` that already passed its
   stop check, continued after a complete stop, leaves a live worker without the lock.
   */
  method StopInsideFinishStart(env: Env) returns (runtime: LocalRuntime)
    requires LocalRuntime.CanStart(env, false)
    requires LocalRuntime.Cooperative(env) && Retention in env.enabled && Retention in env.buildable
    ensures runtime.live != map[] && !runtime.lockFile && !runtime.Valid()
  {
    runtime := new LocalRuntime(true);
    var captured := runtime.StartCapture(env);
    var outcome := runtime.Stop(env);
    runtime.StartWorkers(env);
    assert Alive(runtime.workers, Retention);
  }
}
