/** The orchestrator as the object it is: loops that build the records of a batch, and the three
methods that write the databases one durable operation at a time, cut off anywhere by a crash.

Each of the three is proved to be a run of the machine in `Orchestrator`, so what is proved there
and in `OrchestratorStatus` about all runs holds of any sequence of calls. */
module OrchestratorService {
  import opened Ids
  import opened Connections
  import opened CommandIds
  import opened ConfigLog
  import opened StatusMachine
  import opened Backoff
  import opened Orchestrator
  import OrchestratorStatus

  // ---------------------------------------------------------------- loops over a batch

  /** The batch to prepare: nothing if a member is not news, and no removals of unknown connections. */
  method SelectCommands(app: AppDb, batch: seq<Command>) returns (stale: bool, commands: seq<Command>)
    ensures stale <==> StaleBatch(app, batch)
    ensures !stale ==> commands == Relevant(app, batch)
  {
    commands := [];
    for i := 0 to |batch|
      invariant commands == Relevant(app, batch[..i])
      invariant forall j | 0 <= j < i :: batch[j].version > VersionOf(app, batch[j].id)
    {
      assert batch[..i + 1][..i] == batch[..i];
      var c := batch[i];
      if c.version <= (if c.id in app then app[c.id].version else 0) {
        assert c in batch;
        return true, [];
      }
      if c.op.Remove? && c.id !in app {
        continue;
      }
      commands := commands + [c];
    }
    assert batch[..|batch|] == batch;
    stale := false;
  }

  /** The records with which a configuration command starts, or the exception of `requireTransition`. */
  method StartRecords(app: AppDb, batch: seq<Command>, cmd: CmdId) returns (throws: bool, hashes: seq<Hash>)
    ensures throws <==> StartThrows(app, batch)
    ensures !throws ==> hashes == StartHashes(app, batch, cmd)
  {
    hashes := [];
    for i := 0 to |batch|
      invariant |hashes| == i && forall j | 0 <= j < i :: hashes[j] == StartHash(app, batch[j], cmd)
      invariant forall j | 0 <= j < i :: StartApply(StatusOf(app, batch[j].id), batch[j].op).Some?
    {
      var c := batch[i];
      var status := StartApply(if c.id in app then app[c.id].status else Status.Absent, c.op);
      if status.None? {
        assert c in batch;
        return true, [];
      }
      hashes := hashes + [Hash(c.id, AppRec(c.op, c.input, c.output, c.version, status.value, cmd, 0))];
    }
    throws := false;
  }

  /** `putVersionedHashesAtomicallyIfMarkerAbsent` once the marker is known to be absent. */
  method WriteVersioned(app: AppDb, hashes: seq<Hash>, version: nat) returns (written: AppDb)
    ensures written == Put(app, hashes, version)
  {
    written := app;
    for i := 0 to |hashes|
      invariant written == Put(app, hashes[..i], version)
    {
      assert hashes[..i + 1][..i] == hashes[..i];
      var h := hashes[i];
      if h.id !in app || app[h.id].version <= version {
        written := written[h.id := h.rec];
      }
    }
    assert hashes[..|hashes|] == hashes;
  }

  /** The records of a timed-out command, if all of them are still its own. */
  method LateRecords(app: AppDb, batch: seq<Command>, cmd: CmdId, meta: Meta) returns (current: bool, hashes: seq<Hash>)
    ensures current <==> AllCurrent(app, batch, cmd)
    ensures current ==> hashes == LateHashes(app, batch, meta)
  {
    hashes := [];
    for i := 0 to |batch|
      invariant forall j | 0 <= j < i :: IsCurrent(app, batch[j], cmd)
      invariant |hashes| == i && forall j | 0 <= j < i :: hashes[j] == LateHash(app, batch[j], meta)
    {
      var c := batch[i];
      if c.id !in app || app[c.id].version != c.version || app[c.id].cmd != cmd {
        assert c in batch;
        return false, [];
      }
      hashes := hashes + [Hash(c.id, app[c.id].(status := meta.status, attempt := meta.attempt))];
    }
    current := true;
  }

  /** The records of a retried command, if all of them wait for it or have already been handed over. */
  method RetryRecords(app: AppDb, r: RetryEv, started: bool) returns (current: bool, hashes: seq<Hash>)
    ensures current <==> AllMayRetry(app, r, started)
    ensures current ==> hashes == RetryHashes(app, r, started)
  {
    hashes := [];
    var cmd := RetryCmd(r.failed, r.attempt);
    for i := 0 to |r.batch|
      invariant forall j | 0 <= j < i :: MayRetry(app, r.batch[j], r, started)
      invariant |hashes| == i && forall j | 0 <= j < i :: hashes[j] == RetryHash(app, r.batch[j], r, started)
    {
      var c := r.batch[i];
      if c.id !in app || app[c.id].version != c.version
         || !(app[c.id].cmd == r.failed || (started && app[c.id].cmd == cmd))
         || (!started && app[c.id].status != RetryWait) {
        assert c in r.batch;
        return false, [];
      }
      var rec := app[c.id].(cmd := cmd, attempt := r.attempt);
      if !started {
        rec := rec.(status := Executing(c.op));
      }
      hashes := hashes + [Hash(c.id, rec)];
    }
    current := true;
  }

  // ---------------------------------------------------------------- runs

  /** The worker going on or crashing. */
  ghost function WorkerStep(s: State, a: Action): State
  {
    if a.Next? || a.Crash? then Step(s, a) else s
  }

  /** `t` is reached from `s` by steps of the worker and crashes. */
  ghost predicate Reach(s: State, t: State)
  {
    Runs.Reachable(WorkerStep, s, t)
  }

  lemma ReachStart(s: State)
    ensures Reach(s, s)
  {
  }

  lemma ReachCrash(s: State, t: State)
    requires Reach(s, t)
    ensures Reach(s, t.(pc := Idle))
  {
    assert WorkerStep(t, Crash) == t.(pc := Idle);
  }

  lemma ReachConfig(s: State, t: State)
    requires Reach(s, t) && ActivityOf(t.pc, Config).Config?
    ensures Reach(s, ConfigStep(t))
  {
    assert WorkerStep(t, Next(Config)) == ConfigStep(t);
  }

  lemma ReachResult(s: State, t: State)
    requires Reach(s, t) && ActivityOf(t.pc, Results).Results?
    ensures Reach(s, ResultStep(t))
  {
    assert WorkerStep(t, Next(Results)) == ResultStep(t);
  }

  lemma ReachRetry(s: State, t: State)
    requires Reach(s, t) && ActivityOf(t.pc, Retries).Retries?
    ensures Reach(s, RetryStep(t))
  {
    assert WorkerStep(t, Next(Retries)) == RetryStep(t);
  }

  // ---------------------------------------------------------------- the service

  class Service {
    // CONFIG_DB
    var log: seq<Event>
    var configAcked: nat
    // APPL_DB
    var app: AppDb
    var appMarks: set<CmdId>
    var resultAppMarks: set<(CmdId, string)>
    var lateApp: map<CmdId, Meta>
    // DEVICE_DB
    var prepared: map<CmdId, seq<Command>>
    var devMarks: set<CmdId>
    var commandMarks: set<CmdId>
    var retryMarks: set<CmdId>
    var resultDevMarks: set<(CmdId, string)>
    var lateDev: map<CmdId, Meta>
    var commands: seq<DevCmd>
    var results: seq<ResultEv>
    var resultsAcked: nat
    var retries: seq<RetryEv>
    var retriesAcked: nat
    var applies: Applies

    // the system clock
    var clock: nat

    const policy: RetryPolicy
    ghost var threw: bool

    ghost function At(pc: Pc): State
      reads this
    {
      State(log, commands, results, retries, Acks(configAcked, resultsAcked, retriesAcked),
            Marks(appMarks, devMarks, commandMarks, retryMarks, resultAppMarks, resultDevMarks),
            prepared, app, Timeouts(lateApp, lateDev), applies, pc, threw, clock, policy)
    }

    constructor (p: RetryPolicy)
      requires AdmittedPolicy(p)
      ensures At(Idle) == Init(p)
    {
      log, configAcked := [], 0;
      app, appMarks, resultAppMarks, lateApp := map[], {}, {}, map[];
      prepared, devMarks, commandMarks, retryMarks := map[], {}, {}, {};
      resultDevMarks, lateDev := {}, map[];
      commands, results, resultsAcked, retries, retriesAcked := [], [], 0, [], 0;
      applies := Applies(map[], map[]);
      clock, policy, threw := 0, p, false;
    }

    /** `appendEventOnce` on the command stream. */
    method PublishCommand(cmd: CmdId, version: nat)
      requires cmd in prepared
      modifies this`commands, this`commandMarks
      ensures forall pc :: At(pc) == Publish(old(At(pc)), cmd, version)
    {
      if cmd !in commandMarks {
        commands, commandMarks := commands + [DevCmd(cmd, version, prepared[cmd])], commandMarks + {cmd};
      }
    }

    /** Find or prepare the batch; `ready` if there are records to write. */
    method PrepareConfig(ghost s0: State) returns (ready: bool)
      requires configAcked < |log| && Reach(s0, At(Idle))
      modifies this`prepared
      ensures Reach(s0, At(if ready then ConfigApp else ConfigAck))
      ensures ready ==> ConfigCmd(configAcked) in prepared
    {
      ReachConfig(s0, At(Idle));
      var e, cmd := log[configAcked], ConfigCmd(configAcked);
      if cmd in commandMarks { return false; }
      if cmd in prepared { return true; }
      var stale, batch := SelectCommands(app, e.commands);
      if stale || batch == [] { return false; }
      prepared := prepared[cmd := batch];
      return true;
    }

    method WriteConfigRecords(ghost s0: State) returns (ready: bool)
      requires configAcked < |log| && ConfigCmd(configAcked) in prepared && Reach(s0, At(ConfigApp))
      modifies this`app, this`appMarks, this`threw
      ensures Reach(s0, At(if ready then ConfigDev else Idle))
      ensures !ready ==> threw
    {
      ReachConfig(s0, At(ConfigApp));
      var cmd := ConfigCmd(configAcked);
      var throws, hashes := StartRecords(app, prepared[cmd], cmd);
      if throws {
        threw := true;
        return false;
      }
      if cmd !in appMarks {
        app := WriteVersioned(app, hashes, log[configAcked].version);
      }
      appMarks := appMarks + {cmd};
      return true;
    }

    /** Records, device marker and command, in this order. */
    method PublishConfig(budget: nat, ghost s0: State) returns (left: nat, ready: bool)
      requires configAcked < |log| && ConfigCmd(configAcked) in prepared && Reach(s0, At(ConfigApp))
      modifies this`app, this`appMarks, this`threw, this`devMarks, this`commands, this`commandMarks
      ensures Reach(s0, At(if ready then ConfigAck else Idle))
      ensures ready ==> left == budget - 3
      ensures !ready ==> budget < 3 || threw
    {
      var cmd := ConfigCmd(configAcked);
      if budget == 0 {
        ReachCrash(s0, At(ConfigApp));
        return 0, false;
      }
      ready := WriteConfigRecords(s0);
      if !ready { return 0, false; }
      if budget == 1 {
        ReachCrash(s0, At(ConfigDev));
        return 0, false;
      }
      ReachConfig(s0, At(ConfigDev));
      devMarks := devMarks + {cmd};
      if budget == 2 {
        ReachCrash(s0, At(ConfigCommand));
        return 0, false;
      }
      ReachConfig(s0, At(ConfigCommand));
      PublishCommand(cmd, log[configAcked].version);
      return budget - 3, true;
    }

    /** `processConfigOne`, cut off after `budget` durable operations. */
    method ProcessConfigOne(budget: nat) returns (done: bool)
      modifies this
      ensures Reach(old(At(Idle)), At(Idle)) && log == old(log)
      ensures configAcked == old(configAcked) + if done && old(configAcked) < |log| then 1 else 0
      ensures !done ==> budget < 5 || threw
    {
      ghost var s0 := At(Idle);
      ReachStart(s0);
      if configAcked >= |log| { return true; }
      if budget == 0 { return false; }
      var left := budget - 1;
      var ready := PrepareConfig(s0);
      if ready {
        left, ready := PublishConfig(left, s0);
        if !ready { return false; }
      }
      if left == 0 {
        ReachCrash(s0, At(ConfigAck));
        return false;
      }
      AckConfig(s0);
      return true;
    }

    method AckConfig(ghost s0: State)
      requires configAcked < |log| && Reach(s0, At(ConfigAck))
      modifies this`configAcked
      ensures Reach(s0, At(Idle)) && configAcked == old(configAcked) + 1
    {
      ReachConfig(s0, At(ConfigAck));
      configAcked := configAcked + 1;
    }

    // -------------------------------------------------------------- results and timeouts

    /** A result that is not a timeout: check it against the record and mark it in DEVICE_DB. */
    method CheckResult(r: ResultEv, ghost s0: State) returns (ready: bool, stop: bool, next: Status)
      requires resultsAcked < |results| && r == results[resultsAcked] && !r.outcome.TimedOut? && Reach(s0, At(Idle))
      modifies this`resultDevMarks, this`threw
      ensures Reach(s0, At(if ready then ResultApp(next) else if stop then Idle else ResultAck))
      ensures stop ==> threw && !ready
    {
      ReachResult(s0, At(Idle));
      ready, stop, next := false, false, Failed;
      var key := (r.cmd, r.id);
      if key in resultAppMarks && key in resultDevMarks { return; }
      if r.id !in app { return; }
      var current, version := app[r.id].status, app[r.id].version;
      if r.version <= version
         && (r.version < version || current == Active || current == Status.Absent || current == Failed) { return; }
      if r.version > version {
        threw := true;
        return false, true, next;
      }
      if r.outcome.Success? {
        next := if current == Removing then Status.Absent else Active;
      }
      if !CanTransition(current, next) {
        threw := true;
        return false, true, next;
      }
      resultDevMarks := resultDevMarks + {key};
      ready := true;
    }

    method WriteResult(r: ResultEv, next: Status, ghost s0: State)
      requires resultsAcked < |results| && r == results[resultsAcked] && Reach(s0, At(ResultApp(next)))
      modifies this`app, this`resultAppMarks
      ensures Reach(s0, At(ResultAck))
    {
      ReachResult(s0, At(ResultApp(next)));
      if (r.cmd, r.id) !in resultAppMarks && r.id in app {
        var rec := app[r.id].(status := next);
        if next != Failed {
          rec := rec.(attempt := 0);
        }
        app := WriteVersioned(app, [Hash(r.id, rec)], r.version);
      }
      resultAppMarks := resultAppMarks + {(r.cmd, r.id)};
    }

    /** The decision about a timeout: remembered in a marker, or made from the first record. */
    method DecideTimeout(r: ResultEv, first: Command) returns (meta: Option<Meta>)
      requires AdmittedPolicy(policy) && clock < UINT64
      ensures meta == Decide(At(Idle), r, first)
    {
      if r.cmd in lateApp { return Some(lateApp[r.cmd]); }
      if r.cmd in lateDev { return Some(lateDev[r.cmd]); }
      if first.id !in app { return None; }
      var rec := app[first.id];
      if rec.version != r.version || rec.cmd != r.cmd { return None; }
      if rec.status != Applying && rec.status != Removing { return None; }
      if rec.attempt >= policy.maxRetries { return Some(Meta(rec.attempt, Failed, false, 0)); }
      var at, _ := RetryAtNs(clock, rec.attempt + 1, policy);
      return Some(Meta(rec.attempt + 1, RetryWait, true, at));
    }

    method BeginTimeout(r: ResultEv, ghost s0: State) returns (ready: bool, meta: Meta)
      requires resultsAcked < |results| && r == results[resultsAcked] && r.outcome.TimedOut? && Reach(s0, At(Idle))
      requires AdmittedPolicy(policy) && clock < UINT64
      modifies this`lateDev
      ensures Reach(s0, At(if ready then TimeoutApp(meta) else ResultAck))
      ensures ready ==> r.cmd in applies.attempts && AllCurrent(app, applies.attempts[r.cmd], r.cmd)
    {
      ReachResult(s0, At(Idle));
      meta := Meta(0, Failed, false, 0);
      if r.cmd !in applies.attempts || applies.attempts[r.cmd] == [] { return false, meta; }
      var batch := applies.attempts[r.cmd];
      var decision := DecideTimeout(r, batch[0]);
      if decision.None? { return false, meta; }
      meta := decision.value;
      var current, _ := LateRecords(app, batch, r.cmd, meta);
      if !current { return false, meta; }
      if r.cmd !in lateDev {
        lateDev := lateDev[r.cmd := meta];
      }
      ready := true;
    }

    method WriteTimeout(r: ResultEv, meta: Meta, ghost s0: State)
      requires resultsAcked < |results| && r == results[resultsAcked] && Reach(s0, At(TimeoutApp(meta)))
      requires r.cmd in applies.attempts && AllCurrent(app, applies.attempts[r.cmd], r.cmd)
      modifies this`app, this`lateApp
      ensures Reach(s0, At(TimeoutRetry(meta)))
    {
      ReachResult(s0, At(TimeoutApp(meta)));
      if r.cmd !in lateApp {
        var _, hashes := LateRecords(app, applies.attempts[r.cmd], r.cmd, meta);
        app := WriteVersioned(app, hashes, r.version);
        lateApp := lateApp[r.cmd := meta];
      }
    }

    method ScheduleRetry(r: ResultEv, meta: Meta, ghost s0: State)
      requires resultsAcked < |results| && r == results[resultsAcked] && Reach(s0, At(TimeoutRetry(meta)))
      requires r.cmd in applies.attempts
      modifies this`retries, this`retryMarks
      ensures Reach(s0, At(ResultAck))
    {
      ReachResult(s0, At(TimeoutRetry(meta)));
      if meta.scheduled && r.cmd !in retryMarks {
        retries := retries + [RetryEv(r.cmd, meta.attempt, r.version, applies.attempts[r.cmd], meta.notBefore)];
        retryMarks := retryMarks + {r.cmd};
      }
    }

    /** `handleTimeoutResult`. */
    method HandleTimeout(r: ResultEv, budget: nat, ghost s0: State) returns (left: nat, ready: bool)
      requires resultsAcked < |results| && r == results[resultsAcked] && r.outcome.TimedOut? && Reach(s0, At(Idle))
      requires AdmittedPolicy(policy) && clock < UINT64
      modifies this`lateDev, this`app, this`lateApp, this`retries, this`retryMarks
      ensures Reach(s0, At(if ready then ResultAck else Idle))
      ensures ready ==> left >= budget - 3
      ensures !ready ==> budget < 3
    {
      if budget == 0 { return 0, false; }
      var meta;
      ready, meta := BeginTimeout(r, s0);
      if !ready { return budget - 1, true; }
      if budget == 1 {
        ReachCrash(s0, At(TimeoutApp(meta)));
        return 0, false;
      }
      WriteTimeout(r, meta, s0);
      if budget == 2 {
        ReachCrash(s0, At(TimeoutRetry(meta)));
        return 0, false;
      }
      ScheduleRetry(r, meta, s0);
      return budget - 3, true;
    }

    method HandleResult(r: ResultEv, budget: nat, ghost s0: State) returns (left: nat, ready: bool)
      requires resultsAcked < |results| && r == results[resultsAcked] && !r.outcome.TimedOut? && Reach(s0, At(Idle))
      modifies this`resultDevMarks, this`threw, this`app, this`resultAppMarks
      ensures Reach(s0, At(if ready then ResultAck else Idle))
      ensures ready ==> left >= budget - 2
      ensures !ready ==> budget < 2 || threw
    {
      if budget == 0 { return 0, false; }
      var go, stop, next := CheckResult(r, s0);
      if stop { return 0, false; }
      if !go { return budget - 1, true; }
      if budget == 1 {
        ReachCrash(s0, At(ResultApp(next)));
        return 0, false;
      }
      WriteResult(r, next, s0);
      return budget - 2, true;
    }

    /** `processResultOne`, cut off after `budget` durable operations. */
    method ProcessResultOne(budget: nat) returns (done: bool)
      requires AdmittedPolicy(policy) && clock < UINT64
      modifies this
      ensures Reach(old(At(Idle)), At(Idle)) && results == old(results)
      ensures resultsAcked == old(resultsAcked) + if done && old(resultsAcked) < |results| then 1 else 0
      ensures !done ==> budget < 4 || threw
    {
      ghost var s0 := At(Idle);
      ReachStart(s0);
      if resultsAcked >= |results| { return true; }
      var r := results[resultsAcked];
      var left, ready;
      if r.outcome.TimedOut? {
        left, ready := HandleTimeout(r, budget, s0);
      } else {
        left, ready := HandleResult(r, budget, s0);
      }
      if !ready { return false; }
      if left == 0 {
        ReachCrash(s0, At(ResultAck));
        return false;
      }
      AckResult(s0);
      return true;
    }

    method AckResult(ghost s0: State)
      requires resultsAcked < |results| && Reach(s0, At(ResultAck))
      modifies this`resultsAcked
      ensures Reach(s0, At(Idle)) && resultsAcked == old(resultsAcked) + 1
    {
      ReachResult(s0, At(ResultAck));
      resultsAcked := resultsAcked + 1;
    }

    // -------------------------------------------------------------- retries

    method BeginRetry(r: RetryEv, ghost s0: State) returns (ready: bool)
      requires retriesAcked < |retries| && r == retries[retriesAcked] && clock >= r.notBefore && Reach(s0, At(Idle))
      modifies this`app, this`appMarks
      ensures Reach(s0, At(if ready then RetryDev else RetryAck))
    {
      ReachRetry(s0, At(Idle));
      var cmd := RetryCmd(r.failed, r.attempt);
      if cmd in commandMarks { return false; }
      var started := cmd in appMarks || cmd in devMarks;
      var current, hashes := RetryRecords(app, r, started);
      if !current { return false; }
      if cmd !in appMarks {
        app := WriteVersioned(app, hashes, r.version);
      }
      appMarks := appMarks + {cmd};
      return true;
    }

    method PublishRetry(r: RetryEv, budget: nat, ghost s0: State) returns (left: nat, ready: bool)
      requires retriesAcked < |retries| && r == retries[retriesAcked] && Reach(s0, At(RetryDev))
      modifies this`devMarks, this`prepared, this`commands, this`commandMarks
      ensures Reach(s0, At(if ready then RetryAck else Idle))
      ensures ready ==> left == budget - 3
      ensures !ready ==> budget < 3
    {
      var cmd := RetryCmd(r.failed, r.attempt);
      if budget == 0 {
        ReachCrash(s0, At(RetryDev));
        return 0, false;
      }
      MarkRetry(cmd, s0);
      if budget == 1 {
        ReachCrash(s0, At(RetryPrepare));
        return 0, false;
      }
      PrepareRetry(r, s0);
      if budget == 2 {
        ReachCrash(s0, At(RetryCommand));
        return 0, false;
      }
      CommandRetry(r, s0);
      return budget - 3, true;
    }

    method MarkRetry(cmd: CmdId, ghost s0: State)
      requires retriesAcked < |retries| && cmd == RetryCmd(retries[retriesAcked].failed, retries[retriesAcked].attempt)
      requires Reach(s0, At(RetryDev))
      modifies this`devMarks
      ensures Reach(s0, At(RetryPrepare))
    {
      ReachRetry(s0, At(RetryDev));
      devMarks := devMarks + {cmd};
    }

    method PrepareRetry(r: RetryEv, ghost s0: State)
      requires retriesAcked < |retries| && r == retries[retriesAcked] && Reach(s0, At(RetryPrepare))
      modifies this`prepared
      ensures Reach(s0, At(RetryCommand)) && RetryCmd(r.failed, r.attempt) in prepared
    {
      ReachRetry(s0, At(RetryPrepare));
      var cmd := RetryCmd(r.failed, r.attempt);
      if cmd !in prepared {
        prepared := prepared[cmd := r.batch];
      }
    }

    method CommandRetry(r: RetryEv, ghost s0: State)
      requires retriesAcked < |retries| && r == retries[retriesAcked] && Reach(s0, At(RetryCommand))
      requires RetryCmd(r.failed, r.attempt) in prepared
      modifies this`commands, this`commandMarks
      ensures Reach(s0, At(RetryAck))
    {
      ReachRetry(s0, At(RetryCommand));
      PublishCommand(RetryCmd(r.failed, r.attempt), r.version);
    }

    /** `processRetryOne`, cut off after `budget` durable operations. A retry that is not due yet stays
        pending and nothing changes. */
    method ProcessRetryOne(budget: nat) returns (done: bool)
      modifies this
      ensures Reach(old(At(Idle)), At(Idle)) && retries == old(retries)
      ensures retriesAcked == old(retriesAcked) + if done && old(retriesAcked) < |retries| then 1 else 0
      ensures old(retriesAcked) < |retries| && old(clock) < retries[old(retriesAcked)].notBefore ==>
        !done && At(Idle) == old(At(Idle))
      ensures !done ==>
        budget < 5 || (old(retriesAcked) < |retries| && old(clock) < retries[old(retriesAcked)].notBefore)
    {
      ghost var s0 := At(Idle);
      ReachStart(s0);
      if retriesAcked >= |retries| { return true; }
      if clock < retries[retriesAcked].notBefore { return false; }
      if budget == 0 { return false; }
      var r, left := retries[retriesAcked], budget - 1;
      var ready := BeginRetry(r, s0);
      if ready {
        left, ready := PublishRetry(r, left, s0);
        if !ready { return false; }
      }
      if left == 0 {
        ReachCrash(s0, At(RetryAck));
        return false;
      }
      AckRetry(s0);
      return true;
    }

    method AckRetry(ghost s0: State)
      requires retriesAcked < |retries| && Reach(s0, At(RetryAck))
      modifies this`retriesAcked
      ensures Reach(s0, At(Idle)) && retriesAcked == old(retriesAcked) + 1
    {
      ReachRetry(s0, At(RetryAck));
      retriesAcked := retriesAcked + 1;
    }
  }

  // ---------------------------------------------------------------- what that gives

  /** A call is a run of the machine: everything proved over runs holds after it. */
  lemma CallIsRun(s: State, t: State)
    requires Reach(s, t)
    ensures exists actions :: t == Run(s, actions)
  {
    Runs.ReachableIffRun(WorkerStep, s, t);
    var turns: seq<Action> :| t == Runs.Fold(WorkerStep, s, turns);
    TurnsAreRun(s, turns);
  }

  lemma {:induction false} TurnsAreRun(s: State, turns: seq<Action>)
    ensures exists actions :: Runs.Fold(WorkerStep, s, turns) == Run(s, actions)
  {
    if turns == [] {
      assert s == Run(s, []);
    } else {
      var n := |turns| - 1;
      TurnsAreRun(s, turns[..n]);
      var actions :| Runs.Fold(WorkerStep, s, turns[..n]) == Run(s, actions);
      if turns[n].Next? || turns[n].Crash? {
        var more := actions + [turns[n]];
        assert more[..|actions|] == actions;
        assert Runs.Fold(WorkerStep, s, turns) == Run(s, more);
      }
    }
  }

  /** On a log that Set produced. */
  ghost predicate Sound(s: State)
  {
    Inv(s) && OrchestratorStatus.StatusInv(s) && LogOk(s.log)
  }

  lemma StepKeepsSound(s: State, a: Action)
    requires Sound(s) && !a.AppendEvent?
    ensures Sound(Step(s, a))
  {
    StepKeepsInv(s, a);
    OrchestratorStatus.StepKeepsStatus(s, a);
    OrchestratorStatus.LogOnlyGrows(s, a);
  }

  /** However a call is cut off, it keeps every invariant of the machine, and on a log that Set
      produced it does not throw. */
  lemma CallKeepsSound(s: State, t: State)
    requires Reach(s, t) && Sound(s)
    ensures Sound(t) && !t.threw
  {
    forall x, a | Sound(x) ensures Sound(WorkerStep(x, a)) {
      if a.Next? || a.Crash? { StepKeepsSound(x, a); }
    }
    Runs.Invariant(WorkerStep, s, t, (x: State) => Sound(x));
  }
}
