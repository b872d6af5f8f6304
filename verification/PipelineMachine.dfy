/** The whole configuration path: concurrent Sets, the orchestrator, the sync daemon and the device.

The components are the state machines of their own modules, run side by side. A committed Set
appends its event to the orchestrator's stream, a published command is appended to the daemon's
stream, and the daemon's call is an apply on the device under the command's id. The device has no
faults armed, all ports up, the port counts that Set validates against, and is never reset. The
results the orchestrator reads are arbitrary, except that none is a timeout. */
module PipelineMachine {
  import opened Ids
  import opened Connections
  import opened CommandIds
  import opened ConfigLog
  import opened Backoff
  import Store = ConfigStore
  import Orch = Orchestrator
  import Status = OrchestratorStatus
  import Sync = Syncd
  import Device = DeviceModel

  datatype State = State(store: Store.Store, orch: Orch.State, sync: Sync.State, dev: Device.Dev<CmdId>)

  datatype Action =
    | SetStep(a: Store.Action)
    | OrchStep(activity: Orch.Activity)
    | OrchTick(now: nat)
    | OrchCrash
    | Attempted(p: nat)
    | Finished(p: nat)
    | Reported(r: Orch.ResultEv)
    | SyncStep
    | SyncCrash
    | SyncPoll

  // ---------------------------------------------------------------- steps

  function AsCmd(c: Orch.DevCmd): Sync.Cmd
  {
    Sync.Cmd(c.id, "", c.version, true, c.batch)
  }

  /** A committed event goes to the orchestrator. */
  ghost function AfterSet(s: State, a: Store.Action): State
  {
    var store := Store.Step(s.store, a);
    s.(store := store,
       orch := if |store.log| > |s.store.log|
               then Orch.Step(s.orch, Orch.AppendEvent(store.log[|store.log| - 1])) else s.orch)
  }

  /** A published command goes to the daemon. */
  ghost function AfterOrch(s: State, a: Orch.Action): State
  {
    var orch := Orch.Step(s.orch, a);
    s.(orch := orch,
       sync := if |orch.commands| > |s.orch.commands|
               then Sync.Step(s.sync, Sync.Append(AsCmd(orch.commands[|orch.commands| - 1]))) else s.sync)
  }

  function Called(s: State, cmd: Sync.Cmd): (Device.Dev<CmdId>, ApplyResult)
  {
    Device.Apply(s.dev, cmd.batch, Some(cmd.id), true)
  }

  ghost function AfterSync(s: State): State
  {
    if s.sync.acked < |s.sync.cmds| && s.sync.pc.Calling? then
      var (dev, r) := Called(s, s.sync.cmds[s.sync.acked]);
      s.(dev := dev, sync := Sync.Step(s.sync, Sync.Next(Sync.Answer(dev.core.generation, true, r, Some(dev.core)))))
    else
      s.(sync := Sync.Step(s.sync, Sync.Next(Sync.Answer(0, false, ApplyResult(Ok, []), None))))
  }

  ghost predicate Allowed(s: State, a: Action)
  {
    match a
    case SetStep(b) => b.Register? ==> b.nIn == |s.dev.core.inPorts| && b.nOut == |s.dev.core.outPorts|
    case Reported(r) => !r.outcome.TimedOut?
    case _ => true
  }

  ghost function Step(s: State, a: Action): State
  {
    if !Allowed(s, a) then s
    else
      match a
      case SetStep(b) => AfterSet(s, b)
      case OrchStep(activity) => AfterOrch(s, Orch.Next(activity))
      case OrchTick(now) => AfterOrch(s, Orch.Tick(now))
      case OrchCrash => AfterOrch(s, Orch.Crash)
      case Attempted(p) => AfterOrch(s, Orch.Attempt(p))
      case Finished(p) => AfterOrch(s, Orch.Finish(p, false))
      case Reported(r) => AfterOrch(s, Orch.AppendResult(r))
      case SyncStep => AfterSync(s)
      case SyncCrash => s.(sync := Sync.Step(s.sync, Sync.Crash))
      case SyncPoll => s.(sync := Sync.Step(s.sync, Sync.Observe(s.dev.core.generation)))
  }

  ghost function Run(s: State, actions: seq<Action>): State
  {
    if actions == [] then s else Step(Run(s, actions[..|actions| - 1]), actions[|actions| - 1])
  }

  function Init(nIn: nat, nOut: nat, generation: nat, setRetries: nat, policy: RetryPolicy): State
  {
    State(Store.Init(setRetries), Orch.Init(policy), Sync.Init(map[], map[], generation),
          Device.Init(nIn, nOut, generation))
  }

  // ---------------------------------------------------------------- invariant

  /** Commands are published in log order, one per event, each the whole event. */
  ghost predicate InOrder(o: Orch.State)
  {
    && |o.commands| == o.acks.config + (if ConfigCmd(o.acks.config) in o.marks.cmd then 1 else 0)
    && |o.commands| <= |o.log|
    && forall a | 0 <= a < |o.commands| :: o.commands[a] == Orch.DevCmd(ConfigCmd(a), a + 1, o.log[a].commands)
  }

  ghost predicate NoTimeouts(o: Orch.State)
  {
    o.retries == [] && forall c | c in o.applies.late :: !o.applies.late[c]
  }

  ghost predicate OrchInv(o: Orch.State)
  {
    Orch.Inv(o) && Status.StatusInv(o) && NoTimeouts(o) && InOrder(o)
  }

  ghost predicate SameCommands(o: Orch.State, y: Sync.State)
  {
    |y.cmds| == |o.commands| && forall a | 0 <= a < |y.cmds| :: y.cmds[a] == AsCmd(o.commands[a])
  }

  /** How many commands the device has carried out: all acknowledged ones and possibly the next. */
  function CarriedOut(acked: nat, cache: Device.Cache<CmdId>): nat
  {
    if ConfigCmd(acked) in cache.results then acked + 1 else acked
  }

  ghost predicate AllUp(ports: seq<Device.Port>)
  {
    forall i | 0 <= i < |ports| :: ports[i] == Device.Port(true, Device.Up)
  }

  ghost predicate Healthy(d: Device.Core)
  {
    AllUp(d.inPorts) && AllUp(d.outPorts) && !d.failNext && !d.timeoutNext
  }

  ghost predicate CacheOk(c: Device.Cache<CmdId>, n: nat)
  {
    Device.CacheInv(c) && forall o | o in c.results :: o.ConfigCmd? && o.event < n && c.results[o].error == Ok
  }

  /** The device holds the replay of the first `n` events. */
  ghost predicate DeviceAt(d: Device.Core, log: seq<Event>, n: nat)
  {
    n <= |log| && d.conns == Replay(log[..n]) && forall k | k in d.fences :: d.fences[k] <= n
  }

  /** The daemon never skips, never sees a failure, and what it has a result for was applied. */
  ghost predicate SyncOk(y: Sync.State, cache: Device.Cache<CmdId>, n: nat)
  {
    && (forall c | c in y.db.processed :: c in y.db.results)
    && (forall c | c in y.db.results :: y.db.results[c].error == Ok)
    && (forall k | k in y.db.versions :: y.db.versions[k].version <= n)
    && (ConfigCmd(y.acked) in cache.results ==> ConfigCmd(y.acked) in y.db.attempts)
    && (ConfigCmd(y.acked) in y.db.results ==> ConfigCmd(y.acked) in cache.results)
    && (y.pc.Called? ==> y.pc.result.error == Ok && ConfigCmd(y.acked) in cache.results)
    && n <= |y.cmds|
  }

  ghost predicate PortsOk(store: Store.Store, d: Device.Core)
  {
    store.ports.Some? ==> store.ports.value == (|d.inPorts|, |d.outPorts|)
  }

  ghost predicate Inv(s: State)
  {
    Store.Inv(s.store) && OrchInv(s.orch) && Sync.Inv(s.sync) && Link(s)
  }

  /** How the components fit together. */
  ghost predicate Link(s: State)
  {
    && s.orch.log == s.store.log && PortsOk(s.store, s.dev.core) && SameCommands(s.orch, s.sync)
    && Healthy(s.dev.core) && CacheOk(s.dev.cache, CarriedOut(s.sync.acked, s.dev.cache))
    && DeviceAt(s.dev.core, s.store.log, CarriedOut(s.sync.acked, s.dev.cache))
    && SyncOk(s.sync, s.dev.cache, CarriedOut(s.sync.acked, s.dev.cache))
  }

  // ---------------------------------------------------------------- orchestrator

  lemma NoTimeoutsKept(o: Orch.State, a: Orch.Action)
    requires Orch.Inv(o) && NoTimeouts(o)
    requires a.Finish? ==> !a.late
    ensures NoTimeouts(Orch.Step(o, a))
  {
    if a.Next? {
      match Orch.ActivityOf(o.pc, a.activity) {
        case Config => ConfigSchedulesNothing(o);
        case Results => ResultSchedulesNothing(o);
        case Retries =>
      }
    }
  }

  lemma ConfigSchedulesNothing(o: Orch.State)
    ensures Orch.ConfigStep(o).retries == o.retries && Orch.ConfigStep(o).applies == o.applies
  {
  }

  lemma ResultSchedulesNothing(o: Orch.State)
    requires Orch.TimeoutsOk(o) && Orch.PcOk(o) && NoTimeouts(o)
    ensures Orch.ResultStep(o).retries == o.retries && Orch.ResultStep(o).applies == o.applies
  {
    forall c ensures c !in o.timeouts.dev {
      assert c in o.timeouts.dev ==> Orch.MetaOk(o, c, o.timeouts.dev[c]);
    }
  }

  lemma CommandsOnlyFromConfig(o: Orch.State, a: Orch.Action)
    requires o.retries == []
    ensures var t := Orch.Step(o, a);
      || SamePublications(o, t)
      || (a.Next? && t == Orch.ConfigStep(o) && o.acks.config < |o.log| && (o.pc.ConfigCommand? || o.pc.ConfigAck?))
  {
    if a.Next? {
      match Orch.ActivityOf(o.pc, a.activity) {
        case Config => if !o.pc.ConfigCommand? && !o.pc.ConfigAck? { OtherConfigSteps(o); }
        case Results => ResultsPublishNothing(o);
        case Retries =>
      }
    }
  }

  lemma OtherConfigSteps(o: Orch.State)
    requires !o.pc.ConfigCommand? && !o.pc.ConfigAck?
    ensures SamePublications(o, Orch.ConfigStep(o))
  {
  }

  ghost predicate SamePublications(o: Orch.State, t: Orch.State)
  {
    t.commands == o.commands && t.marks.cmd == o.marks.cmd && t.acks.config == o.acks.config
  }

  lemma ResultsPublishNothing(o: Orch.State)
    ensures SamePublications(o, Orch.ResultStep(o))
  {
    if o.acks.results < |o.results| {
      var r := o.results[o.acks.results];
      match o.pc {
        case Idle => TimeoutBeginPublishesNothing(o, r);
        case ResultApp(next) =>
        case TimeoutApp(meta) => TimeoutAppPublishesNothing(o, r, meta);
        case TimeoutRetry(meta) =>
        case _ =>
      }
    }
  }

  lemma TimeoutBeginPublishesNothing(o: Orch.State, r: Orch.ResultEv)
    ensures SamePublications(o, Orch.TimeoutBegin(o, r)) && SamePublications(o, Orch.ResultBegin(o, r))
  {
  }

  lemma TimeoutAppPublishesNothing(o: Orch.State, r: Orch.ResultEv, meta: Orch.Meta)
    ensures SamePublications(o, Orch.TimeoutAppStep(o, r, meta))
  {
  }

  lemma InOrderKept(o: Orch.State, a: Orch.Action)
    requires OrchInv(o) && LogOk(o.log)
    ensures InOrder(Orch.Step(o, a))
  {
    CommandsOnlyFromConfig(o, a);
    Status.LogOnlyGrows(o, a);
    if a.Next? && o.acks.config < |o.log| && (o.pc.ConfigCommand? || o.pc.ConfigAck?) {
      ConfigStepInOrder(o);
    }
    if SamePublications(o, Orch.Step(o, a)) { SamePublicationsInOrder(o, Orch.Step(o, a)); }
  }

  lemma SamePublicationsInOrder(o: Orch.State, t: Orch.State)
    requires InOrder(o) && SamePublications(o, t) && |o.log| <= |t.log|
    requires forall i | 0 <= i < |o.log| :: t.log[i] == o.log[i]
    ensures InOrder(t)
  {
  }

  lemma ConfigStepInOrder(o: Orch.State)
    requires OrchInv(o) && LogOk(o.log) && o.acks.config < |o.log| && (o.pc.ConfigCommand? || o.pc.ConfigAck?)
    ensures InOrder(Orch.ConfigStep(o))
  {
    if o.pc.ConfigCommand? {
      VersionAt(o.log, o.acks.config);
      PublishInOrder(o, o.acks.config);
    } else {
      AckInOrder(o);
    }
  }

  lemma PublishInOrder(o: Orch.State, n: nat)
    requires InOrder(o) && o.acks.config == n < |o.log| && o.pc.ConfigCommand? && ConfigCmd(n) in o.prepared
    requires o.prepared[ConfigCmd(n)] == o.log[n].commands && o.log[n].version == n + 1
    ensures InOrder(Orch.ConfigStep(o))
  {
    var t := Orch.ConfigStep(o);
    if ConfigCmd(n) !in o.marks.cmd {
      assert t.commands == o.commands + [Orch.DevCmd(ConfigCmd(n), n + 1, o.log[n].commands)];
      assert ConfigCmd(n) in t.marks.cmd;
    }
  }

  lemma VersionAt(log: seq<Event>, n: nat)
    requires LogOk(log) && n < |log|
    ensures log[n].version == n + 1
  {
    assert EventOk(Replay(log[..n]), n, log[n]);
  }

  lemma AckInOrder(o: Orch.State)
    requires InOrder(o) && Orch.CmdsOk(o) && Orch.ConfigOk(o) && Status.AllTaken(o)
    requires o.acks.config < |o.log| && o.pc.ConfigAck?
    ensures InOrder(Orch.ConfigStep(o))
  {
    assert ConfigCmd(o.acks.config + 1) !in o.marks.cmd;
  }

  lemma OrchKept(o: Orch.State, a: Orch.Action)
    requires OrchInv(o) && LogOk(o.log) && (a.Finish? ==> !a.late)
    ensures OrchInv(Orch.Step(o, a))
  {
    Orch.StepKeepsInv(o, a);
    Status.StepKeepsStatus(o, a);
    NoTimeoutsKept(o, a);
    Status.LogOnlyGrows(o, a);
    InOrderKept(o, a);
  }

  lemma OneMoreCommand(o: Orch.State, t: Orch.State)
    requires InOrder(o) && InOrder(t) && |o.log| <= |t.log| && forall i | 0 <= i < |o.log| :: t.log[i] == o.log[i]
    requires |o.commands| <= |t.commands| <= |o.commands| + 1
    ensures forall a | 0 <= a < |o.commands| :: t.commands[a] == o.commands[a]
  {
  }

  lemma CommandsGrowByOne(o: Orch.State, a: Orch.Action)
    requires o.retries == []
    ensures |o.commands| <= |Orch.Step(o, a).commands| <= |o.commands| + 1
  {
    CommandsOnlyFromConfig(o, a);
  }

  // ---------------------------------------------------------------- the daemon's own steps

  /** What is known of the command the daemon works on. */
  ghost predicate NthCommand(y: Sync.State, log: seq<Event>)
  {
    && y.acked < |y.cmds| && y.acked < |log|
    && y.cmds[y.acked] == Sync.Cmd(ConfigCmd(y.acked), "", y.acked + 1, true, log[y.acked].commands)
    && log[y.acked].commands != [] && forall c | c in log[y.acked].commands :: c.version == y.acked + 1
  }

  ghost predicate ConfigIds(y: Sync.State)
  {
    forall a | 0 <= a < |y.cmds| :: y.cmds[a].id == ConfigCmd(a)
  }

  lemma {:induction false} AdvanceBound(versions: map<string, Sync.Version>, g: nat, batch: seq<Command>, n: nat)
    requires forall k | k in versions :: versions[k].version <= n
    requires forall c | c in batch :: c.version <= n
    ensures forall k | k in Sync.Advance(versions, g, batch) :: Sync.Advance(versions, g, batch)[k].version <= n
  {
    if batch != [] {
      assert batch[|batch| - 1] in batch;
      AdvanceBound(versions, g, batch[..|batch| - 1], n);
    }
  }

  lemma NotStale(y: Sync.State, cmd: Sync.Cmd, n: nat)
    requires cmd.batch != [] && forall c | c in cmd.batch :: c.version > n
    requires forall k | k in y.db.versions :: y.db.versions[k].version <= n
    ensures !Sync.IsStale(y.db.versions, y.generation, cmd.batch)
  {
    assert cmd.batch[0] in cmd.batch;
    assert !Sync.StaleMember(y.db.versions, y.generation, cmd.batch[0]);
  }

  lemma BeginKeeps(y: Sync.State, cache: Device.Cache<CmdId>, n: nat, log: seq<Event>)
    requires SyncOk(y, cache, n) && n == CarriedOut(y.acked, cache) && NthCommand(y, log) && y.pc.Idle?
    ensures SyncOk(Sync.Begin(y, y.cmds[y.acked]), cache, n)
  {
    var cmd := y.cmds[y.acked];
    if cmd.id !in y.db.attempts { NotStale(y, cmd, n); }
  }

  lemma ReportKeeps(y: Sync.State, cache: Device.Cache<CmdId>, n: nat, log: seq<Event>, i: nat)
    requires SyncOk(y, cache, n) && n == CarriedOut(y.acked, cache) && NthCommand(y, log)
    requires y.pc == Sync.Reporting(i) && ConfigCmd(y.acked) in y.db.results
    ensures SyncOk(Sync.ReportNext(y, y.cmds[y.acked], i), cache, n)
  {
    var cmd := y.cmds[y.acked];
    AdvanceBound(y.db.versions, y.generation, cmd.batch, n);
  }

  lemma NextHasNoResult(y: Sync.State)
    requires Sync.TracesOk(y) && ConfigIds(y)
    ensures ConfigCmd(y.acked + 1) !in y.db.results && ConfigCmd(y.acked + 1) !in y.db.attempts
  {
    forall c | c in Sync.Traces(y.db) ensures c != ConfigCmd(y.acked + 1) {
      var i :| 0 <= i <= y.acked && i < |y.cmds| && y.cmds[i].id == c;
    }
    assert y.db.results.Keys <= Sync.Traces(y.db) && y.db.attempts <= Sync.Traces(y.db);
  }

  lemma AckKeeps(y: Sync.State, cache: Device.Cache<CmdId>, n: nat)
    requires SyncOk(y, cache, n) && n == CarriedOut(y.acked, cache) && CacheOk(cache, n)
    requires Sync.TracesOk(y) && ConfigIds(y) && y.pc.Acking? && ConfigCmd(y.acked) in y.db.processed
    ensures SyncOk(y.(acked := y.acked + 1, pc := Sync.Idle), cache, n)
    ensures CarriedOut(y.acked + 1, cache) == n
  {
    NextHasNoResult(y);
    assert ConfigCmd(y.acked + 1) !in cache.results;
  }

  lemma WorkKeeps(y: Sync.State, cache: Device.Cache<CmdId>, n: nat, log: seq<Event>, a: Sync.Answer)
    requires Sync.Current(y) && Sync.TracesOk(y) && SyncOk(y, cache, n) && n == CarriedOut(y.acked, cache)
    requires CacheOk(cache, n)
    requires NthCommand(y, log) && ConfigIds(y) && !y.pc.Calling?
    ensures var t := Sync.Work(y, y.cmds[y.acked], a); SyncOk(t, cache, n) && CarriedOut(t.acked, cache) == n
  {
    var cmd := y.cmds[y.acked];
    assert Sync.PcOk(y.db, cmd, y.pc);
    match y.pc
    case Idle => BeginKeeps(y, cache, n, log);
    case Reporting(i) => ReportKeeps(y, cache, n, log, i);
    case Acking => AckKeeps(y, cache, n);
    case Called(r) =>
    case Publishing(i, delta) =>
  }

  // ---------------------------------------------------------------- the device

  lemma {:induction false} FenceBound(f: map<string, nat>, cs: seq<Command>, n: nat)
    requires forall k | k in f :: f[k] <= n
    requires forall c | c in cs :: c.version <= n
    ensures forall k | k in Device.Fence(f, cs) :: Device.Fence(f, cs)[k] <= n
  {
    if cs != [] {
      assert cs[|cs| - 1] in cs;
      FenceBound(f, cs[..|cs| - 1], n);
    }
  }

  /** The next event is acceptable to a healthy device that holds the replay of all before it. */
  lemma NextEventAccepted(d: Device.Core, log: seq<Event>, n: nat)
    requires Healthy(d) && DeviceAt(d, log, n) && n < |log| && LogOk(log)
    requires AllPrefixesValid(log, |d.inPorts|, |d.outPorts|)
    ensures Device.Acceptable(d, log[n].commands)
  {
    var m, batch := Replay(log[..n]), log[n].commands;
    assert EventOk(m, n, log[n]);
    ReplayStep(log, n);
    var m' := Replay(log[..n + 1]);
    assert ValidMatrix(m', |d.inPorts|, |d.outPorts|);
    DistinctAgree(batch);
    ApplyAllPointwise(m, batch);
    forall c | c in batch ensures !Device.IsStale(d.fences, c) && Device.MemberError(d, c) == Ok {
      if c.op.Upsert? { assert c.id in m' && m'[c.id] == ToApplied(c); }
    }
  }

  lemma ExecuteNext(d: Device.Core, log: seq<Event>, n: nat)
    requires Healthy(d) && DeviceAt(d, log, n) && n < |log| && LogOk(log)
    requires AllPrefixesValid(log, |d.inPorts|, |d.outPorts|)
    ensures var (d', r) := Device.Execute(d, log[n].commands, true);
      && r.error == Ok && Healthy(d') && DeviceAt(d', log, n + 1)
      && |d'.inPorts| == |d.inPorts| && |d'.outPorts| == |d.outPorts|
  {
    NextEventAccepted(d, log, n);
    Device.ExecuteEffect(d, log[n].commands, true);
    ReplayStep(log, n);
    assert EventOk(Replay(log[..n]), n, log[n]);
    FenceBound(d.fences, log[n].commands, n + 1);
  }

  lemma RecordNext(c: Device.Cache<CmdId>, n: nat, r: ApplyResult)
    requires CacheOk(c, n) && r.error == Ok && ConfigCmd(n) !in c.results
    ensures CacheOk(Device.Record(c, ConfigCmd(n), r), n + 1)
    ensures ConfigCmd(n) in Device.Record(c, ConfigCmd(n), r).results
  {
    Device.RecordKeepsCache(c, ConfigCmd(n), r);
  }

  /** The daemon's call: the device carries out the command once, however often it is called. */
  lemma CallKeeps(d: Device.Dev<CmdId>, log: seq<Event>, acked: nat)
    requires Healthy(d.core) && CacheOk(d.cache, CarriedOut(acked, d.cache))
    requires DeviceAt(d.core, log, CarriedOut(acked, d.cache))
    requires acked < |log| && LogOk(log) && AllPrefixesValid(log, |d.core.inPorts|, |d.core.outPorts|)
    ensures var (d', r) := Device.Apply(d, log[acked].commands, Some(ConfigCmd(acked)), true);
      && r.error == Ok && Healthy(d'.core) && ConfigCmd(acked) in d'.cache.results
      && CacheOk(d'.cache, acked + 1) && DeviceAt(d'.core, log, acked + 1)
      && |d'.core.inPorts| == |d.core.inPorts| && |d'.core.outPorts| == |d.core.outPorts|
  {
    if ConfigCmd(acked) !in d.cache.results {
      ExecuteNext(d.core, log, acked);
      RecordNext(d.cache, acked, Device.Execute(d.core, log[acked].commands, true).1);
    }
  }

  lemma CalledKeeps(y: Sync.State, cache: Device.Cache<CmdId>, cache': Device.Cache<CmdId>, log: seq<Event>,
                    a: Sync.Answer)
    requires SyncOk(y, cache, CarriedOut(y.acked, cache)) && NthCommand(y, log) && y.pc.Calling?
    requires ConfigCmd(y.acked) in y.db.attempts && ConfigCmd(y.acked) in cache'.results && a.result.error == Ok
    ensures SyncOk(Sync.Call(y, y.cmds[y.acked], a), cache', y.acked + 1)
  {
  }

  // ---------------------------------------------------------------- every step of the whole

  lemma EventFacts(log: seq<Event>, n: nat)
    requires LogOk(log) && n < |log|
    ensures log[n].version == n + 1 && log[n].commands != [] && DistinctIds(log[n].commands)
    ensures forall c | c in log[n].commands :: c.version == n + 1
  {
    assert EventOk(Replay(log[..n]), n, log[n]);
  }

  lemma DaemonFacts(s: State)
    requires InOrder(s.orch) && LogOk(s.orch.log) && SameCommands(s.orch, s.sync)
    ensures ConfigIds(s.sync)
    ensures s.sync.acked < |s.sync.cmds| ==> NthCommand(s.sync, s.orch.log)
  {
    if s.sync.acked < |s.sync.cmds| { EventFacts(s.orch.log, s.sync.acked); }
  }

  lemma SyncStepKeepsInv(s: State)
    requires Inv(s)
    ensures Inv(AfterSync(s))
  {
    DaemonFacts(s);
    if s.sync.acked >= |s.sync.cmds| {
      NothingToDo(s);
    } else if s.sync.pc.Calling? {
      CallStepKeepsInv(s);
    } else {
      WorkStepKeepsInv(s);
    }
  }

  lemma NothingToDo(s: State)
    requires s.sync.acked >= |s.sync.cmds|
    ensures AfterSync(s) == s
  {
  }

  lemma CallFacts(s: State)
    requires Sync.Current(s.sync) && s.sync.acked < |s.sync.cmds| && s.sync.pc.Calling?
    requires NthCommand(s.sync, s.store.log) && Store.StoreInv(s.store)
    ensures ConfigCmd(s.sync.acked) in s.sync.db.attempts && LogOk(s.store.log)
    ensures s.store.ports.Some? && AllPrefixesValid(s.store.log, s.store.ports.value.0, s.store.ports.value.1)
  {
  }

  lemma CallStepKeepsInv(s: State)
    requires Inv(s) && s.sync.acked < |s.sync.cmds| && s.sync.pc.Calling? && NthCommand(s.sync, s.store.log)
    ensures Inv(AfterSync(s))
  {
    var (dev, r) := Called(s, s.sync.cmds[s.sync.acked]);
    Sync.StepKeepsInv(s.sync, Sync.Next(Sync.Answer(dev.core.generation, true, r, Some(dev.core))));
    CallFacts(s);
    CallKeepsLink(s);
  }

  lemma WorkKeepsLink(s: State, a: Sync.Answer)
    requires Link(s) && Sync.Current(s.sync) && Sync.TracesOk(s.sync)
    requires NthCommand(s.sync, s.store.log) && ConfigIds(s.sync) && !s.sync.pc.Calling?
    ensures Link(s.(sync := Sync.Work(s.sync, s.sync.cmds[s.sync.acked], a)))
  {
    WorkKeeps(s.sync, s.dev.cache, CarriedOut(s.sync.acked, s.dev.cache), s.store.log, a);
    WorkKeepsCommands(s.sync, s.sync.cmds[s.sync.acked], a);
  }

  lemma WorkStepKeepsInv(s: State)
    requires Inv(s) && s.sync.acked < |s.sync.cmds| && !s.sync.pc.Calling?
    requires NthCommand(s.sync, s.store.log) && ConfigIds(s.sync)
    ensures Inv(AfterSync(s))
  {
    var a := Sync.Answer(0, false, ApplyResult(Ok, []), None);
    WorkInv(s.sync, a);
    WorkKeepsLink(s, a);
    SyncReplaced(s, Sync.Step(s.sync, Sync.Next(a)));
  }

  lemma WorkInv(y: Sync.State, a: Sync.Answer)
    requires Sync.Inv(y) && y.acked < |y.cmds|
    ensures Sync.Inv(Sync.Step(y, Sync.Next(a))) && Sync.Step(y, Sync.Next(a)) == Sync.Work(y, y.cmds[y.acked], a)
  {
    Sync.StepKeepsInv(y, Sync.Next(a));
  }

  lemma SyncReplaced(s: State, y: Sync.State)
    requires Store.Inv(s.store) && OrchInv(s.orch) && Sync.Inv(y) && Link(s.(sync := y))
    ensures Inv(s.(sync := y))
  {
  }

  lemma WorkKeepsCommands(y: Sync.State, cmd: Sync.Cmd, a: Sync.Answer)
    ensures Sync.Work(y, cmd, a).cmds == y.cmds
  {
  }

  lemma CallKeepsLink(s: State)
    requires Link(s) && LogOk(s.store.log) && NthCommand(s.sync, s.store.log) && s.sync.pc.Calling?
    requires ConfigCmd(s.sync.acked) in s.sync.db.attempts
    requires s.store.ports.Some? && AllPrefixesValid(s.store.log, s.store.ports.value.0, s.store.ports.value.1)
    ensures Link(AfterSync(s))
  {
    var (dev, r) := Called(s, s.sync.cmds[s.sync.acked]);
    CallKeeps(s.dev, s.store.log, s.sync.acked);
    AnswerKeepsLink(s, dev, r);
    CallIs(s, dev, r);
  }

  lemma CallIs(s: State, dev: Device.Dev<CmdId>, r: ApplyResult)
    requires s.sync.acked < |s.sync.cmds| && s.sync.pc.Calling? && (dev, r) == Called(s, s.sync.cmds[s.sync.acked])
    ensures AfterSync(s) == s.(dev := dev, sync := Sync.Call(s.sync, s.sync.cmds[s.sync.acked],
                                                             Sync.Answer(dev.core.generation, true, r, Some(dev.core))))
  {
  }

  lemma AnswerKeepsLink(s: State, dev: Device.Dev<CmdId>, r: ApplyResult)
    requires Link(s) && NthCommand(s.sync, s.store.log) && s.sync.pc.Calling?
    requires ConfigCmd(s.sync.acked) in s.sync.db.attempts
    requires r.error == Ok && Healthy(dev.core) && ConfigCmd(s.sync.acked) in dev.cache.results
    requires CacheOk(dev.cache, s.sync.acked + 1) && DeviceAt(dev.core, s.store.log, s.sync.acked + 1)
    requires |dev.core.inPorts| == |s.dev.core.inPorts| && |dev.core.outPorts| == |s.dev.core.outPorts|
    ensures var a := Sync.Answer(dev.core.generation, true, r, Some(dev.core));
      Link(s.(dev := dev, sync := Sync.Call(s.sync, s.sync.cmds[s.sync.acked], a)))
  {
    CalledKeeps(s.sync, s.dev.cache, dev.cache, s.store.log, Sync.Answer(dev.core.generation, true, r, Some(dev.core)));
  }

  lemma OrchStepKeepsInv(s: State, a: Orch.Action)
    requires Inv(s) && !a.AppendEvent? && (a.Finish? ==> !a.late)
    ensures Inv(AfterOrch(s, a))
  {
    OrchKept(s.orch, a);
    Status.LogOnlyGrows(s.orch, a);
    CommandsGrowByOne(s.orch, a);
    OrchKeepsLink(s, AfterOrch(s, a));
  }

  lemma OrchKeepsLink(s: State, t: State)
    requires Link(s) && Sync.Inv(s.sync) && InOrder(s.orch) && InOrder(t.orch) && LogOk(s.store.log)
    requires t.store == s.store && t.dev == s.dev && t.orch.log == s.orch.log
    requires |s.orch.commands| <= |t.orch.commands| <= |s.orch.commands| + 1
    requires t.sync == if |t.orch.commands| > |s.orch.commands|
               then Sync.Step(s.sync, Sync.Append(AsCmd(t.orch.commands[|t.orch.commands| - 1]))) else s.sync
    ensures Link(t) && Sync.Inv(t.sync)
  {
    OneMoreCommand(s.orch, t.orch);
    if |t.orch.commands| > |s.orch.commands| {
      PublishReachesDaemon(s, t.orch);
    }
  }

  lemma PublishReachesDaemon(s: State, t: Orch.State)
    requires Sync.Inv(s.sync) && SameCommands(s.orch, s.sync) && InOrder(s.orch) && InOrder(t) && LogOk(t.log)
    requires |t.commands| == |s.orch.commands| + 1
    requires forall a | 0 <= a < |s.orch.commands| :: t.commands[a] == s.orch.commands[a]
    requires SyncOk(s.sync, s.dev.cache, CarriedOut(s.sync.acked, s.dev.cache))
    ensures var y := Sync.Step(s.sync, Sync.Append(AsCmd(t.commands[|t.commands| - 1])));
      && Sync.Inv(y) && SameCommands(t, y) && y.acked == s.sync.acked
      && SyncOk(y, s.dev.cache, CarriedOut(y.acked, s.dev.cache))
  {
    var cmd := AsCmd(t.commands[|t.commands| - 1]);
    NextIsAdmitted(s, t);
    AppendInv(s.sync, cmd);
    AppendFits(s, t, s.sync.(cmds := s.sync.cmds + [cmd]));
  }

  lemma AppendFits(s: State, t: Orch.State, y: Sync.State)
    requires SameCommands(s.orch, s.sync) && SyncOk(s.sync, s.dev.cache, CarriedOut(s.sync.acked, s.dev.cache))
    requires |t.commands| == |s.orch.commands| + 1
    requires forall a | 0 <= a < |s.orch.commands| :: t.commands[a] == s.orch.commands[a]
    requires y == s.sync.(cmds := s.sync.cmds + [AsCmd(t.commands[|t.commands| - 1])])
    ensures SameCommands(t, y) && SyncOk(y, s.dev.cache, CarriedOut(y.acked, s.dev.cache))
  {
  }

  lemma NextIsAdmitted(s: State, t: Orch.State)
    requires SameCommands(s.orch, s.sync) && InOrder(s.orch) && InOrder(t) && LogOk(t.log)
    requires |t.commands| == |s.orch.commands| + 1
    ensures Sync.Admits(s.sync.cmds, AsCmd(t.commands[|t.commands| - 1]))
  {
    EventFacts(t.log, |t.commands| - 1);
  }

  lemma AppendInv(y: Sync.State, cmd: Sync.Cmd)
    requires Sync.Inv(y) && Sync.Admits(y.cmds, cmd)
    ensures Sync.Inv(Sync.Step(y, Sync.Append(cmd))) && Sync.Step(y, Sync.Append(cmd)) == y.(cmds := y.cmds + [cmd])
  {
    Sync.StepKeepsInv(y, Sync.Append(cmd));
  }

  /** A step of the store either leaves the log alone or appends one event to it. */
  lemma StoreStep(store: Store.Store, b: Store.Action)
    requires Store.Inv(store)
    ensures var t := Store.Step(store, b);
      && (t.log == store.log || (|t.log| == |store.log| + 1 && t.log[..|store.log|] == store.log))
      && (t.ports == store.ports || (b.Register? && t.ports == Some((b.nIn, b.nOut))))
  {
    if Store.Commits(store, b) { Store.CommitStep(store, b); }
  }

  lemma SetStepKeepsInv(s: State, b: Store.Action)
    requires Inv(s) && Allowed(s, SetStep(b))
    ensures Inv(AfterSet(s, b))
  {
    var store := Store.Step(s.store, b);
    Store.StepKeepsInv(s.store, b);
    StoreStep(s.store, b);
    StoreReplaced(s, b, store);
  }

  lemma StoreReplaced(s: State, b: Store.Action, store: Store.Store)
    requires OrchInv(s.orch) && Sync.Inv(s.sync) && Link(s) && LogOk(s.store.log)
    requires store == Store.Step(s.store, b) && Store.Inv(store) && PortsOk(store, s.dev.core)
    requires store.log == s.store.log || (|store.log| == |s.store.log| + 1 && store.log[..|s.store.log|] == s.store.log)
    ensures Inv(AfterSet(s, b))
  {
    if |store.log| > |s.store.log| {
      var e := store.log[|s.store.log|];
      EventReachesOrchestrator(s.orch, store);
      CommittedKeepsInv(s, s.(store := store, orch := s.orch.(log := s.orch.log + [e])), e);
    } else {
      QuietSetKeepsInv(s, store);
    }
  }

  lemma CommittedKeepsInv(s: State, t: State, e: Event)
    requires Link(s) && Store.Inv(t.store) && OrchInv(t.orch) && Sync.Inv(t.sync) && PortsOk(t.store, s.dev.core)
    requires t.sync == s.sync && t.dev == s.dev && t.orch == s.orch.(log := s.orch.log + [e])
    requires |t.store.log| == |s.store.log| + 1 && t.store.log[..|s.store.log|] == s.store.log
    requires t.store.log[|s.store.log|] == e
    ensures Inv(t)
  {
    AppendKeepsLink(s, t, e);
  }

  lemma QuietSetKeepsInv(s: State, store: Store.Store)
    requires OrchInv(s.orch) && Sync.Inv(s.sync) && Link(s)
    requires Store.Inv(store) && PortsOk(store, s.dev.core) && store.log == s.store.log
    ensures Inv(s.(store := store))
  {
  }

  lemma EventReachesOrchestrator(o: Orch.State, store: Store.Store)
    requires OrchInv(o) && LogOk(o.log) && LogOk(store.log) && |store.log| == |o.log| + 1
    ensures var e := store.log[|o.log|];
      OrchInv(Orch.Step(o, Orch.AppendEvent(e))) && Orch.Step(o, Orch.AppendEvent(e)) == o.(log := o.log + [e])
  {
    EventIsBatch(store.log, |o.log|);
    OrchKept(o, Orch.AppendEvent(store.log[|o.log|]));
  }

  lemma EventIsBatch(log: seq<Event>, n: nat)
    requires LogOk(log) && n < |log|
    ensures Orch.BatchEvent(log[n])
  {
    EventFacts(log, n);
  }

  lemma AppendKeepsDevice(d: Device.Core, log: seq<Event>, e: Event, n: nat)
    requires DeviceAt(d, log, n)
    ensures DeviceAt(d, log + [e], n)
  {
    assert (log + [e])[..n] == log[..n];
  }

  lemma AppendKeepsLink(s: State, t: State, e: Event)
    requires Link(s) && t.sync == s.sync && t.dev == s.dev && PortsOk(t.store, t.dev.core)
    requires t.orch == s.orch.(log := s.orch.log + [e])
    requires |t.store.log| == |s.store.log| + 1 && t.store.log[..|s.store.log|] == s.store.log
    requires t.store.log[|s.store.log|] == e
    ensures Link(t)
  {
    assert t.store.log == s.store.log + [e];
    AppendKeepsDevice(s.dev.core, s.store.log, e, CarriedOut(s.sync.acked, s.dev.cache));
  }

  lemma PollKeepsLink(s: State, a: Sync.Action)
    requires Link(s) && (a.Crash? || a.Observe?)
    ensures Link(s.(sync := Sync.Step(s.sync, a)))
  {
  }

  lemma PollKeepsInv(s: State, a: Sync.Action)
    requires Inv(s) && (a.Crash? || a.Observe?)
    ensures Inv(s.(sync := Sync.Step(s.sync, a)))
  {
    Sync.StepKeepsInv(s.sync, a);
    PollKeepsLink(s, a);
    SyncReplaced(s, Sync.Step(s.sync, a));
  }

  lemma OrchActionKeepsInv(s: State, a: Action)
    requires Inv(s) && Allowed(s, a) && !a.SetStep? && !a.SyncStep? && !a.SyncCrash? && !a.SyncPoll?
    ensures Inv(Step(s, a))
  {
    match a
    case OrchStep(activity) => OrchStepKeepsInv(s, Orch.Next(activity));
    case OrchTick(now) => OrchStepKeepsInv(s, Orch.Tick(now));
    case OrchCrash => OrchStepKeepsInv(s, Orch.Crash);
    case Attempted(p) => OrchStepKeepsInv(s, Orch.Attempt(p));
    case Finished(p) => OrchStepKeepsInv(s, Orch.Finish(p, false));
    case Reported(r) => OrchStepKeepsInv(s, Orch.AppendResult(r));
  }

  lemma StepKeepsInv(s: State, a: Action)
    requires Inv(s)
    ensures Inv(Step(s, a))
  {
    if Allowed(s, a) {
      match a
      case SetStep(b) => SetStepKeepsInv(s, b);
      case SyncStep => SyncStepKeepsInv(s);
      case SyncCrash => PollKeepsInv(s, Sync.Crash);
      case SyncPoll => PollKeepsInv(s, Sync.Observe(s.dev.core.generation));
      case _ => OrchActionKeepsInv(s, a);
    }
  }

  lemma InitOk(nIn: nat, nOut: nat, generation: nat, setRetries: nat, policy: RetryPolicy)
    ensures Inv(Init(nIn, nOut, generation, setRetries, policy))
  {
    var s := Init(nIn, nOut, generation, setRetries, policy);
    Store.InvOverRuns(setRetries, []);
    Orch.InvOverRuns(policy, []);
    Status.StatusOverRuns(policy, []);
    Sync.InitOk(map[], map[], generation);
    assert s.store.log[..0] == [];
  }

  lemma {:induction false} InvOverRuns(nIn: nat, nOut: nat, generation: nat, setRetries: nat, policy: RetryPolicy,
                                       actions: seq<Action>)
    ensures Inv(Run(Init(nIn, nOut, generation, setRetries, policy), actions))
  {
    var s := Init(nIn, nOut, generation, setRetries, policy);
    if actions == [] {
      InitOk(nIn, nOut, generation, setRetries, policy);
    } else {
      InvOverRuns(nIn, nOut, generation, setRetries, policy, actions[..|actions| - 1]);
      StepKeepsInv(Run(s, actions[..|actions| - 1]), actions[|actions| - 1]);
    }
  }
}
