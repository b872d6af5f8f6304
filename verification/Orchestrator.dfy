/** The orchestrator: configuration events become device commands, device results and timeouts move
the connections' apply status, timed-out commands are retried.

One worker takes turns between three streams (configuration, results, retries). Each activity is a
sequence of durable writes guarded by markers; a crash between any two of them loses the program
counter and leaves the message pending. Configuration events, apply attempts and results are
appended by others at any time. */
module Orchestrator {
  import opened Ids
  import Runs
  import opened Connections
  import opened CommandIds
  import opened ConfigLog
  import opened StatusMachine
  import opened Backoff

  // ---------------------------------------------------------------- data

  /** The APPL_DB record of one connection. */
  datatype AppRec = AppRec(
    op: Operation, input: nat, output: nat, version: nat, status: Status, cmd: CmdId, attempt: nat)

  type AppDb = map<string, AppRec>

  datatype DevCmd = DevCmd(id: CmdId, version: nat, batch: seq<Command>)

  datatype Outcome = Success | Failure | TimedOut

  datatype ResultEv = ResultEv(cmd: CmdId, id: string, version: nat, outcome: Outcome)

  datatype RetryEv = RetryEv(failed: CmdId, attempt: nat, version: nat, batch: seq<Command>, notBefore: nat)

  /** What a timeout decided: which attempt comes next, if any, and when it is due. */
  datatype Meta = Meta(attempt: nat, status: Status, scheduled: bool, notBefore: nat)

  datatype Acks = Acks(config: nat, results: nat, retries: nat)

  /** Publication markers, by command. `retry` is keyed by the command that timed out. */
  datatype Marks = Marks(
    app: set<CmdId>, dev: set<CmdId>, cmd: set<CmdId>, retry: set<CmdId>,
    resultApp: set<(CmdId, string)>, resultDev: set<(CmdId, string)>)

  /** Timeout markers with their metadata, in APPL_DB and in DEVICE_DB. */
  datatype Timeouts = Timeouts(app: map<CmdId, Meta>, dev: map<CmdId, Meta>)

  /** What the sync daemon stores: the batch of every attempted command, and for every finished one
      whether its one durable result is a timeout, which takes an attempt. */
  datatype Applies = Applies(attempts: map<CmdId, seq<Command>>, late: map<CmdId, bool>)

  datatype Pc =
    | Idle
    | ConfigApp | ConfigDev | ConfigCommand | ConfigAck
    | ResultApp(next: Status) | TimeoutApp(meta: Meta) | TimeoutRetry(meta: Meta) | ResultAck
    | RetryDev | RetryPrepare | RetryCommand | RetryAck

  datatype State = State(
    log: seq<Event>,
    commands: seq<DevCmd>,
    results: seq<ResultEv>,
    retries: seq<RetryEv>,
    acks: Acks,
    marks: Marks,
    prepared: map<CmdId, seq<Command>>,
    app: AppDb,
    timeouts: Timeouts,
    applies: Applies,
    pc: Pc,
    threw: bool,
    clock: nat,
    policy: RetryPolicy)

  datatype Activity = Config | Results | Retries

  datatype Action =
    | AppendEvent(event: Event)
    | Attempt(p: nat)
    | Finish(p: nat, late: bool)
    | AppendResult(result: ResultEv)
    | Next(activity: Activity)
    | Tick(now: nat)
    | Crash

  // ---------------------------------------------------------------- versioned writes

  function VersionOf(app: AppDb, id: string): nat
  {
    if id in app then app[id].version else 0
  }

  function StatusOf(app: AppDb, id: string): Status
  {
    if id in app then app[id].status else Status.Absent
  }

  datatype Hash = Hash(id: string, rec: AppRec)

  /** All records whose stored version is not higher than `version`, replaced in one transaction. */
  function Put(app: AppDb, hashes: seq<Hash>, version: nat): AppDb
  {
    if hashes == [] then app
    else
      var before, h := Put(app, hashes[..|hashes| - 1], version), hashes[|hashes| - 1];
      if VersionOf(app, h.id) <= version then before[h.id := h.rec] else before
  }

  // ---------------------------------------------------------------- configuration events

  /** Some member is not newer than what is recorded for its connection. */
  predicate StaleBatch(app: AppDb, batch: seq<Command>)
  {
    exists c | c in batch :: c.version <= VersionOf(app, c.id)
  }

  /** The batch without removals of connections that were never recorded. */
  function Relevant(app: AppDb, batch: seq<Command>): seq<Command>
  {
    if batch == [] then []
    else
      var before, c := Relevant(app, batch[..|batch| - 1]), batch[|batch| - 1];
      if c.op.Remove? && c.id !in app then before else before + [c]
  }

  predicate StartThrows(app: AppDb, batch: seq<Command>)
  {
    exists c | c in batch :: StartApply(StatusOf(app, c.id), c.op).None?
  }

  function StartHash(app: AppDb, c: Command, cmd: CmdId): Hash
  {
    var status := StartApply(StatusOf(app, c.id), c.op);
    Hash(c.id, AppRec(c.op, c.input, c.output, c.version,
                      if status.Some? then status.value else Executing(c.op), cmd, 0))
  }

  function StartHashes(app: AppDb, batch: seq<Command>, cmd: CmdId): seq<Hash>
  {
    seq(|batch|, i requires 0 <= i < |batch| => StartHash(app, batch[i], cmd))
  }

  function ConfigBegin(s: State): State
    requires s.acks.config < |s.log|
  {
    var e, cmd := s.log[s.acks.config], ConfigCmd(s.acks.config);
    if cmd in s.marks.cmd then s.(pc := ConfigAck)
    else if cmd in s.prepared then s.(pc := ConfigApp)
    else if StaleBatch(s.app, e.commands) || Relevant(s.app, e.commands) == [] then s.(pc := ConfigAck)
    else s.(pc := ConfigApp, prepared := s.prepared[cmd := Relevant(s.app, e.commands)])
  }

  function ConfigAppStep(s: State): State
    requires s.acks.config < |s.log|
  {
    var e, cmd := s.log[s.acks.config], ConfigCmd(s.acks.config);
    if cmd !in s.prepared then s
    else if StartThrows(s.app, s.prepared[cmd]) then s.(pc := Idle, threw := true)
    else
      s.(pc := ConfigDev,
         app := if cmd in s.marks.app then s.app else Put(s.app, StartHashes(s.app, s.prepared[cmd], cmd), e.version),
         marks := s.marks.(app := s.marks.app + {cmd}))
  }

  /** Append the command unless its marker is there. */
  function Publish(s: State, cmd: CmdId, version: nat): State
  {
    if cmd in s.marks.cmd || cmd !in s.prepared then s
    else
      s.(commands := s.commands + [DevCmd(cmd, version, s.prepared[cmd])],
         marks := s.marks.(cmd := s.marks.cmd + {cmd}))
  }

  function ConfigStep(s: State): State
  {
    if s.acks.config >= |s.log| then s
    else
      var e, cmd := s.log[s.acks.config], ConfigCmd(s.acks.config);
      match s.pc
      case Idle => ConfigBegin(s)
      case ConfigApp => ConfigAppStep(s)
      case ConfigDev => s.(pc := ConfigCommand, marks := s.marks.(dev := s.marks.dev + {cmd}))
      case ConfigCommand => Publish(s, cmd, e.version).(pc := ConfigAck)
      case ConfigAck => s.(pc := Idle, acks := s.acks.(config := s.acks.config + 1))
      case _ => s
  }

  // ---------------------------------------------------------------- results

  predicate Terminal(status: Status)
  {
    status == Active || status == Status.Absent || status == Failed
  }

  function NextStatus(current: Status, outcome: Outcome): Status
  {
    if outcome.Success? then if current == Removing then Status.Absent else Active else Failed
  }

  function ResultBegin(s: State, r: ResultEv): State
  {
    var current := StatusOf(s.app, r.id);
    if (r.cmd, r.id) in s.marks.resultApp && (r.cmd, r.id) in s.marks.resultDev then s.(pc := ResultAck)
    else if r.id !in s.app then s.(pc := ResultAck)
    else if r.version < s.app[r.id].version then s.(pc := ResultAck)
    else if r.version == s.app[r.id].version && Terminal(current) then s.(pc := ResultAck)
    else if r.version > s.app[r.id].version then s.(pc := Idle, threw := true)
    else if !CanTransition(current, NextStatus(current, r.outcome)) then s.(pc := Idle, threw := true)
    else
      s.(pc := ResultApp(NextStatus(current, r.outcome)),
         marks := s.marks.(resultDev := s.marks.resultDev + {(r.cmd, r.id)}))
  }

  function Resolved(rec: AppRec, next: Status): AppRec
  {
    rec.(status := next, attempt := if next == Failed then rec.attempt else 0)
  }

  function ResultAppStep(s: State, r: ResultEv, next: Status): State
  {
    s.(pc := ResultAck,
       app := if (r.cmd, r.id) in s.marks.resultApp || r.id !in s.app then s.app
              else Put(s.app, [Hash(r.id, Resolved(s.app[r.id], next))], r.version),
       marks := s.marks.(resultApp := s.marks.resultApp + {(r.cmd, r.id)}))
  }

  // ---------------------------------------------------------------- timeouts

  predicate IsCurrent(app: AppDb, c: Command, cmd: CmdId)
  {
    c.id in app && app[c.id].version == c.version && app[c.id].cmd == cmd
  }

  predicate AllCurrent(app: AppDb, batch: seq<Command>, cmd: CmdId)
  {
    forall c | c in batch :: IsCurrent(app, c, cmd)
  }

  /** The metadata of a timeout: what a marker says, or a new decision; `None` if there is nothing to do. */
  function Decide(s: State, r: ResultEv, first: Command): Option<Meta>
  {
    if r.cmd in s.timeouts.app then Some(s.timeouts.app[r.cmd])
    else if r.cmd in s.timeouts.dev then Some(s.timeouts.dev[r.cmd])
    else if first.id !in s.app || s.app[first.id].version != r.version || s.app[first.id].cmd != r.cmd then None
    else if s.app[first.id].status != Applying && s.app[first.id].status != Removing then None
    else
      var done := s.app[first.id].attempt;
      if done < s.policy.maxRetries then Some(Meta(done + 1, RetryWait, true, DueAt(s.policy, s.clock, done + 1)))
      else Some(Meta(done, Failed, false, 0))
  }

  function TimeoutBegin(s: State, r: ResultEv): State
  {
    if r.cmd !in s.applies.attempts || s.applies.attempts[r.cmd] == [] then s.(pc := ResultAck)
    else
      var batch := s.applies.attempts[r.cmd];
      var meta := Decide(s, r, batch[0]);
      if meta.None? || !AllCurrent(s.app, batch, r.cmd) then s.(pc := ResultAck)
      else
        s.(pc := TimeoutApp(meta.value),
           timeouts := if r.cmd in s.timeouts.dev then s.timeouts
                       else s.timeouts.(dev := s.timeouts.dev[r.cmd := meta.value]))
  }

  function LateHash(app: AppDb, c: Command, meta: Meta): Hash
    requires c.id in app
  {
    Hash(c.id, app[c.id].(status := meta.status, attempt := meta.attempt))
  }

  function LateHashes(app: AppDb, batch: seq<Command>, meta: Meta): seq<Hash>
    requires forall c | c in batch :: c.id in app
  {
    seq(|batch|, i requires 0 <= i < |batch| => LateHash(app, batch[i], meta))
  }

  function TimeoutAppStep(s: State, r: ResultEv, meta: Meta): State
  {
    if r.cmd !in s.applies.attempts || !AllCurrent(s.app, s.applies.attempts[r.cmd], r.cmd) then s
    else
      s.(pc := TimeoutRetry(meta),
         app := if r.cmd in s.timeouts.app then s.app
                else Put(s.app, LateHashes(s.app, s.applies.attempts[r.cmd], meta), r.version),
         timeouts := if r.cmd in s.timeouts.app then s.timeouts
                     else s.timeouts.(app := s.timeouts.app[r.cmd := meta]))
  }

  function TimeoutRetryStep(s: State, r: ResultEv, meta: Meta): State
  {
    if !meta.scheduled || r.cmd in s.marks.retry || r.cmd !in s.applies.attempts then s.(pc := ResultAck)
    else
      s.(pc := ResultAck,
         retries := s.retries + [RetryEv(r.cmd, meta.attempt, r.version, s.applies.attempts[r.cmd], meta.notBefore)],
         marks := s.marks.(retry := s.marks.retry + {r.cmd}))
  }

  function ResultStep(s: State): State
  {
    if s.acks.results >= |s.results| then s
    else
      var r := s.results[s.acks.results];
      match s.pc
      case Idle => if r.outcome.TimedOut? then TimeoutBegin(s, r) else ResultBegin(s, r)
      case ResultApp(next) => ResultAppStep(s, r, next)
      case TimeoutApp(meta) => TimeoutAppStep(s, r, meta)
      case TimeoutRetry(meta) => TimeoutRetryStep(s, r, meta)
      case ResultAck => s.(pc := Idle, acks := s.acks.(results := s.acks.results + 1))
      case _ => s
  }

  // ---------------------------------------------------------------- retries

  predicate MayRetry(app: AppDb, c: Command, r: RetryEv, started: bool)
  {
    && c.id in app && app[c.id].version == c.version
    && (app[c.id].cmd == r.failed || (started && app[c.id].cmd == RetryCmd(r.failed, r.attempt)))
    && (started || app[c.id].status == RetryWait)
  }

  predicate AllMayRetry(app: AppDb, r: RetryEv, started: bool)
  {
    forall c | c in r.batch :: MayRetry(app, c, r, started)
  }

  function RetryHash(app: AppDb, c: Command, r: RetryEv, started: bool): Hash
    requires c.id in app
  {
    Hash(c.id, app[c.id].(status := if started then app[c.id].status else Executing(c.op),
                          cmd := RetryCmd(r.failed, r.attempt), attempt := r.attempt))
  }

  function RetryHashes(app: AppDb, r: RetryEv, started: bool): seq<Hash>
    requires forall c | c in r.batch :: c.id in app
  {
    seq(|r.batch|, i requires 0 <= i < |r.batch| => RetryHash(app, r.batch[i], r, started))
  }

  /** Executing may follow RETRY_WAIT, whichever operation it is: `requireTransition` never throws here. */
  function RetryBegin(s: State, r: RetryEv): State
  {
    var cmd := RetryCmd(r.failed, r.attempt);
    var started := cmd in s.marks.app || cmd in s.marks.dev;
    if cmd in s.marks.cmd then s.(pc := RetryAck)
    else if !AllMayRetry(s.app, r, started) then s.(pc := RetryAck)
    else
      s.(pc := RetryDev,
         app := if cmd in s.marks.app then s.app else Put(s.app, RetryHashes(s.app, r, started), r.version),
         marks := s.marks.(app := s.marks.app + {cmd}))
  }

  function RetryStep(s: State): State
  {
    if s.acks.retries >= |s.retries| then s
    else
      var r := s.retries[s.acks.retries];
      var cmd := RetryCmd(r.failed, r.attempt);
      match s.pc
      case Idle => if s.clock < r.notBefore then s else RetryBegin(s, r)
      case RetryDev => s.(pc := RetryPrepare, marks := s.marks.(dev := s.marks.dev + {cmd}))
      case RetryPrepare =>
        s.(pc := RetryCommand, prepared := if cmd in s.prepared then s.prepared else s.prepared[cmd := r.batch])
      case RetryCommand => Publish(s, cmd, r.version).(pc := RetryAck)
      case RetryAck => s.(pc := Idle, acks := s.acks.(retries := s.acks.retries + 1))
      case _ => s
  }

  // ---------------------------------------------------------------- the machine

  /** The activity that goes on with the current program counter. */
  function ActivityOf(pc: Pc, pick: Activity): Activity
  {
    match pc
    case Idle => pick
    case ConfigApp => Config
    case ConfigDev => Config
    case ConfigCommand => Config
    case ConfigAck => Config
    case ResultApp(_) => Results
    case TimeoutApp(_) => Results
    case TimeoutRetry(_) => Results
    case ResultAck => Results
    case _ => Retries
  }

  /** A batch event as the decoder accepts it. */
  ghost predicate BatchEvent(e: Event)
  {
    e.version >= 1 && DistinctIds(e.commands) && forall c | c in e.commands :: c.version == e.version
  }

  /** A result of a published command that has its durable result. */
  predicate ResultAdmitted(s: State, r: ResultEv)
  {
    && r.cmd in s.marks.cmd && r.cmd in s.prepared && r.cmd in s.applies.late
    && (r.outcome.TimedOut? <==> s.applies.late[r.cmd])
    && exists c | c in s.prepared[r.cmd] :: c.id == r.id && c.version == r.version
  }

  ghost function Step(s: State, a: Action): State
  {
    match a
    case AppendEvent(e) => if BatchEvent(e) then s.(log := s.log + [e]) else s
    case Attempt(p) =>
      if p < |s.commands| then
        s.(applies := s.applies.(attempts := s.applies.attempts[s.commands[p].id := s.commands[p].batch]))
      else s
    case Finish(p, late) =>
      if && p < |s.commands| && s.commands[p].id !in s.applies.late
         && (late ==> s.commands[p].id in s.applies.attempts) then
        s.(applies := s.applies.(late := s.applies.late[s.commands[p].id := late]))
      else s
    case AppendResult(r) => if ResultAdmitted(s, r) then s.(results := s.results + [r]) else s
    case Next(pick) =>
      (match ActivityOf(s.pc, pick)
       case Config => ConfigStep(s)
       case Results => ResultStep(s)
       case Retries => RetryStep(s))
    case Tick(now) => s.(clock := now)
    case Crash => s.(pc := Idle)
  }

  ghost function Run(s: State, actions: seq<Action>): State
  {
    if actions == [] then s else Step(Run(s, actions[..|actions| - 1]), actions[|actions| - 1])
  }

  function Init(policy: RetryPolicy): State
  {
    State([], [], [], [], Acks(0, 0, 0), Marks({}, {}, {}, {}, {}, {}), map[], map[], Timeouts(map[], map[]),
          Applies(map[], map[]), Idle, false, 0, policy)
  }

  // ---------------------------------------------------------------- invariant

  predicate InExecution(status: Status)
  {
    status == Applying || status == Removing
  }

  ghost predicate Written(app: AppDb, batch: seq<Command>)
  {
    forall c | c in batch :: c.id in app && app[c.id].version >= c.version
  }

  /** A prepared batch carries out its configuration event under that event's version. */
  ghost predicate BatchOk(s: State, c: CmdId, batch: seq<Command>)
  {
    && Numbered(c) && Depth(c) <= s.policy.maxRetries && Root(c) < |s.log|
    && DistinctIds(batch) && forall m | m in batch :: m.version == s.log[Root(c)].version
  }

  /** A retry repeats the batch of the command that timed out. */
  ghost predicate SameBatch(prepared: map<CmdId, seq<Command>>, c: CmdId)
    requires c in prepared
  {
    c.RetryCmd? ==> c.failed in prepared && prepared[c] == prepared[c.failed]
  }

  ghost predicate PreparedOk(s: State)
  {
    forall c | c in s.prepared :: BatchOk(s, c, s.prepared[c]) && SameBatch(s.prepared, c)
  }

  ghost predicate CmdsOk(s: State)
  {
    forall c | c in s.marks.cmd :: c in s.prepared && c in s.marks.app && Written(s.app, s.prepared[c])
  }

  /** Started commands: a configuration command was prepared, a retry follows a handled timeout. */
  ghost predicate StartedOk(s: State, c: CmdId)
  {
    match c
    case ConfigCmd(_) => c in s.prepared && Written(s.app, s.prepared[c])
    case RetryCmd(f, attempt) =>
      attempt == Depth(f) + 1 <= s.policy.maxRetries && f in s.marks.cmd && f in s.timeouts.app
  }

  ghost predicate MarksOk(s: State)
  {
    s.marks.dev <= s.marks.app && forall c | c in s.marks.app :: StartedOk(s, c)
  }

  ghost predicate RecOk(s: State, rec: AppRec)
  {
    && Numbered(rec.cmd) && Depth(rec.cmd) <= s.policy.maxRetries && Root(rec.cmd) < |s.log|
    && rec.cmd in s.marks.app && rec.version == s.log[Root(rec.cmd)].version
    && (InExecution(rec.status) ==> rec.attempt == Depth(rec.cmd))
  }

  ghost predicate AppOk(s: State)
  {
    forall id | id in s.app :: RecOk(s, s.app[id])
  }

  ghost predicate EntryOk(s: State, e: DevCmd)
  {
    && e.id in s.marks.cmd && e.id in s.prepared && e.batch == s.prepared[e.id]
    && Root(e.id) < |s.log| && e.version == s.log[Root(e.id)].version
  }

  ghost predicate StreamOk(s: State)
  {
    forall p | 0 <= p < |s.commands| :: EntryOk(s, s.commands[p])
  }

  ghost predicate RetryOk(s: State, r: RetryEv)
  {
    && r.failed in s.marks.cmd && r.failed in s.prepared && r.batch == s.prepared[r.failed]
    && r.attempt == Depth(r.failed) + 1 <= s.policy.maxRetries
    && Root(r.failed) < |s.log| && r.version == s.log[Root(r.failed)].version
    && r.failed in s.timeouts.app && s.timeouts.app[r.failed] == Meta(r.attempt, RetryWait, true, r.notBefore)
  }

  ghost predicate RetriesOk(s: State)
  {
    forall q | 0 <= q < |s.retries| :: RetryOk(s, s.retries[q])
  }

  ghost predicate MetaOk(s: State, c: CmdId, m: Meta)
  {
    && c in s.marks.cmd && c in s.applies.late && s.applies.late[c]
    && (m.scheduled ==> m.attempt == Depth(c) + 1 <= s.policy.maxRetries && m.status == RetryWait)
    && (!m.scheduled ==> m.attempt == Depth(c) == s.policy.maxRetries && m.status == Failed)
  }

  ghost predicate TimeoutsOk(s: State)
  {
    && (forall c | c in s.timeouts.app :: c in s.timeouts.dev && s.timeouts.app[c] == s.timeouts.dev[c])
    && (forall c | c in s.timeouts.dev :: MetaOk(s, c, s.timeouts.dev[c]))
  }

  ghost predicate AppliesOk(s: State)
  {
    && (forall c | c in s.applies.attempts ::
          c in s.marks.cmd && c in s.prepared && s.applies.attempts[c] == s.prepared[c])
    && s.applies.late.Keys <= s.marks.cmd
    && forall c | c in s.applies.late && s.applies.late[c] :: c in s.applies.attempts
  }

  ghost predicate ResultOk(s: State, r: ResultEv)
  {
    && r.cmd in s.marks.cmd && r.cmd in s.prepared && r.cmd in s.applies.late
    && (r.outcome.TimedOut? <==> s.applies.late[r.cmd])
    && Root(r.cmd) < |s.log| && r.version == s.log[Root(r.cmd)].version
    && (exists c :: c in s.prepared[r.cmd] && c.id == r.id && c.version == r.version)
  }

  ghost predicate ResultsOk(s: State)
  {
    forall p | 0 <= p < |s.results| :: ResultOk(s, s.results[p])
  }

  function CommandsFor(es: seq<DevCmd>, c: CmdId): nat
  {
    if es == [] then 0 else CommandsFor(es[..|es| - 1], c) + if es[|es| - 1].id == c then 1 else 0
  }

  function RetriesFor(es: seq<RetryEv>, c: CmdId): nat
  {
    if es == [] then 0 else RetriesFor(es[..|es| - 1], c) + if es[|es| - 1].failed == c then 1 else 0
  }

  ghost predicate OnceOk(s: State)
  {
    && (forall c :: CommandsFor(s.commands, c) == if c in s.marks.cmd then 1 else 0)
    && (forall c :: RetriesFor(s.retries, c) == if c in s.marks.retry then 1 else 0)
  }

  /** Wherever both batches name a connection, the second has the higher version. */
  ghost predicate Newer(older: seq<Command>, newer: seq<Command>)
  {
    forall a, b | a in older && b in newer && a.id == b.id :: a.version < b.version
  }

  /** Configuration events are taken in order; each prepared batch is newer than all earlier ones. */
  ghost predicate ConfigOk(s: State)
  {
    && s.acks.config <= |s.log|
    && (forall i | 0 <= i < |s.log| :: BatchEvent(s.log[i]))
    && (forall c | c in s.prepared && c.ConfigCmd? :: c.event <= s.acks.config)
    && (forall p, q | 0 <= p < q < |s.commands| && s.commands[p].id.ConfigCmd? && s.commands[q].id.ConfigCmd? ::
          Newer(s.commands[p].batch, s.commands[q].batch))
    && (ConfigCmd(s.acks.config) in s.prepared && ConfigCmd(s.acks.config) !in s.marks.cmd ==>
          forall p | 0 <= p < |s.commands| && s.commands[p].id.ConfigCmd? ::
            Newer(s.commands[p].batch, s.prepared[ConfigCmd(s.acks.config)]))
  }

  ghost predicate PcOk(s: State)
  {
    match ActivityOf(s.pc, Config)
    case Config => s.pc.Idle? || ConfigPcOk(s)
    case Results => s.acks.results < |s.results| && ResultPcOk(s, s.results[s.acks.results])
    case Retries => s.acks.retries < |s.retries| && RetryPcOk(s, s.retries[s.acks.retries])
  }

  ghost predicate ConfigPcOk(s: State)
  {
    && s.acks.config < |s.log|
    && (s.pc.ConfigApp? ==> ConfigCmd(s.acks.config) in s.prepared)
    && (s.pc.ConfigDev? || s.pc.ConfigCommand? ==>
          ConfigCmd(s.acks.config) in s.prepared && ConfigCmd(s.acks.config) in s.marks.app)
  }

  ghost predicate ResultPcOk(s: State, r: ResultEv)
  {
    match s.pc
    case ResultApp(next) =>
      !r.outcome.TimedOut? && r.id in s.app && s.app[r.id].version == r.version && !InExecution(next)
    case TimeoutApp(meta) =>
      && r.outcome.TimedOut? && r.cmd in s.timeouts.dev && s.timeouts.dev[r.cmd] == meta
      && r.cmd in s.applies.attempts && AllCurrent(s.app, s.applies.attempts[r.cmd], r.cmd)
    case TimeoutRetry(meta) =>
      r.outcome.TimedOut? && r.cmd in s.timeouts.app && s.timeouts.app[r.cmd] == meta && r.cmd in s.applies.attempts
    case _ => true
  }

  ghost predicate RetryPcOk(s: State, r: RetryEv)
  {
    var cmd := RetryCmd(r.failed, r.attempt);
    && (s.pc.RetryDev? || s.pc.RetryPrepare? || s.pc.RetryCommand? ==> cmd in s.marks.app)
    && (s.pc.RetryCommand? ==> cmd in s.prepared && s.prepared[cmd] == r.batch)
  }

  ghost predicate Inv(s: State)
  {
    Core(s) && Rest(s)
  }

  ghost predicate Rest(s: State)
  {
    OnceOk(s) && ConfigOk(s) && PcOk(s)
  }

  ghost predicate Core(s: State)
  {
    && PreparedOk(s) && CmdsOk(s) && MarksOk(s) && AppOk(s) && StreamOk(s) && RetriesOk(s)
    && TimeoutsOk(s) && AppliesOk(s) && ResultsOk(s)
  }

  // ---------------------------------------------------------------- what only grows

  /** No record disappears and no version goes down. */
  ghost predicate Grows(a: AppDb, b: AppDb)
  {
    forall id | id in a :: id in b && a[id].version <= b[id].version
  }

  ghost predicate MapGrows<T>(a: map<CmdId, T>, b: map<CmdId, T>)
  {
    forall c | c in a :: c in b && b[c] == a[c]
  }

  ghost predicate Extends(s: State, t: State)
  {
    && |s.log| <= |t.log| && (forall i | 0 <= i < |s.log| :: t.log[i] == s.log[i])
    && MapGrows(s.prepared, t.prepared) && Grows(s.app, t.app)
    && s.marks.app <= t.marks.app && s.marks.cmd <= t.marks.cmd
    && MapGrows(s.timeouts.app, t.timeouts.app) && MapGrows(s.timeouts.dev, t.timeouts.dev)
    && MapGrows(s.applies.late, t.applies.late)
    && t.policy == s.policy
  }

  lemma WrittenGrows(a: AppDb, b: AppDb, batch: seq<Command>)
    requires Written(a, batch) && Grows(a, b)
    ensures Written(b, batch)
  {
  }

  lemma PreparedKept(s: State, t: State)
    requires PreparedOk(s) && Extends(s, t)
    ensures forall c | c in s.prepared :: BatchOk(t, c, t.prepared[c]) && SameBatch(t.prepared, c)
  {
  }

  lemma CmdsKept(s: State, t: State)
    requires CmdsOk(s) && Extends(s, t)
    ensures forall c | c in s.marks.cmd :: c in t.prepared && c in t.marks.app && Written(t.app, t.prepared[c])
  {
    forall c | c in s.marks.cmd ensures Written(t.app, t.prepared[c]) { WrittenGrows(s.app, t.app, s.prepared[c]); }
  }

  lemma MarksKept(s: State, t: State)
    requires MarksOk(s) && Extends(s, t)
    ensures forall c | c in s.marks.app :: StartedOk(t, c)
  {
    forall c | c in s.marks.app ensures StartedOk(t, c) {
      if c.ConfigCmd? { WrittenGrows(s.app, t.app, s.prepared[c]); }
    }
  }

  lemma RecKept(s: State, t: State, rec: AppRec)
    requires RecOk(s, rec) && Extends(s, t)
    ensures RecOk(t, rec)
  {
  }

  lemma StreamsKept(s: State, t: State)
    requires Extends(s, t)
    ensures forall e | EntryOk(s, e) :: EntryOk(t, e)
    ensures forall r | RetryOk(s, r) :: RetryOk(t, r)
    ensures forall r | ResultOk(s, r) :: ResultOk(t, r)
    ensures forall c, m | MetaOk(s, c, m) :: MetaOk(t, c, m)
  {
  }

  /** What a step adds is in order. */
  ghost predicate NewMarksOk(s: State, t: State)
  {
    && (forall c | c in t.prepared && c !in s.prepared :: BatchOk(t, c, t.prepared[c]) && SameBatch(t.prepared, c))
    && (forall c | c in t.marks.cmd && c !in s.marks.cmd ::
          c in t.prepared && c in t.marks.app && Written(t.app, t.prepared[c]))
    && t.marks.dev <= t.marks.app
    && (forall c | c in t.marks.app && c !in s.marks.app :: StartedOk(t, c))
  }

  ghost predicate NewRecordsOk(s: State, t: State)
  {
    && (forall id | id in t.app :: (id in s.app && t.app[id] == s.app[id]) || RecOk(t, t.app[id]))
    && (forall p | 0 <= p < |t.commands| ::
          (p < |s.commands| && t.commands[p] == s.commands[p]) || EntryOk(t, t.commands[p]))
    && (forall p | 0 <= p < |t.retries| ::
          (p < |s.retries| && t.retries[p] == s.retries[p]) || RetryOk(t, t.retries[p]))
    && (forall p | 0 <= p < |t.results| ::
          (p < |s.results| && t.results[p] == s.results[p]) || ResultOk(t, t.results[p]))
  }

  lemma CoreKept(s: State, t: State)
    requires Core(s) && Extends(s, t) && NewMarksOk(s, t) && NewRecordsOk(s, t)
    requires TimeoutsOk(t) && AppliesOk(t)
    ensures Core(t)
  {
    PreparedKept(s, t);
    CmdsKept(s, t);
    MarksKept(s, t);
    StreamsKept(s, t);
    forall id | id in t.app ensures RecOk(t, t.app[id]) {
      if id in s.app && t.app[id] == s.app[id] { RecKept(s, t, s.app[id]); }
    }
  }

  /** The case in which neither attempts, durable results nor timeouts change. */
  lemma CoreKeptQuiet(s: State, t: State)
    requires Core(s) && Extends(s, t) && NewMarksOk(s, t) && NewRecordsOk(s, t)
    requires t.timeouts == s.timeouts && t.applies == s.applies
    ensures Core(t)
  {
    AppliesKept(s, t);
    TimeoutsKept(s, t);
    CoreKept(s, t);
  }

  lemma AppliesKept(s: State, t: State)
    requires AppliesOk(s) && t.applies == s.applies && MapGrows(s.prepared, t.prepared) && s.marks.cmd <= t.marks.cmd
    ensures AppliesOk(t)
  {
  }

  lemma TimeoutsKept(s: State, t: State)
    requires TimeoutsOk(s) && t.timeouts == s.timeouts && t.applies == s.applies && t.policy == s.policy
    requires s.marks.cmd <= t.marks.cmd
    ensures TimeoutsOk(t)
  {
    assert forall c, m | MetaOk(s, c, m) :: MetaOk(t, c, m);
  }

  // ---------------------------------------------------------------- versioned writes

  lemma {:induction false} PutCases(app: AppDb, hs: seq<Hash>, v: nat, id: string)
    requires id in Put(app, hs, v)
    ensures || (id in app && Put(app, hs, v)[id] == app[id])
            || (exists i :: 0 <= i < |hs| && hs[i].id == id && Put(app, hs, v)[id] == hs[i].rec)
  {
    if hs != [] {
      var n := |hs| - 1;
      if VersionOf(app, hs[n].id) <= v && hs[n].id == id {
        assert Put(app, hs, v)[id] == hs[n].rec;
      } else {
        PutCases(app, hs[..n], v, id);
        if !(id in app && Put(app, hs, v)[id] == app[id]) {
          var i :| 0 <= i < n && hs[..n][i].id == id && Put(app, hs[..n], v)[id] == hs[..n][i].rec;
          assert hs[i] == hs[..n][i];
        }
      }
    }
  }

  /** A versioned write never lowers a version, and afterwards every named record is at least as new. */
  lemma {:induction false} PutGrows(app: AppDb, hs: seq<Hash>, v: nat)
    requires forall i | 0 <= i < |hs| :: hs[i].rec.version == v
    ensures Grows(app, Put(app, hs, v))
    ensures forall i | 0 <= i < |hs| :: hs[i].id in Put(app, hs, v) && Put(app, hs, v)[hs[i].id].version >= v
  {
    if hs != [] {
      var n := |hs| - 1;
      var before, after := Put(app, hs[..n], v), Put(app, hs, v);
      PutGrows(app, hs[..n], v);
      forall i | 0 <= i < |hs| ensures hs[i].id in after && after[hs[i].id].version >= v {
        if i < n { assert hs[..n][i] == hs[i]; }
      }
    }
  }

  /** With distinct ids every record not fenced off is replaced, and nothing else changes. */
  lemma {:induction false} PutExact(app: AppDb, hs: seq<Hash>, v: nat)
    requires forall i, j | 0 <= i < j < |hs| :: hs[i].id != hs[j].id
    requires forall i | 0 <= i < |hs| :: VersionOf(app, hs[i].id) <= v
    ensures forall i | 0 <= i < |hs| :: hs[i].id in Put(app, hs, v) && Put(app, hs, v)[hs[i].id] == hs[i].rec
    ensures forall id | (forall i | 0 <= i < |hs| :: hs[i].id != id) ::
      (id in Put(app, hs, v) <==> id in app) && (id in app ==> Put(app, hs, v)[id] == app[id])
  {
    if hs != [] {
      var n := |hs| - 1;
      PutExact(app, hs[..n], v);
      var after := Put(app, hs, v);
      forall i | 0 <= i < |hs| ensures hs[i].id in after && after[hs[i].id] == hs[i].rec {
        if i < n { assert hs[..n][i] == hs[i]; }
      }
      forall id | forall i | 0 <= i < |hs| :: hs[i].id != id
        ensures (id in after <==> id in app) && (id in app ==> after[id] == app[id])
      {
        assert forall i | 0 <= i < n :: hs[..n][i].id != id;
      }
    }
  }

  // ---------------------------------------------------------------- configuration steps

  lemma {:induction false} RelevantIn(app: AppDb, batch: seq<Command>)
    requires DistinctIds(batch)
    ensures forall c | c in Relevant(app, batch) :: c in batch
    ensures DistinctIds(Relevant(app, batch))
  {
    if batch != [] {
      var n := |batch| - 1;
      RelevantIn(app, batch[..n]);
      assert batch == batch[..n] + [batch[n]];
      var before := Relevant(app, batch[..n]);
      assert forall i | 0 <= i < |before| :: before[i] in before && before[i] in batch[..n];
      assert forall c | c in batch[..n] :: c.id != batch[n].id;
    }
  }

  /** A batch that is not stale is newer than everything published before. */
  lemma FreshBatchIsNewer(s: State, batch: seq<Command>)
    requires CmdsOk(s) && StreamOk(s) && forall c | c in batch :: c.version > VersionOf(s.app, c.id)
    ensures forall p | 0 <= p < |s.commands| :: Newer(s.commands[p].batch, batch)
  {
    forall p | 0 <= p < |s.commands| ensures Newer(s.commands[p].batch, batch) {
      assert EntryOk(s, s.commands[p]);
      assert Written(s.app, s.commands[p].batch);
    }
  }

  /** Program counter, acknowledgements and the markers in DEVICE_DB carry no further obligations. */
  lemma CoreSame(s: State, t: State)
    requires Core(s) && t.marks.dev <= t.marks.app
    requires t.log == s.log && t.commands == s.commands && t.results == s.results && t.retries == s.retries
    requires t.prepared == s.prepared && t.app == s.app && t.timeouts == s.timeouts && t.applies == s.applies
    requires t.marks.app == s.marks.app && t.marks.cmd == s.marks.cmd && t.policy == s.policy
    ensures Core(t)
  {
    CoreKeptQuiet(s, t);
  }

  /** Nothing published, prepared or scheduled: the counts and the order stay as they are. */
  lemma RestSame(s: State, t: State)
    requires OnceOk(s) && ConfigOk(s)
    requires t.log == s.log && t.commands == s.commands && t.retries == s.retries && t.prepared == s.prepared
    requires t.marks.cmd == s.marks.cmd && t.marks.retry == s.marks.retry && t.acks.config == s.acks.config
    ensures OnceOk(t) && ConfigOk(t)
  {
  }

  lemma PrepareKeepsCore(s: State, batch: seq<Command>, t: State)
    requires Core(s) && s.acks.config < |s.log| && BatchEvent(s.log[s.acks.config])
    requires ConfigCmd(s.acks.config) !in s.prepared && batch == Relevant(s.app, s.log[s.acks.config].commands)
    requires t == s.(prepared := s.prepared[ConfigCmd(s.acks.config) := batch])
    ensures Core(t)
  {
    RelevantIn(s.app, s.log[s.acks.config].commands);
    assert BatchOk(t, ConfigCmd(s.acks.config), batch);
    CoreKept(s, t);
  }

  lemma PrepareKeepsRest(s: State, batch: seq<Command>, t: State)
    requires OnceOk(s) && ConfigOk(s) && s.acks.config < |s.log|
    requires ConfigCmd(s.acks.config) !in s.prepared
    requires forall p | 0 <= p < |s.commands| :: Newer(s.commands[p].batch, batch)
    requires t == s.(pc := ConfigApp, prepared := s.prepared[ConfigCmd(s.acks.config) := batch])
    ensures Rest(t)
  {
  }

  lemma NotStale(s: State, batch: seq<Command>)
    requires CmdsOk(s) && StreamOk(s) && DistinctIds(batch) && !StaleBatch(s.app, batch)
    ensures forall p | 0 <= p < |s.commands| :: Newer(s.commands[p].batch, Relevant(s.app, batch))
  {
    RelevantIn(s.app, batch);
    FreshBatchIsNewer(s, Relevant(s.app, batch));
  }

  predicate Prepares(s: State)
    requires s.acks.config < |s.log|
  {
    var cmd, e := ConfigCmd(s.acks.config), s.log[s.acks.config];
    cmd !in s.marks.cmd && cmd !in s.prepared && !StaleBatch(s.app, e.commands) && Relevant(s.app, e.commands) != []
  }

  lemma ConfigBeginKeepsCore(s: State)
    requires Core(s) && s.pc.Idle? && s.acks.config < |s.log| && BatchEvent(s.log[s.acks.config])
    ensures Core(ConfigBegin(s))
  {
    var t := ConfigBegin(s);
    if Prepares(s) {
      var u := s.(prepared := t.prepared);
      PrepareKeepsCore(s, Relevant(s.app, s.log[s.acks.config].commands), u);
      CoreSame(u, t);
    } else {
      CoreSame(s, t);
    }
  }

  lemma ConfigBeginKeepsRest(s: State)
    requires CmdsOk(s) && StreamOk(s) && Rest(s) && s.pc.Idle? && s.acks.config < |s.log|
    ensures Rest(ConfigBegin(s))
  {
    var t, e := ConfigBegin(s), s.log[s.acks.config];
    if Prepares(s) {
      NotStale(s, e.commands);
      PrepareKeepsRest(s, Relevant(s.app, e.commands), t);
    } else {
      RestSame(s, t);
    }
  }

  lemma StartRecOk(s: State, t: State, i: nat, c: Command)
    requires i < |s.log| && t.log == s.log && ConfigCmd(i) in t.marks.app && c.version == s.log[i].version
    ensures RecOk(t, StartHash(s.app, c, ConfigCmd(i)).rec)
  {
  }

  lemma ConfigPutOk(s: State, batch: seq<Command>)
    requires s.acks.config < |s.log| && BatchOk(s, ConfigCmd(s.acks.config), batch)
    ensures var cmd := ConfigCmd(s.acks.config);
      var app := Put(s.app, StartHashes(s.app, batch, cmd), s.log[s.acks.config].version);
      var t := s.(app := app, marks := s.marks.(app := s.marks.app + {cmd}));
      && Grows(s.app, app) && Written(app, batch)
      && forall id | id in app :: (id in s.app && app[id] == s.app[id]) || RecOk(t, app[id])
  {
    var cmd, v := ConfigCmd(s.acks.config), s.log[s.acks.config].version;
    var hs := StartHashes(s.app, batch, cmd);
    var app := Put(s.app, hs, v);
    var t := s.(app := app, marks := s.marks.(app := s.marks.app + {cmd}));
    assert forall i | 0 <= i < |hs| :: hs[i] == StartHash(s.app, batch[i], cmd) && batch[i] in batch;
    PutGrows(s.app, hs, v);
    forall id | id in app && !(id in s.app && app[id] == s.app[id]) ensures RecOk(t, app[id]) {
      PutCases(s.app, hs, v, id);
      var i :| 0 <= i < |hs| && hs[i].id == id && app[id] == hs[i].rec;
      StartRecOk(s, t, s.acks.config, batch[i]);
    }
  }

  lemma ConfigWriteKeepsCore(s: State, t: State)
    requires Core(s) && s.acks.config < |s.log| && ConfigCmd(s.acks.config) in s.prepared
    requires var cmd := ConfigCmd(s.acks.config);
      t == s.(app := Put(s.app, StartHashes(s.app, s.prepared[cmd], cmd), s.log[s.acks.config].version),
              marks := s.marks.(app := s.marks.app + {cmd}))
    ensures Core(t)
  {
    ConfigPutOk(s, s.prepared[ConfigCmd(s.acks.config)]);
    CoreKept(s, t);
  }

  lemma ConfigAppKeepsCore(s: State)
    requires Core(s) && s.acks.config < |s.log| && ConfigCmd(s.acks.config) in s.prepared
    ensures Core(ConfigAppStep(s))
  {
    var t, cmd := ConfigAppStep(s), ConfigCmd(s.acks.config);
    if StartThrows(s.app, s.prepared[cmd]) {
      CoreSame(s, t);
    } else if cmd in s.marks.app {
      assert s.marks.app + {cmd} == s.marks.app;
      CoreSame(s, t);
    } else {
      var u := s.(app := t.app, marks := t.marks);
      ConfigWriteKeepsCore(s, u);
      CoreSame(u, t);
    }
  }

  lemma CommandsGrow(es: seq<DevCmd>, e: DevCmd, c: CmdId)
    ensures CommandsFor(es + [e], c) == CommandsFor(es, c) + if e.id == c then 1 else 0
  {
    assert (es + [e])[..|es|] == es;
  }

  lemma PublishKeepsCore(s: State, cmd: CmdId, version: nat)
    requires Core(s) && cmd in s.prepared && cmd in s.marks.app && Written(s.app, s.prepared[cmd])
    requires version == s.log[Root(cmd)].version
    ensures Core(Publish(s, cmd, version))
  {
    var t := Publish(s, cmd, version);
    if cmd !in s.marks.cmd { CoreKeptQuiet(s, t); }
  }

  lemma PublishKeepsOnce(s: State, cmd: CmdId, version: nat)
    requires OnceOk(s) && cmd in s.prepared
    ensures OnceOk(Publish(s, cmd, version))
  {
    var t := Publish(s, cmd, version);
    if cmd !in s.marks.cmd {
      forall c ensures CommandsFor(t.commands, c) == if c in t.marks.cmd then 1 else 0 {
        CommandsGrow(s.commands, DevCmd(cmd, version, s.prepared[cmd]), c);
      }
    }
  }

  lemma PublishKeepsOrder(s: State, cmd: CmdId, version: nat)
    requires ConfigOk(s) && (cmd.ConfigCmd? ==> cmd.event == s.acks.config)
    ensures ConfigOk(Publish(s, cmd, version))
  {
  }

  lemma ConfigStepKeepsCore(s: State)
    requires Inv(s) && s.acks.config < |s.log| && (s.pc.Idle? || ActivityOf(s.pc, Results).Config?)
    ensures Core(ConfigStep(s))
  {
    var cmd := ConfigCmd(s.acks.config);
    match s.pc
    case Idle => ConfigBeginKeepsCore(s);
    case ConfigApp => ConfigAppKeepsCore(s);
    case ConfigDev => CoreSame(s, ConfigStep(s));
    case ConfigCommand =>
      assert StartedOk(s, cmd);
      PublishKeepsCore(s, cmd, s.log[s.acks.config].version);
      CoreSame(Publish(s, cmd, s.log[s.acks.config].version), ConfigStep(s));
    case ConfigAck => CoreSame(s, ConfigStep(s));
  }

  lemma ConfigStepKeepsRest(s: State)
    requires CmdsOk(s) && StreamOk(s) && Rest(s)
    requires s.acks.config < |s.log| && (s.pc.Idle? || ActivityOf(s.pc, Results).Config?)
    ensures Rest(ConfigStep(s))
  {
    var cmd := ConfigCmd(s.acks.config);
    match s.pc
    case Idle => ConfigBeginKeepsRest(s);
    case ConfigApp => RestSame(s, ConfigStep(s));
    case ConfigDev => RestSame(s, ConfigStep(s));
    case ConfigCommand =>
      PublishKeepsOnce(s, cmd, s.log[s.acks.config].version);
      PublishKeepsOrder(s, cmd, s.log[s.acks.config].version);
      RestSame(Publish(s, cmd, s.log[s.acks.config].version), ConfigStep(s));
    case ConfigAck =>
  }

  // ---------------------------------------------------------------- result steps

  lemma ResultWriteOk(s: State, id: string, next: Status, v: nat)
    requires AppOk(s) && id in s.app && s.app[id].version == v && !InExecution(next)
    ensures var app := Put(s.app, [Hash(id, Resolved(s.app[id], next))], v);
      && Grows(s.app, app)
      && forall k | k in app :: (k in s.app && app[k] == s.app[k]) || RecOk(s, app[k])
  {
    var hs := [Hash(id, Resolved(s.app[id], next))];
    PutGrows(s.app, hs, v);
    assert RecOk(s, Resolved(s.app[id], next)) by { assert RecOk(s, s.app[id]); }
    forall k | k in Put(s.app, hs, v)
      ensures (k in s.app && Put(s.app, hs, v)[k] == s.app[k]) || Put(s.app, hs, v)[k] == hs[0].rec
    {
      PutCases(s.app, hs, v, k);
    }
  }

  /** A write of records that keeps every invariant about records keeps them all. */
  lemma RecordsKeepCore(s: State, app: AppDb)
    requires Core(s) && Grows(s.app, app)
    requires forall k | k in app :: (k in s.app && app[k] == s.app[k]) || RecOk(s, app[k])
    ensures Core(s.(app := app))
  {
    var t := s.(app := app);
    forall k | k in t.app ensures (k in s.app && t.app[k] == s.app[k]) || RecOk(t, t.app[k]) {
      if RecOk(s, t.app[k]) { RecKept(s, t, t.app[k]); }
    }
    CoreKeptQuiet(s, t);
  }

  lemma ResultWriteKeepsCore(s: State, id: string, next: Status, v: nat)
    requires Core(s) && id in s.app && s.app[id].version == v && !InExecution(next)
    ensures Core(s.(app := Put(s.app, [Hash(id, Resolved(s.app[id], next))], v)))
  {
    ResultWriteOk(s, id, next, v);
    RecordsKeepCore(s, Put(s.app, [Hash(id, Resolved(s.app[id], next))], v));
  }

  lemma ResultAppKeepsCore(s: State, r: ResultEv, next: Status)
    requires Core(s) && r.id in s.app && s.app[r.id].version == r.version && !InExecution(next)
    ensures Core(ResultAppStep(s, r, next))
  {
    var t := ResultAppStep(s, r, next);
    if (r.cmd, r.id) in s.marks.resultApp {
      CoreSame(s, t);
    } else {
      var u := s.(app := t.app);
      ResultWriteKeepsCore(s, r.id, next, r.version);
      CoreSame(u, t);
    }
  }

  // ---------------------------------------------------------------- timeout steps

  lemma DecisionOk(s: State, r: ResultEv, first: Command)
    requires AppOk(s) && TimeoutsOk(s) && ResultOk(s, r) && r.outcome.TimedOut? && Decide(s, r, first).Some?
    ensures MetaOk(s, r.cmd, Decide(s, r, first).value)
    ensures r.cmd in s.timeouts.dev ==> Decide(s, r, first).value == s.timeouts.dev[r.cmd]
  {
    if r.cmd !in s.timeouts.app && r.cmd !in s.timeouts.dev {
      assert RecOk(s, s.app[first.id]);
    }
  }

  lemma DecideKeepsCore(s: State, cmd: CmdId, meta: Meta, t: State)
    requires Core(s) && MetaOk(s, cmd, meta) && cmd !in s.timeouts.dev
    requires t == s.(timeouts := s.timeouts.(dev := s.timeouts.dev[cmd := meta]))
    ensures Core(t)
  {
    DecideKeepsTimeouts(s, cmd, meta, t);
    TimeoutsGrow(s, t);
  }

  lemma DecideKeepsTimeouts(s: State, cmd: CmdId, meta: Meta, t: State)
    requires TimeoutsOk(s) && MetaOk(s, cmd, meta) && cmd !in s.timeouts.dev
    requires t == s.(timeouts := s.timeouts.(dev := s.timeouts.dev[cmd := meta]))
    ensures TimeoutsOk(t)
  {
    assert forall c, m | MetaOk(s, c, m) :: MetaOk(t, c, m);
  }

  lemma TimeoutBeginKeepsCore(s: State, r: ResultEv)
    requires Core(s) && ResultOk(s, r) && r.outcome.TimedOut?
    ensures Core(TimeoutBegin(s, r))
  {
    var t := TimeoutBegin(s, r);
    if t.timeouts == s.timeouts {
      CoreSame(s, t);
    } else {
      var first := s.applies.attempts[r.cmd][0];
      DecisionOk(s, r, first);
      DecideKeepsCore(s, r.cmd, Decide(s, r, first).value, s.(timeouts := t.timeouts));
      CoreSame(s.(timeouts := t.timeouts), t);
    }
  }

  lemma LatePutOk(s: State, cmd: CmdId, batch: seq<Command>, meta: Meta, v: nat)
    requires AppOk(s) && BatchOk(s, cmd, batch) && AllCurrent(s.app, batch, cmd) && v == s.log[Root(cmd)].version
    requires !InExecution(meta.status)
    ensures var app := Put(s.app, LateHashes(s.app, batch, meta), v);
      && Grows(s.app, app)
      && forall id | id in app :: (id in s.app && app[id] == s.app[id]) || RecOk(s, app[id])
  {
    var hs := LateHashes(s.app, batch, meta);
    var app := Put(s.app, hs, v);
    assert forall i | 0 <= i < |hs| :: hs[i] == LateHash(s.app, batch[i], meta) && batch[i] in batch;
    PutGrows(s.app, hs, v);
    forall id | id in app && !(id in s.app && app[id] == s.app[id]) ensures RecOk(s, app[id]) {
      PutCases(s.app, hs, v, id);
      var i :| 0 <= i < |hs| && hs[i].id == id && app[id] == hs[i].rec;
      assert RecOk(s, s.app[id]);
    }
  }

  lemma LateWriteKeepsCore(s: State, cmd: CmdId, meta: Meta, v: nat, t: State)
    requires Core(s) && cmd in s.applies.attempts && AllCurrent(s.app, s.applies.attempts[cmd], cmd)
    requires cmd in s.timeouts.dev && s.timeouts.dev[cmd] == meta && cmd !in s.timeouts.app
    requires v == s.log[Root(cmd)].version
    requires t == s.(app := Put(s.app, LateHashes(s.app, s.applies.attempts[cmd], meta), v),
                     timeouts := s.timeouts.(app := s.timeouts.app[cmd := meta]))
    ensures Core(t)
  {
    assert BatchOk(s, cmd, s.prepared[cmd]);
    assert MetaOk(s, cmd, meta);
    LatePutOk(s, cmd, s.prepared[cmd], meta, v);
    LateKeepsTimeouts(s, cmd, meta, t);
    var u := s.(app := t.app);
    RecordsKeepCore(s, t.app);
    TimeoutsGrow(u, t);
  }

  /** Recording another timeout touches nothing else. */
  lemma TimeoutsGrow(s: State, t: State)
    requires Core(s) && TimeoutsOk(t) && t == s.(timeouts := t.timeouts)
    requires MapGrows(s.timeouts.app, t.timeouts.app) && MapGrows(s.timeouts.dev, t.timeouts.dev)
    ensures Core(t)
  {
    AppliesKept(s, t);
    CoreKept(s, t);
  }

  lemma LateKeepsTimeouts(s: State, cmd: CmdId, meta: Meta, t: State)
    requires TimeoutsOk(s) && cmd in s.timeouts.dev && s.timeouts.dev[cmd] == meta
    requires t.timeouts == s.timeouts.(app := s.timeouts.app[cmd := meta])
    requires t.marks == s.marks && t.applies == s.applies && t.policy == s.policy
    ensures TimeoutsOk(t)
  {
    assert forall c, m | MetaOk(s, c, m) :: MetaOk(t, c, m);
  }

  lemma TimeoutAppKeepsCore(s: State, r: ResultEv, meta: Meta)
    requires Core(s) && ResultOk(s, r) && r.cmd in s.applies.attempts
    requires AllCurrent(s.app, s.applies.attempts[r.cmd], r.cmd)
    requires r.cmd in s.timeouts.dev && s.timeouts.dev[r.cmd] == meta
    ensures Core(TimeoutAppStep(s, r, meta))
  {
    var t := TimeoutAppStep(s, r, meta);
    if r.cmd in s.timeouts.app {
      CoreSame(s, t);
    } else {
      var u := s.(app := t.app, timeouts := t.timeouts);
      LateWriteKeepsCore(s, r.cmd, meta, r.version, u);
      CoreSame(u, t);
    }
  }

  lemma RetriesGrow(es: seq<RetryEv>, e: RetryEv, c: CmdId)
    ensures RetriesFor(es + [e], c) == RetriesFor(es, c) + if e.failed == c then 1 else 0
  {
    assert (es + [e])[..|es|] == es;
  }

  lemma ScheduleKeepsCore(s: State, r: RetryEv, t: State)
    requires Core(s) && RetryOk(s, r)
    requires t == s.(retries := s.retries + [r], marks := s.marks.(retry := s.marks.retry + {r.failed}))
    ensures Core(t)
  {
    ScheduleKeepsRetries(s, r, t);
    CoreKept(s, t);
  }

  lemma ScheduleKeepsRetries(s: State, r: RetryEv, t: State)
    requires RetriesOk(s) && RetryOk(s, r) && t.retries == s.retries + [r]
    requires t.marks.cmd == s.marks.cmd && t.prepared == s.prepared && t.log == s.log && t.policy == s.policy
    requires t.timeouts == s.timeouts
    ensures RetriesOk(t)
  {
    assert forall x | RetryOk(s, x) :: RetryOk(t, x);
  }

  lemma TimeoutRetryKeepsCore(s: State, r: ResultEv, meta: Meta)
    requires Core(s) && ResultOk(s, r) && r.cmd in s.timeouts.app && s.timeouts.app[r.cmd] == meta
    ensures Core(TimeoutRetryStep(s, r, meta))
  {
    var t := TimeoutRetryStep(s, r, meta);
    if t.retries == s.retries {
      CoreSame(s, t);
    } else {
      assert MetaOk(s, r.cmd, meta);
      var u := s.(retries := t.retries, marks := t.marks);
      ScheduleKeepsCore(s, RetryEv(r.cmd, meta.attempt, r.version, s.applies.attempts[r.cmd], meta.notBefore), u);
      CoreSame(u, t);
    }
  }

  lemma TimeoutRetryKeepsRest(s: State, r: ResultEv, meta: Meta)
    requires OnceOk(s) && ConfigOk(s) && s.acks.results < |s.results|
    ensures Rest(TimeoutRetryStep(s, r, meta))
  {
    var t := TimeoutRetryStep(s, r, meta);
    forall c ensures RetriesFor(t.retries, c) == if c in t.marks.retry then 1 else 0 {
      if |t.retries| > |s.retries| { RetriesGrow(s.retries, t.retries[|s.retries|], c); }
    }
  }

  lemma ResultStepKeepsCore(s: State)
    requires Core(s) && PcOk(s) && s.acks.results < |s.results| && (s.pc.Idle? || ActivityOf(s.pc, Config).Results?)
    ensures Core(ResultStep(s))
  {
    var r := s.results[s.acks.results];
    assert ResultOk(s, r);
    if !s.pc.Idle? {
      ResultGoesOn(s, r);
    } else if r.outcome.TimedOut? {
      TimeoutBeginKeepsCore(s, r);
    } else {
      ResultBeginKeepsCore(s, r);
    }
  }

  lemma ResultGoesOn(s: State, r: ResultEv)
    requires Core(s) && s.acks.results < |s.results| && r == s.results[s.acks.results]
    requires ResultOk(s, r) && ResultPcOk(s, r) && ActivityOf(s.pc, Config).Results?
    ensures Core(ResultStep(s))
  {
    ResultStepIs(s, r);
    match s.pc
    case ResultApp(next) => ResultAppKeepsCore(s, r, next);
    case TimeoutApp(meta) => TimeoutAppKeepsCore(s, r, meta);
    case TimeoutRetry(meta) => TimeoutRetryKeepsCore(s, r, meta);
    case ResultAck => ResultAckKeepsCore(s);
  }

  lemma ResultStepIs(s: State, r: ResultEv)
    requires s.acks.results < |s.results| && r == s.results[s.acks.results]
    ensures s.pc.ResultApp? ==> ResultStep(s) == ResultAppStep(s, r, s.pc.next)
    ensures s.pc.TimeoutApp? ==> ResultStep(s) == TimeoutAppStep(s, r, s.pc.meta)
    ensures s.pc.TimeoutRetry? ==> ResultStep(s) == TimeoutRetryStep(s, r, s.pc.meta)
    ensures s.pc.ResultAck? ==> ResultStep(s) == s.(pc := Idle, acks := s.acks.(results := s.acks.results + 1))
  {
  }

  lemma ResultBeginKeepsCore(s: State, r: ResultEv)
    requires Core(s)
    ensures Core(ResultBegin(s, r))
  {
    CoreSame(s, ResultBegin(s, r));
  }

  lemma ResultAckKeepsCore(s: State)
    requires Core(s)
    ensures Core(s.(pc := Idle, acks := s.acks.(results := s.acks.results + 1)))
  {
    CoreSame(s, s.(pc := Idle, acks := s.acks.(results := s.acks.results + 1)));
  }

  lemma TimeoutBeginKeepsRest(s: State, r: ResultEv)
    requires AppOk(s) && TimeoutsOk(s) && ResultOk(s, r) && r.outcome.TimedOut?
    requires Rest(s) && s.acks.results < |s.results| && r == s.results[s.acks.results]
    ensures Rest(TimeoutBegin(s, r))
  {
    RestSame(s, TimeoutBegin(s, r));
    TimeoutBeginPc(s, r);
  }

  lemma TimeoutBeginPc(s: State, r: ResultEv)
    requires AppOk(s) && TimeoutsOk(s) && ResultOk(s, r) && r.outcome.TimedOut?
    requires s.acks.results < |s.results| && r == s.results[s.acks.results]
    ensures PcOk(TimeoutBegin(s, r))
  {
    if TimeoutBegin(s, r).pc.TimeoutApp? { DecisionOk(s, r, s.applies.attempts[r.cmd][0]); }
  }

  lemma ResultBeginKeepsRest(s: State, r: ResultEv)
    requires Rest(s) && s.acks.results < |s.results| && r == s.results[s.acks.results] && !r.outcome.TimedOut?
    ensures Rest(ResultBegin(s, r))
  {
    RestSame(s, ResultBegin(s, r));
  }

  lemma ResultRestGoesOn(s: State, r: ResultEv)
    requires TimeoutsOk(s) && Rest(s)
    requires s.acks.results < |s.results| && r == s.results[s.acks.results] && ActivityOf(s.pc, Config).Results?
    ensures Rest(ResultStep(s))
  {
    ResultStepIs(s, r);
    if s.pc.TimeoutRetry? { TimeoutRetryKeepsRest(s, r, s.pc.meta); } else { RestSame(s, ResultStep(s)); }
  }

  lemma ResultStepKeepsRest(s: State)
    requires AppOk(s) && TimeoutsOk(s) && ResultsOk(s) && Rest(s)
    requires s.acks.results < |s.results| && (s.pc.Idle? || ActivityOf(s.pc, Config).Results?)
    ensures Rest(ResultStep(s))
  {
    var r := s.results[s.acks.results];
    assert ResultOk(s, r);
    if !s.pc.Idle? {
      ResultRestGoesOn(s, r);
    } else if r.outcome.TimedOut? {
      TimeoutBeginKeepsRest(s, r);
    } else {
      ResultBeginKeepsRest(s, r);
    }
  }

  // ---------------------------------------------------------------- retry steps

  lemma RetryRecOk(s: State, r: RetryEv, c: Command, t: State)
    requires AppOk(s) && RetryOk(s, r) && MayRetry(s.app, c, r, false) && c.version == r.version
    requires Numbered(r.failed) && t.log == s.log && t.policy == s.policy
    requires RetryCmd(r.failed, r.attempt) in t.marks.app
    ensures RecOk(t, RetryHash(s.app, c, r, false).rec)
  {
    assert RecOk(s, s.app[c.id]);
  }

  lemma RetryPutOk(s: State, r: RetryEv, t: State)
    requires AppOk(s) && RetryOk(s, r) && BatchOk(s, r.failed, r.batch) && AllMayRetry(s.app, r, false)
    requires t == s.(app := Put(s.app, RetryHashes(s.app, r, false), r.version),
                     marks := s.marks.(app := s.marks.app + {RetryCmd(r.failed, r.attempt)}))
    ensures Grows(s.app, t.app)
    ensures forall id | id in t.app :: (id in s.app && t.app[id] == s.app[id]) || RecOk(t, t.app[id])
  {
    var hs := RetryHashes(s.app, r, false);
    assert forall i | 0 <= i < |hs| :: hs[i] == RetryHash(s.app, r.batch[i], r, false) && r.batch[i] in r.batch;
    PutGrows(s.app, hs, r.version);
    forall id | id in t.app && !(id in s.app && t.app[id] == s.app[id]) ensures RecOk(t, t.app[id]) {
      PutCases(s.app, hs, r.version, id);
      var i :| 0 <= i < |hs| && hs[i].id == id && t.app[id] == hs[i].rec;
      RetryRecOk(s, r, r.batch[i], t);
    }
  }

  lemma RetryWriteKeepsCore(s: State, r: RetryEv, t: State)
    requires Core(s) && RetryOk(s, r) && AllMayRetry(s.app, r, false)
    requires t == s.(app := Put(s.app, RetryHashes(s.app, r, false), r.version),
                     marks := s.marks.(app := s.marks.app + {RetryCmd(r.failed, r.attempt)}))
    ensures Core(t)
  {
    assert BatchOk(s, r.failed, s.prepared[r.failed]);
    RetryPutOk(s, r, t);
    CoreKept(s, t);
  }

  lemma RetryBeginKeepsCore(s: State, r: RetryEv)
    requires Core(s) && RetryOk(s, r)
    ensures Core(RetryBegin(s, r))
  {
    var t, cmd := RetryBegin(s, r), RetryCmd(r.failed, r.attempt);
    if t.pc.RetryAck? || cmd in s.marks.app {
      assert cmd in s.marks.app ==> s.marks.app + {cmd} == s.marks.app;
      CoreSame(s, t);
    } else {
      var u := s.(app := t.app, marks := t.marks);
      RetryWriteKeepsCore(s, r, u);
      CoreSame(u, t);
    }
  }

  lemma RetryBatchOk(s: State, r: RetryEv, t: State)
    requires PreparedOk(s) && RetryOk(s, r) && t.log == s.log && t.policy == s.policy
    ensures BatchOk(t, RetryCmd(r.failed, r.attempt), r.batch)
  {
    assert BatchOk(s, r.failed, s.prepared[r.failed]);
  }

  lemma RetryPrepareKeepsCore(s: State, r: RetryEv, t: State)
    requires Core(s) && RetryOk(s, r) && RetryCmd(r.failed, r.attempt) !in s.prepared
    requires t == s.(prepared := s.prepared[RetryCmd(r.failed, r.attempt) := r.batch])
    ensures Core(t)
  {
    RetryBatchOk(s, r, t);
    CoreKeptQuiet(s, t);
  }

  /** The retry steps after the first, written out. */
  lemma RetryStepIs(s: State, r: RetryEv, cmd: CmdId)
    requires s.acks.retries < |s.retries| && r == s.retries[s.acks.retries] && cmd == RetryCmd(r.failed, r.attempt)
    ensures s.pc.RetryDev? ==> RetryStep(s) == s.(pc := RetryPrepare, marks := s.marks.(dev := s.marks.dev + {cmd}))
    ensures s.pc.RetryPrepare? ==>
      RetryStep(s) ==
      s.(pc := RetryCommand, prepared := if cmd in s.prepared then s.prepared else s.prepared[cmd := r.batch])
    ensures s.pc.RetryCommand? ==> RetryStep(s) == Publish(s, cmd, r.version).(pc := RetryAck)
    ensures s.pc.RetryAck? ==> RetryStep(s) == s.(pc := Idle, acks := s.acks.(retries := s.acks.retries + 1))
  {
  }

  lemma RetryPublishKeepsCore(s: State, r: RetryEv, t: State)
    requires Core(s) && RetryOk(s, r) && s.pc.RetryCommand? && RetryPcOk(s, r)
    requires t == Publish(s, RetryCmd(r.failed, r.attempt), r.version).(pc := RetryAck)
    ensures Core(t)
  {
    var cmd := RetryCmd(r.failed, r.attempt);
    assert Written(s.app, s.prepared[r.failed]);
    PublishKeepsCore(s, cmd, r.version);
    PcIrrelevant(Publish(s, cmd, r.version), RetryAck);
  }

  lemma PcIrrelevant(s: State, pc: Pc)
    requires Core(s)
    ensures Core(s.(pc := pc))
  {
    CoreSame(s, s.(pc := pc));
  }

  lemma RetryPreparedKeepsCore(s: State, r: RetryEv, t: State)
    requires Core(s) && RetryOk(s, r)
    requires var cmd := RetryCmd(r.failed, r.attempt);
      t == s.(pc := RetryCommand, prepared := if cmd in s.prepared then s.prepared else s.prepared[cmd := r.batch])
    ensures Core(t)
  {
    var u := s.(prepared := t.prepared);
    if RetryCmd(r.failed, r.attempt) !in s.prepared { RetryPrepareKeepsCore(s, r, u); }
    PcIrrelevant(u, RetryCommand);
  }

  lemma RetryMarkKeepsCore(s: State, cmd: CmdId)
    requires Core(s) && cmd in s.marks.app
    ensures Core(s.(pc := RetryPrepare, marks := s.marks.(dev := s.marks.dev + {cmd})))
  {
    CoreSame(s, s.(pc := RetryPrepare, marks := s.marks.(dev := s.marks.dev + {cmd})));
  }

  lemma RetryAckKeepsCore(s: State)
    requires Core(s)
    ensures Core(s.(pc := Idle, acks := s.acks.(retries := s.acks.retries + 1)))
  {
    CoreSame(s, s.(pc := Idle, acks := s.acks.(retries := s.acks.retries + 1)));
  }

  lemma RetryStepKeepsCore(s: State)
    requires Core(s) && PcOk(s) && s.acks.retries < |s.retries| && (s.pc.Idle? || ActivityOf(s.pc, Config).Retries?)
    ensures Core(RetryStep(s))
  {
    var r := s.retries[s.acks.retries];
    var cmd := RetryCmd(r.failed, r.attempt);
    assert RetryOk(s, r);
    if s.pc.Idle? { RetryIdleKeepsCore(s, r); } else { RetryGoesOn(s, r, cmd); }
  }

  lemma RetryIdleKeepsCore(s: State, r: RetryEv)
    requires Core(s) && RetryOk(s, r) && s.pc.Idle? && s.acks.retries < |s.retries| && r == s.retries[s.acks.retries]
    ensures Core(RetryStep(s))
  {
    if s.clock >= r.notBefore { RetryBeginKeepsCore(s, r); }
  }

  lemma RetryGoesOn(s: State, r: RetryEv, cmd: CmdId)
    requires Core(s) && RetryOk(s, r) && RetryPcOk(s, r) && ActivityOf(s.pc, Config).Retries?
    requires s.acks.retries < |s.retries| && r == s.retries[s.acks.retries] && cmd == RetryCmd(r.failed, r.attempt)
    ensures Core(RetryStep(s))
  {
    RetryStepIs(s, r, cmd);
    match s.pc
    case RetryDev => RetryMarkKeepsCore(s, cmd);
    case RetryPrepare => RetryPreparedKeepsCore(s, r, RetryStep(s));
    case RetryCommand => RetryPublishKeepsCore(s, r, RetryStep(s));
    case RetryAck => RetryAckKeepsCore(s);
  }

  lemma RetryPrepareKeepsRest(s: State, r: RetryEv)
    requires PreparedOk(s) && RetryOk(s, r) && Rest(s) && s.pc.RetryPrepare? && r == s.retries[s.acks.retries]
    ensures Rest(RetryStep(s))
  {
    var t, cmd := RetryStep(s), RetryCmd(r.failed, r.attempt);
    assert cmd in s.prepared ==> SameBatch(s.prepared, cmd);
    assert ConfigOk(t) && OnceOk(t);
  }

  lemma RetryCommandKeepsRest(s: State, r: RetryEv)
    requires Rest(s) && s.pc.RetryCommand? && s.acks.retries < |s.retries| && r == s.retries[s.acks.retries]
    ensures Rest(RetryStep(s))
  {
    var cmd := RetryCmd(r.failed, r.attempt);
    PublishKeepsOnce(s, cmd, r.version);
    PublishKeepsOrder(s, cmd, r.version);
    RestSame(Publish(s, cmd, r.version), RetryStep(s));
  }

  lemma RetryBeginKeepsRest(s: State, r: RetryEv)
    requires Rest(s) && s.acks.retries < |s.retries| && r == s.retries[s.acks.retries]
    ensures Rest(RetryBegin(s, r))
  {
    RestSame(s, RetryBegin(s, r));
  }

  lemma RetryQuietKeepsRest(s: State)
    requires Rest(s) && s.acks.retries < |s.retries| && (s.pc.Idle? || s.pc.RetryDev? || s.pc.RetryAck?)
    ensures Rest(RetryStep(s))
  {
    var r := s.retries[s.acks.retries];
    if s.pc.Idle? {
      RetryBeginKeepsRest(s, r);
    } else {
      RetryStepIs(s, r, RetryCmd(r.failed, r.attempt));
      RestSame(s, RetryStep(s));
    }
  }

  lemma RetryStepKeepsRest(s: State)
    requires PreparedOk(s) && RetriesOk(s) && Rest(s)
    requires s.acks.retries < |s.retries| && (s.pc.Idle? || ActivityOf(s.pc, Config).Retries?)
    ensures Rest(RetryStep(s))
  {
    var r := s.retries[s.acks.retries];
    if s.pc.RetryPrepare? {
      assert RetryOk(s, r);
      RetryPrepareKeepsRest(s, r);
    } else if s.pc.RetryCommand? {
      RetryCommandKeepsRest(s, r);
    } else {
      RetryQuietKeepsRest(s);
    }
  }

  // ---------------------------------------------------------------- every run

  lemma AppendEventKeepsCore(s: State, e: Event)
    requires Core(s)
    ensures Core(s.(log := s.log + [e]))
  {
    CoreKept(s, s.(log := s.log + [e]));
  }

  lemma AttemptKeepsCore(s: State, e: DevCmd)
    requires Core(s) && EntryOk(s, e)
    ensures Core(s.(applies := s.applies.(attempts := s.applies.attempts[e.id := e.batch])))
  {
    CoreKept(s, s.(applies := s.applies.(attempts := s.applies.attempts[e.id := e.batch])));
  }

  lemma FinishKeepsCore(s: State, c: CmdId, late: bool)
    requires Core(s) && c in s.marks.cmd && c !in s.applies.late && (late ==> c in s.applies.attempts)
    ensures Core(s.(applies := s.applies.(late := s.applies.late[c := late])))
  {
    var t := s.(applies := s.applies.(late := s.applies.late[c := late]));
    FinishKeepsTimeouts(s, c, late);
    FinishKeepsApplies(s, c, late);
    AppliesGrow(s, t);
  }

  /** Another attempt or durable result touches nothing else. */
  lemma AppliesGrow(s: State, t: State)
    requires Core(s) && TimeoutsOk(t) && AppliesOk(t) && t == s.(applies := t.applies)
    requires MapGrows(s.applies.late, t.applies.late)
    ensures Core(t)
  {
    CoreKept(s, t);
  }

  lemma FinishKeepsApplies(s: State, c: CmdId, late: bool)
    requires AppliesOk(s) && c in s.marks.cmd && (late ==> c in s.applies.attempts)
    ensures AppliesOk(s.(applies := s.applies.(late := s.applies.late[c := late])))
  {
  }

  lemma FinishKeepsTimeouts(s: State, c: CmdId, late: bool)
    requires TimeoutsOk(s) && c !in s.applies.late
    ensures TimeoutsOk(s.(applies := s.applies.(late := s.applies.late[c := late])))
  {
    var t := s.(applies := s.applies.(late := s.applies.late[c := late]));
    assert forall d, m | MetaOk(s, d, m) :: MetaOk(t, d, m);
  }

  lemma AdmittedIsOk(s: State, r: ResultEv)
    requires PreparedOk(s) && ResultAdmitted(s, r)
    ensures ResultOk(s, r)
  {
    assert BatchOk(s, r.cmd, s.prepared[r.cmd]);
  }

  lemma AppendResultKeepsCore(s: State, r: ResultEv)
    requires Core(s) && ResultAdmitted(s, r)
    ensures Core(s.(results := s.results + [r]))
  {
    var t := s.(results := s.results + [r]);
    AdmittedIsOk(s, r);
    assert ResultOk(t, r);
    CoreKeptQuiet(s, t);
  }

  lemma EnvironmentKeepsCore(s: State, a: Action)
    requires Core(s) && !a.Next? && !a.Crash?
    ensures Core(Step(s, a))
  {
    match a
    case AppendEvent(e) => AppendEventKeepsCore(s, e);
    case Attempt(p) => if p < |s.commands| { AttemptKeepsCore(s, s.commands[p]); }
    case Finish(p, late) =>
      if p < |s.commands| && s.commands[p].id !in s.applies.late && (late ==> s.commands[p].id in s.applies.attempts) {
        FinishKeepsCore(s, s.commands[p].id, late);
      }
    case AppendResult(r) => if ResultAdmitted(s, r) { AppendResultKeepsCore(s, r); }
    case Tick(now) => CoreSame(s, s.(clock := now));
  }

  lemma AppendEventKeepsRest(s: State, e: Event)
    requires Rest(s) && BatchEvent(e)
    ensures Rest(s.(log := s.log + [e]))
  {
  }

  lemma AttemptKeepsRest(s: State, e: DevCmd)
    requires Rest(s) && AppliesOk(s) && EntryOk(s, e)
    ensures Rest(s.(applies := s.applies.(attempts := s.applies.attempts[e.id := e.batch])))
  {
    RestSame(s, s.(applies := s.applies.(attempts := s.applies.attempts[e.id := e.batch])));
  }

  lemma QuietKeepsRest(s: State, t: State)
    requires Rest(s) && t.pc == s.pc && t.log == s.log && t.commands == s.commands && t.retries == s.retries
    requires t.prepared == s.prepared && t.marks == s.marks && t.acks == s.acks && t.app == s.app
    requires t.timeouts == s.timeouts && t.applies.attempts == s.applies.attempts
    requires |s.results| <= |t.results| && forall i | 0 <= i < |s.results| :: t.results[i] == s.results[i]
    ensures Rest(t)
  {
    RestSame(s, t);
  }

  lemma EnvironmentKeepsRest(s: State, a: Action)
    requires Rest(s) && AppliesOk(s) && StreamOk(s) && !a.Next? && !a.Crash?
    ensures Rest(Step(s, a))
  {
    match a
    case AppendEvent(e) => if BatchEvent(e) { AppendEventKeepsRest(s, e); }
    case Attempt(p) => if p < |s.commands| { AttemptKeepsRest(s, s.commands[p]); }
    case _ => QuietKeepsRest(s, Step(s, a));
  }

  lemma StepKeepsInv(s: State, a: Action)
    requires Inv(s)
    ensures Inv(Step(s, a))
  {
    match a
    case Crash => CoreSame(s, s.(pc := Idle));
    case Next(pick) =>
      match ActivityOf(s.pc, pick) {
        case Config => if s.acks.config < |s.log| { ConfigStepKeepsCore(s); ConfigStepKeepsRest(s); }
        case Results => if s.acks.results < |s.results| { ResultStepKeepsCore(s); ResultStepKeepsRest(s); }
        case Retries => if s.acks.retries < |s.retries| { RetryStepKeepsCore(s); RetryStepKeepsRest(s); }
      }
    case _ => EnvironmentKeepsCore(s, a); EnvironmentKeepsRest(s, a);
  }

  lemma {:induction false} InvOverRuns(policy: RetryPolicy, actions: seq<Action>)
    ensures Inv(Run(Init(policy), actions))
  {
    if actions != [] {
      InvOverRuns(policy, actions[..|actions| - 1]);
      StepKeepsInv(Run(Init(policy), actions[..|actions| - 1]), actions[|actions| - 1]);
    }
  }

  // ---------------------------------------------------------------- reachable states

  ghost predicate Reachable(start: State, s: State)
  {
    Runs.Reachable(Step, start, s)
  }

  lemma {:induction false} RunIsFold(s: State, actions: seq<Action>)
    ensures Run(s, actions) == Runs.Fold(Step, s, actions)
  {
    if actions != [] { RunIsFold(s, actions[..|actions| - 1]); }
  }

  /** The reachable states are those at the end of some run. */
  lemma ReachableIffRun(start: State, s: State)
    ensures Reachable(start, s) <==> exists actions :: s == Run(start, actions)
  {
    Runs.ReachableIffRun(Step, start, s);
    if actions: seq<Action> :| s == Run(start, actions) { RunIsFold(start, actions); }
    if actions: seq<Action> :| s == Runs.Fold(Step, start, actions) { RunIsFold(start, actions); }
  }

  lemma ReachableInv(policy: RetryPolicy, s: State)
    requires Reachable(Init(policy), s)
    ensures Inv(s) && s.policy == policy
  {
    ReachableIffRun(Init(policy), s);
    var actions :| s == Run(Init(policy), actions);
    InvOverRuns(policy, actions);
    MaxRetriesFixed(Init(policy), actions);
  }

  // ---------------------------------------------------------------- publication

  lemma ConfigAppGrows(s: State)
    requires Core(s) && s.acks.config < |s.log|
    ensures Grows(s.app, ConfigAppStep(s).app)
  {
    var cmd := ConfigCmd(s.acks.config);
    if cmd in s.prepared { ConfigPutOk(s, s.prepared[cmd]); }
  }

  lemma ResultAppGrows(s: State, r: ResultEv, next: Status)
    requires r.id in s.app && s.app[r.id].version == r.version
    ensures Grows(s.app, ResultAppStep(s, r, next).app)
  {
    PutGrows(s.app, [Hash(r.id, Resolved(s.app[r.id], next))], r.version);
  }

  lemma TimeoutAppGrows(s: State, r: ResultEv, meta: Meta)
    requires Core(s) && ResultOk(s, r) && r.cmd in s.timeouts.dev && s.timeouts.dev[r.cmd] == meta
    ensures Grows(s.app, TimeoutAppStep(s, r, meta).app)
  {
    if r.cmd in s.applies.attempts && AllCurrent(s.app, s.applies.attempts[r.cmd], r.cmd) {
      assert BatchOk(s, r.cmd, s.prepared[r.cmd]);
      assert MetaOk(s, r.cmd, meta);
      LatePutOk(s, r.cmd, s.prepared[r.cmd], meta, r.version);
    }
  }

  lemma RetryBeginGrows(s: State, r: RetryEv)
    requires Core(s) && RetryOk(s, r)
    ensures Grows(s.app, RetryBegin(s, r).app)
  {
    var cmd := RetryCmd(r.failed, r.attempt);
    if cmd !in s.marks.cmd && cmd !in s.marks.app && AllMayRetry(s.app, r, false) {
      assert BatchOk(s, r.failed, s.prepared[r.failed]);
      RetryPutOk(s, r, s.(app := Put(s.app, RetryHashes(s.app, r, false), r.version),
                          marks := s.marks.(app := s.marks.app + {cmd})));
    }
  }

  lemma BeginPrepares(s: State)
    requires s.acks.config < |s.log|
    ensures MapGrows(s.prepared, ConfigBegin(s).prepared)
  {
  }

  lemma OtherConfigSteps(s: State)
    ensures MapGrows(s.prepared, ConfigStep(s).prepared)
  {
    if s.acks.config < |s.log| && s.pc.Idle? { BeginPrepares(s); }
  }

  lemma OnlyConfigAppWrites(s: State)
    requires !s.pc.ConfigApp? || s.acks.config >= |s.log|
    ensures ConfigStep(s).app == s.app
  {
  }

  lemma ConfigStepGrows(s: State)
    requires Core(s)
    ensures Grows(s.app, ConfigStep(s).app) && MapGrows(s.prepared, ConfigStep(s).prepared)
  {
    OtherConfigSteps(s);
    if s.acks.config < |s.log| && s.pc.ConfigApp? { ConfigAppGrows(s); } else { OnlyConfigAppWrites(s); }
  }

  lemma ResultStepGrows(s: State)
    requires Core(s) && PcOk(s) && (s.pc.Idle? || ActivityOf(s.pc, Config).Results?)
    ensures Grows(s.app, ResultStep(s).app) && ResultStep(s).prepared == s.prepared
  {
    OtherResultSteps(s);
    if s.acks.results < |s.results| && (s.pc.ResultApp? || s.pc.TimeoutApp?) {
      var r := s.results[s.acks.results];
      assert ResultOk(s, r);
      if s.pc.ResultApp? { ResultAppGrows(s, r, s.pc.next); } else { TimeoutAppGrows(s, r, s.pc.meta); }
    }
  }

  lemma OtherResultSteps(s: State)
    ensures ResultStep(s).prepared == s.prepared
    ensures !s.pc.ResultApp? && !s.pc.TimeoutApp? ==> ResultStep(s).app == s.app
  {
  }

  lemma EnvironmentWritesNothing(s: State, a: Action)
    requires !a.Next?
    ensures Step(s, a).app == s.app && Step(s, a).prepared == s.prepared
  {
  }

  lemma RetryKeepsPrepared(s: State)
    ensures MapGrows(s.prepared, RetryStep(s).prepared)
  {
  }

  lemma OtherRetrySteps(s: State)
    requires !s.pc.Idle? || s.acks.retries >= |s.retries|
    ensures RetryStep(s).app == s.app
  {
  }

  lemma RetryStepGrows(s: State)
    requires Core(s)
    ensures Grows(s.app, RetryStep(s).app) && MapGrows(s.prepared, RetryStep(s).prepared)
  {
    RetryKeepsPrepared(s);
    if s.acks.retries < |s.retries| && s.pc.Idle? {
      assert RetryOk(s, s.retries[s.acks.retries]);
      RetryBeginGrows(s, s.retries[s.acks.retries]);
    } else {
      OtherRetrySteps(s);
    }
  }

  /** No step removes a record, lowers its version or changes a prepared batch. */
  lemma StepGrows(s: State, a: Action)
    requires Core(s) && PcOk(s)
    ensures Grows(s.app, Step(s, a).app) && MapGrows(s.prepared, Step(s, a).prepared)
  {
    if a.Next? {
      match ActivityOf(s.pc, a.activity) {
        case Config => ConfigStepGrows(s);
        case Results => ResultStepGrows(s);
        case Retries => RetryStepGrows(s);
      }
    } else {
      EnvironmentWritesNothing(s, a);
    }
  }

  /** Over every run on batch events: an event yields at most one command, exactly when its marker is
      there; the payload is the durably prepared batch; and the commands made from configuration
      events carry strictly increasing versions for each connection. */
  lemma Publication(policy: RetryPolicy, s: State)
    requires Reachable(Init(policy), s)
    ensures forall c :: CommandsFor(s.commands, c) == if c in s.marks.cmd then 1 else 0
    ensures forall p | 0 <= p < |s.commands| ::
      && s.commands[p].id in s.prepared && s.commands[p].batch == s.prepared[s.commands[p].id]
      && Root(s.commands[p].id) < |s.log| && s.commands[p].version == s.log[Root(s.commands[p].id)].version
    ensures forall p, q | 0 <= p < q < |s.commands| && s.commands[p].id.ConfigCmd? && s.commands[q].id.ConfigCmd? ::
      Newer(s.commands[p].batch, s.commands[q].batch)
  {
    ReachableInv(policy, s);
    forall p | 0 <= p < |s.commands| ensures EntryOk(s, s.commands[p]) {}
  }

  /** ... and in every step of every run no APPL_DB version goes down and no prepared batch changes. */
  lemma PublicationSteps(policy: RetryPolicy, s: State, a: Action)
    requires Reachable(Init(policy), s)
    ensures Grows(s.app, Step(s, a).app) && MapGrows(s.prepared, Step(s, a).prepared)
  {
    ReachableInv(policy, s);
    StepGrows(s, a);
  }

  // ---------------------------------------------------------------- bounded retries

  /** How many commands carry out configuration event `e`. */
  function CommandsOfEvent(es: seq<DevCmd>, e: nat): nat
  {
    if es == [] then 0 else CommandsOfEvent(es[..|es| - 1], e) + if Root(es[|es| - 1].id) == e then 1 else 0
  }

  ghost function DepthsOfEvent(es: seq<DevCmd>, e: nat): set<nat>
  {
    set p | 0 <= p < |es| && Root(es[p].id) == e :: Depth(es[p].id)
  }

  lemma {:induction false} CommandsForAt(es: seq<DevCmd>, p: nat)
    requires p < |es|
    ensures CommandsFor(es, es[p].id) >= 1
  {
    if p < |es| - 1 { CommandsForAt(es[..|es| - 1], p); }
  }

  lemma DepthsGrow(es: seq<DevCmd>, e: nat)
    requires es != []
    ensures var last := es[|es| - 1].id;
      DepthsOfEvent(es, e) == DepthsOfEvent(es[..|es| - 1], e) + if Root(last) == e then {Depth(last)} else {}
  {
    var n := |es| - 1;
    forall d | d in DepthsOfEvent(es, e)
      ensures d in DepthsOfEvent(es[..n], e) || (Root(es[n].id) == e && d == Depth(es[n].id))
    {
      var p :| 0 <= p < |es| && Root(es[p].id) == e && Depth(es[p].id) == d;
      if p < n { assert es[..n][p] == es[p]; }
    }
    forall d | d in DepthsOfEvent(es[..n], e) ensures d in DepthsOfEvent(es, e) {
      var p :| 0 <= p < n && Root(es[..n][p].id) == e && Depth(es[..n][p].id) == d;
      assert es[p] == es[..n][p];
    }
  }

  /** Commands of one event differ in their depth, so they can be counted by depth. */
  lemma {:induction false} CountByDepth(es: seq<DevCmd>, e: nat)
    requires forall p | 0 <= p < |es| :: Numbered(es[p].id)
    requires forall c :: CommandsFor(es, c) <= 1
    ensures CommandsOfEvent(es, e) == |DepthsOfEvent(es, e)|
  {
    if es != [] {
      var n := |es| - 1;
      var pre, last := es[..n], es[n].id;
      forall c ensures CommandsFor(pre, c) <= 1 { assert CommandsFor(es, c) <= 1; }
      CountByDepth(pre, e);
      DepthsGrow(es, e);
      if Root(last) == e { DepthIsNew(es); }
    }
  }

  lemma DepthIsNew(es: seq<DevCmd>)
    requires es != [] && forall p | 0 <= p < |es| :: Numbered(es[p].id)
    requires forall c :: CommandsFor(es, c) <= 1
    ensures var last := es[|es| - 1].id; Depth(last) !in DepthsOfEvent(es[..|es| - 1], Root(last))
  {
    var n := |es| - 1;
    var pre, last := es[..n], es[n].id;
    forall p | 0 <= p < n && Root(pre[p].id) == Root(last) ensures Depth(pre[p].id) != Depth(last) {
      assert pre[p] == es[p];
      CommandsForAt(pre, p);
      assert CommandsFor(es, pre[p].id) <= 1;
      SameDepthSame(pre[p].id, last);
    }
  }

  lemma SameDepthSame(a: CmdId, b: CmdId)
    requires Numbered(a) && Numbered(b) && Root(a) == Root(b)
    ensures Depth(a) == Depth(b) ==> a == b
  {
    if Depth(a) == Depth(b) { ChainUnique(a, b); }
  }

  lemma {:induction false} SmallNumbers(s: set<nat>, n: nat)
    requires forall x | x in s :: x < n
    ensures |s| <= n
  {
    if n > 0 {
      var rest := s - {n - 1};
      SmallNumbers(rest, n - 1);
      assert s <= rest + {n - 1};
      assert |s| <= |rest| + 1 by { if n - 1 in s { assert s == rest + {n - 1}; } else { assert s == rest; } }
    } else {
      assert s == {};
    }
  }

  /** With one retry policy, over every run with timeouts, crashes and redelivery: a configuration
      event leads to at most maxRetries + 1 device commands, a command is retried at most once and
      only after it timed out, and along a chain of retries the attempt number strictly increases
      up to maxRetries. */
  lemma BoundedRetries(policy: RetryPolicy, s: State)
    requires Reachable(Init(policy), s)
    ensures forall e :: CommandsOfEvent(s.commands, e) <= policy.maxRetries + 1
    ensures forall c :: RetriesFor(s.retries, c) <= 1
    ensures forall q | 0 <= q < |s.retries| ::
      var r := s.retries[q];
      && CommandsFor(s.commands, r.failed) == 1
      && r.failed in s.applies.late && s.applies.late[r.failed]
      && (r.failed.RetryCmd? ==> r.failed.attempt < r.attempt)
      && 1 <= r.attempt <= policy.maxRetries
    ensures forall p | 0 <= p < |s.commands| ::
      Numbered(s.commands[p].id) && Depth(s.commands[p].id) <= policy.maxRetries
  {
    ReachableInv(policy, s);
    AllNumbered(s);
    forall c ensures CommandsFor(s.commands, c) <= 1 && RetriesFor(s.retries, c) <= 1 {
      assert CommandsFor(s.commands, c) == if c in s.marks.cmd then 1 else 0;
      assert RetriesFor(s.retries, c) == if c in s.marks.retry then 1 else 0;
    }
    forall e ensures CommandsOfEvent(s.commands, e) <= policy.maxRetries + 1 {
      CountByDepth(s.commands, e);
      SmallNumbers(DepthsOfEvent(s.commands, e), policy.maxRetries + 1);
    }
    forall q | 0 <= q < |s.retries|
      ensures CommandsFor(s.commands, s.retries[q].failed) == 1
      ensures s.retries[q].failed in s.applies.late && s.applies.late[s.retries[q].failed]
      ensures s.retries[q].failed.RetryCmd? ==> s.retries[q].failed.attempt < s.retries[q].attempt
      ensures 1 <= s.retries[q].attempt <= policy.maxRetries
    {
      RetriedWasLate(s, s.retries[q]);
    }
  }

  lemma AllNumbered(s: State)
    requires StreamOk(s) && PreparedOk(s)
    ensures forall p | 0 <= p < |s.commands| ::
      Numbered(s.commands[p].id) && Depth(s.commands[p].id) <= s.policy.maxRetries
  {
    forall p | 0 <= p < |s.commands|
      ensures Numbered(s.commands[p].id) && Depth(s.commands[p].id) <= s.policy.maxRetries
    {
      assert EntryOk(s, s.commands[p]);
      assert BatchOk(s, s.commands[p].id, s.prepared[s.commands[p].id]);
    }
  }

  lemma RetriedWasLate(s: State, r: RetryEv)
    requires Core(s) && OnceOk(s) && RetryOk(s, r)
    ensures CommandsFor(s.commands, r.failed) == 1
    ensures r.failed in s.applies.late && s.applies.late[r.failed]
    ensures r.failed.RetryCmd? ==> r.failed.attempt < r.attempt
    ensures 1 <= r.attempt <= s.policy.maxRetries
  {
    assert MetaOk(s, r.failed, s.timeouts.dev[r.failed]);
    assert BatchOk(s, r.failed, s.prepared[r.failed]);
  }

  lemma ConfigKeepsPolicy(s: State)
    ensures ConfigStep(s).policy == s.policy
  {
  }

  lemma ResultKeepsPolicy(s: State)
    ensures ResultStep(s).policy == s.policy
  {
  }

  lemma RetryKeepsPolicy(s: State)
    ensures RetryStep(s).policy == s.policy
  {
  }

  lemma StepKeepsPolicy(s: State, a: Action)
    ensures Step(s, a).policy == s.policy
  {
    if a.Next? {
      ConfigKeepsPolicy(s);
      ResultKeepsPolicy(s);
      RetryKeepsPolicy(s);
    }
  }

  lemma {:induction false} MaxRetriesFixed(s: State, actions: seq<Action>)
    ensures Run(s, actions).policy == s.policy
  {
    if actions != [] {
      MaxRetriesFixed(s, actions[..|actions| - 1]);
      StepKeepsPolicy(Run(s, actions[..|actions| - 1]), actions[|actions| - 1]);
    }
  }

  // ---------------------------------------------------------------- backoff

  /** A decision made in this step is due after the backoff delay of its attempt. */
  ghost predicate DecidedNow(s: State, t: State, c: CmdId)
  {
    c in t.timeouts.dev && c !in s.timeouts.dev && t.timeouts.dev[c].scheduled ==>
      var m := t.timeouts.dev[c];
      m.attempt >= 1 && m.notBefore == DueAt(s.policy, s.clock, m.attempt)
  }

  /** A retry started in this step is one that was decided on, and it is due. */
  ghost predicate StartedDue(s: State, t: State, c: CmdId)
  {
    c in t.marks.app && c !in s.marks.app && c.RetryCmd? ==>
      && c.failed in s.timeouts.app && s.timeouts.app[c.failed].attempt == c.attempt
      && s.timeouts.app[c.failed].notBefore <= s.clock
  }

  lemma TimeoutDecides(s: State, r: ResultEv, c: CmdId)
    requires TimeoutsOk(s)
    ensures DecidedNow(s, TimeoutBegin(s, r), c) && StartedDue(s, TimeoutBegin(s, r), c)
  {
  }

  lemma ResultStepWaits(s: State, c: CmdId)
    requires TimeoutsOk(s)
    ensures DecidedNow(s, ResultStep(s), c) && StartedDue(s, ResultStep(s), c)
  {
    if s.acks.results < |s.results| {
      var r := s.results[s.acks.results];
      ResultStepIs(s, r);
      if s.pc.Idle? { TimeoutDecides(s, r, c); }
    }
  }

  lemma ConfigStepWaits(s: State, c: CmdId)
    ensures DecidedNow(s, ConfigStep(s), c) && StartedDue(s, ConfigStep(s), c)
  {
  }

  lemma RetryStepWaits(s: State, c: CmdId)
    requires RetriesOk(s)
    ensures DecidedNow(s, RetryStep(s), c) && StartedDue(s, RetryStep(s), c)
  {
    if s.acks.retries < |s.retries| { assert RetryOk(s, s.retries[s.acks.retries]); }
  }

  /** In every step of every run: a timeout decides on a retry that is due after the backoff delay of
      its attempt, the decision is what later steps read, and no retry starts before it is due. */
  lemma BackoffRespected(policy: RetryPolicy, s: State, a: Action, c: CmdId)
    requires Reachable(Init(policy), s)
    ensures s.policy == policy && DecidedNow(s, Step(s, a), c) && StartedDue(s, Step(s, a), c)
    ensures forall r | r in s.retries ::
      r.failed in s.timeouts.app && s.timeouts.app[r.failed] == Meta(r.attempt, RetryWait, true, r.notBefore)
  {
    ReachableInv(policy, s);
    forall q | 0 <= q < |s.retries| ensures RetryOk(s, s.retries[q]) {}
    StepWaits(s, a, c);
  }

  /** The due time in numbers: a timeout decided on in this step, at a clock that leaves room for the
      delay, is retried no sooner than the base delay and can be retried after the maximum. */
  lemma DueTimeIs(policy: RetryPolicy, s: State, a: Action, c: CmdId)
    requires AdmittedPolicy(policy) && Reachable(Init(policy), s) && s.clock + policy.maxMs * 1_000_000 < UINT64
    requires var t := Step(s, a); c in t.timeouts.dev && c !in s.timeouts.dev && t.timeouts.dev[c].scheduled
    ensures var m := Step(s, a).timeouts.dev[c];
      && m.attempt == Depth(c) + 1
      && m.notBefore == s.clock + Delay(policy, m.attempt) * 1_000_000
      && s.clock + policy.baseMs * 1_000_000 <= m.notBefore <= s.clock + policy.maxMs * 1_000_000
  {
    BackoffRespected(policy, s, a, c);
    ReachableInv(policy, s);
    StepKeepsInv(s, a);
    var t := Step(s, a);
    assert MetaOk(t, c, t.timeouts.dev[c]);
    DelayBounds(policy, t.timeouts.dev[c].attempt);
    DueIs(policy, s.clock, t.timeouts.dev[c].attempt);
  }

  lemma StepWaits(s: State, a: Action, c: CmdId)
    requires TimeoutsOk(s) && RetriesOk(s)
    ensures DecidedNow(s, Step(s, a), c) && StartedDue(s, Step(s, a), c)
  {
    if a.Next? {
      match ActivityOf(s.pc, a.activity) {
        case Config => ConfigStepWaits(s, c);
        case Results => ResultStepWaits(s, c);
        case Retries => RetryStepWaits(s, c);
      }
    }
  }
}
