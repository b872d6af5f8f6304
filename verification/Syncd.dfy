/** The sync daemon's command path: one worker, a crash possible between any two durable writes.

A command is taken from the stream, applied to the device, its result stored, and from that stored
result state, counters and result events are published, each guarded by a marker of its own. The
worker's program counter is lost in a crash; everything in `Db` survives, and the command stays
pending until it is acknowledged. What the device answers is arbitrary. */
module Syncd {
  import opened Ids
  import Runs
  import opened Connections
  import opened CommandIds
  import DeviceModel
  import DeviceLaws
  import SM = StatusMachine

  // ---------------------------------------------------------------- data

  /** A command in the stream. `decodes` says whether its payload could be decoded; if not, `batch`
      is what could be recovered from the prepared configuration batch, possibly nothing. */
  datatype Cmd = Cmd(id: CmdId, resource: string, version: nat, decodes: bool, batch: seq<Command>)

  /** The STATE_DB snapshot of one connection. */
  datatype ConnState = ConnState(
    input: nat, output: nat, desired: nat, applied: nat, present: Option<bool>, status: SM.Status, error: ErrorCode)

  datatype Mark = Published(delta: int) | Superseded | ConfirmedUnchanged

  datatype StateEvent = StateEvent(cmd: CmdId, id: string, op: Operation, version: nat, state: Option<ConnState>)

  datatype ResultEvent = ResultEvent(cmd: CmdId, id: string, version: nat, result: ApplyResult)

  /** STATE_DB: publication markers, connection snapshots and the state event stream. */
  datatype Pub = Pub(marks: map<(CmdId, string), Mark>, conns: map<string, ConnState>, events: seq<StateEvent>)

  datatype Counters = Counters(counted: set<CmdId>, total: nat, success: nat, failure: nat, timeout: nat, active: int)

  /** Result markers and the result event stream. */
  datatype Out = Out(marks: set<(CmdId, string)>, events: seq<ResultEvent>)

  datatype Version = Version(version: nat, generation: nat)

  datatype Db = Db(
    attempts: set<CmdId>,
    results: map<CmdId, ApplyResult>,
    processed: map<CmdId, bool>,
    versions: map<string, Version>,
    pub: Pub,
    counters: Counters,
    out: Out)

  /** Where the worker is with the first unacknowledged command. */
  datatype Pc =
    | Idle
    | Calling
    | Called(result: ApplyResult)
    | Publishing(i: nat, delta: int)
    | Reporting(i: nat)
    | Acking

  datatype State = State(cmds: seq<Cmd>, acked: nat, pc: Pc, generation: nat, db: Db)

  /** What the device answers to an apply, and what it then shows when it is looked at. */
  datatype Answer = Answer(generation: nat, attempted: bool, result: ApplyResult, view: Option<DeviceModel.Core>)

  datatype Action = Append(cmd: Cmd) | Next(answer: Answer) | Crash | Observe(generation: nat)

  // ---------------------------------------------------------------- confirming a failed apply

  predicate MemberInPlace(view: DeviceModel.Core, c: Command)
  {
    if c.op.Remove? then c.id !in view.conns
    else
      && c.id in view.conns
      && view.conns[c.id].input == c.input && view.conns[c.id].output == c.output
      && view.conns[c.id].version == c.version
      && DeviceModel.ValidatePortAvailable(view, DeviceModel.Input, c.input) == Ok
      && DeviceModel.ValidatePortAvailable(view, DeviceModel.Output, c.output) == Ok
  }

  /** The device shows every upsert of the batch on its own ports, which are usable, at its version,
      and none of the removals. */
  ghost predicate InPlace(view: DeviceModel.Core, batch: seq<Command>)
  {
    forall c | c in batch ::
      if c.op.Remove? then c.id !in view.conns
      else
        && c.id in view.conns && view.conns[c.id].version == c.version
        && view.conns[c.id].input == c.input && DeviceLaws.Usable(view.inPorts, c.input)
        && view.conns[c.id].output == c.output && DeviceLaws.Usable(view.outPorts, c.output)
  }

  /** `confirmAppliedResult`: a failure is turned into success exactly when the device visibly holds
      all of what the batch asks for. */
  method ConfirmAppliedResult(batch: seq<Command>, result: ApplyResult, view: Option<DeviceModel.Core>)
    returns (r: ApplyResult)
    ensures r == Confirmed(batch, result, view)
  {
    r := result;
    if result.error != Ok && batch != [] && view.Some? {
      var confirmed: seq<Applied> := [];
      var n := 0;
      while n < |batch|
        invariant 0 <= n <= |batch|
        invariant forall i | 0 <= i < n :: MemberInPlace(view.value, batch[i])
        invariant confirmed == DeviceModel.Changed(view.value.conns, batch[..n])
      {
        if !MemberInPlace(view.value, batch[n]) {
          return;
        }
        assert batch[..n + 1][..n] == batch[..n];
        if batch[n].op.Upsert? {
          confirmed := confirmed + [view.value.conns[batch[n].id]];
        }
        n := n + 1;
      }
      assert batch[..n] == batch;
      r := ApplyResult(Ok, confirmed);
    }
  }

  function Confirmed(batch: seq<Command>, result: ApplyResult, view: Option<DeviceModel.Core>): ApplyResult
  {
    if result.error != Ok && batch != [] && view.Some? && forall c | c in batch :: MemberInPlace(view.value, c) then
      ApplyResult(Ok, DeviceModel.Changed(view.value.conns, batch))
    else result
  }

  // ---------------------------------------------------------------- publishing one member

  function WasActive(prev: Option<ConnState>): bool
  {
    prev.Some? && if prev.value.present.Some? then prev.value.present.value else prev.value.applied != 0
  }

  function Prev(p: Pub, id: string): Option<ConnState>
  {
    if id in p.conns then Some(p.conns[id]) else None
  }

  function Find(cs: seq<Applied>, id: string): Option<Applied>
  {
    if cs == [] then None else if cs[0].id == id then Some(cs[0]) else Find(cs[1..], id)
  }

  predicate Preserves(prev: Option<ConnState>, c: Command, r: ApplyResult)
  {
    && r.error == PortDown && c.op.Upsert? && WasActive(prev) && prev.value.status == SM.Active
    && prev.value.input == c.input && prev.value.output == c.output
    && prev.value.desired == c.version && prev.value.applied == c.version
  }

  /** The new snapshot; `None` deletes it. */
  function NewState(prev: Option<ConnState>, c: Command, r: ApplyResult): Option<ConnState>
  {
    if r.error == Ok then
      if c.op.Remove? || Find(r.connections, c.id).None? then None
      else
        var applied := Find(r.connections, c.id).value.version;
        Some(ConnState(c.input, c.output, c.version, applied, Some(true), SM.Active, Ok))
    else if prev.None? then Some(ConnState(c.input, c.output, c.version, 0, Some(false), SM.Failed, r.error))
    else Some(prev.value.(desired := c.version, status := SM.Failed, error := r.error))
  }

  /** A success that does not report one of its upserts makes the worker throw. */
  predicate Omits(c: Command, r: ApplyResult)
  {
    r.error == Ok && c.op.Upsert? && Find(r.connections, c.id).None?
  }

  function Delta(prev: Option<ConnState>, c: Command, r: ApplyResult): int
  {
    var isActive := if r.error == Ok then c.op.Upsert? else WasActive(prev);
    if WasActive(prev) == isActive then 0 else if isActive then 1 else -1
  }

  predicate IsSuperseded(prev: Option<ConnState>, c: Command)
  {
    prev.Some? && prev.value.desired > c.version
  }

  predicate Throws(p: Pub, id: CmdId, c: Command, r: ApplyResult)
  {
    (id, c.id) !in p.marks && !IsSuperseded(Prev(p, c.id), c) && !Preserves(Prev(p, c.id), c, r) && Omits(c, r)
  }

  function PublishMember(p: Pub, id: CmdId, c: Command, r: ApplyResult): Pub
  {
    var prev, key := Prev(p, c.id), (id, c.id);
    if key in p.marks then p
    else if IsSuperseded(prev, c) then p.(marks := p.marks[key := Superseded])
    else if Preserves(prev, c, r) then p.(marks := p.marks[key := ConfirmedUnchanged])
    else
      var state := NewState(prev, c, r);
      Pub(p.marks[key := Published(Delta(prev, c, r))],
          if state.Some? then p.conns[c.id := state.value] else p.conns - {c.id},
          p.events + [StateEvent(id, c.id, if r.error == Ok && c.op.Remove? then Remove else Upsert, c.version, state)])
  }

  function DeltaOf(m: Mark): int
  {
    if m.Published? then m.delta else 0
  }

  // ---------------------------------------------------------------- counters, results, processed

  function Count(k: Counters, id: CmdId, r: ApplyResult, delta: int): Counters
  {
    if id in k.counted then k
    else
      Counters(k.counted + {id}, k.total + 1,
               if r.error == Ok then k.success + 1 else k.success,
               if r.error == Ok then k.failure else k.failure + 1,
               if r.error == ApplyTimeout then k.timeout + 1 else k.timeout,
               k.active + delta)
  }

  function MemberResult(marks: map<(CmdId, string), Mark>, id: CmdId, c: Command, r: ApplyResult): ApplyResult
  {
    if (id, c.id) in marks && marks[(id, c.id)].ConfirmedUnchanged? then ApplyResult(Ok, [ToApplied(c)]) else r
  }

  function Report(o: Out, e: ResultEvent): Out
  {
    if (e.cmd, e.id) in o.marks then o else Out(o.marks + {(e.cmd, e.id)}, o.events + [e])
  }

  predicate StaleMember(versions: map<string, Version>, generation: nat, c: Command)
  {
    c.id in versions && versions[c.id].generation == generation && c.version <= versions[c.id].version
  }

  predicate IsStale(versions: map<string, Version>, generation: nat, batch: seq<Command>)
  {
    forall c | c in batch :: StaleMember(versions, generation, c)
  }

  /** The versions stored with the processed marker of a successful batch. */
  function Advance(versions: map<string, Version>, generation: nat, batch: seq<Command>): map<string, Version>
  {
    if batch == [] then versions
    else
      var before, c := Advance(versions, generation, batch[..|batch| - 1]), batch[|batch| - 1];
      if StaleMember(versions, generation, c) then before else before[c.id := Version(c.version, generation)]
  }

  // ---------------------------------------------------------------- the machine

  function Begin(s: State, cmd: Cmd): State
  {
    var db := s.db;
    if cmd.id in db.processed then s.(pc := Acking)
    else if !cmd.decodes then
      s.(pc := Publishing(0, 0), db := db.(results := db.results[cmd.id := ApplyResult(ProtocolMalformed, [])]))
    else if cmd.id in db.results then s.(pc := Publishing(0, 0))
    else if cmd.id !in db.attempts && IsStale(db.versions, s.generation, cmd.batch) then
      s.(pc := Acking, db := db.(processed := db.processed[cmd.id := false]))
    else s.(pc := Calling, db := db.(attempts := db.attempts + {cmd.id}))
  }

  function Call(s: State, cmd: Cmd, a: Answer): State
  {
    s.(generation := a.generation,
       pc := Called(if a.attempted then Confirmed(cmd.batch, a.result, a.view) else a.result))
  }

  function StoreResult(s: State, cmd: Cmd, r: ApplyResult): State
  {
    s.(pc := Publishing(0, 0), db := s.db.(results := s.db.results[cmd.id := r]))
  }

  /** Publish member `i`, or count the command when all members are published. */
  function Publish(s: State, cmd: Cmd, i: nat, delta: int): State
    requires cmd.id in s.db.results
  {
    var db, r := s.db, s.db.results[cmd.id];
    if i < |cmd.batch| then
      if Throws(db.pub, cmd.id, cmd.batch[i], r) then s.(pc := Idle)
      else
        var pub := PublishMember(db.pub, cmd.id, cmd.batch[i], r);
        s.(pc := Publishing(i + 1, delta + DeltaOf(pub.marks[(cmd.id, cmd.batch[i].id)])), db := db.(pub := pub))
    else s.(pc := Reporting(0), db := db.(counters := Count(db.counters, cmd.id, r, delta)))
  }

  /** The result events of a command: one per member, or one for the whole command if no member is known. */
  function ReportCount(cmd: Cmd): nat
  {
    if cmd.batch == [] then 1 else |cmd.batch|
  }

  function ReportAt(db: Db, cmd: Cmd, i: nat): ResultEvent
    requires i < ReportCount(cmd) && cmd.id in db.results
  {
    var r := db.results[cmd.id];
    if cmd.batch == [] then ResultEvent(cmd.id, cmd.resource, cmd.version, r)
    else ResultEvent(cmd.id, cmd.batch[i].id, cmd.batch[i].version, MemberResult(db.pub.marks, cmd.id, cmd.batch[i], r))
  }

  /** Report number `i`, or mark the command processed when everything is reported. */
  function ReportNext(s: State, cmd: Cmd, i: nat): State
    requires cmd.id in s.db.results
  {
    var db, r := s.db, s.db.results[cmd.id];
    if i < ReportCount(cmd) then s.(pc := Reporting(i + 1), db := db.(out := Report(db.out, ReportAt(db, cmd, i))))
    else
      s.(pc := Acking,
         db := db.(processed := db.processed[cmd.id := r.error == Ok],
                   versions := if r.error == Ok then Advance(db.versions, s.generation, cmd.batch) else db.versions))
  }

  function Work(s: State, cmd: Cmd, a: Answer): State
  {
    match s.pc
    case Idle => Begin(s, cmd)
    case Calling => Call(s, cmd, a)
    case Called(r) => StoreResult(s, cmd, r)
    case Publishing(i, delta) => if cmd.id in s.db.results then Publish(s, cmd, i, delta) else s
    case Reporting(i) => if cmd.id in s.db.results then ReportNext(s, cmd, i) else s
    case Acking => s.(acked := s.acked + 1, pc := Idle)
  }

  ghost predicate Admits(cmds: seq<Cmd>, cmd: Cmd)
  {
    DistinctIds(cmd.batch) && forall i | 0 <= i < |cmds| :: cmds[i].id != cmd.id
  }

  ghost function Step(s: State, a: Action): State
  {
    match a
    case Append(cmd) => if Admits(s.cmds, cmd) then s.(cmds := s.cmds + [cmd]) else s
    case Next(answer) => if s.acked < |s.cmds| then Work(s, s.cmds[s.acked], answer) else s
    case Crash => s.(pc := Idle)
    case Observe(g) => s.(generation := g)
  }

  ghost function Run(s: State, actions: seq<Action>): State
  {
    if actions == [] then s else Step(Run(s, actions[..|actions| - 1]), actions[|actions| - 1])
  }

  function ActiveIds(conns: map<string, ConnState>): set<string>
  {
    set k | k in conns && WasActive(Some(conns[k]))
  }

  /** Nothing processed yet; connection snapshots from earlier may be there and are counted. */
  function Init(conns: map<string, ConnState>, versions: map<string, Version>, generation: nat): State
  {
    State([], 0, Idle, generation,
          Db({}, map[], map[], versions, Pub(map[], conns, []),
             Counters({}, 0, 0, 0, 0, |ActiveIds(conns)|), Out({}, [])))
  }

  // ---------------------------------------------------------------- invariant: one command

  /** Every command that left a trace. */
  function Traces(db: Db): set<CmdId>
  {
    db.attempts + db.results.Keys + db.processed.Keys + db.counters.counted
    + (set k | k in db.pub.marks :: k.0) + (set k | k in db.out.marks :: k.0)
  }

  ghost predicate AllMarked(db: Db, id: CmdId, batch: seq<Command>)
  {
    forall c | c in batch :: (id, c.id) in db.pub.marks
  }

  ghost predicate ReportedUpTo(db: Db, cmd: Cmd, n: nat)
    requires cmd.id in db.results
  {
    forall i | 0 <= i < n && i < ReportCount(cmd) :: (cmd.id, ReportAt(db, cmd, i).id) in db.out.marks
  }

  /** Skipped as stale: no trace but the processed marker. */
  ghost predicate Skipped(db: Db, id: CmdId)
  {
    && id in db.processed && !db.processed[id] && id !in db.results && id !in db.counters.counted
    && NothingPublished(db, id)
  }

  ghost predicate NothingPublished(db: Db, id: CmdId)
  {
    forall k :: (id, k) !in db.pub.marks && (id, k) !in db.out.marks
  }

  ghost predicate Complete(db: Db, cmd: Cmd)
  {
    && cmd.id in db.results && cmd.id in db.counters.counted
    && AllMarked(db, cmd.id, cmd.batch) && ReportedUpTo(db, cmd, ReportCount(cmd))
    && cmd.id in db.processed && db.processed[cmd.id] == (db.results[cmd.id].error == Ok)
  }

  ghost predicate Finished(db: Db, cmd: Cmd)
  {
    Skipped(db, cmd.id) || Complete(db, cmd)
  }

  /** Effects come in order: result, state, counters, result events, processed marker. */
  ghost predicate Ordered(db: Db, cmd: Cmd)
  {
    && (cmd.id !in db.results ==> cmd.id !in db.counters.counted && NothingPublished(db, cmd.id))
    && (cmd.id in db.counters.counted ==> AllMarked(db, cmd.id, cmd.batch))
    && (cmd.id !in db.counters.counted ==> forall k :: (cmd.id, k) !in db.out.marks)
    && (cmd.id in db.processed ==> Finished(db, cmd))
    && (!cmd.decodes && cmd.id in db.results ==> db.results[cmd.id] == ApplyResult(ProtocolMalformed, []))
  }

  function DeltaSum(marks: map<(CmdId, string), Mark>, id: CmdId, batch: seq<Command>): int
  {
    if batch == [] then 0
    else
      var key := (id, batch[|batch| - 1].id);
      DeltaSum(marks, id, batch[..|batch| - 1]) + if key in marks then DeltaOf(marks[key]) else 0
  }

  /** What the worker may rely on at each point. */
  ghost predicate PcOk(db: Db, cmd: Cmd, pc: Pc)
  {
    match pc
    case Idle => true
    case Calling => cmd.id in db.attempts && cmd.id !in db.results && cmd.id !in db.processed && cmd.decodes
    case Called(_) => cmd.id in db.attempts && cmd.id !in db.results && cmd.id !in db.processed && cmd.decodes
    case Publishing(i, delta) =>
      && cmd.id in db.results && cmd.id !in db.processed && i <= |cmd.batch|
      && AllMarked(db, cmd.id, cmd.batch[..i]) && delta == DeltaSum(db.pub.marks, cmd.id, cmd.batch[..i])
    case Reporting(i) =>
      && cmd.id in db.results && cmd.id !in db.processed && cmd.id in db.counters.counted
      && i <= ReportCount(cmd) && ReportedUpTo(db, cmd, i)
    case Acking => cmd.id in db.processed
  }

  // ---------------------------------------------------------------- invariant: events and counters

  function StateEventsFor(es: seq<StateEvent>, id: CmdId, k: string): nat
  {
    if es == [] then 0
    else
      var e := es[|es| - 1];
      StateEventsFor(es[..|es| - 1], id, k) + if e.cmd == id && e.id == k then 1 else 0
  }

  function ResultEventsFor(es: seq<ResultEvent>, id: CmdId, k: string): nat
  {
    if es == [] then 0
    else
      var e := es[|es| - 1];
      ResultEventsFor(es[..|es| - 1], id, k) + if e.cmd == id && e.id == k then 1 else 0
  }

  /** A state event says what the durable result says. */
  ghost predicate StateEventOk(results: map<CmdId, ApplyResult>, e: StateEvent)
  {
    && e.cmd in results
    && (e.state.None? <==> e.op.Remove?)
    && (e.op.Remove? ==> results[e.cmd].error == Ok)
    && (e.state.Some? ==>
          && e.state.value.error == results[e.cmd].error
          && e.state.value.desired == e.version
          && e.state.value.status == (if results[e.cmd].error == Ok then SM.Active else SM.Failed)
          && (results[e.cmd].error == Ok ==>
                && e.state.value.present == Some(true)
                && Find(results[e.cmd].connections, e.id).Some?
                && e.state.value.applied == Find(results[e.cmd].connections, e.id).value.version))
  }

  /** A result event repeats the durable result, except that a port failure of a connection that is
      up at exactly this version is reported as success. */
  ghost predicate ResultEventOk(db: Db, e: ResultEvent)
  {
    && e.cmd in db.results
    && (e.result == db.results[e.cmd] ||
        (&& (e.cmd, e.id) in db.pub.marks && db.pub.marks[(e.cmd, e.id)].ConfirmedUnchanged?
         && db.results[e.cmd].error == PortDown && e.result.error == Ok))
  }

  ghost predicate MarkOk(results: map<CmdId, ApplyResult>, id: CmdId, m: Mark)
  {
    id in results && (m.ConfirmedUnchanged? ==> results[id].error == PortDown)
  }

  ghost predicate StateOnce(p: Pub)
  {
    forall id, k :: CountedOnce(p, id, k)
  }

  ghost predicate ResultOnce(o: Out)
  {
    forall id, k :: ResultEventsFor(o.events, id, k) == if (id, k) in o.marks then 1 else 0
  }

  ghost predicate ContentOk(db: Db)
  {
    && (forall i | 0 <= i < |db.pub.events| :: StateEventOk(db.results, db.pub.events[i]))
    && (forall i | 0 <= i < |db.out.events| :: ResultEventOk(db, db.out.events[i]))
    && (forall key | key in db.pub.marks :: MarkOk(db.results, key.0, db.pub.marks[key]))
  }

  /** The counted commands whose durable result has this error code. */
  function WithCode(counted: set<CmdId>, results: map<CmdId, ApplyResult>, code: ErrorCode): set<CmdId>
  {
    set c | c in counted && c in results && results[c].error == code
  }

  ghost predicate Tallies(k: Counters, results: map<CmdId, ApplyResult>)
  {
    && k.counted <= results.Keys
    && k.total == |k.counted| && k.total == k.success + k.failure
    && k.success == |WithCode(k.counted, results, Ok)|
    && k.timeout == |WithCode(k.counted, results, ApplyTimeout)|
  }

  /** The deltas published for a command that has not been counted. */
  function Uncounted(db: Db, cmd: Cmd): int
  {
    if cmd.id in db.counters.counted then 0 else DeltaSum(db.pub.marks, cmd.id, cmd.batch)
  }

  function UncountedAll(db: Db, cmds: seq<Cmd>): int
  {
    if cmds == [] then 0 else UncountedAll(db, cmds[..|cmds| - 1]) + Uncounted(db, cmds[|cmds| - 1])
  }

  ghost predicate Conserved(s: State)
  {
    s.db.counters.active + (if s.acked < |s.cmds| then Uncounted(s.db, s.cmds[s.acked]) else 0)
    == |ActiveIds(s.db.pub.conns)|
  }

  // ---------------------------------------------------------------- invariant

  ghost predicate CmdsOk(cmds: seq<Cmd>)
  {
    && (forall i | 0 <= i < |cmds| :: DistinctIds(cmds[i].batch))
    && (forall i, j | 0 <= i < j < |cmds| :: cmds[i].id != cmds[j].id)
  }

  ghost predicate Past(s: State)
  {
    forall i | 0 <= i < s.acked && i < |s.cmds| :: Finished(s.db, s.cmds[i])
  }

  ghost predicate TracesOk(s: State)
  {
    forall c | c in Traces(s.db) :: exists i :: 0 <= i <= s.acked && i < |s.cmds| && s.cmds[i].id == c
  }

  ghost predicate Current(s: State)
  {
    if s.acked < |s.cmds| then Ordered(s.db, s.cmds[s.acked]) && PcOk(s.db, s.cmds[s.acked], s.pc) else s.pc == Idle
  }

  ghost predicate Inv(s: State)
  {
    && s.acked <= |s.cmds| && CmdsOk(s.cmds)
    && Past(s) && TracesOk(s) && Current(s)
    && StateOnce(s.db.pub) && ResultOnce(s.db.out) && ContentOk(s.db)
    && Tallies(s.db.counters, s.db.results)
    && Conserved(s)
  }

  // ---------------------------------------------------------------- frames

  /** `db` and `db'` agree on everything about command `id`. */
  ghost predicate Same(db: Db, db': Db, id: CmdId)
  {
    && (id in db.attempts <==> id in db'.attempts)
    && (id in db.results <==> id in db'.results) && (id in db.results ==> db.results[id] == db'.results[id])
    && (id in db.processed <==> id in db'.processed) && (id in db.processed ==> db.processed[id] == db'.processed[id])
    && (id in db.counters.counted <==> id in db'.counters.counted)
    && SameMarks(db, db', id)
  }

  ghost predicate SameMarks(db: Db, db': Db, id: CmdId)
  {
    forall k ::
      && ((id, k) in db.pub.marks <==> (id, k) in db'.pub.marks)
      && ((id, k) in db.pub.marks ==> db.pub.marks[(id, k)] == db'.pub.marks[(id, k)])
      && ((id, k) in db.out.marks <==> (id, k) in db'.out.marks)
  }

  lemma ReportId(db: Db, cmd: Cmd, i: nat)
    requires i < ReportCount(cmd) && cmd.id in db.results
    ensures ReportAt(db, cmd, i).cmd == cmd.id
    ensures ReportAt(db, cmd, i).id == if cmd.batch == [] then cmd.resource else cmd.batch[i].id
  {
  }

  lemma FinishedFrame(db: Db, db': Db, cmd: Cmd)
    requires Same(db, db', cmd.id) && Finished(db, cmd)
    ensures Finished(db', cmd)
  {
    if Skipped(db, cmd.id) {
      assert NothingPublished(db', cmd.id);
    } else {
      forall i | 0 <= i < ReportCount(cmd) ensures (cmd.id, ReportAt(db', cmd, i).id) in db'.out.marks {
        ReportId(db, cmd, i);
        ReportId(db', cmd, i);
      }
    }
  }

  lemma TracesFrame(db: Db, db': Db, c: CmdId)
    requires Same(db, db', c) && c in Traces(db')
    ensures c in Traces(db)
  {
    if c in set k | k in db'.pub.marks :: k.0 {
      var k :| k in db'.pub.marks && k.0 == c;
      assert (c, k.1) in db.pub.marks;
    } else if c in set k | k in db'.out.marks :: k.0 {
      var k :| k in db'.out.marks && k.0 == c;
      assert (c, k.1) in db.out.marks;
    }
  }

  ghost predicate Books(db: Db)
  {
    StateOnce(db.pub) && ResultOnce(db.out) && ContentOk(db) && Tallies(db.counters, db.results)
  }

  /** A step of the worker on the current command keeps the invariant if it leaves every other
      command alone. */
  lemma WorkKeepsInv(s: State, s': State, cmd: Cmd)
    requires Inv(s) && s.acked < |s.cmds| && cmd == s.cmds[s.acked]
    requires s'.cmds == s.cmds && s'.acked == s.acked
    requires forall c | c != cmd.id :: Same(s.db, s'.db, c)
    requires Ordered(s'.db, cmd) && PcOk(s'.db, cmd, s'.pc)
    requires Books(s'.db) && Conserved(s')
    ensures Inv(s')
  {
    forall i | 0 <= i < s'.acked ensures Finished(s'.db, s'.cmds[i]) {
      assert s.cmds[i].id != cmd.id;
      assert Finished(s.db, s.cmds[i]);
      FinishedFrame(s.db, s'.db, s.cmds[i]);
    }
    forall c | c in Traces(s'.db) ensures exists i :: 0 <= i <= s'.acked && i < |s'.cmds| && s'.cmds[i].id == c {
      if c == cmd.id {
        assert s'.cmds[s'.acked].id == c;
      } else {
        TracesFrame(s.db, s'.db, c);
      }
    }
  }

  lemma {:induction false} DeltaSumZero(marks: map<(CmdId, string), Mark>, id: CmdId, batch: seq<Command>)
    requires forall k :: (id, k) !in marks
    ensures DeltaSum(marks, id, batch) == 0
  {
    if batch != [] { DeltaSumZero(marks, id, batch[..|batch| - 1]); }
  }

  lemma {:induction false} DeltaSumFrame(marks: map<(CmdId, string), Mark>, id: CmdId, k: string, m: Mark,
                                         batch: seq<Command>)
    requires forall c | c in batch :: c.id != k
    ensures DeltaSum(marks[(id, k) := m], id, batch) == DeltaSum(marks, id, batch)
  {
    if batch != [] {
      var n := |batch| - 1;
      assert batch[n] in batch;
      DeltaSumFrame(marks, id, k, m, batch[..n]);
    }
  }

  /** A new marker for one member adds exactly its delta. */
  lemma {:induction false} DeltaSumAdds(marks: map<(CmdId, string), Mark>, id: CmdId, i: nat, m: Mark,
                                        batch: seq<Command>)
    requires DistinctIds(batch) && i < |batch| && (id, batch[i].id) !in marks
    ensures DeltaSum(marks[(id, batch[i].id) := m], id, batch) == DeltaSum(marks, id, batch) + DeltaOf(m)
  {
    var n := |batch| - 1;
    if i == n {
      DeltaSumFrame(marks, id, batch[i].id, m, batch[..n]);
    } else {
      assert batch[..n][i] == batch[i];
      DeltaSumAdds(marks, id, i, m, batch[..n]);
    }
  }

  // ---------------------------------------------------------------- one member

  lemma ActiveAfter(conns: map<string, ConnState>, k: string, state: Option<ConnState>)
    ensures var conns' := if state.Some? then conns[k := state.value] else conns - {k};
      ActiveIds(conns') == if WasActive(state) then ActiveIds(conns) + {k} else ActiveIds(conns) - {k}
  {
  }

  lemma NewStateActive(prev: Option<ConnState>, c: Command, r: ApplyResult)
    requires !Omits(c, r)
    ensures WasActive(NewState(prev, c, r)) == if r.error == Ok then c.op.Upsert? else WasActive(prev)
  {
  }

  /** The snapshots change by exactly the delta that the marker records. */
  lemma ActiveChanges(p: Pub, id: CmdId, c: Command, r: ApplyResult)
    requires (id, c.id) !in p.marks && !Throws(p, id, c, r)
    ensures var p' := PublishMember(p, id, c, r);
      && (id, c.id) in p'.marks
      && p'.marks == p.marks[(id, c.id) := p'.marks[(id, c.id)]]
      && |ActiveIds(p'.conns)| == |ActiveIds(p.conns)| + DeltaOf(p'.marks[(id, c.id)])
  {
    var prev := Prev(p, c.id);
    if !IsSuperseded(prev, c) && !Preserves(prev, c, r) {
      ActiveAfter(p.conns, c.id, NewState(prev, c, r));
      NewStateActive(prev, c, r);
      assert c.id in ActiveIds(p.conns) <==> WasActive(prev);
    }
  }

  lemma StateEventsGrow(es: seq<StateEvent>, e: StateEvent, id: CmdId, k: string)
    ensures StateEventsFor(es + [e], id, k) == StateEventsFor(es, id, k) + if e.cmd == id && e.id == k then 1 else 0
  {
    assert (es + [e])[..|es|] == es;
  }

  lemma ResultEventsGrow(es: seq<ResultEvent>, e: ResultEvent, id: CmdId, k: string)
    ensures ResultEventsFor(es + [e], id, k) == ResultEventsFor(es, id, k) + if e.cmd == id && e.id == k then 1 else 0
  {
    assert (es + [e])[..|es|] == es;
  }

  ghost predicate CountedOnce(p: Pub, id: CmdId, k: string)
  {
    StateEventsFor(p.events, id, k) == if (id, k) in p.marks && p.marks[(id, k)].Published? then 1 else 0
  }

  lemma CountedOnceKept(p: Pub, id: CmdId, c: Command, r: ApplyResult, i: CmdId, k: string)
    requires CountedOnce(p, i, k)
    ensures CountedOnce(PublishMember(p, id, c, r), i, k)
  {
    var p' := PublishMember(p, id, c, r);
    if |p'.events| > |p.events| { StateEventsGrow(p.events, p'.events[|p.events|], i, k); }
  }

  lemma StateOnceKept(p: Pub, id: CmdId, c: Command, r: ApplyResult)
    requires StateOnce(p)
    ensures StateOnce(PublishMember(p, id, c, r))
  {
    forall i, k ensures CountedOnce(PublishMember(p, id, c, r), i, k) {
      CountedOnceKept(p, id, c, r, i, k);
    }
  }

  lemma ResultOnceKept(o: Out, e: ResultEvent)
    requires ResultOnce(o)
    ensures ResultOnce(Report(o, e))
  {
    var o' := Report(o, e);
    forall i, k ensures ResultEventsFor(o'.events, i, k) == if (i, k) in o'.marks then 1 else 0 {
      assert ResultEventsFor(o.events, i, k) == if (i, k) in o.marks then 1 else 0;
      if (e.cmd, e.id) !in o.marks { ResultEventsGrow(o.events, e, i, k); }
    }
  }

  lemma PublishContent(db: Db, id: CmdId, c: Command)
    requires ContentOk(db) && id in db.results && !Throws(db.pub, id, c, db.results[id])
    ensures ContentOk(db.(pub := PublishMember(db.pub, id, c, db.results[id])))
  {
    var p, r := db.pub, db.results[id];
    var p' := PublishMember(p, id, c, r);
    var db' := db.(pub := p');
    forall i | 0 <= i < |p'.events| ensures StateEventOk(db'.results, p'.events[i]) {
      if i < |p.events| { assert p'.events[i] == p.events[i]; }
    }
    forall i | 0 <= i < |db'.out.events| ensures ResultEventOk(db', db'.out.events[i]) {
      assert ResultEventOk(db, db.out.events[i]);
    }
  }

  // ---------------------------------------------------------------- every step of the worker

  /** Storing a result for a command without effects disturbs no books. */
  lemma StoreKeepsBooks(db: Db, cmd: Cmd, r: ApplyResult)
    requires Books(db) && Ordered(db, cmd) && cmd.id !in db.results
    ensures Books(db.(results := db.results[cmd.id := r]))
  {
    var k, results' := db.counters, db.results[cmd.id := r];
    assert WithCode(k.counted, results', Ok) == WithCode(k.counted, db.results, Ok);
    assert WithCode(k.counted, results', ApplyTimeout) == WithCode(k.counted, db.results, ApplyTimeout);
    var db' := db.(results := results');
    forall i | 0 <= i < |db.out.events| ensures ResultEventOk(db', db'.out.events[i]) {
      assert ResultEventOk(db, db.out.events[i]);
      assert ResultEventsMarked(db, i) by { ResultEventIsMarked(db, i); }
    }
    forall i | 0 <= i < |db.pub.events| ensures StateEventOk(results', db.pub.events[i]) {
      assert StateEventOk(db.results, db.pub.events[i]);
    }
  }

  ghost predicate ResultEventsMarked(db: Db, i: nat)
    requires i < |db.out.events|
  {
    (db.out.events[i].cmd, db.out.events[i].id) in db.out.marks
  }

  lemma ResultEventIsMarked(db: Db, i: nat)
    requires Books(db) && i < |db.out.events|
    ensures ResultEventsMarked(db, i)
  {
    var e := db.out.events[i];
    EventCounted(db.out.events, i);
    assert ResultEventsFor(db.out.events, e.cmd, e.id) == if (e.cmd, e.id) in db.out.marks then 1 else 0;
  }

  lemma {:induction false} EventCounted(es: seq<ResultEvent>, i: nat)
    requires i < |es|
    ensures ResultEventsFor(es, es[i].cmd, es[i].id) >= 1
  {
    if i < |es| - 1 { EventCounted(es[..|es| - 1], i); }
  }

  lemma StoreKeepsInv(s: State, cmd: Cmd, r: ApplyResult)
    requires Inv(s) && s.acked < |s.cmds| && cmd == s.cmds[s.acked]
    requires cmd.id !in s.db.results && cmd.id !in s.db.processed
    requires !cmd.decodes ==> r == ApplyResult(ProtocolMalformed, [])
    ensures Inv(StoreResult(s, cmd, r))
  {
    var s' := StoreResult(s, cmd, r);
    StoreKeepsBooks(s.db, cmd, r);
    WorkKeepsInv(s, s', cmd);
  }

  lemma SkipKeepsInv(s: State, cmd: Cmd)
    requires Inv(s) && s.acked < |s.cmds| && cmd == s.cmds[s.acked]
    requires cmd.id !in s.db.results && cmd.id !in s.db.processed
    ensures Inv(s.(pc := Acking, db := s.db.(processed := s.db.processed[cmd.id := false])))
  {
    var s' := s.(pc := Acking, db := s.db.(processed := s.db.processed[cmd.id := false]));
    assert Skipped(s'.db, cmd.id);
    OtherBooks(s.db, s'.db);
    WorkKeepsInv(s, s', cmd);
  }

  /** Books do not look at attempts, processed markers and versions. */
  lemma OtherBooks(db: Db, db': Db)
    requires Books(db) && db'.results == db.results && db'.pub == db.pub && db'.counters == db.counters
    requires db'.out == db.out
    ensures Books(db')
  {
    forall j | 0 <= j < |db'.out.events| ensures ResultEventOk(db', db'.out.events[j]) {
      assert ResultEventOk(db, db.out.events[j]);
    }
  }

  lemma AttemptKeepsInv(s: State, cmd: Cmd)
    requires Inv(s) && s.acked < |s.cmds| && cmd == s.cmds[s.acked]
    requires cmd.id !in s.db.results && cmd.id !in s.db.processed && cmd.decodes
    ensures Inv(s.(pc := Calling, db := s.db.(attempts := s.db.attempts + {cmd.id})))
  {
    var s' := s.(pc := Calling, db := s.db.(attempts := s.db.attempts + {cmd.id}));
    OtherBooks(s.db, s'.db);
    assert NothingPublished(s'.db, cmd.id);
    WorkKeepsInv(s, s', cmd);
  }

  lemma BeginKeepsInv(s: State, cmd: Cmd)
    requires Inv(s) && s.acked < |s.cmds| && cmd == s.cmds[s.acked]
    ensures Inv(Begin(s, cmd))
  {
    if cmd.id in s.db.processed {
      WorkKeepsInv(s, s.(pc := Acking), cmd);
    } else if cmd.id in s.db.results {
      assert s.db.results[cmd.id := s.db.results[cmd.id]] == s.db.results;
      WorkKeepsInv(s, s.(pc := Publishing(0, 0)), cmd);
    } else if !cmd.decodes {
      StoreKeepsInv(s, cmd, ApplyResult(ProtocolMalformed, []));
    } else if cmd.id !in s.db.attempts && IsStale(s.db.versions, s.generation, cmd.batch) {
      SkipKeepsInv(s, cmd);
    } else {
      AttemptKeepsInv(s, cmd);
    }
  }

  lemma PublishOrder(db: Db, cmd: Cmd, i: nat, pub: Pub)
    requires Ordered(db, cmd) && cmd.id in db.results && cmd.id !in db.processed && i < |cmd.batch|
    requires AllMarked(db, cmd.id, cmd.batch[..i])
    requires db.pub.marks.Keys <= pub.marks.Keys && (cmd.id, cmd.batch[i].id) in pub.marks
    ensures Ordered(db.(pub := pub), cmd) && AllMarked(db.(pub := pub), cmd.id, cmd.batch[..i + 1])
  {
    assert cmd.batch[..i + 1] == cmd.batch[..i] + [cmd.batch[i]];
  }

  lemma PublishSame(db: Db, id: CmdId, c: Command, r: ApplyResult, other: CmdId)
    requires other != id
    ensures Same(db, db.(pub := PublishMember(db.pub, id, c, r)), other)
  {
  }

  /** Publishing one more member: what the worker has summed up, and what is still to be counted. */
  lemma PublishSums(db: Db, cmd: Cmd, i: nat)
    requires DistinctIds(cmd.batch) && i < |cmd.batch| && cmd.id in db.results
    requires cmd.id in db.counters.counted ==> AllMarked(db, cmd.id, cmd.batch)
    requires !Throws(db.pub, cmd.id, cmd.batch[i], db.results[cmd.id])
    ensures var p, p' := db.pub, PublishMember(db.pub, cmd.id, cmd.batch[i], db.results[cmd.id]);
      && p.marks.Keys <= p'.marks.Keys && (cmd.id, cmd.batch[i].id) in p'.marks
      && DeltaSum(p'.marks, cmd.id, cmd.batch[..i + 1])
         == DeltaSum(p.marks, cmd.id, cmd.batch[..i]) + DeltaOf(p'.marks[(cmd.id, cmd.batch[i].id)])
      && Uncounted(db.(pub := p'), cmd) - Uncounted(db, cmd) == |ActiveIds(p'.conns)| - |ActiveIds(p.conns)|
  {
    var p, c, r := db.pub, cmd.batch[i], db.results[cmd.id];
    var p' := PublishMember(p, cmd.id, c, r);
    assert cmd.batch[..i + 1][..i] == cmd.batch[..i];
    if (cmd.id, c.id) !in p.marks {
      ActiveChanges(p, cmd.id, c, r);
      DeltaSumAdds(p.marks, cmd.id, i, p'.marks[(cmd.id, c.id)], cmd.batch);
      DeltaSumFrame(p.marks, cmd.id, c.id, p'.marks[(cmd.id, c.id)], cmd.batch[..i]);
    }
  }

  lemma PublishOneKeepsInv(s: State, cmd: Cmd, i: nat, delta: int)
    requires Inv(s) && s.acked < |s.cmds| && cmd == s.cmds[s.acked]
    requires s.pc == Publishing(i, delta) && i < |cmd.batch|
    requires !Throws(s.db.pub, cmd.id, cmd.batch[i], s.db.results[cmd.id])
    ensures Inv(Publish(s, cmd, i, delta))
  {
    var db, c, r := s.db, cmd.batch[i], s.db.results[cmd.id];
    var s' := Publish(s, cmd, i, delta);
    StateOnceKept(db.pub, cmd.id, c, r);
    PublishContent(db, cmd.id, c);
    PublishSums(db, cmd, i);
    PublishOrder(db, cmd, i, s'.db.pub);
    forall o | o != cmd.id ensures Same(s.db, s'.db, o) { PublishSame(db, cmd.id, c, r, o); }
    WorkKeepsInv(s, s', cmd);
  }

  lemma CountKeepsTallies(k: Counters, results: map<CmdId, ApplyResult>, id: CmdId, delta: int)
    requires Tallies(k, results) && id in results
    ensures Tallies(Count(k, id, results[id], delta), results)
  {
    if id !in k.counted {
      var k' := Count(k, id, results[id], delta);
      var ok, late := WithCode(k.counted, results, Ok), WithCode(k.counted, results, ApplyTimeout);
      assert WithCode(k'.counted, results, Ok) == if results[id].error == Ok then ok + {id} else ok;
      assert WithCode(k'.counted, results, ApplyTimeout) ==
        if results[id].error == ApplyTimeout then late + {id} else late;
    }
  }

  lemma CountBooks(db: Db, cmd: Cmd, delta: int, db': Db)
    requires Books(db) && cmd.id in db.results
    requires db' == db.(counters := Count(db.counters, cmd.id, db.results[cmd.id], delta))
    ensures Books(db')
  {
    CountKeepsTallies(db.counters, db.results, cmd.id, delta);
    forall j | 0 <= j < |db.out.events| ensures ResultEventOk(db', db'.out.events[j]) {
      assert ResultEventOk(db, db.out.events[j]);
    }
  }

  lemma CountOrder(db: Db, cmd: Cmd, delta: int, db': Db)
    requires Ordered(db, cmd) && cmd.id in db.results && cmd.id !in db.processed && AllMarked(db, cmd.id, cmd.batch)
    requires db' == db.(counters := Count(db.counters, cmd.id, db.results[cmd.id], delta))
    ensures Ordered(db', cmd) && forall c | c != cmd.id :: Same(db, db', c)
  {
  }

  lemma CountKeepsInv(s: State, cmd: Cmd, i: nat, delta: int)
    requires Inv(s) && s.acked < |s.cmds| && cmd == s.cmds[s.acked]
    requires s.pc == Publishing(i, delta) && i == |cmd.batch|
    ensures Inv(Publish(s, cmd, i, delta))
  {
    var s' := Publish(s, cmd, i, delta);
    assert cmd.batch[..i] == cmd.batch;
    CountBooks(s.db, cmd, delta, s'.db);
    CountOrder(s.db, cmd, delta, s'.db);
    WorkKeepsInv(s, s', cmd);
  }

  lemma ReportContent(db: Db, cmd: Cmd, i: nat)
    requires ContentOk(db) && cmd.id in db.results && i < ReportCount(cmd)
    ensures ContentOk(db.(out := Report(db.out, ReportAt(db, cmd, i))))
  {
    var db' := db.(out := Report(db.out, ReportAt(db, cmd, i)));
    forall j | 0 <= j < |db'.out.events| ensures ResultEventOk(db', db'.out.events[j]) {
      if j < |db.out.events| {
        assert ResultEventOk(db, db.out.events[j]);
      } else if cmd.batch != [] && (cmd.id, cmd.batch[i].id) in db.pub.marks {
        assert MarkOk(db.results, cmd.id, db.pub.marks[(cmd.id, cmd.batch[i].id)]);
      }
    }
  }

  lemma ReportedMore(db: Db, cmd: Cmd, i: nat, db': Db)
    requires cmd.id in db.results && i < ReportCount(cmd) && ReportedUpTo(db, cmd, i)
    requires db' == db.(out := Report(db.out, ReportAt(db, cmd, i)))
    ensures ReportedUpTo(db', cmd, i + 1)
  {
    forall j | 0 <= j < i + 1 && j < ReportCount(cmd) ensures (cmd.id, ReportAt(db', cmd, j).id) in db'.out.marks {
      ReportId(db, cmd, j);
      ReportId(db', cmd, j);
    }
  }

  lemma ReportOrder(db: Db, cmd: Cmd, i: nat, db': Db)
    requires Ordered(db, cmd) && cmd.id in db.results && cmd.id in db.counters.counted && cmd.id !in db.processed
    requires i < ReportCount(cmd) && db' == db.(out := Report(db.out, ReportAt(db, cmd, i)))
    ensures Ordered(db', cmd) && forall c | c != cmd.id :: Same(db, db', c)
  {
    ReportId(db, cmd, i);
  }

  lemma ReportOneKeepsInv(s: State, cmd: Cmd, i: nat)
    requires Inv(s) && s.acked < |s.cmds| && cmd == s.cmds[s.acked]
    requires s.pc == Reporting(i) && i < ReportCount(cmd)
    ensures Inv(ReportNext(s, cmd, i))
  {
    var s' := ReportNext(s, cmd, i);
    ResultOnceKept(s.db.out, ReportAt(s.db, cmd, i));
    ReportContent(s.db, cmd, i);
    ReportedMore(s.db, cmd, i, s'.db);
    ReportOrder(s.db, cmd, i, s'.db);
    WorkKeepsInv(s, s', cmd);
  }

  lemma MarkKeepsInv(s: State, cmd: Cmd, i: nat)
    requires Inv(s) && s.acked < |s.cmds| && cmd == s.cmds[s.acked]
    requires s.pc == Reporting(i) && i == ReportCount(cmd)
    ensures Inv(ReportNext(s, cmd, i))
  {
    var s' := ReportNext(s, cmd, i);
    forall j | 0 <= j < i ensures (cmd.id, ReportAt(s'.db, cmd, j).id) in s'.db.out.marks {
      ReportId(s.db, cmd, j);
      ReportId(s'.db, cmd, j);
    }
    forall j | 0 <= j < |s.db.out.events| ensures ResultEventOk(s'.db, s'.db.out.events[j]) {
      assert ResultEventOk(s.db, s.db.out.events[j]);
    }
    WorkKeepsInv(s, s', cmd);
  }

  /** A finished command owes the counters nothing. */
  lemma FinishedOwesNothing(db: Db, cmd: Cmd)
    requires Finished(db, cmd)
    ensures Uncounted(db, cmd) == 0
  {
    if Skipped(db, cmd.id) { DeltaSumZero(db.pub.marks, cmd.id, cmd.batch); }
  }

  lemma MarksAreTraces(db: Db, id: CmdId, k: string)
    ensures (id, k) in db.pub.marks || (id, k) in db.out.marks ==> id in Traces(db)
  {
    if (id, k) in db.pub.marks { assert (id, k).0 in Traces(db); }
    if (id, k) in db.out.marks { assert (id, k).0 in Traces(db); }
  }

  lemma UntracedIsOrdered(db: Db, cmd: Cmd)
    requires cmd.id !in Traces(db)
    ensures Ordered(db, cmd) && Uncounted(db, cmd) == 0
  {
    forall k ensures (cmd.id, k) !in db.pub.marks && (cmd.id, k) !in db.out.marks {
      MarksAreTraces(db, cmd.id, k);
    }
    DeltaSumZero(db.pub.marks, cmd.id, cmd.batch);
  }

  /** Commands after the current one have left no trace. */
  lemma FutureUntraced(s: State, i: nat)
    requires TracesOk(s) && CmdsOk(s.cmds) && s.acked < i < |s.cmds|
    ensures s.cmds[i].id !in Traces(s.db)
  {
  }

  lemma AckKeepsTraces(s: State, s': State)
    requires TracesOk(s) && s'.cmds == s.cmds && s'.db == s.db && s.acked <= s'.acked
    ensures TracesOk(s')
  {
    forall c | c in Traces(s'.db) ensures exists i :: 0 <= i <= s'.acked && i < |s'.cmds| && s'.cmds[i].id == c {
      var i :| 0 <= i <= s.acked && i < |s.cmds| && s.cmds[i].id == c;
      assert s'.cmds[i].id == c;
    }
  }

  lemma NextIsFresh(s: State, s': State)
    requires TracesOk(s) && CmdsOk(s.cmds) && s.acked < |s.cmds|
    requires s' == s.(acked := s.acked + 1, pc := Idle)
    requires s.db.counters.active == |ActiveIds(s.db.pub.conns)|
    ensures Current(s') && Conserved(s')
  {
    if s'.acked < |s'.cmds| {
      FutureUntraced(s, s'.acked);
      UntracedIsOrdered(s.db, s'.cmds[s'.acked]);
    }
  }

  lemma AckKeepsInv(s: State, cmd: Cmd)
    requires Inv(s) && s.acked < |s.cmds| && cmd == s.cmds[s.acked] && s.pc == Acking
    ensures Inv(s.(acked := s.acked + 1, pc := Idle))
  {
    var s' := s.(acked := s.acked + 1, pc := Idle);
    var db := s.db;
    assert Finished(db, cmd);
    FinishedOwesNothing(db, cmd);
    AckKeepsTraces(s, s');
    NextIsFresh(s, s');
  }

  lemma PublishKeepsInv(s: State, cmd: Cmd, i: nat, delta: int)
    requires Inv(s) && s.acked < |s.cmds| && cmd == s.cmds[s.acked] && s.pc == Publishing(i, delta)
    ensures Inv(Publish(s, cmd, i, delta))
  {
    if i == |cmd.batch| {
      CountKeepsInv(s, cmd, i, delta);
    } else if Throws(s.db.pub, cmd.id, cmd.batch[i], s.db.results[cmd.id]) {
      WorkKeepsInv(s, s.(pc := Idle), cmd);
    } else {
      PublishOneKeepsInv(s, cmd, i, delta);
    }
  }

  lemma ReportKeepsInv(s: State, cmd: Cmd, i: nat)
    requires Inv(s) && s.acked < |s.cmds| && cmd == s.cmds[s.acked] && s.pc == Reporting(i)
    ensures Inv(ReportNext(s, cmd, i))
  {
    assert PcOk(s.db, cmd, s.pc);
    if i < ReportCount(cmd) { ReportOneKeepsInv(s, cmd, i); } else { MarkKeepsInv(s, cmd, i); }
  }

  lemma CallKeepsInv(s: State, cmd: Cmd, a: Answer)
    requires Inv(s) && s.acked < |s.cmds| && cmd == s.cmds[s.acked] && s.pc.Calling?
    ensures Inv(Call(s, cmd, a))
  {
    WorkKeepsInv(s, Call(s, cmd, a), cmd);
  }

  lemma WorkKeeps(s: State, a: Answer)
    requires Inv(s) && s.acked < |s.cmds|
    ensures Inv(Work(s, s.cmds[s.acked], a))
  {
    var cmd := s.cmds[s.acked];
    assert PcOk(s.db, cmd, s.pc);
    match s.pc
    case Idle => BeginKeepsInv(s, cmd);
    case Calling => CallKeepsInv(s, cmd, a);
    case Called(r) => StoreKeepsInv(s, cmd, r);
    case Publishing(i, delta) => PublishKeepsInv(s, cmd, i, delta);
    case Reporting(i) => ReportKeepsInv(s, cmd, i);
    case Acking => AckKeepsInv(s, cmd);
  }

  lemma AppendKeepsInv(s: State, cmd: Cmd)
    requires Inv(s) && Admits(s.cmds, cmd)
    ensures Inv(s.(cmds := s.cmds + [cmd]))
  {
    var s' := s.(cmds := s.cmds + [cmd]);
    AppendKeepsTraces(s, cmd);
    AppendKeepsCurrent(s, cmd);
  }

  lemma AppendKeepsTraces(s: State, cmd: Cmd)
    requires TracesOk(s)
    ensures TracesOk(s.(cmds := s.cmds + [cmd]))
  {
    var s' := s.(cmds := s.cmds + [cmd]);
    forall c | c in Traces(s'.db) ensures exists i :: 0 <= i <= s'.acked && i < |s'.cmds| && s'.cmds[i].id == c {
      var i :| 0 <= i <= s.acked && i < |s.cmds| && s.cmds[i].id == c;
      assert s'.cmds[i].id == c;
    }
  }

  lemma AppendKeepsCurrent(s: State, cmd: Cmd)
    requires TracesOk(s) && Current(s) && Conserved(s) && Admits(s.cmds, cmd) && s.acked <= |s.cmds|
    ensures Current(s.(cmds := s.cmds + [cmd])) && Conserved(s.(cmds := s.cmds + [cmd]))
  {
    if s.acked == |s.cmds| {
      assert cmd.id !in Traces(s.db);
      UntracedIsOrdered(s.db, cmd);
    }
  }

  lemma StepKeepsInv(s: State, a: Action)
    requires Inv(s)
    ensures Inv(Step(s, a))
  {
    match a
    case Append(cmd) => if Admits(s.cmds, cmd) { AppendKeepsInv(s, cmd); }
    case Next(answer) => if s.acked < |s.cmds| { WorkKeeps(s, answer); }
    case Crash =>
    case Observe(g) =>
  }

  lemma {:induction false} InvOverRuns(s: State, actions: seq<Action>)
    requires Inv(s)
    ensures Inv(Run(s, actions))
  {
    if actions != [] {
      InvOverRuns(s, actions[..|actions| - 1]);
      StepKeepsInv(Run(s, actions[..|actions| - 1]), actions[|actions| - 1]);
    }
  }

  // ---------------------------------------------------------------- reachable states

  ghost predicate Reachable(start: State, s: State)
  {
    Runs.Reachable(Step, start, s)
  }

  lemma {:induction false} RunIsFold(s: State, actions: seq<Action>)
    ensures Run(s, actions) == Runs.Fold(Step, s, actions)
  {
    if actions != [] { RunIsFold(s, actions[..|actions| - 1]); }
  }

  /** The reachable states are those at the end of some run. */
  lemma ReachableIffRun(start: State, s: State)
    ensures Reachable(start, s) <==> exists actions :: s == Run(start, actions)
  {
    Runs.ReachableIffRun(Step, start, s);
    if actions: seq<Action> :| s == Run(start, actions) { RunIsFold(start, actions); }
    if actions: seq<Action> :| s == Runs.Fold(Step, start, actions) { RunIsFold(start, actions); }
  }

  // ---------------------------------------------------------------- theorems

  lemma InitOk(conns: map<string, ConnState>, versions: map<string, Version>, generation: nat)
    ensures Inv(Init(conns, versions, generation))
  {
    var s := Init(conns, versions, generation);
    assert WithCode({}, map[], Ok) == {} && WithCode({}, map[], ApplyTimeout) == {};
  }

  /** A command as a consumer of the streams sees it once it is acknowledged: either every member has
      exactly one result event, at most one state event, and the command was counted, or the
      command was skipped as stale and nothing at all was published for it. */
  ghost predicate Settled(db: Db, cmd: Cmd)
  {
    || (&& cmd.id in db.results && cmd.id in db.counters.counted
        && (forall c | c in cmd.batch :: ResultEventsFor(db.out.events, cmd.id, c.id) == 1)
        && (cmd.batch == [] ==> ResultEventsFor(db.out.events, cmd.id, cmd.resource) == 1)
        && (forall c | c in cmd.batch :: (cmd.id, c.id) in db.pub.marks))
    || (&& cmd.id !in db.counters.counted && cmd.id !in db.results
        && forall k :: ResultEventsFor(db.out.events, cmd.id, k) == 0 && StateEventsFor(db.pub.events, cmd.id, k) == 0)
  }

  lemma FinishedIsSettled(db: Db, cmd: Cmd)
    requires Finished(db, cmd) && StateOnce(db.pub) && ResultOnce(db.out)
    ensures Settled(db, cmd)
  {
    forall k ensures (cmd.id, k) !in db.pub.marks ==> StateEventsFor(db.pub.events, cmd.id, k) == 0 {
      assert CountedOnce(db.pub, cmd.id, k);
    }
    if Complete(db, cmd) {
      forall c | c in cmd.batch ensures ResultEventsFor(db.out.events, cmd.id, c.id) == 1 {
        var i :| 0 <= i < |cmd.batch| && cmd.batch[i] == c;
        ReportId(db, cmd, i);
      }
      if cmd.batch == [] { ReportId(db, cmd, 0); }
    }
  }

  lemma ReachableInv(conns: map<string, ConnState>, versions: map<string, Version>, generation: nat, s: State)
    requires Reachable(Init(conns, versions, generation), s)
    ensures Inv(s)
    ensures PresenceRecorded(conns) ==> PresenceRecorded(s.db.pub.conns)
  {
    var start := Init(conns, versions, generation);
    ReachableIffRun(start, s);
    var actions :| s == Run(start, actions);
    InitOk(conns, versions, generation);
    InvOverRuns(start, actions);
    if PresenceRecorded(conns) { PresenceOverRuns(start, actions); }
  }

  /** Exactly-once effects over every run with crashes anywhere. */
  lemma ExactlyOnce(conns: map<string, ConnState>, versions: map<string, Version>, generation: nat, s: State)
    requires Reachable(Init(conns, versions, generation), s)
    ensures forall id, k :: StateEventsFor(s.db.pub.events, id, k) <= 1
    ensures forall id, k :: ResultEventsFor(s.db.out.events, id, k) <= 1
    ensures forall i | 0 <= i < |s.db.pub.events| :: StateEventOk(s.db.results, s.db.pub.events[i])
    ensures forall i | 0 <= i < |s.db.out.events| :: ResultEventOk(s.db, s.db.out.events[i])
    ensures Tallies(s.db.counters, s.db.results)
    ensures s.acked <= |s.cmds| && forall i | 0 <= i < s.acked :: Settled(s.db, s.cmds[i])
  {
    ReachableInv(conns, versions, generation, s);
    forall id, k ensures StateEventsFor(s.db.pub.events, id, k) <= 1 && ResultEventsFor(s.db.out.events, id, k) <= 1 {
      assert CountedOnce(s.db.pub, id, k);
      assert ResultEventsFor(s.db.out.events, id, k) == if (id, k) in s.db.out.marks then 1 else 0;
    }
    forall i | 0 <= i < s.acked ensures Settled(s.db, s.cmds[i]) {
      FinishedIsSettled(s.db, s.cmds[i]);
    }
  }

  /** There is one durable result per command: once stored it never changes. */
  lemma ResultKept(s: State, a: Action, id: CmdId)
    requires Inv(s) && id in s.db.results
    ensures id in Step(s, a).db.results && Step(s, a).db.results[id] == s.db.results[id]
  {
    if a.Next? && s.acked < |s.cmds| { WorkKeepsResult(s, s.cmds[s.acked], a.answer, id); }
  }

  lemma WorkKeepsResult(s: State, cmd: Cmd, a: Answer, id: CmdId)
    requires Ordered(s.db, cmd) && PcOk(s.db, cmd, s.pc) && id in s.db.results
    ensures id in Work(s, cmd, a).db.results && Work(s, cmd, a).db.results[id] == s.db.results[id]
  {
  }

  lemma {:induction false} ResultIsFinal(s: State, actions: seq<Action>, id: CmdId)
    requires Inv(s) && id in s.db.results
    ensures id in Run(s, actions).db.results && Run(s, actions).db.results[id] == s.db.results[id]
  {
    if actions != [] {
      ResultIsFinal(s, actions[..|actions| - 1], id);
      InvOverRuns(s, actions[..|actions| - 1]);
      ResultKept(Run(s, actions[..|actions| - 1]), actions[|actions| - 1], id);
    }
  }

  lemma OthersOweNothing(s: State, i: nat)
    requires Past(s) && TracesOk(s) && CmdsOk(s.cmds) && i < |s.cmds| && i != s.acked
    ensures Uncounted(s.db, s.cmds[i]) == 0
  {
    if i < s.acked {
      FinishedOwesNothing(s.db, s.cmds[i]);
    } else {
      FutureUntraced(s, i);
      UntracedIsOrdered(s.db, s.cmds[i]);
    }
  }

  /** Only the current command can have published deltas that are not counted. */
  lemma {:induction false} OnlyCurrentOwes(s: State, n: nat)
    requires Past(s) && TracesOk(s) && CmdsOk(s.cmds) && n <= |s.cmds|
    ensures UncountedAll(s.db, s.cmds[..n]) == if s.acked < n then Uncounted(s.db, s.cmds[s.acked]) else 0
  {
    if n > 0 {
      assert s.cmds[..n][..n - 1] == s.cmds[..n - 1];
      OnlyCurrentOwes(s, n - 1);
      if n - 1 != s.acked { OthersOweNothing(s, n - 1); }
    }
  }

  ghost predicate PresenceRecorded(conns: map<string, ConnState>)
  {
    forall k | k in conns :: conns[k].present.Some?
  }

  lemma {:induction false} PresenceOverRuns(s: State, actions: seq<Action>)
    requires PresenceRecorded(s.db.pub.conns)
    ensures PresenceRecorded(Run(s, actions).db.pub.conns)
  {
    if actions != [] {
      var t := Run(s, actions[..|actions| - 1]);
      PresenceOverRuns(s, actions[..|actions| - 1]);
      PresenceKept(t, actions[|actions| - 1]);
    }
  }

  lemma PresenceKept(s: State, a: Action)
    requires PresenceRecorded(s.db.pub.conns)
    ensures PresenceRecorded(Step(s, a).db.pub.conns)
  {
  }

  function Present(conns: map<string, ConnState>): set<string>
  {
    set k | k in conns && conns[k].present == Some(true)
  }

  /** At every point of every run, `active_connections` plus the deltas of state markers whose
      command is not yet counted is the number of connections whose state says present. */
  lemma Conservation(conns: map<string, ConnState>, versions: map<string, Version>, generation: nat, s: State)
    requires Reachable(Init(conns, versions, generation), s) && PresenceRecorded(conns)
    ensures s.db.counters.active + UncountedAll(s.db, s.cmds) == |Present(s.db.pub.conns)|
    ensures s.pc == Acking ==> s.db.counters.active == |Present(s.db.pub.conns)|
  {
    ReachableInv(conns, versions, generation, s);
    assert s.cmds[..|s.cmds|] == s.cmds;
    OnlyCurrentOwes(s, |s.cmds|);
    assert ActiveIds(s.db.pub.conns) == Present(s.db.pub.conns);
    if s.pc == Acking { FinishedOwesNothing(s.db, s.cmds[s.acked]); }
  }

  // ---------------------------------------------------------------- reported connections

  lemma {:induction false} FindIn(cs: seq<Applied>, id: string)
    ensures Find(cs, id).None? ==> forall i | 0 <= i < |cs| :: cs[i].id != id
    ensures Find(cs, id).Some? ==> Find(cs, id).value in cs && Find(cs, id).value.id == id
  {
    if cs != [] && cs[0].id != id {
      FindIn(cs[1..], id);
      forall i | 0 <= i < |cs| && Find(cs, id).None? ensures cs[i].id != id {
        if i > 0 { assert cs[i] == cs[1..][i - 1]; }
      }
    }
  }

  ghost predicate Keyed(m: Matrix)
  {
    forall k | k in m :: m[k].id == k
  }

  lemma {:induction false} ChangedAre(m: Matrix, cs: seq<Command>)
    requires Keyed(m)
    ensures forall e | e in DeviceModel.Changed(m, cs) :: e.id in m && e == m[e.id]
    ensures forall c | c in cs && c.id in m :: m[c.id] in DeviceModel.Changed(m, cs)
  {
    if cs != [] {
      var n := |cs| - 1;
      assert cs == cs[..n] + [cs[n]];
      ChangedAre(m, cs[..n]);
    }
  }

  /** A reported batch names each of its connections as the matrix holds it. */
  lemma ChangedHas(m: Matrix, cs: seq<Command>, c: Command)
    requires Keyed(m) && c in cs && c.id in m
    ensures Find(DeviceModel.Changed(m, cs), c.id) == Some(m[c.id])
  {
    var es := DeviceModel.Changed(m, cs);
    ChangedAre(m, cs);
    FindIn(es, c.id);
    var i :| 0 <= i < |es| && es[i] == m[c.id];
    assert es[i].id == c.id;
  }

  /** A failure is reported as success exactly if the device visibly holds all of the batch; then the
      report lists every upsert, and only what the device holds. Else the failure stays as it is. */
  lemma ConfirmedIffInPlace(batch: seq<Command>, result: ApplyResult, view: Option<DeviceModel.Core>)
    requires result.error != Ok && (view.Some? ==> Keyed(view.value.conns))
    ensures Confirmed(batch, result, view).error == Ok <==> batch != [] && view.Some? && InPlace(view.value, batch)
    ensures Confirmed(batch, result, view).error != Ok ==> Confirmed(batch, result, view) == result
    ensures Confirmed(batch, result, view).error == Ok ==>
      && (forall c | c in batch :: !Omits(c, Confirmed(batch, result, view)))
      && (forall c | c in batch && c.op.Upsert? :: ToApplied(c) in Confirmed(batch, result, view).connections)
      && (forall x | x in Confirmed(batch, result, view).connections ::
            x.id in view.value.conns && x == view.value.conns[x.id])
  {
    if Confirmed(batch, result, view).error == Ok {
      ChangedAre(view.value.conns, batch);
      forall c | c in batch ensures !Omits(c, Confirmed(batch, result, view)) {
        if c.op.Upsert? { ChangedHas(view.value.conns, batch, c); }
      }
    }
  }

  // ---------------------------------------------------------------- where events come from

  /** What the state event of member `c` says, given the stored result. */
  ghost predicate MemberEvent(c: Command, r: ApplyResult, e: StateEvent)
  {
    && e.id == c.id && e.version == c.version && e.op == (if r.error == Ok then c.op else Upsert)
    && (r.error == Ok && c.op.Upsert? ==>
          && e.state.Some? && e.state.value.input == c.input && e.state.value.output == c.output
          && Find(r.connections, c.id).Some? && e.state.value.applied == Find(r.connections, c.id).value.version)
  }

  ghost predicate FromMember(cmd: Cmd, results: map<CmdId, ApplyResult>, e: StateEvent)
  {
    e.cmd == cmd.id && cmd.id in results && exists c :: c in cmd.batch && MemberEvent(c, results[cmd.id], e)
  }

  ghost predicate FromCommand(cmds: seq<Cmd>, results: map<CmdId, ApplyResult>, e: StateEvent)
  {
    exists p :: 0 <= p < |cmds| && FromMember(cmds[p], results, e)
  }

  ghost predicate ResultFrom(cmd: Cmd, e: ResultEvent)
  {
    e.cmd == cmd.id &&
    ((cmd.batch == [] && e.id == cmd.resource && e.version == cmd.version)
     || exists c :: c in cmd.batch && e.id == c.id && e.version == c.version)
  }

  ghost predicate ResultFromCommand(cmds: seq<Cmd>, e: ResultEvent)
  {
    exists p :: 0 <= p < |cmds| && ResultFrom(cmds[p], e)
  }

  /** Every event was published for a member of a command in the stream. */
  ghost predicate Provenance(s: State)
  {
    && (forall i | 0 <= i < |s.db.pub.events| :: FromCommand(s.cmds, s.db.results, s.db.pub.events[i]))
    && (forall i | 0 <= i < |s.db.out.events| :: ResultFromCommand(s.cmds, s.db.out.events[i]))
  }

  /** Streams grow and results are final, so what is said of old events stays true. */
  lemma ProvenanceGrows(s: State, t: State)
    requires |s.cmds| <= |t.cmds| && (forall p | 0 <= p < |s.cmds| :: t.cmds[p] == s.cmds[p])
    requires forall id | id in s.db.results :: id in t.db.results && t.db.results[id] == s.db.results[id]
    ensures forall e | FromCommand(s.cmds, s.db.results, e) :: FromCommand(t.cmds, t.db.results, e)
    ensures forall e | ResultFromCommand(s.cmds, e) :: ResultFromCommand(t.cmds, e)
  {
    forall e | FromCommand(s.cmds, s.db.results, e) ensures FromCommand(t.cmds, t.db.results, e) {
      var p :| 0 <= p < |s.cmds| && FromMember(s.cmds[p], s.db.results, e);
      assert FromMember(t.cmds[p], t.db.results, e);
    }
    forall e | ResultFromCommand(s.cmds, e) ensures ResultFromCommand(t.cmds, e) {
      var p :| 0 <= p < |s.cmds| && ResultFrom(s.cmds[p], e);
      assert ResultFrom(t.cmds[p], e);
    }
  }

  lemma PublishedFromMember(p: Pub, cmd: Cmd, c: Command, results: map<CmdId, ApplyResult>)
    requires c in cmd.batch && cmd.id in results && !Throws(p, cmd.id, c, results[cmd.id])
    ensures var p' := PublishMember(p, cmd.id, c, results[cmd.id]);
      && |p.events| <= |p'.events| <= |p.events| + 1
      && (forall i | 0 <= i < |p.events| :: p'.events[i] == p.events[i])
      && (|p'.events| > |p.events| ==> FromMember(cmd, results, p'.events[|p.events|]))
  {
    var r := results[cmd.id];
    var p' := PublishMember(p, cmd.id, c, r);
    if |p'.events| > |p.events| {
      assert MemberEvent(c, r, p'.events[|p.events|]);
    }
  }

  lemma PublishKeepsProvenance(s: State, cmd: Cmd, i: nat, delta: int)
    requires Provenance(s) && s.acked < |s.cmds| && cmd == s.cmds[s.acked] && cmd.id in s.db.results
    ensures Provenance(Publish(s, cmd, i, delta))
  {
    var t := Publish(s, cmd, i, delta);
    if i < |cmd.batch| && !Throws(s.db.pub, cmd.id, cmd.batch[i], s.db.results[cmd.id]) {
      PublishedFromMember(s.db.pub, cmd, cmd.batch[i], s.db.results);
      forall j | 0 <= j < |t.db.pub.events| ensures FromCommand(t.cmds, t.db.results, t.db.pub.events[j]) {
        if j < |s.db.pub.events| {
          assert FromCommand(s.cmds, s.db.results, s.db.pub.events[j]);
        } else {
          assert FromMember(t.cmds[t.acked], t.db.results, t.db.pub.events[j]);
        }
      }
    }
  }

  lemma ReportKeepsProvenance(s: State, cmd: Cmd, i: nat)
    requires Provenance(s) && s.acked < |s.cmds| && cmd == s.cmds[s.acked] && cmd.id in s.db.results
    ensures Provenance(ReportNext(s, cmd, i))
  {
    var t := ReportNext(s, cmd, i);
    forall j | 0 <= j < |t.db.out.events| ensures ResultFromCommand(t.cmds, t.db.out.events[j]) {
      if j < |s.db.out.events| {
        assert ResultFromCommand(s.cmds, s.db.out.events[j]);
      } else {
        assert t.db.out.events[j] == ReportAt(s.db, cmd, i);
        assert cmd.batch != [] ==> cmd.batch[i] in cmd.batch;
        assert ResultFrom(t.cmds[t.acked], t.db.out.events[j]);
      }
    }
  }

  lemma QuietProvenance(s: State, t: State)
    requires Provenance(s) && |s.cmds| <= |t.cmds| && (forall p | 0 <= p < |s.cmds| :: t.cmds[p] == s.cmds[p])
    requires forall id | id in s.db.results :: id in t.db.results && t.db.results[id] == s.db.results[id]
    requires t.db.pub == s.db.pub && t.db.out == s.db.out
    ensures Provenance(t)
  {
    ProvenanceGrows(s, t);
  }

  lemma OtherStepsPublishNothing(s: State, a: Action)
    requires a.Next? ==> !s.pc.Publishing? && !s.pc.Reporting?
    ensures var t := Step(s, a);
      && t.db.pub == s.db.pub && t.db.out == s.db.out
      && |s.cmds| <= |t.cmds| && (forall p | 0 <= p < |s.cmds| :: t.cmds[p] == s.cmds[p])
  {
  }

  lemma ProvenanceKept(s: State, a: Action)
    requires Inv(s) && Provenance(s)
    ensures Provenance(Step(s, a))
  {
    if a.Next? && s.acked < |s.cmds| && s.pc.Publishing? {
      assert PcOk(s.db, s.cmds[s.acked], s.pc);
      PublishKeepsProvenance(s, s.cmds[s.acked], s.pc.i, s.pc.delta);
    } else if a.Next? && s.acked < |s.cmds| && s.pc.Reporting? {
      assert PcOk(s.db, s.cmds[s.acked], s.pc);
      ReportKeepsProvenance(s, s.cmds[s.acked], s.pc.i);
    } else if a.Next? && s.acked >= |s.cmds| {
    } else {
      OtherStepsPublishNothing(s, a);
      forall id | id in s.db.results
        ensures id in Step(s, a).db.results && Step(s, a).db.results[id] == s.db.results[id]
      {
        ResultKept(s, a, id);
      }
      QuietProvenance(s, Step(s, a));
    }
  }

  /** Over every run: each state and result event was published for a member of a command in the
      stream, under that member's id and version; a successful upsert's state carries its ports
      and the version the device reported, a successful removal is announced as one. */
  lemma {:induction false} EventsComeFromCommands(s: State, actions: seq<Action>)
    requires Inv(s) && Provenance(s)
    ensures Provenance(Run(s, actions))
  {
    if actions != [] {
      EventsComeFromCommands(s, actions[..|actions| - 1]);
      InvOverRuns(s, actions[..|actions| - 1]);
      ProvenanceKept(Run(s, actions[..|actions| - 1]), actions[|actions| - 1]);
    }
  }

  // ---------------------------------------------------------------- a success that cannot be published

  predicate FirstOf(batch: seq<Command>, i: nat)
    requires i < |batch|
  {
    forall j | 0 <= j < i :: batch[j].id != batch[i].id
  }

  /** Publishing the members of `cmd` from result `r` comes to one that throws. */
  ghost predicate Blocks(p: Pub, cmd: Cmd, r: ApplyResult)
  {
    exists i :: 0 <= i < |cmd.batch| && FirstOf(cmd.batch, i) && Throws(p, cmd.id, cmd.batch[i], r)
  }

  /** For distinct members: some member throws as things are now. */
  lemma BlocksIff(p: Pub, cmd: Cmd, r: ApplyResult)
    requires DistinctIds(cmd.batch)
    ensures Blocks(p, cmd, r) <==> exists c :: c in cmd.batch && Throws(p, cmd.id, c, r)
  {
    if c :| c in cmd.batch && Throws(p, cmd.id, c, r) {
      var i :| 0 <= i < |cmd.batch| && cmd.batch[i] == c;
      assert FirstOf(cmd.batch, i);
    }
    if i :| 0 <= i < |cmd.batch| && FirstOf(cmd.batch, i) && Throws(p, cmd.id, cmd.batch[i], r) {
      assert cmd.batch[i] in cmd.batch;
    }
  }

  /** When a member throws: an upsert of a success that does not list it, not yet published by this
      command, whose stored state is not newer. */
  lemma ThrowsIff(p: Pub, id: CmdId, c: Command, r: ApplyResult)
    ensures Throws(p, id, c, r) <==>
      && r.error == Ok && c.op.Upsert? && (forall i | 0 <= i < |r.connections| :: r.connections[i].id != c.id)
      && (id, c.id) !in p.marks && (c.id in p.conns ==> p.conns[c.id].desired <= c.version)
  {
    FindIn(r.connections, c.id);
    if Find(r.connections, c.id).Some? {
      var i :| 0 <= i < |r.connections| && r.connections[i] == Find(r.connections, c.id).value;
      assert r.connections[i].id == c.id;
    }
  }

  /** The current command has a stored result that cannot be published. */
  ghost predicate Stuck(s: State)
  {
    && s.acked < |s.cmds| && s.cmds[s.acked].id in s.db.results && s.cmds[s.acked].id !in s.db.processed
    && Blocks(s.db.pub, s.cmds[s.acked], s.db.results[s.cmds[s.acked].id])
  }

  /** Nothing this publication of member `c` does concerns connection `k`. */
  ghost predicate Untouched(p: Pub, p': Pub, id: CmdId, k: string)
  {
    ((id, k) in p.marks <==> (id, k) in p'.marks) && Prev(p, k) == Prev(p', k)
  }

  lemma PublishUntouched(p: Pub, id: CmdId, c: Command, r: ApplyResult, k: string)
    requires k != c.id
    ensures Untouched(p, PublishMember(p, id, c, r), id, k)
  {
  }

  lemma BlocksStays(p: Pub, cmd: Cmd, r: ApplyResult, j: nat)
    requires DistinctIds(cmd.batch) && j < |cmd.batch|
    requires Blocks(p, cmd, r) && !Throws(p, cmd.id, cmd.batch[j], r)
    ensures Blocks(PublishMember(p, cmd.id, cmd.batch[j], r), cmd, r)
  {
    var i :| 0 <= i < |cmd.batch| && FirstOf(cmd.batch, i) && Throws(p, cmd.id, cmd.batch[i], r);
    assert cmd.batch[i].id != cmd.batch[j].id;
    PublishUntouched(p, cmd.id, cmd.batch[j], r, cmd.batch[i].id);
  }

  /** The worker is idle or still before the member that throws. */
  lemma StuckPc(s: State)
    requires Inv(s) && Stuck(s)
    ensures s.cmds[s.acked].decodes
    ensures s.pc.Idle? || (s.pc.Publishing? && s.pc.i < |s.cmds[s.acked].batch|)
  {
    var cmd := s.cmds[s.acked];
    var r := s.db.results[cmd.id];
    var i :| 0 <= i < |cmd.batch| && FirstOf(cmd.batch, i) && Throws(s.db.pub, cmd.id, cmd.batch[i], r);
    assert cmd.batch[i] in cmd.batch;
    assert cmd.batch[..|cmd.batch|] == cmd.batch;
    assert Ordered(s.db, cmd) && PcOk(s.db, cmd, s.pc);
  }

  lemma StuckWork(s: State, a: Answer)
    requires Inv(s) && Stuck(s)
    ensures Stuck(Work(s, s.cmds[s.acked], a)) && Work(s, s.cmds[s.acked], a).acked == s.acked
  {
    StuckPc(s);
    var cmd := s.cmds[s.acked];
    var r := s.db.results[cmd.id];
    if s.pc.Publishing? && !Throws(s.db.pub, cmd.id, cmd.batch[s.pc.i], r) {
      BlocksStays(s.db.pub, cmd, r, s.pc.i);
    }
  }

  /** Once stuck, no step, crash or redelivery gets the worker past the command. */
  lemma StuckStays(s: State, a: Action)
    requires Inv(s) && Stuck(s)
    ensures Stuck(Step(s, a)) && Step(s, a).acked == s.acked
  {
    if a.Next? { StuckWork(s, a.answer); }
  }

  lemma {:induction false} StuckForever(s: State, actions: seq<Action>)
    requires Inv(s) && Stuck(s)
    ensures Stuck(Run(s, actions)) && Run(s, actions).acked == s.acked
  {
    if actions != [] {
      StuckForever(s, actions[..|actions| - 1]);
      InvOverRuns(s, actions[..|actions| - 1]);
      StuckStays(Run(s, actions[..|actions| - 1]), actions[|actions| - 1]);
    }
  }

  /** An upsert of "x" that the device accepts without listing it leaves the worker stuck. */
  lemma OmissionSticks(a: Answer)
    requires a.attempted && a.result == ApplyResult(Ok, [])
    ensures var cmd := Cmd(ConfigCmd(0), "x", 1, true, [Command(Upsert, "x", 1, 1, 1)]);
      Stuck(Run(Init(map[], map[], 0), [Append(cmd), Next(a), Next(a), Next(a)]))
  {
    var c := Command(Upsert, "x", 1, 1, 1);
    var cmd := Cmd(ConfigCmd(0), "x", 1, true, [c]);
    var s0 := Init(map[], map[], 0);
    var s1 := Step(s0, Append(cmd));
    var s2 := Step(s1, Next(a));
    var s3 := Step(s2, Next(a));
    var s4 := Step(s3, Next(a));
    RunOfFour(s0, Append(cmd), Next(a), Next(a), Next(a));
    assert !StaleMember(s1.db.versions, s1.generation, c) && c in cmd.batch;
    assert s2.pc.Calling?;
    assert s3.pc == Called(a.result);
    assert FirstOf(cmd.batch, 0) && Throws(s4.db.pub, cmd.id, cmd.batch[0], a.result);
  }

  lemma RunOfFour(s: State, a: Action, b: Action, c: Action, d: Action)
    ensures Run(s, [a, b, c, d]) == Step(Step(Step(Step(s, a), b), c), d)
  {
    assert [a, b, c, d][..3] == [a, b, c] && [a, b, c][..2] == [a, b] && [a, b][..1] == [a] && [a][..0] == [];
    assert Run(s, [a]) == Step(Run(s, []), a);
    assert Run(s, [a, b]) == Step(Run(s, [a]), b);
    assert Run(s, [a, b, c]) == Step(Run(s, [a, b]), c);
  }

  /** The same omission does no harm if the stored state is already newer. */
  lemma OmissionSuperseded(p: Pub, id: CmdId, c: Command, r: ApplyResult)
    requires Omits(c, r) && c.id in p.conns && p.conns[c.id].desired > c.version
    ensures !Throws(p, id, c, r)
    ensures (id, c.id) !in p.marks ==> PublishMember(p, id, c, r).marks == p.marks[(id, c.id) := Superseded]
  {
  }
}
