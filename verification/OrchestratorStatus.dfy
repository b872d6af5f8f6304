/** The apply status of every connection over whole runs, for logs as Set produces them.

On such logs no event is dropped or cut down, so the APPL_DB records follow the log; statuses stay
in step with their operation, move only along legal transitions, and no check ever throws. */
module OrchestratorStatus {
  import opened Ids
  import opened Connections
  import opened CommandIds
  import opened ConfigLog
  import opened StatusMachine
  import opened Backoff
  import opened Orchestrator

  // ---------------------------------------------------------------- invariant

  /** How many events have their records written. */
  function Started(s: State): nat
  {
    if ConfigCmd(s.acks.config) in s.marks.app then s.acks.config + 1 else s.acks.config
  }

  /** The statuses a record can have, by operation. */
  predicate Agrees(op: Operation, status: Status)
  {
    status == Failed || status == RetryWait || status == Executing(op)
    || status == if op.Remove? then Status.Absent else Active
  }

  /** A retry or configuration command carries out the whole event it belongs to. */
  ghost predicate WholeEvents(s: State)
  {
    forall c | c in s.prepared :: Root(c) < |s.log| && s.prepared[c] == s.log[Root(c)].commands
  }

  ghost predicate AllTaken(s: State)
  {
    && (forall i | 0 <= i < s.acks.config :: ConfigCmd(i) in s.marks.cmd)
    && (s.pc.ConfigAck? ==> ConfigCmd(s.acks.config) in s.marks.cmd)
    && (s.pc.ConfigApp? ==> ConfigCmd(s.acks.config) !in s.marks.cmd)
  }

  /** The connections recorded as wanted are those the log, as far as it is started, leaves standing,
      with the same ports and versions. */
  ghost predicate Live(m: Matrix, app: AppDb)
  {
    forall id ::
      && (id in m <==> id in app && app[id].op.Upsert?)
      && (id in m ==> m[id] == Applied(id, app[id].input, app[id].output, app[id].version))
  }

  ghost predicate RecAgrees(log: seq<Event>, n: nat, id: string, rec: AppRec)
  {
    && rec.version <= n && Agrees(rec.op, rec.status)
    && Root(rec.cmd) < |log| && forall m | m in log[Root(rec.cmd)].commands && m.id == id :: m.op == rec.op
  }

  ghost predicate RecsAgree(log: seq<Event>, n: nat, app: AppDb)
  {
    forall id | id in app :: RecAgrees(log, n, id, app[id])
  }

  /** No command of an event has been started beyond the one its records name. */
  ghost predicate Latest(log: seq<Event>, app: AppDb, c: CmdId)
  {
    Root(c) < |log| && forall m | m in log[Root(c)].commands ::
      && m.id in app && Root(c) + 1 <= app[m.id].version
      && (app[m.id].version == Root(c) + 1 ==> Depth(c) <= Depth(app[m.id].cmd))
  }

  ghost predicate AllLatest(log: seq<Event>, app: AppDb, started: set<CmdId>)
  {
    forall c | c in started :: Latest(log, app, c)
  }

  /** A record that is no longer executing has had a result: its command timed out and that was
      recorded, or its command finished otherwise. */
  ghost predicate PhaseOk(timeouts: Timeouts, late: map<CmdId, bool>, rec: AppRec)
  {
    && (InExecution(rec.status) || rec.cmd in timeouts.app || (rec.cmd in late && !late[rec.cmd]))
    && (rec.status == RetryWait ==> rec.cmd in timeouts.app)
  }

  ghost predicate PhasesOk(s: State)
  {
    forall id | id in s.app :: PhaseOk(s.timeouts, s.applies.late, s.app[id])
  }

  ghost predicate ResolvingOk(s: State)
  {
    s.pc.ResultApp? && s.acks.results < |s.results| ==>
      var r := s.results[s.acks.results];
      && r.id in s.app && s.app[r.id].cmd == r.cmd && InExecution(s.app[r.id].status)
      && s.pc.next == NextStatus(s.app[r.id].status, r.outcome)
  }

  ghost predicate StatusInv(s: State)
  {
    && WholeEvents(s) && AllTaken(s) && Started(s) <= |s.log|
    && Live(Replay(s.log[..Started(s)]), s.app)
    && RecsAgree(s.log, Started(s), s.app)
    && AllLatest(s.log, s.app, s.marks.app)
    && PhasesOk(s) && ResolvingOk(s) && !s.threw
  }

  // ---------------------------------------------------------------- moves

  /** A status stays, follows one or two legal transitions, or a newer version takes over an
      execution that is still running. */
  ghost predicate LegalMove(app: AppDb, id: string, rec: AppRec)
  {
    || (id in app && app[id].status == rec.status && app[id].version == rec.version)
    || Path(StatusOf(app, id), rec.status)
    || (InExecution(StatusOf(app, id)) && InExecution(rec.status) && rec.version > VersionOf(app, id))
  }

  ghost predicate LegalMoves(app: AppDb, app': AppDb)
  {
    forall id | id in app' :: LegalMove(app, id, app'[id])
  }

  // ---------------------------------------------------------------- configuration events

  lemma {:induction false} RelevantAll(app: AppDb, batch: seq<Command>)
    requires forall c | c in batch && c.op.Remove? :: c.id in app
    ensures Relevant(app, batch) == batch
  {
    if batch != [] {
      var n := |batch| - 1;
      assert batch[n] in batch;
      RelevantAll(app, batch[..n]);
      assert batch == batch[..n] + [batch[n]];
    }
  }

  /** Nothing of a Set event is dropped: it is newer than every record, and what it removes is recorded. */
  lemma EventIsRelevant(log: seq<Event>, n: nat, app: AppDb)
    requires LogOk(log) && n < |log| && Live(Replay(log[..n]), app) && RecsAgree(log, n, app)
    ensures !StaleBatch(app, log[n].commands) && Relevant(app, log[n].commands) == log[n].commands
    ensures log[n].commands != []
  {
    assert EventOk(Replay(log[..n]), n, log[n]);
    RelevantAll(app, log[n].commands);
    forall c | c in log[n].commands ensures c.version > VersionOf(app, c.id) {}
  }

  /** Starting an event never throws: what it removes is recorded as an upsert, hence not ABSENT. */
  lemma StartOk(log: seq<Event>, n: nat, app: AppDb, c: Command)
    requires LogOk(log) && n < |log| && c in log[n].commands
    requires Live(Replay(log[..n]), app) && RecsAgree(log, n, app)
    ensures StartApply(StatusOf(app, c.id), c.op) == Some(Executing(c.op))
    ensures InExecution(StatusOf(app, c.id)) || Path(StatusOf(app, c.id), Executing(c.op))
    ensures VersionOf(app, c.id) <= n
  {
    assert EventOk(Replay(log[..n]), n, log[n]);
    StartApplyThrowsIff(StatusOf(app, c.id), c.op);
    if c.id in app { assert RecAgrees(log, n, c.id, app[c.id]); }
  }

  /** The record with which event `n` starts member `c`. */
  function StartRec(c: Command, n: nat): AppRec
  {
    AppRec(c.op, c.input, c.output, n + 1, Executing(c.op), ConfigCmd(n), 0)
  }

  /** What a configuration write leaves: exactly the event's connections, each executing. */
  ghost predicate Wrote(app: AppDb, app': AppDb, n: nat, batch: seq<Command>)
  {
    && (forall c | c in batch :: c.id in app' && app'[c.id] == StartRec(c, n))
    && (forall id | id !in IdsOf(batch) :: (id in app' <==> id in app) && (id in app ==> app'[id] == app[id]))
  }

  lemma ConfigWrites(log: seq<Event>, n: nat, app: AppDb)
    requires LogOk(log) && n < |log| && Live(Replay(log[..n]), app) && RecsAgree(log, n, app)
    ensures Wrote(app, Put(app, StartHashes(app, log[n].commands, ConfigCmd(n)), log[n].version), n, log[n].commands)
    ensures !StartThrows(app, log[n].commands)
  {
    var batch := log[n].commands;
    var hs := StartHashes(app, batch, ConfigCmd(n));
    assert EventOk(Replay(log[..n]), n, log[n]);
    forall i | 0 <= i < |hs|
      ensures hs[i] == Hash(batch[i].id, StartRec(batch[i], n))
      ensures VersionOf(app, hs[i].id) <= log[n].version
    {
      assert batch[i] in batch;
      StartOk(log, n, app, batch[i]);
    }
    forall c | c in batch ensures StartApply(StatusOf(app, c.id), c.op).Some? { StartOk(log, n, app, c); }
    PutExact(app, hs, log[n].version);
    var app' := Put(app, hs, log[n].version);
    forall c | c in batch ensures c.id in app' && app'[c.id] == StartRec(c, n) {
      var i :| 0 <= i < |batch| && batch[i] == c;
      assert hs[i].id == c.id;
    }
    forall id | id !in IdsOf(batch) ensures (id in app' <==> id in app) && (id in app ==> app'[id] == app[id]) {
      assert forall i | 0 <= i < |hs| :: hs[i].id != id by {
        forall i | 0 <= i < |hs| ensures hs[i].id != id { assert batch[i] in batch; }
      }
    }
  }

  lemma WroteLive(log: seq<Event>, n: nat, app: AppDb, app': AppDb)
    requires LogOk(log) && n < |log| && Live(Replay(log[..n]), app) && Wrote(app, app', n, log[n].commands)
    ensures Live(Replay(log[..n + 1]), app')
  {
    var batch, m := log[n].commands, Replay(log[..n]);
    assert EventOk(m, n, log[n]);
    ReplayStep(log, n);
    DistinctAgree(batch);
    ApplyAllPointwise(m, batch);
    var m' := Replay(log[..n + 1]);
    forall id
      ensures id in m' <==> id in app' && app'[id].op.Upsert?
      ensures id in m' ==> m'[id] == Applied(id, app'[id].input, app'[id].output, app'[id].version)
    {
      if id in IdsOf(batch) {
        var c :| c in batch && c.id == id;
      }
    }
  }

  lemma WroteAgrees(log: seq<Event>, n: nat, app: AppDb, app': AppDb)
    requires LogOk(log) && n < |log| && RecsAgree(log, n, app) && Wrote(app, app', n, log[n].commands)
    ensures RecsAgree(log, n + 1, app')
  {
    var batch := log[n].commands;
    assert EventOk(Replay(log[..n]), n, log[n]);
    forall id | id in app' ensures RecAgrees(log, n + 1, id, app'[id]) {
      if id in IdsOf(batch) {
        var c :| c in batch && c.id == id;
        forall m | m in batch && m.id == id ensures m.op == c.op { SameIdSame(batch, m, c); }
      } else {
        assert RecAgrees(log, n, id, app[id]);
      }
    }
  }

  lemma SameIdSame(batch: seq<Command>, a: Command, b: Command)
    requires DistinctIds(batch) && a in batch && b in batch && a.id == b.id
    ensures a == b
  {
    var i :| 0 <= i < |batch| && batch[i] == a;
    var j :| 0 <= j < |batch| && batch[j] == b;
    assert i == j;
  }

  lemma WroteLatest(log: seq<Event>, n: nat, app: AppDb, app': AppDb, started: set<CmdId>)
    requires LogOk(log) && n < |log| && Wrote(app, app', n, log[n].commands)
    requires AllLatest(log, app, started) && forall c | c in started :: Root(c) < n
    ensures AllLatest(log, app', started + {ConfigCmd(n)})
  {
    forall c | c in started + {ConfigCmd(n)} ensures Latest(log, app', c) {
      if c in started {
        assert Latest(log, app, c);
        forall m | m in log[Root(c)].commands
          ensures m.id in app' && Root(c) + 1 <= app'[m.id].version
          ensures app'[m.id].version == Root(c) + 1 ==> Depth(c) <= Depth(app'[m.id].cmd)
        {
          if m.id in IdsOf(log[n].commands) { var d :| d in log[n].commands && d.id == m.id; }
        }
      }
    }
  }

  lemma WroteMoves(log: seq<Event>, n: nat, app: AppDb, app': AppDb)
    requires LogOk(log) && n < |log| && Live(Replay(log[..n]), app) && RecsAgree(log, n, app)
    requires Wrote(app, app', n, log[n].commands)
    ensures LegalMoves(app, app')
  {
    forall id | id in app' ensures LegalMove(app, id, app'[id]) {
      if id in IdsOf(log[n].commands) {
        var c :| c in log[n].commands && c.id == id;
        StartOk(log, n, app, c);
      }
    }
  }

  // ---------------------------------------------------------------- chains of retries

  /** Every started command belongs to a started event, and if it is a retry then its event's own
      command was published. */
  lemma {:induction false} ChainOf(s: State, c: CmdId)
    requires CmdsOk(s) && MarksOk(s) && ConfigOk(s) && c in s.marks.app
    ensures Root(c) < Started(s)
    ensures c.RetryCmd? ==> ConfigCmd(Root(c)) in s.marks.cmd
    decreases c
  {
    assert StartedOk(s, c);
    if c.RetryCmd? { ChainOf(s, c.failed); }
  }

  /** Every command of a chain but the last has a recorded timeout. */
  lemma {:induction false} EarlierTimedOut(s: State, c: CmdId, d: CmdId)
    requires CmdsOk(s) && MarksOk(s) && d in s.marks.app
    requires Numbered(c) && Numbered(d) && Root(c) == Root(d) && Depth(c) < Depth(d)
    ensures c in s.timeouts.app
    decreases d
  {
    assert StartedOk(s, d);
    if Depth(c) == Depth(d.failed) { ChainUnique(c, d.failed); } else { EarlierTimedOut(s, c, d.failed); }
  }

  /** The last command of a chain whose result is not a timeout is the one its records name. */
  lemma ResultFits(s: State, r: ResultEv)
    requires Core(s) && AllLatest(s.log, s.app, s.marks.app) && PhasesOk(s) && LogOk(s.log) && WholeEvents(s)
    requires ResultOk(s, r) && !r.outcome.TimedOut?
    ensures r.id in s.app && r.version <= s.app[r.id].version
    ensures r.version == s.app[r.id].version ==> s.app[r.id].cmd == r.cmd && s.app[r.id].status != RetryWait
  {
    var m :| m in s.prepared[r.cmd] && m.id == r.id && m.version == r.version;
    assert Latest(s.log, s.app, r.cmd);
    assert EventOk(Replay(s.log[..Root(r.cmd)]), Root(r.cmd), s.log[Root(r.cmd)]);
    var rec := s.app[r.id];
    if rec.version == r.version {
      assert RecOk(s, rec);
      assert EventOk(Replay(s.log[..Root(rec.cmd)]), Root(rec.cmd), s.log[Root(rec.cmd)]);
      NotTimedOut(s, r.cmd);
      assert BatchOk(s, r.cmd, s.prepared[r.cmd]);
      LastOfChain(s, r.cmd, rec.cmd);
    }
  }

  lemma NotTimedOut(s: State, c: CmdId)
    requires TimeoutsOk(s) && c in s.applies.late && !s.applies.late[c]
    ensures c !in s.timeouts.app
  {
    assert c in s.timeouts.dev ==> MetaOk(s, c, s.timeouts.dev[c]);
  }

  lemma LastOfChain(s: State, c: CmdId, d: CmdId)
    requires CmdsOk(s) && MarksOk(s) && c in s.marks.app && d in s.marks.app && c !in s.timeouts.app
    requires Numbered(c) && Numbered(d) && Root(c) == Root(d) && Depth(c) <= Depth(d)
    ensures c == d
  {
    if Depth(c) == Depth(d) { ChainUnique(c, d); } else { EarlierTimedOut(s, c, d); }
  }

  // ---------------------------------------------------------------- records that keep their version

  /** Records may move on within their version: operation, version and event stay. */
  ghost predicate MovesOn(was: AppRec, rec: AppRec)
  {
    && rec.op == was.op && rec.input == was.input && rec.output == was.output
    && rec.version == was.version && Root(rec.cmd) == Root(was.cmd)
    && Depth(was.cmd) <= Depth(rec.cmd) && Agrees(rec.op, rec.status)
  }

  ghost predicate Touch(app: AppDb, app': AppDb)
  {
    app'.Keys == app.Keys && forall id | id in app :: app'[id] == app[id] || MovesOn(app[id], app'[id])
  }

  lemma TouchKeeps(log: seq<Event>, n: nat, app: AppDb, app': AppDb, started: set<CmdId>)
    requires n <= |log| && Touch(app, app')
    requires Live(Replay(log[..n]), app) && RecsAgree(log, n, app) && AllLatest(log, app, started)
    ensures Live(Replay(log[..n]), app') && RecsAgree(log, n, app') && AllLatest(log, app', started)
  {
    var m := Replay(log[..n]);
    forall id
      ensures id in m <==> id in app' && app'[id].op.Upsert?
      ensures id in m ==> m[id] == Applied(id, app'[id].input, app'[id].output, app'[id].version)
    {
      assert id in app' <==> id in app;
    }
    forall id | id in app' ensures RecAgrees(log, n, id, app'[id]) { assert RecAgrees(log, n, id, app[id]); }
    forall c | c in started ensures Latest(log, app', c) { assert Latest(log, app, c); }
  }

  // ---------------------------------------------------------------- configuration steps

  lemma UnpublishedExecuting(s: State, id: string)
    requires Core(s) && ConfigOk(s) && PhasesOk(s) && id in s.app
    requires ConfigCmd(Root(s.app[id].cmd)) !in s.marks.cmd
    ensures InExecution(s.app[id].status)
  {
    var rec := s.app[id];
    assert RecOk(s, rec);
    ChainOf(s, rec.cmd);
    assert rec.cmd !in s.marks.cmd;
    assert rec.cmd in s.timeouts.dev ==> MetaOk(s, rec.cmd, s.timeouts.dev[rec.cmd]);
    assert PhaseOk(s.timeouts, s.applies.late, rec);
  }

  /** The records of the event being started are its own. */
  lemma OwnRecord(s: State, n: nat, c: Command)
    requires AppOk(s) && LogOk(s.log) && n < |s.log| && c in s.log[n].commands
    requires Latest(s.log, s.app, ConfigCmd(n)) && RecsAgree(s.log, n + 1, s.app)
    ensures c.id in s.app && Root(s.app[c.id].cmd) == n
  {
    var rec := s.app[c.id];
    assert RecAgrees(s.log, n + 1, c.id, rec) && RecOk(s, rec);
    assert EventOk(Replay(s.log[..Root(rec.cmd)]), Root(rec.cmd), s.log[Root(rec.cmd)]);
  }

  /** After a crash between the record write and the command, starting again does not throw. */
  lemma RestartOk(s: State)
    requires Core(s) && ConfigOk(s) && StatusInv(s) && LogOk(s.log) && s.acks.config < |s.log|
    requires ConfigCmd(s.acks.config) in s.marks.app && ConfigCmd(s.acks.config) !in s.marks.cmd
    ensures !StartThrows(s.app, s.log[s.acks.config].commands)
  {
    var n := s.acks.config;
    assert Latest(s.log, s.app, ConfigCmd(n));
    forall c | c in s.log[n].commands ensures StartApply(StatusOf(s.app, c.id), c.op).Some? {
      OwnRecord(s, n, c);
      UnpublishedExecuting(s, c.id);
    }
  }

  lemma BeginIsQuiet(s: State)
    requires StatusInv(s) && s.pc.Idle? && s.acks.config < |s.log|
    requires ConfigCmd(s.acks.config) !in s.prepared ==>
      var batch := s.log[s.acks.config].commands;
      !StaleBatch(s.app, batch) && Relevant(s.app, batch) == batch && batch != []
    ensures StatusInv(ConfigBegin(s)) && ConfigBegin(s).app == s.app
  {
    QuietKeepsStatus(s, ConfigBegin(s));
  }

  lemma BeginKeepsStatus(s: State)
    requires Core(s) && ConfigOk(s) && StatusInv(s) && LogOk(s.log) && s.pc.Idle? && s.acks.config < |s.log|
    ensures StatusInv(ConfigBegin(s)) && ConfigBegin(s).app == s.app
  {
    var cmd := ConfigCmd(s.acks.config);
    if cmd !in s.prepared {
      assert cmd in s.marks.app ==> StartedOk(s, cmd);
      EventIsRelevant(s.log, s.acks.config, s.app);
    }
    BeginIsQuiet(s);
  }

  lemma FirstWriteKeepsStatus(s: State)
    requires Core(s) && ConfigOk(s) && StatusInv(s) && LogOk(s.log) && s.acks.config < |s.log|
    requires s.pc.ConfigApp? && ConfigCmd(s.acks.config) in s.prepared && ConfigCmd(s.acks.config) !in s.marks.app
    ensures StatusInv(ConfigAppStep(s)) && LegalMoves(s.app, ConfigAppStep(s).app)
  {
    var n, t := s.acks.config, ConfigAppStep(s);
    ConfigWrites(s.log, n, s.app);
    assert s.prepared[ConfigCmd(n)] == s.log[n].commands;
    assert Wrote(s.app, t.app, n, s.log[n].commands);
    forall c | c in s.marks.app ensures Root(c) < n { ChainOf(s, c); }
    WroteLive(s.log, n, s.app, t.app);
    WroteAgrees(s.log, n, s.app, t.app);
    WroteLatest(s.log, n, s.app, t.app, s.marks.app);
    WroteMoves(s.log, n, s.app, t.app);
    forall id | id in t.app ensures PhaseOk(t.timeouts, t.applies.late, t.app[id]) {
      if id in IdsOf(s.log[n].commands) { var c :| c in s.log[n].commands && c.id == id; }
    }
  }

  lemma SecondWriteKeepsStatus(s: State)
    requires Core(s) && ConfigOk(s) && StatusInv(s) && LogOk(s.log) && s.acks.config < |s.log|
    requires s.pc.ConfigApp? && ConfigCmd(s.acks.config) in s.prepared && ConfigCmd(s.acks.config) in s.marks.app
    ensures StatusInv(ConfigAppStep(s)) && ConfigAppStep(s).app == s.app
  {
    assert s.prepared[ConfigCmd(s.acks.config)] == s.log[s.acks.config].commands;
    RestartOk(s);
    RewriteIsQuiet(s);
  }

  lemma RewriteIsQuiet(s: State)
    requires StatusInv(s) && s.acks.config < |s.log| && s.pc.ConfigApp?
    requires ConfigCmd(s.acks.config) in s.prepared && ConfigCmd(s.acks.config) in s.marks.app
    requires !StartThrows(s.app, s.prepared[ConfigCmd(s.acks.config)])
    ensures StatusInv(ConfigAppStep(s)) && ConfigAppStep(s).app == s.app
  {
    assert s.marks.app + {ConfigCmd(s.acks.config)} == s.marks.app;
    QuietKeepsStatus(s, ConfigAppStep(s));
  }

  lemma AckKeepsStatus(s: State)
    requires Core(s) && ConfigOk(s) && StatusInv(s) && s.pc.ConfigAck? && s.acks.config < |s.log|
    ensures StatusInv(s.(pc := Idle, acks := s.acks.(config := s.acks.config + 1)))
  {
    var t := s.(pc := Idle, acks := s.acks.(config := s.acks.config + 1));
    assert ConfigCmd(t.acks.config) !in s.marks.app by {
      assert ConfigCmd(t.acks.config) in s.marks.app ==> StartedOk(s, ConfigCmd(t.acks.config));
    }
    assert Started(t) == Started(s);
  }

  /** Steps that write no records and no events. */
  lemma QuietKeepsStatus(s: State, t: State)
    requires StatusInv(s) && !t.threw && ResolvingOk(t) && AllTaken(t) && WholeEvents(t)
    requires t.log == s.log && t.app == s.app && t.acks.config == s.acks.config && t.marks.app == s.marks.app
    requires MapGrows(s.timeouts.app, t.timeouts.app) && MapGrows(s.applies.late, t.applies.late)
    ensures StatusInv(t)
  {
    forall id | id in t.app ensures PhaseOk(t.timeouts, t.applies.late, t.app[id]) {
      assert PhaseOk(s.timeouts, s.applies.late, s.app[id]);
    }
  }

  lemma NoMoves(app: AppDb)
    ensures LegalMoves(app, app)
  {
  }

  lemma MarkKeepsStatus(s: State)
    requires StatusInv(s) && s.acks.config < |s.log| && (s.pc.ConfigDev? || s.pc.ConfigCommand?)
    requires ConfigCmd(s.acks.config) in s.prepared
    ensures StatusInv(ConfigStep(s)) && ConfigStep(s).app == s.app
  {
    QuietKeepsStatus(s, ConfigStep(s));
  }

  lemma ConfigStepKeepsStatus(s: State)
    requires Inv(s) && StatusInv(s) && LogOk(s.log) && s.acks.config < |s.log|
    requires s.pc.Idle? || ActivityOf(s.pc, Results).Config?
    ensures StatusInv(ConfigStep(s)) && LegalMoves(s.app, ConfigStep(s).app)
  {
    NoMoves(s.app);
    match s.pc
    case Idle => BeginKeepsStatus(s);
    case ConfigApp =>
      if ConfigCmd(s.acks.config) in s.marks.app { SecondWriteKeepsStatus(s); } else { FirstWriteKeepsStatus(s); }
    case ConfigDev => MarkKeepsStatus(s);
    case ConfigCommand => MarkKeepsStatus(s);
    case ConfigAck => AckKeepsStatus(s);
  }

  // ---------------------------------------------------------------- result steps

  lemma ResultBeginQuiet(s: State, r: ResultEv)
    requires StatusInv(s) && s.pc.Idle? && s.acks.results < |s.results| && r == s.results[s.acks.results]
    requires !r.outcome.TimedOut? && r.id in s.app && r.version <= s.app[r.id].version
    requires r.version == s.app[r.id].version ==> s.app[r.id].cmd == r.cmd && s.app[r.id].status != RetryWait
    ensures StatusInv(ResultBegin(s, r)) && ResultBegin(s, r).app == s.app
  {
    assert RecAgrees(s.log, Started(s), r.id, s.app[r.id]);
    QuietKeepsStatus(s, ResultBegin(s, r));
  }

  lemma OnePut(app: AppDb, id: string, rec: AppRec, v: nat)
    requires id in app && app[id].version <= v
    ensures Put(app, [Hash(id, rec)], v) == app[id := rec]
  {
    var hs := [Hash(id, rec)];
    assert hs[..0] == [];
    assert Put(app, hs[..0], v) == app;
  }

  lemma ResolvedMove(rec: AppRec, outcome: Outcome, next: Status)
    requires Agrees(rec.op, rec.status) && InExecution(rec.status) && !outcome.TimedOut?
    requires next == NextStatus(rec.status, outcome)
    ensures MovesOn(rec, Resolved(rec, next)) && CanTransition(rec.status, next) && next != RetryWait
  {
  }

  lemma TouchKeepsStatus(s: State, t: State)
    requires StatusInv(s) && Touch(s.app, t.app)
    requires t.log == s.log && t.acks.config == s.acks.config && t.marks.app == s.marks.app
    requires t.marks.cmd == s.marks.cmd
    requires t.prepared == s.prepared && PhasesOk(t) && ResolvingOk(t) && !t.threw && !t.pc.ConfigAck?
    requires !t.pc.ConfigApp?
    ensures StatusInv(t)
  {
    TouchKeeps(s.log, Started(s), s.app, t.app, s.marks.app);
    assert WholeEvents(t) && AllTaken(t) by { SameEvents(s, t); }
  }

  lemma SameEvents(s: State, t: State)
    requires WholeEvents(s) && AllTaken(s) && t.log == s.log && t.acks.config == s.acks.config
    requires t.marks.cmd == s.marks.cmd && t.prepared == s.prepared && !t.pc.ConfigAck? && !t.pc.ConfigApp?
    ensures WholeEvents(t) && AllTaken(t)
  {
  }

  lemma ResolveKeepsPhases(s: State, t: State, id: string, rec: AppRec)
    requires PhasesOk(s) && t.app == s.app[id := rec] && t.timeouts == s.timeouts && t.applies == s.applies
    requires PhaseOk(s.timeouts, s.applies.late, rec)
    ensures PhasesOk(t)
  {
    forall k | k in t.app ensures PhaseOk(t.timeouts, t.applies.late, t.app[k]) {
      if k != id { assert PhaseOk(s.timeouts, s.applies.late, s.app[k]); }
    }
  }

  lemma ResultAppKeepsStatus(s: State, r: ResultEv, next: Status)
    requires StatusInv(s) && s.pc == ResultApp(next) && s.acks.results < |s.results| && r == s.results[s.acks.results]
    requires !r.outcome.TimedOut? && r.cmd in s.applies.late && !s.applies.late[r.cmd]
    requires r.id in s.app && s.app[r.id].version == r.version
    ensures StatusInv(ResultAppStep(s, r, next)) && LegalMoves(s.app, ResultAppStep(s, r, next).app)
  {
    var t := ResultAppStep(s, r, next);
    if (r.cmd, r.id) in s.marks.resultApp {
      NoMoves(s.app);
      QuietKeepsStatus(s, t);
    } else {
      var rec := s.app[r.id];
      assert RecAgrees(s.log, Started(s), r.id, rec);
      OnePut(s.app, r.id, Resolved(rec, next), r.version);
      ResolvedMove(rec, r.outcome, next);
      ResolveKeepsPhases(s, t, r.id, Resolved(rec, next));
      TouchKeepsStatus(s, t);
    }
  }

  // ---------------------------------------------------------------- timeout steps

  /** A timeout finds all its connections executing. */
  lemma LateWasExecuting(s: State, c: CmdId, id: string)
    requires TimeoutsOk(s) && PhasesOk(s) && c in s.timeouts.dev && c !in s.timeouts.app && id in s.app
    requires s.app[id].cmd == c
    ensures InExecution(s.app[id].status)
  {
    assert MetaOk(s, c, s.timeouts.dev[c]);
    assert PhaseOk(s.timeouts, s.applies.late, s.app[id]);
  }

  ghost predicate LateWrote(app: AppDb, app': AppDb, batch: seq<Command>, meta: Meta)
  {
    && (forall c | c in batch ::
          && c.id in app && c.id in app'
          && app'[c.id] == app[c.id].(status := meta.status, attempt := meta.attempt))
    && (forall id | id !in IdsOf(batch) :: (id in app' <==> id in app) && (id in app ==> app'[id] == app[id]))
  }

  lemma LateWrites(app: AppDb, batch: seq<Command>, cmd: CmdId, meta: Meta, v: nat)
    requires DistinctIds(batch) && AllCurrent(app, batch, cmd) && forall c | c in batch :: c.version == v
    ensures LateWrote(app, Put(app, LateHashes(app, batch, meta), v), batch, meta)
  {
    var hs := LateHashes(app, batch, meta);
    assert forall i | 0 <= i < |hs| :: hs[i] == LateHash(app, batch[i], meta) && batch[i] in batch;
    PutForBatch(app, batch, hs, v);
    forall c | c in batch ensures c.id in app { assert IsCurrent(app, c, cmd); }
  }

  lemma LateMove(s: State, cmd: CmdId, meta: Meta, id: string, rec: AppRec)
    requires TimeoutsOk(s) && PhasesOk(s) && RecsAgree(s.log, Started(s), s.app) && id in s.app && s.app[id].cmd == cmd
    requires cmd in s.timeouts.dev && s.timeouts.dev[cmd] == meta && cmd !in s.timeouts.app
    requires rec == s.app[id].(status := meta.status, attempt := meta.attempt)
    ensures MovesOn(s.app[id], rec) && LegalMove(s.app, id, rec)
  {
    assert MetaOk(s, cmd, meta);
    LateWasExecuting(s, cmd, id);
    assert CanTransition(s.app[id].status, Failed) && CanTransition(Failed, RetryWait);
  }

  lemma LateMoves(s: State, cmd: CmdId, batch: seq<Command>, meta: Meta, app': AppDb)
    requires TimeoutsOk(s) && PhasesOk(s) && RecsAgree(s.log, Started(s), s.app)
    requires LateWrote(s.app, app', batch, meta) && AllCurrent(s.app, batch, cmd)
    requires cmd in s.timeouts.dev && s.timeouts.dev[cmd] == meta && cmd !in s.timeouts.app
    ensures Touch(s.app, app') && LegalMoves(s.app, app')
  {
    forall id | id in s.app
      ensures id in app' && (app'[id] == s.app[id] || MovesOn(s.app[id], app'[id])) && LegalMove(s.app, id, app'[id])
    {
      if id in IdsOf(batch) {
        var c :| c in batch && c.id == id;
        LateMove(s, cmd, meta, id, app'[id]);
      }
    }
    forall id | id in app' ensures id in s.app {
      if id in IdsOf(batch) { var c :| c in batch && c.id == id; }
    }
  }

  lemma LatePhases(s: State, t: State, cmd: CmdId, batch: seq<Command>, meta: Meta)
    requires PhasesOk(s) && LateWrote(s.app, t.app, batch, meta) && AllCurrent(s.app, batch, cmd)
    requires MapGrows(s.timeouts.app, t.timeouts.app) && cmd in t.timeouts.app && t.applies == s.applies
    ensures PhasesOk(t)
  {
    forall id | id in t.app ensures PhaseOk(t.timeouts, t.applies.late, t.app[id]) {
      if id in IdsOf(batch) {
        var c :| c in batch && c.id == id;
      } else {
        assert PhaseOk(s.timeouts, s.applies.late, s.app[id]);
      }
    }
  }

  lemma TimeoutAppKeepsStatus(s: State, r: ResultEv, meta: Meta, batch: seq<Command>)
    requires TimeoutsOk(s) && StatusInv(s) && s.pc == TimeoutApp(meta)
    requires r.cmd in s.applies.attempts && batch == s.applies.attempts[r.cmd] && AllCurrent(s.app, batch, r.cmd)
    requires DistinctIds(batch) && forall c | c in batch :: c.version == r.version
    requires r.cmd in s.timeouts.dev && s.timeouts.dev[r.cmd] == meta
    ensures StatusInv(TimeoutAppStep(s, r, meta)) && LegalMoves(s.app, TimeoutAppStep(s, r, meta).app)
  {
    var t := TimeoutAppStep(s, r, meta);
    if r.cmd in s.timeouts.app {
      NoMoves(s.app);
      QuietKeepsStatus(s, t);
    } else {
      LateWrites(s.app, batch, r.cmd, meta, r.version);
      LateMoves(s, r.cmd, batch, meta, t.app);
      LatePhases(s, t, r.cmd, batch, meta);
      TouchKeepsStatus(s, t);
    }
  }

  lemma TimeoutBeginKeepsStatus(s: State, r: ResultEv)
    requires StatusInv(s) && s.pc.Idle?
    ensures StatusInv(TimeoutBegin(s, r)) && TimeoutBegin(s, r).app == s.app
  {
    QuietKeepsStatus(s, TimeoutBegin(s, r));
  }

  lemma TimeoutRetryKeepsStatus(s: State, r: ResultEv, meta: Meta)
    requires StatusInv(s) && s.pc == TimeoutRetry(meta)
    ensures StatusInv(TimeoutRetryStep(s, r, meta)) && TimeoutRetryStep(s, r, meta).app == s.app
  {
    QuietKeepsStatus(s, TimeoutRetryStep(s, r, meta));
  }

  /** What the stored facts say about a result. */
  lemma ResultFacts(s: State, i: nat)
    requires Core(s) && i < |s.results|
    ensures var r := s.results[i];
      && ResultOk(s, r) && (!r.outcome.TimedOut? ==> r.cmd in s.applies.late && !s.applies.late[r.cmd])
      && (r.cmd in s.applies.attempts ==>
            && DistinctIds(s.applies.attempts[r.cmd])
            && forall c | c in s.applies.attempts[r.cmd] :: c.version == r.version)
  {
    var r := s.results[i];
    assert ResultOk(s, r);
    assert BatchOk(s, r.cmd, s.prepared[r.cmd]);
  }

  lemma ResultAckKeepsStatus(s: State)
    requires StatusInv(s) && s.pc.ResultAck?
    ensures StatusInv(ResultStep(s)) && ResultStep(s).app == s.app
  {
    QuietKeepsStatus(s, ResultStep(s));
  }

  lemma ResultBegins(s: State, r: ResultEv)
    requires StatusInv(s) && s.pc.Idle? && s.acks.results < |s.results| && r == s.results[s.acks.results]
    requires !r.outcome.TimedOut? ==>
      && r.id in s.app && r.version <= s.app[r.id].version
      && (r.version == s.app[r.id].version ==> s.app[r.id].cmd == r.cmd && s.app[r.id].status != RetryWait)
    ensures StatusInv(ResultStep(s)) && ResultStep(s).app == s.app
  {
    if r.outcome.TimedOut? { TimeoutBeginKeepsStatus(s, r); } else { ResultBeginQuiet(s, r); }
  }

  lemma ResultStepKeepsStatus(s: State)
    requires Core(s) && PcOk(s) && StatusInv(s) && LogOk(s.log) && s.acks.results < |s.results|
    requires s.pc.Idle? || ActivityOf(s.pc, Config).Results?
    ensures StatusInv(ResultStep(s)) && LegalMoves(s.app, ResultStep(s).app)
  {
    NoMoves(s.app);
    ResultFacts(s, s.acks.results);
    var r := s.results[s.acks.results];
    if s.pc.Idle? {
      if !r.outcome.TimedOut? { ResultFits(s, r); }
      ResultBegins(s, r);
    } else {
      ResultGoesOn(s, r);
    }
  }

  lemma ResultGoesOn(s: State, r: ResultEv)
    requires TimeoutsOk(s) && StatusInv(s) && ActivityOf(s.pc, Config).Results?
    requires s.acks.results < |s.results| && r == s.results[s.acks.results] && ResultPcOk(s, r)
    requires !r.outcome.TimedOut? ==> r.cmd in s.applies.late && !s.applies.late[r.cmd]
    requires r.cmd in s.applies.attempts ==>
      DistinctIds(s.applies.attempts[r.cmd]) && forall c | c in s.applies.attempts[r.cmd] :: c.version == r.version
    ensures StatusInv(ResultStep(s)) && LegalMoves(s.app, ResultStep(s).app)
  {
    NoMoves(s.app);
    match s.pc
    case ResultApp(next) => ResultAppKeepsStatus(s, r, next);
    case TimeoutApp(meta) => TimeoutAppKeepsStatus(s, r, meta, s.applies.attempts[r.cmd]);
    case TimeoutRetry(meta) => TimeoutRetryKeepsStatus(s, r, meta);
    case ResultAck => ResultAckKeepsStatus(s);
  }

  // ---------------------------------------------------------------- retry steps

  /** The record with which a retry restarts member `c`. */
  function RetryRec(rec: AppRec, c: Command, r: RetryEv): AppRec
  {
    rec.(status := Executing(c.op), cmd := RetryCmd(r.failed, r.attempt), attempt := r.attempt)
  }

  ghost predicate RetryWrote(app: AppDb, app': AppDb, r: RetryEv)
  {
    && (forall c | c in r.batch :: c.id in app && c.id in app' && app'[c.id] == RetryRec(app[c.id], c, r))
    && (forall id | id !in IdsOf(r.batch) :: (id in app' <==> id in app) && (id in app ==> app'[id] == app[id]))
  }

  lemma RetryWrites(app: AppDb, r: RetryEv)
    requires DistinctIds(r.batch) && AllMayRetry(app, r, false) && forall c | c in r.batch :: c.version == r.version
    ensures RetryWrote(app, Put(app, RetryHashes(app, r, false), r.version), r)
  {
    var hs := RetryHashes(app, r, false);
    assert forall i | 0 <= i < |hs| :: hs[i] == RetryHash(app, r.batch[i], r, false) && r.batch[i] in r.batch;
    PutForBatch(app, r.batch, hs, r.version);
    forall c | c in r.batch ensures c.id in app { assert MayRetry(app, c, r, false); }
  }

  /** A write with one record per member changes exactly the members. */
  lemma PutForBatch(app: AppDb, batch: seq<Command>, hs: seq<Hash>, v: nat)
    requires DistinctIds(batch) && |hs| == |batch|
    requires forall i | 0 <= i < |hs| :: hs[i].id == batch[i].id && VersionOf(app, hs[i].id) <= v
    ensures var app' := Put(app, hs, v);
      && (forall c | c in batch ::
            c.id in app' && exists i :: 0 <= i < |hs| && batch[i] == c && app'[c.id] == hs[i].rec)
      && (forall id | id !in IdsOf(batch) :: (id in app' <==> id in app) && (id in app ==> app'[id] == app[id]))
  {
    PutExact(app, hs, v);
    var app' := Put(app, hs, v);
    forall c | c in batch
      ensures c.id in app' && exists i :: 0 <= i < |hs| && batch[i] == c && app'[c.id] == hs[i].rec
    {
      var i :| 0 <= i < |batch| && batch[i] == c;
      assert hs[i].id == c.id;
    }
    forall id | id !in IdsOf(batch) ensures forall i | 0 <= i < |hs| :: hs[i].id != id {
      assert forall i | 0 <= i < |hs| :: batch[i] in batch;
    }
  }

  lemma RetryMove(s: State, r: RetryEv, c: Command, rec: AppRec)
    requires RecsAgree(s.log, Started(s), s.app) && MayRetry(s.app, c, r, false)
    requires Root(r.failed) < |s.log| && c in s.log[Root(r.failed)].commands
    requires rec == RetryRec(s.app[c.id], c, r)
    ensures MovesOn(s.app[c.id], rec) && LegalMove(s.app, c.id, rec)
  {
    assert RecAgrees(s.log, Started(s), c.id, s.app[c.id]);
    assert CanTransition(RetryWait, Executing(c.op));
  }

  lemma RetryMoves(s: State, r: RetryEv, app': AppDb)
    requires RecsAgree(s.log, Started(s), s.app) && RetryWrote(s.app, app', r) && AllMayRetry(s.app, r, false)
    requires Root(r.failed) < |s.log| && r.batch == s.log[Root(r.failed)].commands
    ensures Touch(s.app, app') && LegalMoves(s.app, app')
  {
    forall id | id in s.app
      ensures id in app' && (app'[id] == s.app[id] || MovesOn(s.app[id], app'[id])) && LegalMove(s.app, id, app'[id])
    {
      if id in IdsOf(r.batch) {
        var c :| c in r.batch && c.id == id;
        RetryMove(s, r, c, app'[id]);
      }
    }
    forall id | id in app' ensures id in s.app {
      if id in IdsOf(r.batch) { var c :| c in r.batch && c.id == id; }
    }
  }

  lemma RetryPhases(s: State, t: State, r: RetryEv)
    requires PhasesOk(s) && RetryWrote(s.app, t.app, r) && t.timeouts == s.timeouts && t.applies == s.applies
    ensures PhasesOk(t)
  {
    forall id | id in t.app ensures PhaseOk(t.timeouts, t.applies.late, t.app[id]) {
      if id in IdsOf(r.batch) {
        var c :| c in r.batch && c.id == id;
      } else {
        assert PhaseOk(s.timeouts, s.applies.late, s.app[id]);
      }
    }
  }

  lemma RetryRecords(s: State, r: RetryEv, app': AppDb)
    requires StatusInv(s) && LogOk(s.log) && AllMayRetry(s.app, r, false)
    requires Root(r.failed) < |s.log| && r.batch == s.log[Root(r.failed)].commands
    requires RetryWrote(s.app, app', r)
    ensures Live(Replay(s.log[..Started(s)]), app') && RecsAgree(s.log, Started(s), app')
    ensures AllLatest(s.log, app', s.marks.app + {RetryCmd(r.failed, r.attempt)})
    ensures LegalMoves(s.app, app')
  {
    RetryMoves(s, r, app');
    RetryIsLatest(s, r, app');
    TouchKeeps(s.log, Started(s), s.app, app', s.marks.app);
  }

  lemma RetryAssembled(s: State, r: RetryEv, t: State)
    requires StatusInv(s) && LogOk(s.log) && AllMayRetry(s.app, r, false)
    requires Root(r.failed) < |s.log| && r.batch == s.log[Root(r.failed)].commands
    requires RetryWrote(s.app, t.app, r) && t.pc.RetryDev? && t.threw == s.threw
    requires t.log == s.log && t.acks == s.acks && t.prepared == s.prepared && t.timeouts == s.timeouts
    requires t.applies == s.applies
    requires t.marks == s.marks.(app := s.marks.app + {RetryCmd(r.failed, r.attempt)})
    ensures StatusInv(t) && LegalMoves(s.app, t.app)
  {
    RetryPhases(s, t, r);
    RetryRecords(s, r, t.app);
    assert Started(t) == Started(s);
  }

  lemma RetryWriteKeepsStatus(s: State, r: RetryEv, t: State)
    requires StatusInv(s) && LogOk(s.log) && AllMayRetry(s.app, r, false) && s.pc.Idle?
    requires Root(r.failed) < |s.log| && r.batch == s.log[Root(r.failed)].commands
    requires DistinctIds(r.batch) && forall c | c in r.batch :: c.version == r.version
    requires t == s.(pc := RetryDev, app := Put(s.app, RetryHashes(s.app, r, false), r.version),
                     marks := s.marks.(app := s.marks.app + {RetryCmd(r.failed, r.attempt)}))
    ensures StatusInv(t) && LegalMoves(s.app, t.app)
  {
    RetryWrites(s.app, r);
    RetryAssembled(s, r, t);
  }

  lemma RetryIsLatest(s: State, r: RetryEv, app': AppDb)
    requires LogOk(s.log) && RetryWrote(s.app, app', r) && AllMayRetry(s.app, r, false)
    requires Root(r.failed) < |s.log| && r.batch == s.log[Root(r.failed)].commands
    ensures Latest(s.log, app', RetryCmd(r.failed, r.attempt))
  {
    var n := Root(r.failed);
    assert EventOk(Replay(s.log[..n]), n, s.log[n]);
    forall m | m in s.log[n].commands
      ensures m.id in app' && app'[m.id].version == n + 1 && app'[m.id].cmd == RetryCmd(r.failed, r.attempt)
    {
      assert MayRetry(s.app, m, r, false);
    }
  }

  /** What the stored facts say about a retry. */
  lemma RetryFacts(s: State, i: nat)
    requires Core(s) && WholeEvents(s) && i < |s.retries|
    ensures var r := s.retries[i];
      && Root(r.failed) < |s.log| && r.batch == s.log[Root(r.failed)].commands
      && DistinctIds(r.batch) && (forall c | c in r.batch :: c.version == r.version)
  {
    var r := s.retries[i];
    assert RetryOk(s, r);
    assert BatchOk(s, r.failed, s.prepared[r.failed]);
  }

  lemma RetryBeginKeepsStatus(s: State, r: RetryEv)
    requires StatusInv(s) && LogOk(s.log) && s.pc.Idle? && s.marks.dev <= s.marks.app
    requires Root(r.failed) < |s.log| && r.batch == s.log[Root(r.failed)].commands
    requires DistinctIds(r.batch) && forall c | c in r.batch :: c.version == r.version
    ensures StatusInv(RetryBegin(s, r)) && LegalMoves(s.app, RetryBegin(s, r).app)
  {
    var t, cmd := RetryBegin(s, r), RetryCmd(r.failed, r.attempt);
    if t.pc.RetryAck? || cmd in s.marks.app {
      NoMoves(s.app);
      assert cmd in s.marks.app ==> s.marks.app + {cmd} == s.marks.app;
      QuietKeepsStatus(s, t);
    } else {
      RetryWriteKeepsStatus(s, r, t);
    }
  }

  lemma RetryMarkKeepsStatus(s: State, r: RetryEv)
    requires StatusInv(s) && s.acks.retries < |s.retries| && r == s.retries[s.acks.retries]
    requires Root(r.failed) < |s.log| && r.batch == s.log[Root(r.failed)].commands
    requires s.pc.RetryDev? || s.pc.RetryPrepare? || s.pc.RetryCommand? || s.pc.RetryAck?
    ensures StatusInv(RetryStep(s)) && RetryStep(s).app == s.app
  {
    QuietKeepsStatus(s, RetryStep(s));
  }

  lemma RetryStepKeepsStatus(s: State)
    requires Core(s) && StatusInv(s) && LogOk(s.log) && s.acks.retries < |s.retries|
    requires s.pc.Idle? || ActivityOf(s.pc, Config).Retries?
    ensures StatusInv(RetryStep(s)) && LegalMoves(s.app, RetryStep(s).app)
  {
    RetryFacts(s, s.acks.retries);
    RetryGoesOn(s, s.retries[s.acks.retries]);
  }

  lemma RetryGoesOn(s: State, r: RetryEv)
    requires StatusInv(s) && LogOk(s.log) && s.marks.dev <= s.marks.app
    requires s.acks.retries < |s.retries| && r == s.retries[s.acks.retries]
    requires Root(r.failed) < |s.log| && r.batch == s.log[Root(r.failed)].commands
    requires DistinctIds(r.batch) && forall c | c in r.batch :: c.version == r.version
    requires s.pc.Idle? || ActivityOf(s.pc, Config).Retries?
    ensures StatusInv(RetryStep(s)) && LegalMoves(s.app, RetryStep(s).app)
  {
    NoMoves(s.app);
    if !s.pc.Idle? { RetryMarkKeepsStatus(s, r); } else if s.clock >= r.notBefore { RetryBeginKeepsStatus(s, r); }
  }

  // ---------------------------------------------------------------- every run

  lemma LogPrefix(log: seq<Event>, e: Event)
    requires LogOk(log + [e])
    ensures LogOk(log)
  {
    var l := log + [e];
    forall i | 0 <= i < |log| ensures EventOk(Replay(log[..i]), i, log[i]) {
      assert l[..i] == log[..i] && l[i] == log[i];
      assert EventOk(Replay(l[..i]), i, l[i]);
    }
  }

  lemma AppendKeepsStatus(s: State, e: Event)
    requires StatusInv(s)
    ensures StatusInv(s.(log := s.log + [e]))
  {
    var t := s.(log := s.log + [e]);
    assert t.log[..Started(s)] == s.log[..Started(s)];
    forall id | id in t.app ensures RecAgrees(t.log, Started(t), id, t.app[id]) {
      assert RecAgrees(s.log, Started(s), id, s.app[id]);
    }
    forall c | c in t.marks.app ensures Latest(t.log, t.app, c) { assert Latest(s.log, s.app, c); }
  }

  lemma FinishKeepsStatus(s: State, c: CmdId, late: bool)
    requires StatusInv(s) && c !in s.applies.late
    ensures StatusInv(s.(applies := s.applies.(late := s.applies.late[c := late])))
  {
    QuietKeepsStatus(s, s.(applies := s.applies.(late := s.applies.late[c := late])));
  }

  lemma AppendResultKeepsStatus(s: State, r: ResultEv)
    requires StatusInv(s) && PcOk(s)
    ensures StatusInv(s.(results := s.results + [r]))
  {
    QuietKeepsStatus(s, s.(results := s.results + [r]));
  }

  lemma EnvironmentKeepsStatus(s: State, a: Action)
    requires StatusInv(s) && PcOk(s) && !a.Next? && !a.AppendEvent?
    ensures StatusInv(Step(s, a))
  {
    match a
    case Attempt(p) => QuietKeepsStatus(s, Step(s, a));
    case Finish(p, late) =>
      if Step(s, a) != s { FinishKeepsStatus(s, s.commands[p].id, late); }
    case AppendResult(r) => AppendResultKeepsStatus(s, r);
    case Tick(now) => QuietKeepsStatus(s, s.(clock := now));
    case Crash => QuietKeepsStatus(s, s.(pc := Idle));
  }

  lemma StepKeepsStatus(s: State, a: Action)
    requires Inv(s) && StatusInv(s) && LogOk(s.log)
    ensures StatusInv(Step(s, a)) && LegalMoves(s.app, Step(s, a).app)
  {
    NoMoves(s.app);
    match a
    case AppendEvent(e) => AppendKeepsStatus(s, e);
    case Next(pick) =>
      match ActivityOf(s.pc, pick) {
        case Config => if s.acks.config < |s.log| { ConfigStepKeepsStatus(s); }
        case Results => if s.acks.results < |s.results| { ResultStepKeepsStatus(s); }
        case Retries => if s.acks.retries < |s.retries| { RetryStepKeepsStatus(s); }
      }
    case _ => EnvironmentWritesNothing(s, a); EnvironmentKeepsStatus(s, a);
  }

  lemma ConfigKeepsLog(s: State)
    ensures ConfigStep(s).log == s.log
  {
  }

  lemma ResultKeepsLog(s: State)
    ensures ResultStep(s).log == s.log
  {
  }

  lemma RetryKeepsLog(s: State)
    ensures RetryStep(s).log == s.log
  {
  }

  lemma LogOnlyGrows(s: State, a: Action)
    ensures Step(s, a).log == s.log || (a.AppendEvent? && Step(s, a).log == s.log + [a.event])
  {
    if a.Next? {
      match ActivityOf(s.pc, a.activity) {
        case Config => ConfigKeepsLog(s);
        case Results => ResultKeepsLog(s);
        case Retries => RetryKeepsLog(s);
      }
    }
  }

  lemma LogWasOk(s: State, a: Action)
    requires LogOk(Step(s, a).log)
    ensures LogOk(s.log)
  {
    LogOnlyGrows(s, a);
    if Step(s, a).log != s.log { LogPrefix(s.log, a.event); }
  }

  lemma {:induction false} StatusOverRuns(policy: RetryPolicy, actions: seq<Action>)
    requires LogOk(Run(Init(policy), actions).log)
    ensures StatusInv(Run(Init(policy), actions))
  {
    if actions != [] {
      var s, a := Run(Init(policy), actions[..|actions| - 1]), actions[|actions| - 1];
      LogWasOk(s, a);
      StatusOverRuns(policy, actions[..|actions| - 1]);
      InvOverRuns(policy, actions[..|actions| - 1]);
      StepKeepsStatus(s, a);
    } else {
      var s := Init(policy);
      assert s.log[..0] == [];
    }
  }

  lemma ReachableStatus(policy: RetryPolicy, s: State)
    requires Reachable(Init(policy), s) && LogOk(s.log)
    ensures Inv(s) && StatusInv(s)
  {
    ReachableIffRun(Init(policy), s);
    var actions :| s == Run(Init(policy), actions);
    StatusOverRuns(policy, actions);
    InvOverRuns(policy, actions);
  }

  /** For logs produced by Set, in every step of every run: statuses agree with the stored operation
      and move only legally, and neither the transition check nor the check for results newer than
      the application state ever throws. */
  lemma StatusMachineOverRuns(policy: RetryPolicy, s: State, a: Action)
    requires Reachable(Init(policy), s) && LogOk(Step(s, a).log)
    ensures var t := Step(s, a);
      && !t.threw
      && (forall id | id in t.app ::
            && t.app[id].status in {Applying, Removing, Active, Status.Absent, Failed, RetryWait}
            && Agrees(t.app[id].op, t.app[id].status))
      && LegalMoves(s.app, t.app)
  {
    LogWasOk(s, a);
    ReachableStatus(policy, s);
    StepKeepsStatus(s, a);
    StatusesAgree(Step(s, a));
  }

  lemma StatusesAgree(s: State)
    requires RecsAgree(s.log, Started(s), s.app)
    ensures forall id | id in s.app ::
      && s.app[id].status in {Applying, Removing, Active, Status.Absent, Failed, RetryWait}
      && Agrees(s.app[id].op, s.app[id].status)
  {
    forall id | id in s.app
      ensures s.app[id].status in {Applying, Removing, Active, Status.Absent, Failed, RetryWait}
      ensures Agrees(s.app[id].op, s.app[id].status)
    {
      assert RecAgrees(s.log, Started(s), id, s.app[id]);
    }
  }

  /** On such logs every event taken is published whole, and once all are taken the records are exactly
      the connections the log replays to, with their ports and versions. */
  lemma EventsArePublishedWhole(policy: RetryPolicy, s: State)
    requires Reachable(Init(policy), s) && LogOk(s.log)
    ensures forall i | 0 <= i < s.acks.config :: CommandsFor(s.commands, ConfigCmd(i)) == 1
    ensures forall p | 0 <= p < |s.commands| ::
      Root(s.commands[p].id) < |s.log| && s.commands[p].batch == s.log[Root(s.commands[p].id)].commands
    ensures s.acks.config == |s.log| ==> Live(Replay(s.log), s.app)
  {
    ReachableStatus(policy, s);
    forall p | 0 <= p < |s.commands|
      ensures Root(s.commands[p].id) < |s.log| && s.commands[p].batch == s.log[Root(s.commands[p].id)].commands
    {
      assert EntryOk(s, s.commands[p]);
    }
    if s.acks.config == |s.log| {
      assert s.log[..Started(s)] == s.log;
    }
  }
}
