/** What becomes of results, timeouts and retries, for logs as Set produces them.

Every status in APPL_DB has a cause among the results read so far, the cause decides it, and nothing
that was acknowledged is lost unless a newer event has taken over. */
module OrchestratorResults {
  import opened Connections
  import opened CommandIds
  import opened ConfigLog
  import opened StatusMachine
  import opened Backoff
  import opened Orchestrator
  import opened OrchestratorStatus

  // ---------------------------------------------------------------- causes of a status

  ghost predicate HasResult(results: seq<ResultEv>, c: CmdId, id: string, outcome: Outcome)
  {
    exists p :: 0 <= p < |results| && results[p].cmd == c && results[p].id == id && results[p].outcome == outcome
  }

  /** The status of a record and what it rests on: an execution has no recorded timeout and carries
      its command's attempt number; ACTIVE, ABSENT and FAILED rest on a result of the command the
      record names, or FAILED on a timeout that was not to be retried; RETRY_WAIT on one that was. */
  ghost predicate Explained(results: seq<ResultEv>, timeouts: map<CmdId, Meta>, id: string, rec: AppRec)
  {
    match rec.status
    case Applying => rec.op.Upsert? && rec.attempt == Depth(rec.cmd) && rec.cmd !in timeouts
    case Removing => rec.op.Remove? && rec.attempt == Depth(rec.cmd) && rec.cmd !in timeouts
    case Active =>
      rec.op.Upsert? && rec.attempt == 0 && rec.cmd !in timeouts && HasResult(results, rec.cmd, id, Success)
    case Absent =>
      rec.op.Remove? && rec.attempt == 0 && rec.cmd !in timeouts && HasResult(results, rec.cmd, id, Success)
    case Failed =>
      if rec.cmd in timeouts then !timeouts[rec.cmd].scheduled && rec.attempt == timeouts[rec.cmd].attempt
      else HasResult(results, rec.cmd, id, Failure)
    case RetryWait =>
      rec.cmd in timeouts && timeouts[rec.cmd].scheduled && rec.attempt == timeouts[rec.cmd].attempt
    case _ => false
  }

  /** The connection is a member of the event its record's command belongs to. */
  ghost predicate IsMember(log: seq<Event>, id: string, rec: AppRec)
  {
    Root(rec.cmd) < |log| && exists m :: m in log[Root(rec.cmd)].commands && m.id == id
  }

  ghost predicate RecTold(s: State, id: string, rec: AppRec)
  {
    Explained(s.results, s.timeouts.app, id, rec) && IsMember(s.log, id, rec)
  }

  ghost predicate RecordsTold(s: State)
  {
    forall id | id in s.app :: RecTold(s, id, s.app[id])
  }

  // ---------------------------------------------------------------- what became of messages

  /** A newer event has taken over some connection of the command's event. */
  ghost predicate Superseded(app: AppDb, log: seq<Event>, c: CmdId)
  {
    Root(c) < |log| && exists m :: m in log[Root(c)].commands && m.id in app && app[m.id].version > Root(c) + 1
  }

  /** The record is final under this very command, or newer. */
  predicate Settled(app: AppDb, c: CmdId, id: string)
  {
    id in app && (app[id].version > Root(c) + 1
                  || (app[id].version == Root(c) + 1 && app[id].cmd == c && Terminal(app[id].status)))
  }

  ghost predicate MarksTold(s: State)
  {
    forall c, id | (c, id) in s.marks.resultApp :: Settled(s.app, c, id)
  }

  ghost predicate TimeoutHandled(s: State, c: CmdId)
  {
    || Superseded(s.app, s.log, c)
    || (c in s.timeouts.app && (s.timeouts.app[c].scheduled ==> c in s.marks.retry))
  }

  ghost predicate ResultHandled(s: State, r: ResultEv)
  {
    if r.outcome.TimedOut? then TimeoutHandled(s, r.cmd) else Settled(s.app, r.cmd, r.id)
  }

  ghost predicate RetryHandled(s: State, r: RetryEv)
  {
    Superseded(s.app, s.log, r.failed) || RetryCmd(r.failed, r.attempt) in s.marks.cmd
  }

  ghost predicate AcksOk(s: State)
  {
    && s.acks.results <= |s.results| && s.acks.retries <= |s.retries|
    && (forall p | 0 <= p < s.acks.results :: ResultHandled(s, s.results[p]))
    && (forall q | 0 <= q < s.acks.retries :: RetryHandled(s, s.retries[q]))
    && (s.pc.ResultAck? && s.acks.results < |s.results| ==> ResultHandled(s, s.results[s.acks.results]))
    && (s.pc.RetryAck? && s.acks.retries < |s.retries| ==> RetryHandled(s, s.retries[s.acks.retries]))
  }

  ghost predicate RetriesTold(s: State)
  {
    && (forall q | 0 <= q < |s.retries| :: s.retries[q].failed in s.marks.retry)
    && (forall c | c in s.marks.app && c.RetryCmd? :: c.failed in s.marks.retry)
  }

  ghost predicate Told(s: State)
  {
    RecordsTold(s) && MarksTold(s) && AcksOk(s) && RetriesTold(s)
  }

  // ---------------------------------------------------------------- what steps keep

  /** A record only changes by a newer version or while it is not final. */
  ghost predicate Moves(app: AppDb, app': AppDb)
  {
    forall id | id in app ::
      && id in app'
      && (|| app'[id] == app[id] || app'[id].version > app[id].version
          || (app'[id].version == app[id].version && !Terminal(app[id].status)))
  }

  ghost predicate Prefix<T>(a: seq<T>, b: seq<T>)
  {
    |a| <= |b| && forall i | 0 <= i < |a| :: b[i] == a[i]
  }

  ghost predicate Later(s: State, t: State)
  {
    && Prefix(s.log, t.log) && Prefix(s.results, t.results) && Prefix(s.retries, t.retries)
    && Moves(s.app, t.app) && MapGrows(s.timeouts.app, t.timeouts.app)
    && s.marks.retry <= t.marks.retry && s.marks.cmd <= t.marks.cmd
  }

  lemma SettledKept(app: AppDb, app': AppDb, c: CmdId, id: string)
    requires Settled(app, c, id) && Moves(app, app')
    ensures Settled(app', c, id)
  {
  }

  lemma SupersededKept(s: State, t: State, c: CmdId)
    requires Superseded(s.app, s.log, c) && Prefix(s.log, t.log) && Moves(s.app, t.app)
    ensures Superseded(t.app, t.log, c)
  {
    var m :| m in s.log[Root(c)].commands && m.id in s.app && s.app[m.id].version > Root(c) + 1;
    assert m in t.log[Root(c)].commands && m.id in t.app && t.app[m.id].version > Root(c) + 1;
  }

  lemma ResultHandledKept(s: State, t: State, r: ResultEv)
    requires ResultHandled(s, r) && Later(s, t)
    ensures ResultHandled(t, r)
  {
    if !r.outcome.TimedOut? { SettledKept(s.app, t.app, r.cmd, r.id); }
    else if Superseded(s.app, s.log, r.cmd) { SupersededKept(s, t, r.cmd); }
  }

  lemma RetryHandledKept(s: State, t: State, r: RetryEv)
    requires RetryHandled(s, r) && Later(s, t)
    ensures RetryHandled(t, r)
  {
    if Superseded(s.app, s.log, r.failed) { SupersededKept(s, t, r.failed); }
  }

  lemma HasResultKept(a: seq<ResultEv>, b: seq<ResultEv>, c: CmdId, id: string, outcome: Outcome)
    requires HasResult(a, c, id, outcome) && Prefix(a, b)
    ensures HasResult(b, c, id, outcome)
  {
    var p :| 0 <= p < |a| && a[p].cmd == c && a[p].id == id && a[p].outcome == outcome;
    assert b[p] == a[p];
  }

  lemma RecToldKept(s: State, t: State, id: string, rec: AppRec)
    requires RecTold(s, id, rec) && Prefix(s.results, t.results) && Prefix(s.log, t.log)
    requires MapGrows(s.timeouts.app, t.timeouts.app) && (rec.cmd in t.timeouts.app ==> rec.cmd in s.timeouts.app)
    ensures RecTold(t, id, rec)
  {
    if HasResult(s.results, rec.cmd, id, Success) { HasResultKept(s.results, t.results, rec.cmd, id, Success); }
    if HasResult(s.results, rec.cmd, id, Failure) { HasResultKept(s.results, t.results, rec.cmd, id, Failure); }
    assert t.log[Root(rec.cmd)] == s.log[Root(rec.cmd)];
  }

  /** A record that was there and whose command has not just timed out. */
  ghost predicate OldRec(s: State, t: State, id: string)
    requires id in t.app
  {
    id in s.app && t.app[id] == s.app[id] && (t.app[id].cmd in t.timeouts.app ==> t.app[id].cmd in s.timeouts.app)
  }

  ghost predicate NewRecordsTold(s: State, t: State)
  {
    forall id | id in t.app :: OldRec(s, t, id) || RecTold(t, id, t.app[id])
  }

  ghost predicate NewMarksTold(s: State, t: State)
  {
    && (forall c, id | (c, id) in t.marks.resultApp :: (c, id) in s.marks.resultApp || Settled(t.app, c, id))
    && (forall q | |s.retries| <= q < |t.retries| :: t.retries[q].failed in t.marks.retry)
    && (forall c | c in t.marks.app && c.RetryCmd? :: c in s.marks.app || c.failed in t.marks.retry)
  }

  ghost predicate SameAcks(s: State, t: State)
  {
    t.acks.results == s.acks.results && t.acks.retries == s.acks.retries
  }

  ghost predicate NewAcksOk(s: State, t: State)
  {
    && SameAcks(s, t)
    && (t.pc.ResultAck? && t.acks.results < |t.results| ==>
          (s.pc.ResultAck? && s.acks.results < |s.results|) || ResultHandled(t, t.results[t.acks.results]))
    && (t.pc.RetryAck? && t.acks.retries < |t.retries| ==>
          (s.pc.RetryAck? && s.acks.retries < |s.retries|) || RetryHandled(t, t.retries[t.acks.retries]))
  }

  lemma RecordsToldKept(s: State, t: State)
    requires RecordsTold(s) && Later(s, t) && NewRecordsTold(s, t)
    ensures RecordsTold(t)
  {
    forall id | id in t.app ensures RecTold(t, id, t.app[id]) {
      if OldRec(s, t, id) { RecToldKept(s, t, id, s.app[id]); }
    }
  }

  lemma MarksToldKept(s: State, t: State)
    requires MarksTold(s) && RetriesTold(s) && Later(s, t) && NewMarksTold(s, t)
    ensures MarksTold(t) && RetriesTold(t)
  {
    forall c, id | (c, id) in t.marks.resultApp ensures Settled(t.app, c, id) {
      if (c, id) in s.marks.resultApp {
        SettledKept(s.app, t.app, c, id);
      }
    }
  }

  lemma AcksKept(s: State, t: State)
    requires AcksOk(s) && Later(s, t) && NewAcksOk(s, t)
    ensures AcksOk(t)
  {
    forall p | 0 <= p < |s.results| && ResultHandled(s, s.results[p]) ensures ResultHandled(t, t.results[p]) {
      ResultHandledKept(s, t, s.results[p]);
    }
    forall q | 0 <= q < |s.retries| && RetryHandled(s, s.retries[q]) ensures RetryHandled(t, t.retries[q]) {
      RetryHandledKept(s, t, s.retries[q]);
    }
  }

  lemma ToldKept(s: State, t: State)
    requires Told(s) && Later(s, t) && NewRecordsTold(s, t) && NewMarksTold(s, t) && NewAcksOk(s, t)
    ensures Told(t)
  {
    RecordsToldKept(s, t);
    MarksToldKept(s, t);
    AcksKept(s, t);
  }

  /** Steps that write no records and no timeouts. */
  lemma QuietTold(s: State, t: State)
    requires Told(s) && t.app == s.app && t.timeouts.app == s.timeouts.app && NewAcksOk(s, t) && NewMarksTold(s, t)
    requires Prefix(s.log, t.log) && Prefix(s.results, t.results) && Prefix(s.retries, t.retries)
    requires s.marks.retry <= t.marks.retry && s.marks.cmd <= t.marks.cmd
    ensures Told(t)
  {
    ToldKept(s, t);
  }

  // ---------------------------------------------------------------- the commands of one event

  /** The record of a member of a started command is newer, or names that command or a later retry of it. */
  lemma MemberRecord(s: State, c: CmdId, m: Command)
    requires AppOk(s) && LogOk(s.log) && AllLatest(s.log, s.app, s.marks.app) && c in s.marks.app && Numbered(c)
    requires Root(c) < |s.log| && m in s.log[Root(c)].commands
    ensures m.id in s.app && m.version == Root(c) + 1 <= s.app[m.id].version
    ensures var rec := s.app[m.id];
      rec.version == Root(c) + 1 ==>
        && Root(rec.cmd) == Root(c) && Numbered(rec.cmd) && rec.cmd in s.marks.app
        && (rec.cmd == c || Depth(c) < Depth(rec.cmd))
  {
    assert Latest(s.log, s.app, c);
    assert EventOk(Replay(s.log[..Root(c)]), Root(c), s.log[Root(c)]);
    var rec := s.app[m.id];
    assert RecOk(s, rec);
    assert EventOk(Replay(s.log[..Root(rec.cmd)]), Root(rec.cmd), s.log[Root(rec.cmd)]);
    if rec.version == Root(c) + 1 && Depth(c) == Depth(rec.cmd) { ChainUnique(c, rec.cmd); }
  }

  /** Every command of a chain but the last was handed to a retry. */
  lemma {:induction false} EarlierRetried(s: State, c: CmdId, d: CmdId)
    requires CmdsOk(s) && MarksOk(s) && RetriesTold(s) && d in s.marks.app
    requires Numbered(c) && Numbered(d) && Root(c) == Root(d) && Depth(c) < Depth(d)
    ensures c in s.timeouts.app && c in s.marks.retry
    decreases d
  {
    assert StartedOk(s, d);
    if Depth(c) == Depth(d.failed) { ChainUnique(c, d.failed); } else { EarlierRetried(s, c, d.failed); }
  }

  // ---------------------------------------------------------------- configuration steps

  lemma WroteMovesOn(s: State, n: nat, app': AppDb)
    requires LogOk(s.log) && n < |s.log| && Live(Replay(s.log[..n]), s.app) && RecsAgree(s.log, n, s.app)
    requires Wrote(s.app, app', n, s.log[n].commands)
    ensures Moves(s.app, app')
  {
    forall id | id in s.app
      ensures id in app' && (app'[id] == s.app[id] || app'[id].version > s.app[id].version)
    {
      if id in IdsOf(s.log[n].commands) {
        var c :| c in s.log[n].commands && c.id == id;
        assert RecAgrees(s.log, n, id, s.app[id]);
      }
    }
  }

  lemma WroteTold(s: State, t: State, n: nat)
    requires n < |t.log| && Wrote(s.app, t.app, n, t.log[n].commands) && t.timeouts.app == s.timeouts.app
    requires ConfigCmd(n) !in t.timeouts.app
    requires forall c | c in t.log[n].commands :: c.op.Upsert? || c.op.Remove?
    ensures NewRecordsTold(s, t)
  {
    forall id | id in t.app ensures OldRec(s, t, id) || RecTold(t, id, t.app[id]) {
      if id in IdsOf(t.log[n].commands) {
        var c :| c in t.log[n].commands && c.id == id;
        assert t.app[id] == StartRec(c, n);
      }
    }
  }

  lemma NotYetTimedOut(s: State, c: CmdId)
    requires CmdsOk(s) && TimeoutsOk(s) && c !in s.marks.app
    ensures c !in s.timeouts.app
  {
    assert c in s.timeouts.dev ==> MetaOk(s, c, s.timeouts.dev[c]);
  }

  lemma FirstWriteTold(s: State, t: State, n: nat)
    requires CmdsOk(s) && TimeoutsOk(s) && Told(s) && LogOk(s.log) && n < |s.log| && ConfigCmd(n) !in s.marks.app
    requires Live(Replay(s.log[..n]), s.app) && RecsAgree(s.log, n, s.app)
    requires t == s.(pc := ConfigDev,
                     app := Put(s.app, StartHashes(s.app, s.log[n].commands, ConfigCmd(n)), s.log[n].version),
                     marks := s.marks.(app := s.marks.app + {ConfigCmd(n)}))
    ensures Told(t)
  {
    ConfigWrites(s.log, n, s.app);
    WroteMovesOn(s, n, t.app);
    NotYetTimedOut(s, ConfigCmd(n));
    WroteTold(s, t, n);
    ToldKept(s, t);
  }

  lemma ConfigAppIs(s: State, n: nat, cmd: CmdId)
    requires s.pc.ConfigApp? && n == s.acks.config < |s.log| && cmd == ConfigCmd(n) && cmd in s.prepared
    requires s.prepared[cmd] == s.log[n].commands
    ensures var t := ConfigAppStep(s);
      || (cmd in s.marks.app && t == s.(pc := ConfigDev, marks := t.marks) && t.marks == s.marks.(app := s.marks.app))
      || t == s.(pc := Idle, threw := true)
      || (&& cmd !in s.marks.app
          && t == s.(pc := ConfigDev, app := Put(s.app, StartHashes(s.app, s.log[n].commands, cmd), s.log[n].version),
                     marks := s.marks.(app := s.marks.app + {cmd})))
  {
    if cmd in s.marks.app { assert s.marks.app + {cmd} == s.marks.app; }
  }

  lemma ConfigAppTold(s: State)
    requires CmdsOk(s) && TimeoutsOk(s) && WholeEvents(s) && Told(s) && LogOk(s.log) && s.acks.config < |s.log|
    requires Live(Replay(s.log[..Started(s)]), s.app) && RecsAgree(s.log, Started(s), s.app)
    requires s.pc.ConfigApp? && ConfigCmd(s.acks.config) in s.prepared
    ensures Told(ConfigAppStep(s))
  {
    var n, t := s.acks.config, ConfigAppStep(s);
    ConfigAppIs(s, n, ConfigCmd(n));
    if t.app == s.app && t.marks == s.marks { QuietSame(s, t); } else { FirstWriteTold(s, t, n); }
  }

  /** At most a command is published or prepared. */
  ghost predicate ConfigQuiet(s: State, t: State)
  {
    && t.log == s.log && t.results == s.results && t.retries == s.retries && t.app == s.app
    && t.timeouts == s.timeouts && t.marks.resultApp == s.marks.resultApp && t.marks.app == s.marks.app
    && t.marks.retry == s.marks.retry && s.marks.cmd <= t.marks.cmd && SameAcks(s, t)
    && !t.pc.ResultAck? && !t.pc.RetryAck?
  }

  lemma QuietSame(s: State, t: State)
    requires Told(s) && ConfigQuiet(s, t)
    ensures Told(t)
  {
    QuietTold(s, t);
  }

  lemma ConfigBeginQuiet(s: State)
    requires s.acks.config < |s.log|
    ensures ConfigQuiet(s, ConfigBegin(s))
  {
  }

  lemma PublishQuiet(s: State, cmd: CmdId, version: nat)
    ensures ConfigQuiet(s, Publish(s, cmd, version).(pc := ConfigAck))
  {
  }

  lemma ConfigQuietIs(s: State)
    requires s.acks.config < |s.log| && !s.pc.ConfigApp?
    requires s.pc.Idle? || ActivityOf(s.pc, Results).Config?
    ensures ConfigQuiet(s, ConfigStep(s))
  {
    if s.pc.Idle? {
      ConfigBeginQuiet(s);
    } else if s.pc.ConfigCommand? {
      PublishQuiet(s, ConfigCmd(s.acks.config), s.log[s.acks.config].version);
    }
  }

  lemma ConfigStepTold(s: State)
    requires CmdsOk(s) && TimeoutsOk(s) && PcOk(s) && StatusInv(s) && Told(s) && LogOk(s.log) && s.acks.config < |s.log|
    requires s.pc.Idle? || ActivityOf(s.pc, Results).Config?
    ensures Told(ConfigStep(s))
  {
    if s.pc.ConfigApp? {
      ConfigAppTold(s);
    } else {
      ConfigQuietIs(s);
      QuietSame(s, ConfigStep(s));
    }
  }

  // ---------------------------------------------------------------- results

  /** The version of a result is the number of its event, counted from one. */
  lemma ResultVersion(s: State, r: ResultEv)
    requires ResultOk(s, r) && LogOk(s.log)
    ensures r.version == Root(r.cmd) + 1
  {
    assert EventOk(Replay(s.log[..Root(r.cmd)]), Root(r.cmd), s.log[Root(r.cmd)]);
  }

  lemma ResultBeginTold(s: State, r: ResultEv)
    requires Told(s) && s.pc.Idle? && s.acks.results < |s.results| && r == s.results[s.acks.results]
    requires !r.outcome.TimedOut? && r.version == Root(r.cmd) + 1
    requires r.id in s.app && r.version <= s.app[r.id].version
    requires r.version == s.app[r.id].version ==> s.app[r.id].cmd == r.cmd
    ensures Told(ResultBegin(s, r))
  {
    var t := ResultBegin(s, r);
    assert t.pc.ResultAck? ==> ResultHandled(t, r);
    QuietTold(s, t);
  }

  /** A result that is not a timeout decides: what it leaves under the command it belongs to. */
  ghost predicate DecidedBy(was: AppRec, rec: AppRec, r: ResultEv)
  {
    && was.cmd == r.cmd && InExecution(was.status)
    && (r.outcome == Failure ==> rec == was.(status := Failed))
    && (r.outcome == Success ==> rec == was.(status := if was.op.Remove? then Status.Absent else Active, attempt := 0))
  }

  lemma ResolvedIsDecided(was: AppRec, next: Status, r: ResultEv)
    requires Agrees(was.op, was.status) && InExecution(was.status) && was.cmd == r.cmd && !r.outcome.TimedOut?
    requires next == NextStatus(was.status, r.outcome)
    ensures DecidedBy(was, Resolved(was, next), r)
  {
  }

  lemma DecidedTold(s: State, t: State, r: ResultEv, i: nat)
    requires i < |t.results| && r == t.results[i] && !r.outcome.TimedOut? && r.cmd !in t.timeouts.app
    requires r.id in s.app && r.id in t.app && DecidedBy(s.app[r.id], t.app[r.id], r)
    requires IsMember(t.log, r.id, s.app[r.id])
    ensures RecTold(t, r.id, t.app[r.id])
  {
    assert HasResult(t.results, r.cmd, r.id, r.outcome);
    assert IsMember(t.log, r.id, t.app[r.id]) by {
      var m :| m in t.log[Root(r.cmd)].commands && m.id == r.id;
    }
  }

  lemma ResultWriteTold(s: State, t: State, r: ResultEv)
    requires Told(s) && s.pc.ResultApp? && s.acks.results < |s.results| && r == s.results[s.acks.results]
    requires !r.outcome.TimedOut? && r.version == Root(r.cmd) + 1 && r.cmd !in s.timeouts.app
    requires r.id in s.app && s.app[r.id].version == r.version && r.id in t.app
    requires DecidedBy(s.app[r.id], t.app[r.id], r)
    requires t == s.(pc := ResultAck, app := s.app[r.id := t.app[r.id]],
                     marks := s.marks.(resultApp := s.marks.resultApp + {(r.cmd, r.id)}))
    ensures Told(t)
  {
    assert RecTold(s, r.id, s.app[r.id]);
    DecidedTold(s, t, r, s.acks.results);
    assert Settled(t.app, r.cmd, r.id);
    ToldKept(s, t);
  }

  lemma ResultAppTold(s: State, r: ResultEv)
    requires Told(s) && ResolvingOk(s) && RecsAgree(s.log, Started(s), s.app) && TimeoutsOk(s)
    requires s.pc.ResultApp? && s.acks.results < |s.results| && r == s.results[s.acks.results]
    requires !r.outcome.TimedOut? && r.version == Root(r.cmd) + 1 && r.cmd in s.applies.late && !s.applies.late[r.cmd]
    requires r.id in s.app && s.app[r.id].version == r.version
    ensures Told(ResultAppStep(s, r, s.pc.next))
    ensures var t := ResultAppStep(s, r, s.pc.next);
      r.id in t.app && t.app == s.app[r.id := t.app[r.id]] && DecidedBy(s.app[r.id], t.app[r.id], r)
  {
    var t := ResultAppStep(s, r, s.pc.next);
    assert (r.cmd, r.id) in s.marks.resultApp ==> Settled(s.app, r.cmd, r.id);
    assert RecAgrees(s.log, Started(s), r.id, s.app[r.id]);
    OnePut(s.app, r.id, Resolved(s.app[r.id], s.pc.next), r.version);
    ResolvedIsDecided(s.app[r.id], s.pc.next, r);
    NotTimedOut(s, r.cmd);
    ResultWriteTold(s, t, r);
  }

  // ---------------------------------------------------------------- timeouts

  /** A timeout that is acknowledged at once has nothing left to do. */
  lemma LateMember(s: State, c: CmdId, m: Command)
    requires Core(s) && RetriesTold(s) && AllLatest(s.log, s.app, s.marks.app) && LogOk(s.log)
    requires c in s.marks.app && Numbered(c) && Root(c) < |s.log| && m in s.log[Root(c)].commands
    requires !IsCurrent(s.app, m, c)
    ensures TimeoutHandled(s, c)
  {
    MemberRecord(s, c, m);
    if s.app[m.id].version == Root(c) + 1 { EarlierRetried(s, c, s.app[m.id].cmd); }
  }

  lemma UndecidedTold(s: State, r: ResultEv, first: Command)
    requires PhasesOk(s) && r.version == first.version && r.cmd in s.applies.late && s.applies.late[r.cmd]
    requires Decide(s, r, first).None?
    ensures !IsCurrent(s.app, first, r.cmd)
  {
    assert first.id in s.app ==> PhaseOk(s.timeouts, s.applies.late, s.app[first.id]);
  }

  lemma TimeoutBeginHandled(s: State, r: ResultEv)
    requires Core(s) && StatusInv(s) && RetriesTold(s) && LogOk(s.log)
    requires ResultOk(s, r) && r.outcome.TimedOut? && TimeoutBegin(s, r).pc.ResultAck?
    ensures TimeoutHandled(s, r.cmd)
  {
    ResultVersion(s, r);
    var c := r.cmd;
    assert BatchOk(s, c, s.prepared[c]) && c in s.applies.attempts;
    var batch := s.log[Root(c)].commands;
    assert s.applies.attempts[c] == batch;
    assert EventOk(Replay(s.log[..Root(c)]), Root(c), s.log[Root(c)]);
    if Decide(s, r, batch[0]).None? {
      UndecidedTold(s, r, batch[0]);
      LateMember(s, c, batch[0]);
    } else {
      var m :| m in batch && !IsCurrent(s.app, m, c);
      LateMember(s, c, m);
    }
  }

  lemma TimeoutBeginTold(s: State, r: ResultEv)
    requires Told(s) && s.pc.Idle? && s.acks.results < |s.results| && r == s.results[s.acks.results]
    requires r.outcome.TimedOut? && (TimeoutBegin(s, r).pc.ResultAck? ==> TimeoutHandled(s, r.cmd))
    ensures Told(TimeoutBegin(s, r))
  {
    var t := TimeoutBegin(s, r);
    if t.pc.ResultAck? { assert t == s.(pc := ResultAck) && ResultHandled(t, r); }
    QuietTold(s, t);
  }

  lemma LateRecord(s: State, t: State, c: CmdId, meta: Meta, id: string)
    requires id in s.app && id in t.app && s.app[id].cmd == c && RecTold(s, id, s.app[id])
    requires t.app[id] == s.app[id].(status := meta.status, attempt := meta.attempt) && t.log == s.log
    requires c in t.timeouts.app && t.timeouts.app[c] == meta
    requires meta.status == if meta.scheduled then RetryWait else Failed
    ensures RecTold(t, id, t.app[id])
  {
    var m :| m in s.log[Root(c)].commands && m.id == id;
    assert IsMember(t.log, id, t.app[id]);
  }

  lemma LateRecordsTold(s: State, t: State, c: CmdId, meta: Meta, batch: seq<Command>)
    requires RecordsTold(s) && Root(c) < |s.log| && batch == s.log[Root(c)].commands && t.log == s.log
    requires LateWrote(s.app, t.app, batch, meta) && AllCurrent(s.app, batch, c)
    requires t.timeouts.app == s.timeouts.app[c := meta]
    requires meta.status == if meta.scheduled then RetryWait else Failed
    ensures NewRecordsTold(s, t)
  {
    forall id | id in t.app ensures OldRec(s, t, id) || RecTold(t, id, t.app[id]) {
      if id in IdsOf(batch) {
        var m :| m in batch && m.id == id;
        assert IsCurrent(s.app, m, c) && RecTold(s, id, s.app[id]);
        LateRecord(s, t, c, meta, id);
      } else {
        assert RecTold(s, id, s.app[id]);
        assert s.app[id].cmd == c ==> id in IdsOf(batch);
      }
    }
  }

  lemma LateMovesOn(s: State, app': AppDb, c: CmdId, meta: Meta, batch: seq<Command>)
    requires TimeoutsOk(s) && PhasesOk(s) && c in s.timeouts.dev && c !in s.timeouts.app
    requires LateWrote(s.app, app', batch, meta) && AllCurrent(s.app, batch, c)
    ensures Moves(s.app, app')
  {
    forall id | id in s.app
      ensures id in app' && (app'[id] == s.app[id]
                             || (app'[id].version == s.app[id].version && !Terminal(s.app[id].status)))
    {
      if id in IdsOf(batch) {
        var m :| m in batch && m.id == id;
        assert IsCurrent(s.app, m, c);
        LateWasExecuting(s, c, id);
      }
    }
  }

  lemma TimeoutAppTold(s: State, r: ResultEv, meta: Meta, batch: seq<Command>)
    requires TimeoutsOk(s) && PhasesOk(s) && Told(s) && s.pc == TimeoutApp(meta)
    requires r.cmd in s.applies.attempts && batch == s.applies.attempts[r.cmd] && AllCurrent(s.app, batch, r.cmd)
    requires DistinctIds(batch) && forall c | c in batch :: c.version == r.version
    requires r.cmd in s.timeouts.dev && s.timeouts.dev[r.cmd] == meta
    requires Root(r.cmd) < |s.log| && batch == s.log[Root(r.cmd)].commands
    ensures Told(TimeoutAppStep(s, r, meta))
  {
    var t := TimeoutAppStep(s, r, meta);
    if r.cmd in s.timeouts.app {
      QuietTold(s, t);
    } else {
      assert MetaOk(s, r.cmd, meta);
      LateWrites(s.app, batch, r.cmd, meta, r.version);
      LateMovesOn(s, t.app, r.cmd, meta, batch);
      LateRecordsTold(s, t, r.cmd, meta, batch);
      ToldKept(s, t);
    }
  }

  lemma TimeoutRetryTold(s: State, r: ResultEv, meta: Meta)
    requires Told(s) && s.pc == TimeoutRetry(meta) && s.acks.results < |s.results| && r == s.results[s.acks.results]
    requires r.outcome.TimedOut? && r.cmd in s.timeouts.app && s.timeouts.app[r.cmd] == meta
    requires r.cmd in s.applies.attempts
    ensures Told(TimeoutRetryStep(s, r, meta))
  {
    var t := TimeoutRetryStep(s, r, meta);
    assert ResultHandled(t, r);
    QuietTold(s, t);
  }

  lemma ResultAckTold(s: State)
    requires Told(s) && s.pc.ResultAck? && s.acks.results < |s.results|
    ensures Told(s.(pc := Idle, acks := s.acks.(results := s.acks.results + 1)))
  {
    var t := s.(pc := Idle, acks := s.acks.(results := s.acks.results + 1));
    assert forall r :: ResultHandled(s, r) <==> ResultHandled(t, r);
    assert forall r :: RetryHandled(s, r) <==> RetryHandled(t, r);
  }

  lemma ResultStepTold(s: State)
    requires Core(s) && PcOk(s) && StatusInv(s) && Told(s) && LogOk(s.log) && s.acks.results < |s.results|
    requires s.pc.Idle? || ActivityOf(s.pc, Config).Results?
    ensures Told(ResultStep(s))
  {
    var r := s.results[s.acks.results];
    ResultFacts(s, s.acks.results);
    ResultVersion(s, r);
    if s.pc.Idle? {
      if r.outcome.TimedOut? {
        if TimeoutBegin(s, r).pc.ResultAck? { TimeoutBeginHandled(s, r); }
        TimeoutBeginTold(s, r);
      } else {
        ResultFits(s, r);
        ResultBeginTold(s, r);
      }
    } else {
      if r.cmd in s.applies.attempts { assert s.applies.attempts[r.cmd] == s.log[Root(r.cmd)].commands; }
      ResultGoesOnTold(s, r);
    }
  }

  lemma ResultGoesOnTold(s: State, r: ResultEv)
    requires TimeoutsOk(s) && StatusInv(s) && Told(s) && ActivityOf(s.pc, Config).Results?
    requires s.acks.results < |s.results| && r == s.results[s.acks.results] && ResultPcOk(s, r)
    requires r.version == Root(r.cmd) + 1
    requires !r.outcome.TimedOut? ==> r.cmd in s.applies.late && !s.applies.late[r.cmd]
    requires r.cmd in s.applies.attempts ==>
      var batch := s.applies.attempts[r.cmd];
      && DistinctIds(batch) && (forall c | c in batch :: c.version == r.version)
      && Root(r.cmd) < |s.log| && batch == s.log[Root(r.cmd)].commands
    ensures Told(ResultStep(s))
  {
    ResultStepIs(s, r);
    match s.pc
    case ResultApp(_) => ResultAppTold(s, r);
    case TimeoutApp(meta) => TimeoutAppTold(s, r, meta, s.applies.attempts[r.cmd]);
    case TimeoutRetry(meta) => TimeoutRetryTold(s, r, meta);
    case ResultAck => ResultAckTold(s);
  }

  // ---------------------------------------------------------------- retries

  /** Of two commands of a chain, the earlier is the later one or was published. */
  lemma EarlierPublished(s: State, c: CmdId, d: CmdId)
    requires CmdsOk(s) && MarksOk(s) && TimeoutsOk(s) && d in s.marks.app
    requires Numbered(c) && Numbered(d) && Root(c) == Root(d) && Depth(c) <= Depth(d)
    ensures c == d || c in s.marks.cmd
  {
    if Depth(c) == Depth(d) {
      ChainUnique(c, d);
    } else {
      EarlierTimedOut(s, c, d);
      assert MetaOk(s, c, s.timeouts.dev[c]);
    }
  }

  /** A member that still belongs to the event can be retried, unless the retry was published before. */
  lemma StillRetriable(s: State, r: RetryEv, m: Command, cmd: CmdId)
    requires CmdsOk(s) && MarksOk(s) && TimeoutsOk(s) && RecordsTold(s)
    requires RetryOk(s, r) && cmd == RetryCmd(r.failed, r.attempt) && Numbered(cmd)
    requires m.id in s.app && s.app[m.id].version == m.version
    requires var d := s.app[m.id].cmd;
      && Numbered(d) && Root(d) == Root(r.failed) && d in s.marks.app
      && (d == r.failed || Depth(r.failed) < Depth(d))
    ensures MayRetry(s.app, m, r, cmd in s.marks.app || cmd in s.marks.dev) || cmd in s.marks.cmd
  {
    var rec := s.app[m.id];
    if rec.cmd == r.failed {
      assert RecTold(s, m.id, rec);
    } else {
      EarlierPublished(s, cmd, rec.cmd);
    }
  }

  /** A retry whose members cannot all be retried is superseded, or was published before. */
  lemma NotRetried(s: State, r: RetryEv, m: Command)
    requires Core(s) && AllLatest(s.log, s.app, s.marks.app) && RecordsTold(s) && LogOk(s.log) && WholeEvents(s)
    requires RetryOk(s, r) && m in r.batch
    requires var cmd := RetryCmd(r.failed, r.attempt);
      !MayRetry(s.app, m, r, cmd in s.marks.app || cmd in s.marks.dev)
    ensures RetryHandled(s, r)
  {
    assert BatchOk(s, r.failed, s.prepared[r.failed]);
    MemberRecord(s, r.failed, m);
    if s.app[m.id].version == m.version { StillRetriable(s, r, m, RetryCmd(r.failed, r.attempt)); }
  }

  lemma RetryRecordTold(s: State, t: State, r: RetryEv, m: Command)
    requires MayRetry(s.app, m, r, false) && m.id in t.app && t.app[m.id] == RetryRec(s.app[m.id], m, r)
    requires RecAgrees(s.log, Started(s), m.id, s.app[m.id])
    requires Root(r.failed) < |s.log| && m in s.log[Root(r.failed)].commands && t.log == s.log
    requires RetryCmd(r.failed, r.attempt) !in t.timeouts.app && r.attempt == Depth(r.failed) + 1
    ensures RecTold(t, m.id, t.app[m.id])
  {
    assert s.app[m.id].op == m.op;
    assert IsMember(t.log, m.id, t.app[m.id]);
  }

  lemma RetryRecordsTold(s: State, t: State, r: RetryEv)
    requires AllMayRetry(s.app, r, false) && RetryWrote(s.app, t.app, r)
    requires RecsAgree(s.log, Started(s), s.app)
    requires Root(r.failed) < |s.log| && r.batch == s.log[Root(r.failed)].commands && t.log == s.log
    requires t.timeouts.app == s.timeouts.app && RetryCmd(r.failed, r.attempt) !in s.timeouts.app
    requires r.attempt == Depth(r.failed) + 1
    ensures NewRecordsTold(s, t)
  {
    forall id | id in t.app ensures OldRec(s, t, id) || RecTold(t, id, t.app[id]) {
      if id in IdsOf(r.batch) {
        var m :| m in r.batch && m.id == id;
        assert MayRetry(s.app, m, r, false);
        RetryRecordTold(s, t, r, m);
      }
    }
  }

  lemma RetryMovesOn(s: State, app': AppDb, r: RetryEv)
    requires AllMayRetry(s.app, r, false) && RetryWrote(s.app, app', r)
    ensures Moves(s.app, app')
  {
    forall id | id in s.app
      ensures id in app' && (app'[id] == s.app[id]
                             || (app'[id].version == s.app[id].version && !Terminal(s.app[id].status)))
    {
      if id in IdsOf(r.batch) {
        var m :| m in r.batch && m.id == id;
        assert MayRetry(s.app, m, r, false);
      }
    }
  }

  lemma RetryWriteTold(s: State, r: RetryEv, t: State)
    requires Told(s) && RecsAgree(s.log, Started(s), s.app) && AllMayRetry(s.app, r, false) && s.pc.Idle?
    requires Root(r.failed) < |s.log| && r.batch == s.log[Root(r.failed)].commands
    requires DistinctIds(r.batch) && forall c | c in r.batch :: c.version == r.version
    requires RetryCmd(r.failed, r.attempt) !in s.timeouts.app && r.attempt == Depth(r.failed) + 1
    requires r.failed in s.marks.retry
    requires t == s.(pc := RetryDev, app := Put(s.app, RetryHashes(s.app, r, false), r.version),
                     marks := s.marks.(app := s.marks.app + {RetryCmd(r.failed, r.attempt)}))
    ensures Told(t)
  {
    RetryWrites(s.app, r);
    RetryRecordsTold(s, t, r);
    RetryMovesOn(s, t.app, r);
    ToldKept(s, t);
  }

  lemma RetryBeginTold(s: State, r: RetryEv)
    requires Told(s) && RecsAgree(s.log, Started(s), s.app) && s.pc.Idle? && s.marks.dev <= s.marks.app
    requires s.acks.retries < |s.retries| && r == s.retries[s.acks.retries]
    requires Root(r.failed) < |s.log| && r.batch == s.log[Root(r.failed)].commands
    requires DistinctIds(r.batch) && forall c | c in r.batch :: c.version == r.version
    requires r.attempt == Depth(r.failed) + 1
    requires var cmd := RetryCmd(r.failed, r.attempt); cmd !in s.marks.app ==> cmd !in s.timeouts.app
    requires RetryBegin(s, r).pc.RetryAck? ==> RetryHandled(s, r)
    ensures Told(RetryBegin(s, r))
  {
    var t, cmd := RetryBegin(s, r), RetryCmd(r.failed, r.attempt);
    if t.pc.RetryAck? {
      assert RetryHandled(t, r);
      QuietTold(s, t);
    } else if cmd in s.marks.app {
      assert s.marks.app + {cmd} == s.marks.app;
      QuietTold(s, t);
    } else {
      RetryWriteTold(s, r, t);
    }
  }

  lemma RetryBeginHandled(s: State, r: RetryEv)
    requires Core(s) && AllLatest(s.log, s.app, s.marks.app) && RecordsTold(s) && LogOk(s.log) && WholeEvents(s)
    requires RetryOk(s, r) && RetryBegin(s, r).pc.RetryAck?
    ensures RetryHandled(s, r)
  {
    var cmd := RetryCmd(r.failed, r.attempt);
    if cmd !in s.marks.cmd {
      var m :| m in r.batch && !MayRetry(s.app, m, r, cmd in s.marks.app || cmd in s.marks.dev);
      NotRetried(s, r, m);
    }
  }

  lemma RetryAckTold(s: State)
    requires Told(s) && s.pc.RetryAck? && s.acks.retries < |s.retries|
    ensures Told(RetryStep(s))
  {
    var r := s.retries[s.acks.retries];
    RetryStepIs(s, r, RetryCmd(r.failed, r.attempt));
    var t := s.(pc := Idle, acks := s.acks.(retries := s.acks.retries + 1));
    assert forall r :: ResultHandled(s, r) <==> ResultHandled(t, r);
    assert forall r :: RetryHandled(s, r) <==> RetryHandled(t, r);
  }

  lemma RetryMarkTold(s: State, r: RetryEv)
    requires Told(s) && s.acks.retries < |s.retries| && r == s.retries[s.acks.retries] && RetryPcOk(s, r)
    requires s.pc.RetryDev? || s.pc.RetryPrepare? || s.pc.RetryCommand?
    ensures Told(RetryStep(s))
  {
    RetryStepIs(s, r, RetryCmd(r.failed, r.attempt));
    var t := RetryStep(s);
    assert t.pc.RetryAck? ==> RetryHandled(t, r);
    QuietTold(s, t);
  }

  lemma RetryIdleTold(s: State, r: RetryEv)
    requires Core(s) && StatusInv(s) && Told(s) && LogOk(s.log) && s.pc.Idle?
    requires s.acks.retries < |s.retries| && r == s.retries[s.acks.retries]
    ensures Told(RetryStep(s))
  {
    RetryIdleIs(s, r);
    var cmd := RetryCmd(r.failed, r.attempt);
    RetryFacts(s, s.acks.retries);
    assert RetryOk(s, r);
    if RetryBegin(s, r).pc.RetryAck? { RetryBeginHandled(s, r); }
    if cmd !in s.marks.app { NotYetTimedOut(s, cmd); }
    RetryBeginTold(s, r);
  }

  lemma RetryStepTold(s: State)
    requires Core(s) && PcOk(s) && StatusInv(s) && Told(s) && LogOk(s.log) && s.acks.retries < |s.retries|
    requires s.pc.Idle? || ActivityOf(s.pc, Config).Retries?
    ensures Told(RetryStep(s))
  {
    var r := s.retries[s.acks.retries];
    if s.pc.Idle? { RetryIdleTold(s, r); } else { RetryGoesOnTold(s, r); }
  }

  lemma RetryGoesOnTold(s: State, r: RetryEv)
    requires Told(s) && s.acks.retries < |s.retries| && r == s.retries[s.acks.retries] && RetryPcOk(s, r)
    requires ActivityOf(s.pc, Config).Retries?
    ensures Told(RetryStep(s))
  {
    if s.pc.RetryAck? { RetryAckTold(s); } else { RetryMarkTold(s, r); }
  }

  lemma RetryIdleIs(s: State, r: RetryEv)
    requires s.pc.Idle? && s.acks.retries < |s.retries| && r == s.retries[s.acks.retries]
    ensures RetryStep(s) == if s.clock < r.notBefore then s else RetryBegin(s, r)
  {
  }

  // ---------------------------------------------------------------- every run

  lemma EnvironmentTold(s: State, a: Action)
    requires Told(s) && PcOk(s) && !a.Next?
    ensures Told(Step(s, a))
  {
    EnvironmentIs(s, a);
    QuietTold(s, Step(s, a));
  }

  /** What others do leaves the orchestrator's own records alone; a crash only forgets where it was. */
  lemma EnvironmentIs(s: State, a: Action)
    requires PcOk(s) && !a.Next?
    ensures var t := Step(s, a);
      && t.app == s.app && t.timeouts == s.timeouts && t.marks == s.marks && SameAcks(s, t) && t.retries == s.retries
      && Prefix(s.log, t.log) && Prefix(s.results, t.results) && NewAcksOk(s, t)
  {
    match a
    case AppendEvent(e) =>
    case Attempt(p) =>
    case Finish(p, late) =>
    case AppendResult(r) =>
    case Tick(now) =>
    case Crash =>
  }

  /** What the worker does next, by activity; with nothing to read it does nothing. */
  lemma NextIs(s: State, pick: Activity)
    ensures var t, activity := Step(s, Next(pick)), ActivityOf(s.pc, pick);
      && (activity.Config? ==> t == if s.acks.config < |s.log| then ConfigStep(s) else s)
      && (activity.Results? ==> t == if s.acks.results < |s.results| then ResultStep(s) else s)
      && (activity.Retries? ==> t == if s.acks.retries < |s.retries| then RetryStep(s) else s)
      && (s.pc.Idle? || ActivityOf(s.pc, Config) == ActivityOf(s.pc, Results) == activity)
  {
  }

  lemma StepTold(s: State, a: Action)
    requires Inv(s) && StatusInv(s) && Told(s) && LogOk(s.log)
    ensures Told(Step(s, a))
  {
    if a.Next? {
      NextIs(s, a.activity);
      match ActivityOf(s.pc, a.activity) {
        case Config => if s.acks.config < |s.log| { ConfigStepTold(s); }
        case Results => if s.acks.results < |s.results| { ResultStepTold(s); }
        case Retries => if s.acks.retries < |s.retries| { RetryStepTold(s); }
      }
    } else {
      EnvironmentTold(s, a);
    }
  }

  lemma {:induction false} ToldOverRuns(policy: RetryPolicy, actions: seq<Action>)
    requires LogOk(Run(Init(policy), actions).log)
    ensures Told(Run(Init(policy), actions))
  {
    if actions != [] {
      var s, a := Run(Init(policy), actions[..|actions| - 1]), actions[|actions| - 1];
      LogWasOk(s, a);
      ToldOverRuns(policy, actions[..|actions| - 1]);
      StatusOverRuns(policy, actions[..|actions| - 1]);
      InvOverRuns(policy, actions[..|actions| - 1]);
      StepTold(s, a);
    }
  }

  lemma ReachableTold(policy: RetryPolicy, s: State)
    requires Reachable(Init(policy), s) && LogOk(s.log)
    ensures Inv(s) && StatusInv(s) && Told(s)
  {
    ReachableIffRun(Init(policy), s);
    var actions :| s == Run(Init(policy), actions);
    ToldOverRuns(policy, actions);
    StatusOverRuns(policy, actions);
    InvOverRuns(policy, actions);
  }

  /** At every point of every run each status has its cause: an execution belongs to a command whose
      timeout has not been handled; ACTIVE and ABSENT are a success of the command the record names, for
      an upsert and a removal respectively; FAILED is a failure of it, or a timeout after the last
      retry; RETRY_WAIT a timeout before that. */
  lemma StatusHasCause(policy: RetryPolicy, s: State, id: string)
    requires Reachable(Init(policy), s) && LogOk(s.log) && id in s.app
    ensures var rec := s.app[id];
      && rec.status in {Applying, Removing, Active, Status.Absent, Failed, RetryWait}
      && (rec.status in {Applying, Removing} ==> rec.attempt == Depth(rec.cmd) && rec.cmd !in s.timeouts.app)
      && (rec.status in {Applying, Active} ==> rec.op == Upsert)
      && (rec.status in {Removing, Status.Absent} ==> rec.op == Remove)
      && (rec.status in {Active, Status.Absent} ==> rec.attempt == 0 && HasResult(s.results, rec.cmd, id, Success))
      && (rec.status == Failed ==>
            || HasResult(s.results, rec.cmd, id, Failure)
            || (rec.cmd in s.timeouts.app && rec.attempt == Depth(rec.cmd) == policy.maxRetries))
      && (rec.status == RetryWait ==>
            rec.cmd in s.timeouts.app && rec.attempt == Depth(rec.cmd) + 1 <= policy.maxRetries)
  {
    ReachableTold(policy, s);
    PolicyStays(policy, s);
    assert RecTold(s, id, s.app[id]);
    var c := s.app[id].cmd;
    assert c in s.timeouts.app ==> MetaOk(s, c, s.timeouts.dev[c]);
  }

  lemma PolicyStays(policy: RetryPolicy, s: State)
    requires Reachable(Init(policy), s)
    ensures s.policy == policy
  {
    ReachableIffRun(Init(policy), s);
    var actions :| s == Run(Init(policy), actions);
    MaxRetriesFixed(Init(policy), actions);
  }

  // ---------------------------------------------------------------- what a result does

  /** Records that changed are being executed. */
  ghost predicate OnlyStarts(app: AppDb, app': AppDb)
  {
    forall id | id in app' :: (id in app && app'[id] == app[id]) || InExecution(app'[id].status)
  }

  lemma ConfigOnlyStarts(s: State)
    requires WholeEvents(s) && LogOk(s.log) && s.acks.config < |s.log|
    requires Live(Replay(s.log[..Started(s)]), s.app) && RecsAgree(s.log, Started(s), s.app)
    requires s.pc.ConfigApp? ==> ConfigCmd(s.acks.config) in s.prepared
    requires s.pc.Idle? || ActivityOf(s.pc, Results).Config?
    ensures OnlyStarts(s.app, ConfigStep(s).app)
  {
    if s.pc.ConfigApp? {
      var n := s.acks.config;
      ConfigAppIs(s, n, ConfigCmd(n));
      if ConfigCmd(n) !in s.marks.app {
        ConfigWrites(s.log, n, s.app);
        WroteOnlyStarts(s.app, Put(s.app, StartHashes(s.app, s.log[n].commands, ConfigCmd(n)), s.log[n].version), n,
                        s.log[n].commands);
      }
      assert ConfigStep(s) == ConfigAppStep(s);
    } else {
      ConfigQuietIs(s);
    }
  }

  lemma WroteOnlyStarts(app: AppDb, app': AppDb, n: nat, batch: seq<Command>)
    requires Wrote(app, app', n, batch)
    ensures OnlyStarts(app, app')
  {
    forall id | id in app' ensures (id in app && app'[id] == app[id]) || InExecution(app'[id].status) {
      if id in IdsOf(batch) { var c :| c in batch && c.id == id; }
    }
  }

  lemma RetryBeginStarts(s: State, r: RetryEv)
    requires s.marks.dev <= s.marks.app && DistinctIds(r.batch) && forall c | c in r.batch :: c.version == r.version
    ensures OnlyStarts(s.app, RetryBegin(s, r).app)
  {
    var t := RetryBegin(s, r);
    if RetryCmd(r.failed, r.attempt) !in s.marks.app && !t.pc.RetryAck? {
      RetryWrites(s.app, r);
      forall id | id in t.app ensures (id in s.app && t.app[id] == s.app[id]) || InExecution(t.app[id].status) {
        if id in IdsOf(r.batch) { var c :| c in r.batch && c.id == id; }
      }
    }
  }

  lemma RetryOnlyStarts(s: State)
    requires Core(s) && WholeEvents(s) && s.acks.retries < |s.retries|
    ensures OnlyStarts(s.app, RetryStep(s).app)
  {
    if s.pc.Idle? {
      RetryFacts(s, s.acks.retries);
      RetryIdleIs(s, s.retries[s.acks.retries]);
      RetryBeginStarts(s, s.retries[s.acks.retries]);
    } else {
      RetryKeepsRecords(s);
    }
  }

  lemma RetryKeepsRecords(s: State)
    requires !s.pc.Idle?
    ensures RetryStep(s).app == s.app
  {
  }

  /** What a result leaves of the record `id`, if it changes it: a timeout sends it back for a retry or
      fails it for good, any other result decides it. */
  ghost predicate MovedBy(was: AppRec, rec: AppRec, id: string, r: ResultEv, maxRetries: nat)
  {
    && was.cmd == r.cmd && InExecution(was.status)
    && (r.outcome == Failure ==> r.id == id && rec == was.(status := Failed))
    && (r.outcome == Success ==>
          r.id == id && rec == was.(status := if was.op.Remove? then Status.Absent else Active, attempt := 0))
    && (r.outcome == TimedOut ==>
          if was.attempt < maxRetries then rec == was.(status := RetryWait, attempt := was.attempt + 1)
          else rec == was.(status := Failed))
  }

  ghost predicate MovedByResult(s: State, app': AppDb, r: ResultEv)
  {
    && app'.Keys == s.app.Keys
    && forall id | id in s.app && app'[id] != s.app[id] :: MovedBy(s.app[id], app'[id], id, r, s.policy.maxRetries)
  }

  lemma LateMovedBy(s: State, r: ResultEv, meta: Meta, app': AppDb, batch: seq<Command>)
    requires TimeoutsOk(s) && PhasesOk(s) && AppOk(s) && r.outcome.TimedOut?
    requires r.cmd in s.timeouts.dev && s.timeouts.dev[r.cmd] == meta && r.cmd !in s.timeouts.app
    requires LateWrote(s.app, app', batch, meta) && AllCurrent(s.app, batch, r.cmd)
    ensures MovedByResult(s, app', r)
  {
    assert MetaOk(s, r.cmd, meta);
    forall id ensures id in app' <==> id in s.app {
      if id in IdsOf(batch) { var c :| c in batch && c.id == id; }
    }
    forall id | id in s.app && app'[id] != s.app[id]
      ensures MovedBy(s.app[id], app'[id], id, r, s.policy.maxRetries)
    {
      var c :| c in batch && c.id == id;
      assert IsCurrent(s.app, c, r.cmd);
      LateWasExecuting(s, r.cmd, id);
      assert RecOk(s, s.app[id]);
    }
  }

  lemma TimeoutAppMoves(s: State, r: ResultEv, meta: Meta, batch: seq<Command>)
    requires TimeoutsOk(s) && PhasesOk(s) && AppOk(s) && r.outcome.TimedOut?
    requires r.cmd in s.timeouts.dev && s.timeouts.dev[r.cmd] == meta
    requires r.cmd in s.applies.attempts && batch == s.applies.attempts[r.cmd] && AllCurrent(s.app, batch, r.cmd)
    requires DistinctIds(batch) && forall c | c in batch :: c.version == r.version
    ensures MovedByResult(s, TimeoutAppStep(s, r, meta).app, r)
  {
    if r.cmd !in s.timeouts.app {
      LateWrites(s.app, batch, r.cmd, meta, r.version);
      LateMovedBy(s, r, meta, TimeoutAppStep(s, r, meta).app, batch);
    }
  }

  lemma ResultAppMoves(s: State, r: ResultEv)
    requires Told(s) && ResolvingOk(s) && RecsAgree(s.log, Started(s), s.app) && TimeoutsOk(s)
    requires s.pc.ResultApp? && s.acks.results < |s.results| && r == s.results[s.acks.results]
    requires !r.outcome.TimedOut? && r.version == Root(r.cmd) + 1 && r.cmd in s.applies.late && !s.applies.late[r.cmd]
    requires r.id in s.app && s.app[r.id].version == r.version
    ensures MovedByResult(s, ResultAppStep(s, r, s.pc.next).app, r)
  {
    ResultAppTold(s, r);
    assert MovedBy(s.app[r.id], ResultAppStep(s, r, s.pc.next).app[r.id], r.id, r, s.policy.maxRetries);
  }

  lemma QuietResult(s: State, r: ResultEv)
    requires s.pc.Idle? || s.pc.TimeoutRetry? || s.pc.ResultAck?
    requires s.acks.results < |s.results| && r == s.results[s.acks.results]
    ensures ResultStep(s).app == s.app && MovedByResult(s, s.app, r)
  {
  }

  lemma ResultMoves(s: State, r: ResultEv)
    requires TimeoutsOk(s) && AppOk(s) && StatusInv(s) && Told(s) && ActivityOf(s.pc, Config).Results?
    requires s.acks.results < |s.results| && r == s.results[s.acks.results] && ResultPcOk(s, r)
    requires r.version == Root(r.cmd) + 1
    requires !r.outcome.TimedOut? ==> r.cmd in s.applies.late && !s.applies.late[r.cmd]
    requires r.cmd in s.applies.attempts ==>
      var batch := s.applies.attempts[r.cmd]; DistinctIds(batch) && (forall c | c in batch :: c.version == r.version)
    ensures MovedByResult(s, ResultStep(s).app, r)
  {
    if s.pc.ResultApp? {
      ResultAppMoves(s, r);
      ResultStepIs(s, r);
    } else if s.pc.TimeoutApp? {
      TimeoutAppMoves(s, r, s.pc.meta, s.applies.attempts[r.cmd]);
      ResultStepIs(s, r);
    } else {
      QuietResult(s, r);
    }
  }

  lemma ResultStepMoves(s: State)
    requires Core(s) && PcOk(s) && StatusInv(s) && Told(s) && LogOk(s.log) && s.acks.results < |s.results|
    requires s.pc.Idle? || ActivityOf(s.pc, Config).Results?
    ensures MovedByResult(s, ResultStep(s).app, s.results[s.acks.results])
  {
    var r := s.results[s.acks.results];
    if s.pc.Idle? {
      QuietResult(s, r);
    } else {
      ResultFacts(s, s.acks.results);
      ResultVersion(s, r);
      ResultMoves(s, r);
    }
  }

  /** In every step of every run a record that is being executed and leaves that state does so because of
      the result being read, and as this result says: `MovedBy` spells out to what. */
  lemma ResultDecides(policy: RetryPolicy, s: State, a: Action, id: string)
    requires Reachable(Init(policy), s) && LogOk(Step(s, a).log)
    requires id in Step(s, a).app && (id !in s.app || Step(s, a).app[id] != s.app[id])
    requires !InExecution(Step(s, a).app[id].status)
    ensures id in s.app && s.acks.results < |s.results|
    ensures MovedBy(s.app[id], Step(s, a).app[id], id, s.results[s.acks.results], policy.maxRetries)
  {
    LogWasOk(s, a);
    ReachableTold(policy, s);
    PolicyStays(policy, s);
    if a.Next? {
      match ActivityOf(s.pc, a.activity) {
        case Config => if s.acks.config < |s.log| { ConfigOnlyStarts(s); }
        case Results => if s.acks.results < |s.results| { ResultStepMoves(s); }
        case Retries => if s.acks.retries < |s.retries| { RetryOnlyStarts(s); }
      }
    } else {
      EnvironmentWritesNothing(s, a);
    }
  }

  // ---------------------------------------------------------------- what starts an execution

  /** A record is started by member `c` of event `n`, which is newer than what was recorded. */
  ghost predicate StartedByEvent(s: State, id: string, rec: AppRec, n: nat, c: Command)
  {
    && n < |s.log| && c in s.log[n].commands && c.id == id && (id in s.app ==> s.app[id].version < n + 1)
    && rec == AppRec(c.op, c.input, c.output, n + 1, if c.op.Remove? then Removing else Applying, ConfigCmd(n), 0)
  }

  /** A record that waited for a retry executes its operation again, under the retry's command. */
  ghost predicate StartedAgain(s: State, id: string, rec: AppRec)
  {
    && id in s.app && s.app[id].status == RetryWait
    && rec == s.app[id].(status := if s.app[id].op.Remove? then Removing else Applying,
                         cmd := RetryCmd(s.app[id].cmd, s.app[id].attempt))
  }

  ghost predicate Starts(s: State, id: string, rec: AppRec)
  {
    || (exists c :: StartedByEvent(s, id, rec, s.acks.config, c))
    || StartedAgain(s, id, rec)
  }

  lemma ConfigStarts(s: State, id: string)
    requires WholeEvents(s) && LogOk(s.log) && s.acks.config < |s.log|
    requires Live(Replay(s.log[..Started(s)]), s.app) && RecsAgree(s.log, Started(s), s.app)
    requires s.pc.ConfigApp? ==> ConfigCmd(s.acks.config) in s.prepared
    requires s.pc.Idle? || ActivityOf(s.pc, Results).Config?
    requires var t := ConfigStep(s); id in t.app && (id !in s.app || t.app[id] != s.app[id])
    ensures exists c :: StartedByEvent(s, id, ConfigStep(s).app[id], s.acks.config, c)
  {
    if s.pc.ConfigApp? {
      var n := s.acks.config;
      ConfigAppIs(s, n, ConfigCmd(n));
      assert ConfigStep(s) == ConfigAppStep(s);
      ConfigWrites(s.log, n, s.app);
      var c :| c in s.log[n].commands && c.id == id;
      assert id in s.app ==> RecAgrees(s.log, n, id, s.app[id]);
      assert StartedByEvent(s, id, ConfigStep(s).app[id], n, c);
    } else {
      ConfigQuietIs(s);
    }
  }

  lemma RetryBeginAgain(s: State, r: RetryEv, id: string)
    requires s.marks.dev <= s.marks.app && RecsAgree(s.log, Started(s), s.app) && RecordsTold(s)
    requires DistinctIds(r.batch) && forall c | c in r.batch :: c.version == r.version
    requires Root(r.failed) < |s.log| && r.batch == s.log[Root(r.failed)].commands
    requires r.failed in s.timeouts.app && s.timeouts.app[r.failed].attempt == r.attempt
    requires var t := RetryBegin(s, r); id in t.app && (id !in s.app || t.app[id] != s.app[id])
    ensures StartedAgain(s, id, RetryBegin(s, r).app[id])
  {
    RetryWrites(s.app, r);
    var c :| c in r.batch && c.id == id;
    assert MayRetry(s.app, c, r, false) && RecTold(s, id, s.app[id]);
    assert RecAgrees(s.log, Started(s), id, s.app[id]);
  }

  /** Every record of `app'` is as before, not being executed, or properly started. */
  ghost predicate AllStart(s: State, app': AppDb)
  {
    forall id | id in app' ::
      (id in s.app && app'[id] == s.app[id]) || !InExecution(app'[id].status) || Starts(s, id, app'[id])
  }

  lemma RetryBeginStartsAll(s: State, r: RetryEv)
    requires s.marks.dev <= s.marks.app && RecsAgree(s.log, Started(s), s.app) && RecordsTold(s)
    requires DistinctIds(r.batch) && forall c | c in r.batch :: c.version == r.version
    requires Root(r.failed) < |s.log| && r.batch == s.log[Root(r.failed)].commands
    requires r.failed in s.timeouts.app && s.timeouts.app[r.failed].attempt == r.attempt
    ensures AllStart(s, RetryBegin(s, r).app)
  {
    var app' := RetryBegin(s, r).app;
    forall id | id in app' && !(id in s.app && app'[id] == s.app[id]) ensures Starts(s, id, app'[id]) {
      RetryBeginAgain(s, r, id);
    }
  }

  lemma RetryStarts(s: State, r: RetryEv)
    requires Core(s) && WholeEvents(s) && RecsAgree(s.log, Started(s), s.app) && RecordsTold(s) && s.pc.Idle?
    requires s.acks.retries < |s.retries| && r == s.retries[s.acks.retries]
    ensures AllStart(s, RetryStep(s).app)
  {
    RetryFacts(s, s.acks.retries);
    assert RetryOk(s, r);
    RetryIdleIs(s, r);
    RetryBeginStartsAll(s, r);
  }

  lemma RetryMarksOnly(s: State)
    requires s.acks.retries < |s.retries| && !s.pc.Idle?
    ensures AllStart(s, RetryStep(s).app)
  {
    RetryKeepsRecords(s);
  }

  lemma ConfigStartsAll(s: State)
    requires WholeEvents(s) && LogOk(s.log) && s.acks.config < |s.log|
    requires Live(Replay(s.log[..Started(s)]), s.app) && RecsAgree(s.log, Started(s), s.app)
    requires s.pc.ConfigApp? ==> ConfigCmd(s.acks.config) in s.prepared
    requires s.pc.Idle? || ActivityOf(s.pc, Results).Config?
    ensures AllStart(s, ConfigStep(s).app)
  {
    var app' := ConfigStep(s).app;
    forall id | id in app' && !(id in s.app && app'[id] == s.app[id]) ensures Starts(s, id, app'[id]) {
      ConfigStarts(s, id);
    }
  }

  lemma ResultStartsNone(s: State, app': AppDb, r: ResultEv)
    requires MovedByResult(s, app', r)
    ensures AllStart(s, app')
  {
    forall id | id in app' && app'[id] != s.app[id] ensures !InExecution(app'[id].status) {
      assert MovedBy(s.app[id], app'[id], id, r, s.policy.maxRetries);
    }
  }

  lemma StepStarts(s: State, a: Action)
    requires Inv(s) && StatusInv(s) && Told(s) && LogOk(s.log)
    ensures AllStart(s, Step(s, a).app)
  {
    if a.Next? {
      match ActivityOf(s.pc, a.activity) {
        case Config => if s.acks.config < |s.log| { ConfigStartsAll(s); }
        case Results =>
          if s.acks.results < |s.results| {
            ResultStepMoves(s);
            ResultStartsNone(s, ResultStep(s).app, s.results[s.acks.results]);
          }
        case Retries =>
          if s.acks.retries < |s.retries| {
            if s.pc.Idle? { RetryStarts(s, s.retries[s.acks.retries]); } else { RetryMarksOnly(s); }
          }
      }
    } else {
      EnvironmentWritesNothing(s, a);
    }
  }

  /** In every step of every run a record that changes and is then being executed was started by the
      event being taken, as one of its members, or waited for a retry and is executed again. Together
      with `ResultDecides` this is every change of an APPL_DB record. */
  lemma ExecutionStarts(policy: RetryPolicy, s: State, a: Action, id: string)
    requires Reachable(Init(policy), s) && LogOk(Step(s, a).log)
    requires id in Step(s, a).app && (id !in s.app || Step(s, a).app[id] != s.app[id])
    requires InExecution(Step(s, a).app[id].status)
    ensures Starts(s, id, Step(s, a).app[id])
  {
    LogWasOk(s, a);
    ReachableTold(policy, s);
    StepStarts(s, a);
  }

  // ---------------------------------------------------------------- nothing is lost

  /** The results of one command for one connection do not contradict each other. */
  ghost predicate OneOutcome(results: seq<ResultEv>, r: ResultEv)
  {
    forall p | 0 <= p < |results| && results[p].cmd == r.cmd && results[p].id == r.id :: results[p].outcome == r.outcome
  }

  /** An acknowledged result that is not a timeout has decided its record, unless a newer event has
      taken over. */
  lemma ResultsAreNotLost(policy: RetryPolicy, s: State, p: nat)
    requires Reachable(Init(policy), s) && LogOk(s.log) && p < s.acks.results && p < |s.results|
    requires !s.results[p].outcome.TimedOut?
    ensures var r := s.results[p];
      && r.id in s.app && r.version <= s.app[r.id].version
      && (s.app[r.id].version == r.version ==>
            var rec := s.app[r.id];
            && rec.cmd == r.cmd && rec.status in {Active, Status.Absent, Failed}
            && (OneOutcome(s.results, r) ==>
                  && (rec.status == Failed <==> r.outcome == Failure)
                  && (r.outcome == Success ==> rec.status == if rec.op.Remove? then Status.Absent else Active)))
  {
    ReachableTold(policy, s);
    var r := s.results[p];
    ResultFacts(s, p);
    ResultVersion(s, r);
    assert ResultHandled(s, r);
    NotTimedOut(s, r.cmd);
    assert RecTold(s, r.id, s.app[r.id]);
  }

  /** An acknowledged timeout was recorded and, if there are attempts left, handed to a retry; an
      acknowledged retry was published as exactly one command. The exception in both cases: a newer event
      has taken over a connection of the batch. */
  lemma TimeoutsAreNotLost(policy: RetryPolicy, s: State)
    requires Reachable(Init(policy), s) && LogOk(s.log)
    ensures forall p | 0 <= p < s.acks.results && p < |s.results| && s.results[p].outcome.TimedOut? ::
      var c := s.results[p].cmd;
      || Superseded(s.app, s.log, c)
      || (&& c in s.timeouts.app
          && (Depth(c) < policy.maxRetries ==> RetriesFor(s.retries, c) == 1))
    ensures forall q | 0 <= q < s.acks.retries && q < |s.retries| ::
      var r := s.retries[q];
      || Superseded(s.app, s.log, r.failed)
      || CommandsFor(s.commands, RetryCmd(r.failed, r.attempt)) == 1
  {
    ReachableTold(policy, s);
    PolicyStays(policy, s);
    forall p | 0 <= p < s.acks.results && p < |s.results| && s.results[p].outcome.TimedOut?
      ensures var c := s.results[p].cmd;
        || Superseded(s.app, s.log, c)
        || (c in s.timeouts.app && (Depth(c) < policy.maxRetries ==> RetriesFor(s.retries, c) == 1))
    {
      var c := s.results[p].cmd;
      assert ResultHandled(s, s.results[p]);
      assert c in s.timeouts.app ==> MetaOk(s, c, s.timeouts.dev[c]);
    }
    forall q | 0 <= q < s.acks.retries && q < |s.retries|
      ensures var r := s.retries[q];
        || Superseded(s.app, s.log, r.failed)
        || CommandsFor(s.commands, RetryCmd(r.failed, r.attempt)) == 1
    {
      assert RetryHandled(s, s.retries[q]);
    }
  }
}
