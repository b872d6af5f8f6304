/** STATE_DB and the counters along the whole configuration path: what the daemon publishes is what the
device holds. */
module PipelineState {
  import opened Ids
  import opened Connections
  import opened CommandIds
  import opened ConfigLog
  import opened Backoff
  import opened PipelineMachine
  import opened Pipeline
  import SM = StatusMachine

  // ---------------------------------------------------------------- invariant

  /** What the device answers to event `e`: success, listing what the event leaves of its connections. */
  ghost function Reply(log: seq<Event>, e: nat): ApplyResult
    requires e < |log|
  {
    ApplyResult(Ok, Device.Changed(Replay(log[..e + 1]), log[e].commands))
  }

  ghost predicate RepliesOk(log: seq<Event>, results: map<CmdId, ApplyResult>)
  {
    forall e: nat | ConfigCmd(e) in results :: e < |log| && results[ConfigCmd(e)] == Reply(log, e)
  }

  /** The snapshot of connection `k` says exactly what matrix `m` says. */
  ghost predicate StateAt(conns: map<string, Sync.ConnState>, m: Matrix, k: string)
  {
    (k in conns <==> k in m) && (k in m ==> conns[k] == InPlace(m[k]))
  }

  /** The snapshot of a connection that is up as asked for. */
  function InPlace(a: Applied): Sync.ConnState
  {
    Sync.ConnState(a.input, a.output, a.version, a.version, Some(true), SM.Active, Ok)
  }

  ghost predicate Unmarked(pub: Sync.Pub, id: CmdId)
  {
    forall k :: (id, k) !in pub.marks
  }

  /** Members already published are at the current event, everything else at the one before. */
  ghost function Target(log: seq<Event>, n: nat, pub: Sync.Pub, k: string): Matrix
    requires n <= |log|
  {
    if n < |log| && (ConfigCmd(n), k) in pub.marks then Replay(log[..n + 1]) else Replay(log[..n])
  }

  ghost predicate StatesOk(log: seq<Event>, n: nat, pub: Sync.Pub)
  {
    n <= |log| && forall k :: StateAt(pub.conns, Target(log, n, pub, k), k)
  }

  ghost predicate Published(s: State)
  {
    && RepliesOk(s.store.log, s.dev.cache.results) && RepliesOk(s.store.log, s.sync.db.results)
    && (s.sync.pc.Called? ==> s.sync.acked < |s.store.log| && s.sync.pc.result == Reply(s.store.log, s.sync.acked))
    && StatesOk(s.store.log, s.sync.acked, s.sync.db.pub)
  }

  // ---------------------------------------------------------------- the log grows

  lemma ReplyAppend(log: seq<Event>, e: Event, i: nat)
    requires i < |log|
    ensures Reply(log + [e], i) == Reply(log, i)
  {
    assert (log + [e])[..i + 1] == log[..i + 1];
  }

  lemma RepliesAppend(log: seq<Event>, e: Event, results: map<CmdId, ApplyResult>)
    requires RepliesOk(log, results)
    ensures RepliesOk(log + [e], results)
  {
    forall i: nat | ConfigCmd(i) in results
      ensures i < |log + [e]| && results[ConfigCmd(i)] == Reply(log + [e], i)
    {
      ReplyAppend(log, e, i);
    }
  }

  lemma StatesAppend(log: seq<Event>, e: Event, n: nat, pub: Sync.Pub)
    requires StatesOk(log, n, pub) && Unmarked(pub, ConfigCmd(|log|))
    ensures StatesOk(log + [e], n, pub)
  {
    var l := log + [e];
    forall k ensures StateAt(pub.conns, Target(l, n, pub, k), k) {
      assert StateAt(pub.conns, Target(log, n, pub, k), k);
      assert l[..n] == log[..n];
      if n < |log| { assert l[..n + 1] == log[..n + 1]; }
    }
  }

  lemma NoMarksBeyond(y: Sync.State, n: nat)
    requires Sync.TracesOk(y) && ConfigIds(y) && (|y.cmds| <= n || y.acked < n)
    ensures Unmarked(y.db.pub, ConfigCmd(n))
  {
    NotTraced(y, n);
    forall k ensures (ConfigCmd(n), k) !in y.db.pub.marks { Sync.MarksAreTraces(y.db, ConfigCmd(n), k); }
  }

  lemma NotTraced(y: Sync.State, n: nat)
    requires Sync.TracesOk(y) && ConfigIds(y) && (|y.cmds| <= n || y.acked < n)
    ensures ConfigCmd(n) !in Sync.Traces(y.db)
  {
    forall c | c in Sync.Traces(y.db) ensures c != ConfigCmd(n) {
      var i :| 0 <= i <= y.acked && i < |y.cmds| && y.cmds[i].id == c;
    }
  }

  lemma SetKeepsPublished(s: State, t: State, e: Event)
    requires Published(s) && Sync.TracesOk(s.sync) && ConfigIds(s.sync) && |s.sync.cmds| <= |s.store.log|
    requires t.sync == s.sync && t.dev == s.dev && t.store.log == s.store.log + [e]
    ensures Published(t)
  {
    RepliesAppend(s.store.log, e, s.dev.cache.results);
    RepliesAppend(s.store.log, e, s.sync.db.results);
    NoMarksBeyond(s.sync, |s.store.log|);
    StatesAppend(s.store.log, e, s.sync.acked, s.sync.db.pub);
    if s.sync.pc.Called? { ReplyAppend(s.store.log, e, s.sync.acked); }
  }

  // ---------------------------------------------------------------- the call

  lemma CallReplies(d: Device.Dev<CmdId>, log: seq<Event>, acked: nat)
    requires Healthy(d.core) && DeviceAt(d.core, log, CarriedOut(acked, d.cache)) && RepliesOk(log, d.cache.results)
    requires acked < |log| && LogOk(log) && AllPrefixesValid(log, |d.core.inPorts|, |d.core.outPorts|)
    ensures var (d', r) := Device.Apply(d, log[acked].commands, Some(ConfigCmd(acked)), true);
      r == Reply(log, acked) && RepliesOk(log, d'.cache.results)
  {
    if ConfigCmd(acked) !in d.cache.results {
      NextEventAccepted(d.core, log, acked);
      Device.VerdictIsAcceptable(d.core, log[acked].commands);
      ReplayStep(log, acked);
    }
  }

  // ---------------------------------------------------------------- one member

  lemma {:induction false} ReplayVersions(log: seq<Event>, n: nat)
    requires LogOk(log) && n <= |log|
    ensures forall k | k in Replay(log[..n]) :: Replay(log[..n])[k].version <= n
  {
    if n > 0 {
      ReplayVersions(log, n - 1);
      ReplayStep(log, n - 1);
      EventFacts(log, n - 1);
      var m, batch := Replay(log[..n - 1]), log[n - 1].commands;
      DistinctAgree(batch);
      ApplyAllPointwise(m, batch);
      forall k | k in Replay(log[..n]) ensures Replay(log[..n])[k].version <= n {
        if k in IdsOf(batch) { var c :| c in batch && c.id == k; }
      }
    }
  }

  /** The replayed matrix after an event, at one of its connections and elsewhere. */
  lemma ReplayAt(log: seq<Event>, n: nat, k: string)
    requires LogOk(log) && n < |log|
    ensures forall c | c in log[n].commands && c.id == k ::
      if c.op.Remove? then k !in Replay(log[..n + 1])
      else k in Replay(log[..n + 1]) && Replay(log[..n + 1])[k] == ToApplied(c)
    ensures k !in IdsOf(log[n].commands) ==>
      && (k in Replay(log[..n + 1]) <==> k in Replay(log[..n]))
      && (k in Replay(log[..n]) ==> Replay(log[..n + 1])[k] == Replay(log[..n])[k])
  {
    EventFacts(log, n);
    ReplayStep(log, n);
    DistinctAgree(log[n].commands);
    ApplyAllPointwise(Replay(log[..n]), log[n].commands);
  }

  /** The device's answer lists every connection the event leaves. */
  lemma ReplyLists(log: seq<Event>, n: nat, c: Command, nIn: nat, nOut: nat)
    requires LogOk(log) && n < |log| && AllPrefixesValid(log, nIn, nOut) && c in log[n].commands && c.op.Upsert?
    ensures Sync.Find(Reply(log, n).connections, c.id) == Some(ToApplied(c))
  {
    ReplayAt(log, n, c.id);
    assert ValidMatrix(Replay(log[..n + 1]), nIn, nOut);
    Sync.ChangedHas(Replay(log[..n + 1]), log[n].commands, c);
  }

  /** A member that is not published yet is published as what the event makes of it: it is neither
      superseded nor kept, and nothing throws. */
  lemma MemberPublished(log: seq<Event>, n: nat, pub: Sync.Pub, c: Command, nIn: nat, nOut: nat)
    requires LogOk(log) && n < |log| && AllPrefixesValid(log, nIn, nOut) && c in log[n].commands
    requires StatesOk(log, n, pub) && (ConfigCmd(n), c.id) !in pub.marks
    ensures var pub' := Sync.PublishMember(pub, ConfigCmd(n), c, Reply(log, n));
      && !Sync.Throws(pub, ConfigCmd(n), c, Reply(log, n))
      && (ConfigCmd(n), c.id) in pub'.marks
      && StateAt(pub'.conns, Replay(log[..n + 1]), c.id)
  {
    EventFacts(log, n);
    ReplayVersions(log, n);
    ReplayAt(log, n, c.id);
    assert StateAt(pub.conns, Target(log, n, pub, c.id), c.id);
    if c.op.Upsert? { ReplyLists(log, n, c, nIn, nOut); }
  }

  lemma PublishKeepsStates(log: seq<Event>, n: nat, pub: Sync.Pub, c: Command, nIn: nat, nOut: nat)
    requires LogOk(log) && n < |log| && AllPrefixesValid(log, nIn, nOut) && c in log[n].commands
    requires StatesOk(log, n, pub)
    ensures !Sync.Throws(pub, ConfigCmd(n), c, Reply(log, n))
    ensures StatesOk(log, n, Sync.PublishMember(pub, ConfigCmd(n), c, Reply(log, n)))
  {
    if (ConfigCmd(n), c.id) !in pub.marks {
      var pub' := Sync.PublishMember(pub, ConfigCmd(n), c, Reply(log, n));
      MemberPublished(log, n, pub, c, nIn, nOut);
      forall k ensures StateAt(pub'.conns, Target(log, n, pub', k), k) {
        assert StateAt(pub.conns, Target(log, n, pub, k), k);
        if k != c.id { Sync.PublishUntouched(pub, ConfigCmd(n), c, Reply(log, n), k); }
      }
    }
  }

  // ---------------------------------------------------------------- acknowledging

  lemma AckKeepsStates(log: seq<Event>, n: nat, next: nat, pub: Sync.Pub)
    requires LogOk(log) && n < |log| && next == n + 1 && StatesOk(log, n, pub)
    requires forall c | c in log[n].commands :: (ConfigCmd(n), c.id) in pub.marks
    requires Unmarked(pub, ConfigCmd(next))
    ensures StatesOk(log, next, pub)
  {
    forall k ensures StateAt(pub.conns, Target(log, next, pub, k), k) {
      assert StateAt(pub.conns, Target(log, n, pub, k), k);
      ReplayAt(log, n, k);
    }
  }

  // ---------------------------------------------------------------- every step

  lemma CallKeepsPublished(s: State)
    requires Published(s) && Link(s) && LogOk(s.store.log) && NthCommand(s.sync, s.store.log) && s.sync.pc.Calling?
    requires s.store.ports.Some? && AllPrefixesValid(s.store.log, s.store.ports.value.0, s.store.ports.value.1)
    ensures Published(AfterSync(s))
  {
    var (dev, r) := Called(s, s.sync.cmds[s.sync.acked]);
    CallReplies(s.dev, s.store.log, s.sync.acked);
    CallIs(s, dev, r);
  }

  lemma MemberKeepsPublished(s: State, i: nat, delta: int)
    requires Published(s) && LogOk(s.store.log) && NthCommand(s.sync, s.store.log)
    requires s.store.ports.Some? && AllPrefixesValid(s.store.log, s.store.ports.value.0, s.store.ports.value.1)
    requires ConfigCmd(s.sync.acked) in s.sync.db.results
    ensures Published(s.(sync := Sync.Publish(s.sync, s.sync.cmds[s.sync.acked], i, delta)))
  {
    var cmd := s.sync.cmds[s.sync.acked];
    if i < |cmd.batch| {
      var nIn, nOut := s.store.ports.value.0, s.store.ports.value.1;
      PublishKeepsStates(s.store.log, s.sync.acked, s.sync.db.pub, cmd.batch[i], nIn, nOut);
    }
  }

  lemma AckKeepsPublished(s: State)
    requires Published(s) && LogOk(s.store.log) && NthCommand(s.sync, s.store.log) && ConfigIds(s.sync)
    requires Sync.TracesOk(s.sync)
    requires Sync.AllMarked(s.sync.db, ConfigCmd(s.sync.acked), s.store.log[s.sync.acked].commands)
    ensures Published(s.(sync := s.sync.(acked := s.sync.acked + 1, pc := Sync.Idle)))
  {
    var next := s.sync.acked + 1;
    NoMarksBeyond(s.sync, next);
    AckKeepsStates(s.store.log, s.sync.acked, next, s.sync.db.pub);
  }

  /** At the point of acknowledgement every member has been published. */
  lemma AckingIsMarked(s: State)
    requires Sync.Current(s.sync) && SyncOk(s.sync, s.dev.cache, CarriedOut(s.sync.acked, s.dev.cache))
    requires NthCommand(s.sync, s.store.log) && s.sync.pc.Acking?
    ensures Sync.AllMarked(s.sync.db, ConfigCmd(s.sync.acked), s.store.log[s.sync.acked].commands)
  {
    assert Sync.Finished(s.sync.db, s.sync.cmds[s.sync.acked]);
  }

  lemma QuietWork(s: State, a: Sync.Answer)
    requires Published(s) && NthCommand(s.sync, s.store.log)
    requires s.sync.pc.Idle? || s.sync.pc.Called? || s.sync.pc.Reporting?
    ensures Published(s.(sync := Sync.Work(s.sync, s.sync.cmds[s.sync.acked], a)))
  {
  }

  lemma WorkKeepsPublished(s: State, a: Sync.Answer)
    requires Published(s) && Link(s) && LogOk(s.store.log) && NthCommand(s.sync, s.store.log) && ConfigIds(s.sync)
    requires Sync.Current(s.sync) && Sync.TracesOk(s.sync) && !s.sync.pc.Calling?
    requires s.store.ports.Some? && AllPrefixesValid(s.store.log, s.store.ports.value.0, s.store.ports.value.1)
    ensures Published(s.(sync := Sync.Work(s.sync, s.sync.cmds[s.sync.acked], a)))
  {
    assert Sync.PcOk(s.sync.db, s.sync.cmds[s.sync.acked], s.sync.pc);
    match s.sync.pc
    case Publishing(i, delta) => MemberKeepsPublished(s, i, delta);
    case Acking =>
      AckingIsMarked(s);
      AckKeepsPublished(s);
    case _ => QuietWork(s, a);
  }

  lemma PortsKnown(s: State)
    requires Store.StoreInv(s.store) && NthCommand(s.sync, s.store.log)
    ensures s.store.ports.Some? && AllPrefixesValid(s.store.log, s.store.ports.value.0, s.store.ports.value.1)
    ensures LogOk(s.store.log)
  {
  }

  lemma SyncStepKeepsPublished(s: State)
    requires Published(s) && Link(s) && Store.StoreInv(s.store) && InOrder(s.orch)
    requires Sync.Current(s.sync) && Sync.TracesOk(s.sync)
    ensures Published(AfterSync(s))
  {
    DaemonFacts(s);
    if s.sync.acked >= |s.sync.cmds| {
      NothingToDo(s);
    } else {
      PortsKnown(s);
      if s.sync.pc.Calling? {
        CallKeepsPublished(s);
      } else {
        WorkKeepsPublished(s, Sync.Answer(0, false, ApplyResult(Ok, []), None));
      }
    }
  }

  lemma SetStepKeepsPublished(s: State, b: Store.Action)
    requires Published(s) && Store.Inv(s.store) && Sync.TracesOk(s.sync) && ConfigIds(s.sync)
    requires |s.sync.cmds| <= |s.store.log|
    ensures Published(AfterSet(s, b))
  {
    StoreStep(s.store, b);
    StoreKeepsPublished(s, AfterSet(s, b));
  }

  lemma StoreKeepsPublished(s: State, t: State)
    requires Published(s) && Sync.TracesOk(s.sync) && ConfigIds(s.sync) && |s.sync.cmds| <= |s.store.log|
    requires t.sync == s.sync && t.dev == s.dev
    requires || t.store.log == s.store.log
             || (|t.store.log| == |s.store.log| + 1 && t.store.log[..|s.store.log|] == s.store.log)
    ensures Published(t)
  {
    if |t.store.log| > |s.store.log| {
      var e := t.store.log[|s.store.log|];
      assert t.store.log == s.store.log + [e];
      SetKeepsPublished(s, t, e);
    }
  }

  /** Steps of the orchestrator, crashes and polls publish nothing. */
  lemma OtherStepsKeepPublished(s: State, a: Action)
    requires Published(s) && !a.SetStep? && !a.SyncStep?
    ensures Published(Step(s, a))
  {
  }

  lemma PublishedKept(s: State, a: Action)
    requires Inv(s) && Published(s)
    ensures Published(Step(s, a))
  {
    if a.SyncStep? {
      SyncStepKeepsPublished(s);
    } else if !a.SetStep? {
      OtherStepsKeepPublished(s, a);
    } else if Allowed(s, a) {
      DaemonFacts(s);
      SetStepKeepsPublished(s, a.a);
    }
  }

  lemma {:induction false} PublishedOverRuns(nIn: nat, nOut: nat, generation: nat, setRetries: nat, policy: RetryPolicy,
                                             actions: seq<Action>)
    ensures Published(Run(Init(nIn, nOut, generation, setRetries, policy), actions))
  {
    var start := Init(nIn, nOut, generation, setRetries, policy);
    if actions == [] {
      assert start.store.log[..0] == [];
    } else {
      PublishedOverRuns(nIn, nOut, generation, setRetries, policy, actions[..|actions| - 1]);
      InvOverRuns(nIn, nOut, generation, setRetries, policy, actions[..|actions| - 1]);
      PublishedKept(Run(start, actions[..|actions| - 1]), actions[|actions| - 1]);
    }
  }

  // ---------------------------------------------------------------- theorem

  lemma ReachablePublished(nIn: nat, nOut: nat, generation: nat, setRetries: nat, policy: RetryPolicy, s: State)
    requires Reachable(Init(nIn, nOut, generation, setRetries, policy), s)
    ensures Inv(s) && Published(s)
  {
    var start := Init(nIn, nOut, generation, setRetries, policy);
    ReachableIffRun(start, s);
    var actions :| s == Run(start, actions);
    InvOverRuns(nIn, nOut, generation, setRetries, policy, actions);
    PublishedOverRuns(nIn, nOut, generation, setRetries, policy, actions);
  }

  /** STATE_DB says of every connection that it is present, up and as the device holds it. */
  ghost predicate StatesDevice(conns: map<string, Sync.ConnState>, m: Matrix)
  {
    conns.Keys == m.Keys && forall k | k in m :: conns[k] == InPlace(m[k])
  }

  /** Once both streams are drained, STATE_DB holds exactly the device's connections, with ports and
      versions and all of them active, which are those of CONFIG_DB, and `active_connections` is
      their number. The daemon never gets stuck on the way. */
  lemma StateFollowsDevice(nIn: nat, nOut: nat, generation: nat, setRetries: nat, policy: RetryPolicy, s: State)
    requires Reachable(Init(nIn, nOut, generation, setRetries, policy), s)
    ensures Drained(s) ==>
      && StatesDevice(s.sync.db.pub.conns, s.dev.core.conns)
      && s.dev.core.conns == Store.Strip(s.store.conns)
      && s.sync.db.counters.active == |s.dev.core.conns|
    ensures !Sync.Stuck(s.sync)
  {
    ReachablePublished(nIn, nOut, generation, setRetries, policy, s);
    InvFollows(s);
    if Drained(s) {
      DrainedIsAll(s);
      DrainedStates(s);
      ActiveIsAll(s.sync, s.dev.core.conns);
    }
    NeverStuck(s);
  }

  lemma DrainedStates(s: State)
    requires Published(s) && Follows(s) && s.sync.acked == Position(s) == |s.store.log|
    ensures StatesDevice(s.sync.db.pub.conns, s.dev.core.conns)
  {
    var log, conns, m := s.store.log, s.sync.db.pub.conns, s.dev.core.conns;
    assert log[..|log|] == log;
    forall k ensures (k in conns <==> k in m) && (k in m ==> conns[k] == InPlace(m[k])) {
      assert StateAt(conns, Target(log, |log|, s.sync.db.pub, k), k);
    }
  }

  lemma ActiveIsAll(y: Sync.State, m: Matrix)
    requires Sync.Conserved(y) && y.acked == |y.cmds| && StatesDevice(y.db.pub.conns, m)
    ensures y.db.counters.active == |m|
  {
    assert Sync.ActiveIds(y.db.pub.conns) == m.Keys;
    assert |m| == |m.Keys|;
  }

  lemma NoneBlocks(log: seq<Event>, n: nat, pub: Sync.Pub, cmd: Sync.Cmd, nIn: nat, nOut: nat)
    requires LogOk(log) && n < |log| && AllPrefixesValid(log, nIn, nOut) && StatesOk(log, n, pub)
    requires cmd.id == ConfigCmd(n) && cmd.batch == log[n].commands
    ensures !Sync.Blocks(pub, cmd, Reply(log, n))
  {
    forall i | 0 <= i < |cmd.batch| ensures !Sync.Throws(pub, cmd.id, cmd.batch[i], Reply(log, n)) {
      PublishKeepsStates(log, n, pub, cmd.batch[i], nIn, nOut);
    }
  }

  lemma NeverStuck(s: State)
    requires Published(s) && Store.StoreInv(s.store) && InOrder(s.orch) && Link(s)
    ensures !Sync.Stuck(s.sync)
  {
    DaemonFacts(s);
    var y := s.sync;
    if y.acked < |y.cmds| && y.cmds[y.acked].id in y.db.results {
      PortsKnown(s);
      var ports := s.store.ports.value;
      NoneBlocks(s.store.log, y.acked, y.db.pub, y.cmds[y.acked], ports.0, ports.1);
    }
  }
}
