/** What the whole configuration path guarantees in every state it can reach. */
module Pipeline {
  import opened Ids
  import Runs
  import opened Connections
  import opened CommandIds
  import opened ConfigLog
  import opened Backoff
  import opened PipelineMachine

  // ---------------------------------------------------------------- reachable states

  ghost predicate Reachable(start: State, s: State)
  {
    Runs.Reachable(Step, start, s)
  }

  lemma {:induction false} RunIsFold(s: State, actions: seq<Action>)
    ensures Run(s, actions) == Runs.Fold(Step, s, actions)
  {
    if actions != [] { RunIsFold(s, actions[..|actions| - 1]); }
  }

  /** The reachable states are those at the end of some run. */
  lemma ReachableIffRun(start: State, s: State)
    ensures Reachable(start, s) <==> exists actions :: s == Run(start, actions)
  {
    Runs.ReachableIffRun(Step, start, s);
    if actions: seq<Action> :| s == Run(start, actions) { RunIsFold(start, actions); }
    if actions: seq<Action> :| s == Runs.Fold(Step, start, actions) { RunIsFold(start, actions); }
  }

  lemma ReachableInv(nIn: nat, nOut: nat, generation: nat, setRetries: nat, policy: RetryPolicy, s: State)
    requires Reachable(Init(nIn, nOut, generation, setRetries, policy), s)
    ensures Inv(s)
  {
    var start := Init(nIn, nOut, generation, setRetries, policy);
    ReachableIffRun(start, s);
    var actions :| s == Run(start, actions);
    InvOverRuns(nIn, nOut, generation, setRetries, policy, actions);
  }

  // ---------------------------------------------------------------- theorem

  ghost predicate Drained(s: State)
  {
    s.orch.acks.config == |s.orch.log| && s.sync.acked == |s.sync.cmds|
  }

  /** How many events of the log the device has carried out. */
  function Position(s: State): nat
  {
    CarriedOut(s.sync.acked, s.dev.cache)
  }

  /** The device's connections are the replay of a prefix of the configuration log, at most one event
      ahead of what the daemon has acknowledged, and a valid matching; once both streams are
      drained they are CONFIG_DB, in ids, ports and versions. */
  ghost predicate Follows(s: State)
  {
    && Position(s) <= |s.store.log| && s.sync.acked <= Position(s) <= s.sync.acked + 1
    && s.dev.core.conns == Replay(s.store.log[..Position(s)])
    && ValidMatrix(s.dev.core.conns, |s.dev.core.inPorts|, |s.dev.core.outPorts|)
    && (Drained(s) ==> s.dev.core.conns == Store.Strip(s.store.conns))
  }

  /** End to end, in every interleaving of Sets, orchestrator and daemon with crashes anywhere. */
  lemma DeviceFollowsConfig(nIn: nat, nOut: nat, generation: nat, setRetries: nat, policy: RetryPolicy, s: State)
    requires Reachable(Init(nIn, nOut, generation, setRetries, policy), s)
    ensures Follows(s)
  {
    ReachableInv(nIn, nOut, generation, setRetries, policy, s);
    InvFollows(s);
  }

  lemma InvFollows(s: State)
    requires Inv(s)
    ensures Follows(s)
  {
    if Drained(s) { DrainedIsAll(s); }
    LinkFollows(s);
  }

  lemma LinkFollows(s: State)
    requires Store.StoreInv(s.store) && Link(s) && (Drained(s) ==> Position(s) == |s.store.log|)
    ensures Follows(s)
  {
    var n := Position(s);
    assert DeviceAt(s.dev.core, s.store.log, n);
    PrefixIsValid(s.store, s.dev.core, n);
    if Drained(s) { WholeLog(s.store, s.dev.core); }
  }

  lemma WholeLog(store: Store.Store, d: Device.Core)
    requires Replay(store.log) == Store.Strip(store.conns) && DeviceAt(d, store.log, |store.log|)
    ensures d.conns == Store.Strip(store.conns)
  {
    assert store.log[..|store.log|] == store.log;
  }

  lemma PrefixIsValid(store: Store.Store, d: Device.Core, n: nat)
    requires Store.StoreInv(store) && PortsOk(store, d) && DeviceAt(d, store.log, n)
    ensures ValidMatrix(d.conns, |d.inPorts|, |d.outPorts|)
  {
    if store.ports.None? { assert d.conns == map[]; }
  }

  lemma DrainedIsAll(s: State)
    requires Inv(s) && Drained(s)
    ensures Position(s) == |s.store.log|
  {
    assert ConfigCmd(|s.orch.log|) !in s.orch.marks.cmd;
  }

  /** The device's connections stay as they are or become what the next event of the log makes of them. */
  ghost predicate MovesOn(s: State, t: State)
  {
    && Position(s) <= |s.store.log| <= |t.store.log| && t.store.log[..|s.store.log|] == s.store.log
    && (|| (Position(t) == Position(s) && t.dev.core.conns == s.dev.core.conns)
        || (&& Position(t) == Position(s) + 1 && Position(s) < |s.store.log|
            && t.dev.core.conns == ApplyAll(s.dev.core.conns, s.store.log[Position(s)].commands)))
  }

  /** The device only moves forward through the log, one event at a time: before and after any step it
      holds the replay of a prefix of the same log, and a redelivered command or a crash never
      takes it back. */
  lemma DeviceMovesForward(nIn: nat, nOut: nat, generation: nat, setRetries: nat, policy: RetryPolicy, s: State,
                           a: Action)
    requires Reachable(Init(nIn, nOut, generation, setRetries, policy), s)
    ensures MovesOn(s, Step(s, a))
    ensures Follows(s) && Follows(Step(s, a))
  {
    ReachableInv(nIn, nOut, generation, setRetries, policy, s);
    StepKeepsInv(s, a);
    InvFollows(s);
    InvFollows(Step(s, a));
    StepMovesForward(s, a);
    LogGrows(s, a);
    if !a.SyncStep? { OthersDoNotMove(s, a); }
    PositionsMove(s, Step(s, a));
  }

  lemma PositionsMove(s: State, t: State)
    requires Follows(s) && Follows(t) && Position(s) <= Position(t) <= Position(s) + 1
    requires |s.store.log| <= |t.store.log| && t.store.log[..|s.store.log|] == s.store.log
    requires Position(t) == Position(s) + 1 ==> Position(t) <= |s.store.log|
    ensures MovesOn(s, t)
  {
    var n := Position(s);
    assert t.store.log[..n] == s.store.log[..n];
    if Position(t) == n + 1 {
      assert t.store.log[n] == t.store.log[..|s.store.log|][n];
      ReplayStep(t.store.log, n);
    }
  }

  lemma LogGrows(s: State, a: Action)
    requires Store.Inv(s.store)
    ensures |s.store.log| <= |Step(s, a).store.log| && Step(s, a).store.log[..|s.store.log|] == s.store.log
    ensures a.SyncStep? ==> Step(s, a).store == s.store
  {
    if a.SetStep? && Allowed(s, a) { StoreStep(s.store, a.a); } else { OthersKeepStore(s, a); }
  }

  lemma OthersKeepStore(s: State, a: Action)
    requires !a.SetStep? || !Allowed(s, a)
    ensures Step(s, a).store == s.store
  {
  }

  lemma StepMovesForward(s: State, a: Action)
    requires Store.StoreInv(s.store) && InOrder(s.orch) && Sync.Current(s.sync) && Sync.TracesOk(s.sync) && Link(s)
    ensures Position(s) <= Position(Step(s, a)) <= Position(s) + 1
  {
    if a.SyncStep? { SyncMovesForward(s); } else { OthersDoNotMove(s, a); }
  }

  lemma OthersDoNotMove(s: State, a: Action)
    requires !a.SyncStep?
    ensures Position(Step(s, a)) == Position(s)
  {
  }

  lemma SyncMovesForward(s: State)
    requires Store.StoreInv(s.store) && InOrder(s.orch) && Sync.Current(s.sync) && Sync.TracesOk(s.sync) && Link(s)
    ensures Position(s) <= Position(AfterSync(s)) <= Position(s) + 1
  {
    DaemonFacts(s);
    if s.sync.acked >= |s.sync.cmds| {
    } else if s.sync.pc.Calling? {
      CallFacts(s);
      CallKeeps(s.dev, s.store.log, s.sync.acked);
    } else {
      WorkKeeps(s.sync, s.dev.cache, Position(s), s.store.log, Sync.Answer(0, false, ApplyResult(Ok, []), None));
    }
  }
}
