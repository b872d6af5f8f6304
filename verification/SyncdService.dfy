/** The sync daemon as the object it is: its methods write the databases one durable operation at a
time, and any of these operations may be the last before the process dies.

`ProcessOne` is proved to be a run of the machine in `Syncd`, so everything proved there about all
runs holds of any sequence of calls, whatever their budgets of operations. */
module SyncdService {
  import opened Ids
  import opened Connections
  import opened CommandIds
  import opened Syncd

  /** The worker going on, with the device answering `a`, or crashing. */
  ghost function WorkerStep(a: Answer): (State, bool) -> State
  {
    (s: State, crash: bool) => Step(s, if crash then Crash else Next(a))
  }

  /** `t` is reached from `s` by steps of the worker and crashes. */
  ghost predicate Reach(s: State, a: Answer, t: State)
  {
    Runs.Reachable(WorkerStep(a), s, t)
  }

  /** The result that a delivery of `cmd` will publish from; `None` if it is already processed or stale. */
  ghost function ResultFor(s: State, cmd: Cmd, a: Answer): Option<ApplyResult>
  {
    if cmd.id in s.db.processed then None
    else if !cmd.decodes then Some(ApplyResult(ProtocolMalformed, []))
    else if cmd.id in s.db.results then Some(s.db.results[cmd.id])
    else if cmd.id !in s.db.attempts && IsStale(s.db.versions, s.generation, cmd.batch) then None
    else Some(if a.attempted then Confirmed(cmd.batch, a.result, a.view) else a.result)
  }

  /** What a caller can see before a delivery: it will come to a member whose publication throws. */
  ghost predicate Blocked(s: State, a: Answer)
  {
    && s.acked < |s.cmds| && ResultFor(s, s.cmds[s.acked], a).Some?
    && Blocks(s.db.pub, s.cmds[s.acked], ResultFor(s, s.cmds[s.acked], a).value)
  }

  /** Durable operations that are enough for any delivery of `cmd`. */
  function Operations(cmd: Cmd): nat
  {
    |cmd.batch| + ReportCount(cmd) + 6
  }

  lemma ReachStart(s: State, a: Answer)
    ensures Reach(s, a, s)
  {
  }

  lemma ReachWork(s: State, a: Answer, t: State)
    requires Reach(s, a, t) && t.acked < |t.cmds|
    ensures Reach(s, a, Work(t, t.cmds[t.acked], a))
  {
    var step := WorkerStep(a);
    assert step(t, false) == Step(t, Next(a)) == Work(t, t.cmds[t.acked], a);
  }

  lemma ReachCrash(s: State, a: Answer, t: State)
    requires Reach(s, a, t)
    ensures Reach(s, a, t.(pc := Idle))
  {
    var step := WorkerStep(a);
    assert step(t, true) == Step(t, Crash) == t.(pc := Idle);
  }

  lemma ReachPublish(s: State, a: Answer, t: State, i: nat, delta: int)
    requires Reach(s, a, t) && t.acked < |t.cmds| && t.pc == Publishing(i, delta) && t.cmds[t.acked].id in t.db.results
    ensures Reach(s, a, Publish(t, t.cmds[t.acked], i, delta))
  {
    ReachWork(s, a, t);
  }

  lemma ReachReport(s: State, a: Answer, t: State, i: nat)
    requires Reach(s, a, t) && t.acked < |t.cmds| && t.pc == Reporting(i) && t.cmds[t.acked].id in t.db.results
    ensures Reach(s, a, ReportNext(t, t.cmds[t.acked], i))
  {
    ReachWork(s, a, t);
  }

  // ---------------------------------------------------------------- which member throws

  /** The first `i` members are published, none of them threw, and the other connections are as they were. */
  ghost predicate PublishedUpTo(p0: Pub, p: Pub, cmd: Cmd, r: ApplyResult, i: nat)
    requires i <= |cmd.batch|
  {
    && (forall j | 0 <= j < i :: (cmd.id, cmd.batch[j].id) in p.marks)
    && (forall j | 0 <= j < i && FirstOf(cmd.batch, j) :: !Throws(p0, cmd.id, cmd.batch[j], r))
    && (forall k | (forall j | 0 <= j < i :: cmd.batch[j].id != k) :: Untouched(p0, p, cmd.id, k))
  }

  /** Whether the next member throws can be told from the start. */
  lemma NextThrows(p0: Pub, p: Pub, cmd: Cmd, r: ApplyResult, i: nat)
    requires i < |cmd.batch| && PublishedUpTo(p0, p, cmd, r, i)
    ensures Throws(p, cmd.id, cmd.batch[i], r) <==> FirstOf(cmd.batch, i) && Throws(p0, cmd.id, cmd.batch[i], r)
  {
    if FirstOf(cmd.batch, i) { assert Untouched(p0, p, cmd.id, cmd.batch[i].id); }
  }

  lemma OneMorePublished(p0: Pub, p: Pub, cmd: Cmd, r: ApplyResult, i: nat)
    requires i < |cmd.batch| && PublishedUpTo(p0, p, cmd, r, i)
    ensures Throws(p, cmd.id, cmd.batch[i], r) ==> Blocks(p0, cmd, r) && Blocks(p, cmd, r)
    ensures !Throws(p, cmd.id, cmd.batch[i], r) ==>
      PublishedUpTo(p0, PublishMember(p, cmd.id, cmd.batch[i], r), cmd, r, i + 1)
  {
    NextThrows(p0, p, cmd, r, i);
    var c := cmd.batch[i];
    var p' := PublishMember(p, cmd.id, c, r);
    forall k | forall j | 0 <= j < i + 1 :: cmd.batch[j].id != k ensures Untouched(p0, p', cmd.id, k) {
      assert cmd.batch[i].id != k;
      PublishUntouched(p, cmd.id, c, r, k);
      assert Untouched(p0, p, cmd.id, k);
    }
  }

  lemma NoneThrew(p0: Pub, p: Pub, cmd: Cmd, r: ApplyResult)
    requires PublishedUpTo(p0, p, cmd, r, |cmd.batch|)
    ensures !Blocks(p0, cmd, r)
  {
  }

  class Service {
    // DEVICE_DB
    var commands: seq<Cmd>
    var acknowledged: nat
    var attempts: set<CmdId>
    var results: map<CmdId, ApplyResult>
    var processed: map<CmdId, bool>
    var versions: map<string, Version>
    var resultMarks: set<(CmdId, string)>
    var resultEvents: seq<ResultEvent>
    // STATE_DB
    var stateMarks: map<(CmdId, string), Mark>
    var connections: map<string, ConnState>
    var stateEvents: seq<StateEvent>
    // COUNTERS_DB
    var counters: Counters
    // not durable
    var generation: nat

    ghost function Stored(): Db
      reads this
    {
      Db(attempts, results, processed, versions, Pub(stateMarks, connections, stateEvents), counters,
         Out(resultMarks, resultEvents))
    }

    ghost function At(pc: Pc): State
      reads this
    {
      State(commands, acknowledged, pc, generation, Stored())
    }

    constructor (conns: map<string, ConnState>, known: map<string, Version>, g: nat)
      ensures At(Idle) == Init(conns, known, g)
    {
      commands, acknowledged := [], 0;
      attempts, results, processed, versions := {}, map[], map[], known;
      resultMarks, resultEvents := {}, [];
      stateMarks, connections, stateEvents := map[], conns, [];
      var active := set k | k in conns && WasActive(Some(conns[k]));
      counters := Counters({}, 0, 0, 0, 0, |active|);
      generation := g;
    }

    /** `publishState` for one member: marker found, superseded, confirmed unchanged, or published. */
    method PublishOne(id: CmdId, c: Command, r: ApplyResult) returns (ok: bool, delta: int)
      modifies this`stateMarks, this`connections, this`stateEvents
      ensures ok <==> !Throws(old(Stored().pub), id, c, r)
      ensures ok ==> Stored().pub == PublishMember(old(Stored().pub), id, c, r)
      ensures ok ==> (id, c.id) in stateMarks && delta == DeltaOf(stateMarks[(id, c.id)])
      ensures !ok ==> Stored() == old(Stored())
    {
      var key := (id, c.id);
      if key in stateMarks {
        return true, DeltaOf(stateMarks[key]);
      }
      var previous := if c.id in connections then Some(connections[c.id]) else None;
      if previous.Some? && previous.value.desired > c.version {
        stateMarks := stateMarks[key := Superseded];
        return true, 0;
      }
      var wasActive := WasActive(previous);
      if r.error == PortDown && c.op.Upsert? && wasActive && previous.value.status == SM.Active
         && previous.value.input == c.input && previous.value.output == c.output
         && previous.value.desired == c.version && previous.value.applied == c.version {
        stateMarks := stateMarks[key := ConfirmedUnchanged];
        return true, 0;
      }
      var state: Option<ConnState> := None;
      var operation := Upsert;
      if r.error == Ok && c.op.Remove? {
        operation := Remove;
      } else if r.error != Ok {
        var base := if previous.Some? then previous.value
                    else ConnState(c.input, c.output, 0, 0, Some(false), SM.Failed, Ok);
        state := Some(base.(desired := c.version, status := SM.Failed, error := r.error));
      } else {
        var applied := Find(r.connections, c.id);
        if applied.None? {
          return false, 0;
        }
        state := Some(ConnState(c.input, c.output, c.version, applied.value.version, Some(true), SM.Active, Ok));
      }
      var isActive := if r.error == Ok then c.op.Upsert? else wasActive;
      delta := if wasActive == isActive then 0 else if isActive then 1 else -1;
      connections := if state.Some? then connections[c.id := state.value] else connections - {c.id};
      stateEvents := stateEvents + [StateEvent(id, c.id, operation, c.version, state)];
      stateMarks := stateMarks[key := Published(delta)];
      ok := true;
    }

    /** `recordApplyCountersOnce`. */
    method CountOnce(id: CmdId, r: ApplyResult, delta: int)
      modifies this`counters
      ensures counters == Count(old(counters), id, r, delta)
    {
      if id !in counters.counted {
        counters := counters.(
          counted := counters.counted + {id},
          total := counters.total + 1,
          success := counters.success + if r.error == Ok then 1 else 0,
          failure := counters.failure + if r.error == Ok then 0 else 1,
          timeout := counters.timeout + if r.error == ApplyTimeout then 1 else 0,
          active := counters.active + delta);
      }
    }

    /** `appendEventOnce` on the result stream. */
    method ReportOnce(e: ResultEvent)
      modifies this`resultMarks, this`resultEvents
      ensures Stored().out == Report(old(Stored().out), e)
    {
      if (e.cmd, e.id) !in resultMarks {
        resultMarks, resultEvents := resultMarks + {(e.cmd, e.id)}, resultEvents + [e];
      }
    }

    /** `markProcessed`: the marker and, for a success, the versions that are news, in one write. */
    method MarkProcessed(cmd: Cmd, applied: bool)
      modifies this`processed, this`versions
      ensures processed == old(processed)[cmd.id := applied]
      ensures versions == if applied then Advance(old(versions), generation, cmd.batch) else old(versions)
    {
      var updated := versions;
      if applied {
        for i := 0 to |cmd.batch|
          invariant updated == Advance(versions, generation, cmd.batch[..i])
        {
          assert cmd.batch[..i + 1][..i] == cmd.batch[..i];
          var c := cmd.batch[i];
          if !(c.id in versions && versions[c.id].generation == generation && versions[c.id].version >= c.version) {
            updated := updated[c.id := Version(c.version, generation)];
          }
        }
        assert cmd.batch[..|cmd.batch|] == cmd.batch;
      }
      processed, versions := processed[cmd.id := applied], updated;
    }

    method PublishNext(cmd: Cmd, i: nat, sum: int, a: Answer, ghost s0: State) returns (ok: bool, delta: int)
      requires acknowledged < |commands| && cmd == commands[acknowledged] && cmd.id in results && i < |cmd.batch|
      requires Reach(s0, a, At(Publishing(i, sum)))
      modifies this`stateMarks, this`connections, this`stateEvents
      ensures ok ==> Reach(s0, a, At(Publishing(i + 1, sum + delta)))
      ensures !ok ==> Reach(s0, a, At(Idle)) && Stored() == old(Stored())
      ensures ok <==> !Throws(old(Stored().pub), cmd.id, cmd.batch[i], results[cmd.id])
      ensures ok ==> Stored().pub == PublishMember(old(Stored().pub), cmd.id, cmd.batch[i], results[cmd.id])
    {
      ReachPublish(s0, a, At(Publishing(i, sum)), i, sum);
      ghost var next := Publish(At(Publishing(i, sum)), cmd, i, sum);
      ok, delta := PublishOne(cmd.id, cmd.batch[i], results[cmd.id]);
      assert next == if ok then At(Publishing(i + 1, sum + delta)) else At(Idle);
    }

    method ReportMember(cmd: Cmd, i: nat, a: Answer, ghost s0: State)
      requires acknowledged < |commands| && cmd == commands[acknowledged] && cmd.id in results && i < ReportCount(cmd)
      requires Reach(s0, a, At(Reporting(i)))
      modifies this`resultMarks, this`resultEvents
      ensures Reach(s0, a, At(Reporting(i + 1)))
    {
      ReachReport(s0, a, At(Reporting(i)), i);
      ghost var next := ReportNext(At(Reporting(i)), cmd, i);
      if cmd.batch == [] {
        ReportOnce(ResultEvent(cmd.id, cmd.resource, cmd.version, results[cmd.id]));
      } else {
        var c, own := cmd.batch[i], results[cmd.id];
        if (cmd.id, c.id) in stateMarks && stateMarks[(cmd.id, c.id)].ConfirmedUnchanged? {
          own := ApplyResult(Ok, [Applied(c.id, c.input, c.output, c.version)]);
        }
        ReportOnce(ResultEvent(cmd.id, c.id, c.version, own));
      }
      assert next == At(Reporting(i + 1));
    }

    method CountCommand(cmd: Cmd, delta: int, a: Answer, ghost s0: State)
      requires acknowledged < |commands| && cmd == commands[acknowledged] && cmd.id in results
      requires Reach(s0, a, At(Publishing(|cmd.batch|, delta)))
      modifies this`counters
      ensures Reach(s0, a, At(Reporting(0)))
    {
      ReachPublish(s0, a, At(Publishing(|cmd.batch|, delta)), |cmd.batch|, delta);
      CountOnce(cmd.id, results[cmd.id], delta);
    }

    method FinishCommand(cmd: Cmd, a: Answer, ghost s0: State)
      requires acknowledged < |commands| && cmd == commands[acknowledged] && cmd.id in results
      requires Reach(s0, a, At(Reporting(ReportCount(cmd))))
      modifies this`processed, this`versions
      ensures Reach(s0, a, At(Acking))
    {
      ReachReport(s0, a, At(Reporting(ReportCount(cmd))), ReportCount(cmd));
      MarkProcessed(cmd, results[cmd.id].error == Ok);
    }

    /** `publishState`: all members, summing up the deltas of their markers. */
    method PublishState(cmd: Cmd, a: Answer, budget: nat, ghost s0: State) returns (left: nat, ready: bool, delta: int)
      requires acknowledged < |commands| && cmd == commands[acknowledged] && cmd.id in results
      requires Reach(s0, a, At(Publishing(0, 0)))
      modifies this`stateMarks, this`connections, this`stateEvents
      ensures Reach(s0, a, At(if ready then Publishing(|cmd.batch|, delta) else Idle))
      ensures ready ==> left == budget - |cmd.batch| && !Blocks(old(Stored().pub), cmd, results[cmd.id])
      ensures !ready && budget >= |cmd.batch| ==>
        Blocks(old(Stored().pub), cmd, results[cmd.id]) && Blocks(Stored().pub, cmd, results[cmd.id])
    {
      left, delta := budget, 0;
      var i := 0;
      ghost var p0, r := Stored().pub, results[cmd.id];
      while i < |cmd.batch|
        invariant 0 <= i <= |cmd.batch|
        invariant Reach(s0, a, At(Publishing(i, delta)))
        invariant left == budget - i
        invariant PublishedUpTo(p0, Stored().pub, cmd, r, i)
      {
        if left == 0 {
          ReachCrash(s0, a, At(Publishing(i, delta)));
          return left, false, delta;
        }
        ghost var p := Stored().pub;
        var ok, d := PublishNext(cmd, i, delta, a, s0);
        OneMorePublished(p0, p, cmd, r, i);
        if !ok { return left, false, delta; }
        left, i, delta := left - 1, i + 1, delta + d;
      }
      NoneThrew(p0, Stored().pub, cmd, r);
      ready := true;
    }

    /** `publishResult`: one event per member, or one for a command without known members. */
    method PublishResult(cmd: Cmd, a: Answer, budget: nat, ghost s0: State) returns (left: nat, ready: bool)
      requires acknowledged < |commands| && cmd == commands[acknowledged] && cmd.id in results
      requires Reach(s0, a, At(Reporting(0)))
      modifies this`resultMarks, this`resultEvents
      ensures Reach(s0, a, At(if ready then Reporting(ReportCount(cmd)) else Idle))
      ensures ready ==> left == budget - ReportCount(cmd)
      ensures !ready ==> budget < ReportCount(cmd)
    {
      left := budget;
      var i := 0;
      while i < ReportCount(cmd)
        invariant 0 <= i <= ReportCount(cmd)
        invariant Reach(s0, a, At(Reporting(i)))
        invariant left == budget - i
      {
        if left == 0 {
          ReachCrash(s0, a, At(Reporting(i)));
          return left, false;
        }
        ReportMember(cmd, i, a, s0);
        left, i := left - 1, i + 1;
      }
      ready := true;
    }

    /** State, counters, results and the processed marker, all from the stored result. */
    method PublishAll(cmd: Cmd, a: Answer, budget: nat, ghost s0: State) returns (left: nat, ready: bool)
      requires acknowledged < |commands| && cmd == commands[acknowledged] && cmd.id in results
      requires Reach(s0, a, At(Publishing(0, 0)))
      modifies this`stateMarks, this`connections, this`stateEvents, this`counters, this`resultMarks, this`resultEvents,
        this`processed, this`versions
      ensures Reach(s0, a, At(if ready then Acking else Idle))
      ensures ready ==> left == budget - |cmd.batch| - ReportCount(cmd) - 2
      ensures ready ==> !Blocks(old(Stored().pub), cmd, results[cmd.id])
      ensures !ready && budget >= |cmd.batch| + ReportCount(cmd) + 2 ==>
        && Blocks(old(Stored().pub), cmd, results[cmd.id]) && Blocks(Stored().pub, cmd, results[cmd.id])
        && processed == old(processed)
    {
      var delta;
      left, ready, delta := PublishState(cmd, a, budget, s0);
      if !ready { return; }
      if left == 0 {
        ReachCrash(s0, a, At(Publishing(|cmd.batch|, delta)));
        return left, false;
      }
      CountCommand(cmd, delta, a, s0);
      left, ready := PublishResult(cmd, a, left - 1, s0);
      if !ready { return; }
      if left == 0 {
        ReachCrash(s0, a, At(Reporting(ReportCount(cmd))));
        return left, false;
      }
      FinishCommand(cmd, a, s0);
      left := left - 1;
    }

    /** The call and the durable result, for a command that has neither. */
    method ApplyCommand(cmd: Cmd, a: Answer, budget: nat, ghost s0: State) returns (left: nat, ready: bool)
      requires acknowledged < |commands| && cmd == commands[acknowledged]
      requires Reach(s0, a, At(Calling))
      modifies this`results, this`generation
      ensures Reach(s0, a, At(if ready then Publishing(0, 0) else Idle))
      ensures ready ==> cmd.id in results && left == budget - 2
      ensures ready ==> results[cmd.id] == if a.attempted then Confirmed(cmd.batch, a.result, a.view) else a.result
      ensures !ready ==> budget < 2
    {
      ghost var s1 := At(Calling);
      ReachWork(s0, a, s1);
      if budget < 2 {
        ReachCrash(s0, a, s1);
        return 0, false;
      }
      generation := a.generation;
      var result := a.result;
      if a.attempted && result.error != Ok {
        result := ConfirmAppliedResult(cmd.batch, result, a.view);
      }
      assert At(Called(result)) == Call(s1, cmd, a);
      ReachWork(s0, a, At(Called(result)));
      results := results[cmd.id := result];
      return budget - 2, true;
    }

    /** Everything up to a stored result. `skip` is true if the command needs no publication. */
    method ObtainResult(cmd: Cmd, a: Answer, budget: nat) returns (left: nat, ready: bool, skip: bool)
      requires acknowledged < |commands| && cmd == commands[acknowledged]
      modifies this`attempts, this`results, this`processed, this`versions, this`generation
      ensures Reach(old(At(Idle)), a, At(if !ready then Idle else if skip then Acking else Publishing(0, 0)))
      ensures ready && !skip ==> cmd.id in results && cmd.id !in processed
      ensures ready && !skip ==> ResultFor(old(At(Idle)), cmd, a) == Some(results[cmd.id])
      ensures ready && skip ==> ResultFor(old(At(Idle)), cmd, a) == None
      ensures ready ==> left >= budget - 3
      ensures !ready ==> budget < 3
    {
      ghost var s0 := At(Idle);
      ReachStart(s0, a);
      if budget == 0 { return 0, false, false; }
      left := budget - 1;
      ReachWork(s0, a, s0);
      if cmd.id in processed { return left, true, true; }
      if !cmd.decodes {
        results := results[cmd.id := ApplyResult(ProtocolMalformed, [])];
        return left, true, false;
      }
      if cmd.id in results { return left, true, false; }
      if cmd.id !in attempts && IsStale(versions, generation, cmd.batch) {
        MarkProcessed(cmd, false);
        return left, true, true;
      }
      attempts := attempts + {cmd.id};
      left, ready := ApplyCommand(cmd, a, left, s0);
      skip := false;
    }

    /** One delivery of the first unacknowledged command, cut off after `budget` durable operations: a
        run of the machine, which ends in a crash if it was cut off. With enough operations it is
        acknowledged exactly if no member blocks it; if one does, the worker is stuck. */
    method ProcessOne(a: Answer, budget: nat) returns (done: bool)
      modifies this
      ensures Reach(old(At(Idle)), a, At(Idle)) && commands == old(commands)
      ensures acknowledged == old(acknowledged) + if done && old(acknowledged) < |commands| then 1 else 0
      ensures done ==> !Blocked(old(At(Idle)), a)
      ensures !done ==> old(acknowledged) < |commands|
      ensures !done && budget >= Operations(commands[old(acknowledged)]) ==>
        Blocked(old(At(Idle)), a) && Stuck(At(Idle))
    {
      ghost var s0 := At(Idle);
      ReachStart(s0, a);
      if acknowledged >= |commands| { return true; }
      var cmd := commands[acknowledged];
      var left, ready, skip := ObtainResult(cmd, a, budget);
      if !ready { return false; }
      if !skip {
        left, ready := PublishAll(cmd, a, left, s0);
        if !ready { return false; }
      }
      if left == 0 {
        ReachCrash(s0, a, At(Acking));
        return false;
      }
      ReachWork(s0, a, At(Acking));
      acknowledged := acknowledged + 1;
      done := true;
    }
  }

  // ---------------------------------------------------------------- what that gives

  /** A delivery is a run of the machine: everything proved over runs holds after it. */
  lemma DeliveryIsRun(s: State, a: Answer, t: State)
    requires Reach(s, a, t)
    ensures exists actions :: t == Run(s, actions)
  {
    var step := WorkerStep(a);
    Runs.ReachableIffRun(step, s, t);
    var turns: seq<bool> :| t == Runs.Fold(step, s, turns);
    TurnsAreRun(s, a, turns);
  }

  lemma {:induction false} TurnsAreRun(s: State, a: Answer, turns: seq<bool>)
    ensures exists actions :: Runs.Fold(WorkerStep(a), s, turns) == Run(s, actions)
  {
    if turns == [] {
      assert s == Run(s, []);
    } else {
      var n := |turns| - 1;
      TurnsAreRun(s, a, turns[..n]);
      var actions :| Runs.Fold(WorkerStep(a), s, turns[..n]) == Run(s, actions);
      var more := actions + [if turns[n] then Crash else Next(a)];
      assert more[..|actions|] == actions;
      assert Runs.Fold(WorkerStep(a), s, turns) == Run(s, more);
    }
  }

  lemma DeliveryKeepsInv(s: State, a: Answer, t: State)
    requires Reach(s, a, t) && Inv(s)
    ensures Inv(t)
  {
    DeliveryIsRun(s, a, t);
    var actions :| t == Run(s, actions);
    InvOverRuns(s, actions);
  }

  /** No delivery, however long, gets a stuck worker past its command. */
  lemma DeliveryStaysStuck(s: State, a: Answer, t: State)
    requires Reach(s, a, t) && Inv(s) && Stuck(s)
    ensures Stuck(t) && t.acked == s.acked
  {
    DeliveryIsRun(s, a, t);
    var actions :| t == Run(s, actions);
    StuckForever(s, actions);
  }
}
