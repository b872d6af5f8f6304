/** What the sync daemon publishes, stated on STATE_DB, the stored result and the recorded versions
directly: which of the four things happens to a member, what STATE_DB and the streams then hold, and
when a command may be skipped. */
module SyncdLaws {
  import opened Ids
  import opened Connections
  import opened CommandIds
  import opened Syncd
  import SM = StatusMachine

  // ---------------------------------------------------------------- publishing one member

  /** STATE_DB says that the connection is up: it says so outright, or, without saying, names an applied
      version. */
  predicate IsUp(p: Pub, id: string)
  {
    id in p.conns && (p.conns[id].present == Some(true) || (p.conns[id].present == None && p.conns[id].applied != 0))
  }

  /** STATE_DB holds the connection up and active on exactly the command's ports and version. */
  predicate Holds(p: Pub, c: Command)
  {
    && IsUp(p, c.id) && p.conns[c.id].status == SM.Active
    && p.conns[c.id].input == c.input && p.conns[c.id].output == c.output
    && p.conns[c.id].desired == c.version && p.conns[c.id].applied == c.version
  }

  predicate IsNewer(p: Pub, c: Command)
  {
    c.id in p.conns && p.conns[c.id].desired > c.version
  }

  /** A port failure of a connection that is up as commanded. */
  predicate IsKept(p: Pub, c: Command, r: ApplyResult)
  {
    r.error == PortDown && c.op == Upsert && Holds(p, c)
  }

  /** Entry `i` is the first the result lists for this connection. */
  ghost predicate FirstListed(r: ApplyResult, id: string, i: int)
  {
    0 <= i < |r.connections| && r.connections[i].id == id && forall j | 0 <= j < i :: r.connections[j].id != id
  }

  /** What is in STATE_DB under the member after it was published. */
  ghost predicate Leaves(p: Pub, p': Pub, c: Command, r: ApplyResult)
  {
    && (r.error == Ok && c.op == Remove ==> c.id !in p'.conns)
    && (forall i | r.error == Ok && c.op == Upsert && FirstListed(r, c.id, i) ::
          c.id in p'.conns && p'.conns[c.id] ==
            ConnState(c.input, c.output, c.version, r.connections[i].version, Some(true), SM.Active, Ok))
    && (r.error != Ok ==>
          && c.id in p'.conns
          && p'.conns[c.id].desired == c.version && p'.conns[c.id].status == SM.Failed
          && p'.conns[c.id].error == r.error
          && if c.id in p.conns then
               && p'.conns[c.id].input == p.conns[c.id].input && p'.conns[c.id].output == p.conns[c.id].output
               && p'.conns[c.id].applied == p.conns[c.id].applied && p'.conns[c.id].present == p.conns[c.id].present
             else
               && p'.conns[c.id].input == c.input && p'.conns[c.id].output == c.output
               && p'.conns[c.id].applied == 0 && p'.conns[c.id].present == Some(false))
  }

  ghost predicate PublishedAs(p: Pub, p': Pub, id: CmdId, c: Command, r: ApplyResult)
  {
    && Leaves(p, p', c, r)
    && (forall k | k != c.id :: (k in p'.conns <==> k in p.conns) && (k in p.conns ==> p'.conns[k] == p.conns[k]))
    && (var delta := (if IsUp(p', c.id) then 1 else 0) - (if IsUp(p, c.id) then 1 else 0);
        p'.marks == p.marks[(id, c.id) := Published(delta)])
    && (var op := if r.error == Ok && c.op == Remove then Remove else Upsert;
        var state := if c.id in p'.conns then Some(p'.conns[c.id]) else None;
        p'.events == p.events + [StateEvent(id, c.id, op, c.version, state)])
  }

  /** The four things that can happen to a member: it was published before; STATE_DB is newer; it is a
      port failure of a connection that is up as commanded; it is published. */
  ghost predicate PublishLaw(p: Pub, p': Pub, id: CmdId, c: Command, r: ApplyResult)
  {
    && ((id, c.id) in p.marks ==> p' == p)
    && ((id, c.id) !in p.marks && IsNewer(p, c) ==> p' == p.(marks := p.marks[(id, c.id) := Superseded]))
    && ((id, c.id) !in p.marks && IsKept(p, c, r) ==> p' == p.(marks := p.marks[(id, c.id) := ConfirmedUnchanged]))
    && ((id, c.id) !in p.marks && !IsNewer(p, c) && !IsKept(p, c, r) ==> PublishedAs(p, p', id, c, r))
  }

  lemma {:induction false} FindFirst(cs: seq<Applied>, id: string, i: nat)
    requires i < |cs| && cs[i].id == id && forall j | 0 <= j < i :: cs[j].id != id
    ensures Find(cs, id) == Some(cs[i])
  {
    if i > 0 {
      assert cs[1..][i - 1] == cs[i];
      assert forall j | 0 <= j < i - 1 :: cs[1..][j] == cs[j + 1];
      FindFirst(cs[1..], id, i - 1);
    }
  }

  lemma KeptIff(p: Pub, c: Command, r: ApplyResult)
    ensures Preserves(Prev(p, c.id), c, r) <==> IsKept(p, c, r)
    ensures WasActive(Prev(p, c.id)) <==> IsUp(p, c.id)
    ensures IsSuperseded(Prev(p, c.id), c) <==> IsNewer(p, c)
  {
  }

  lemma PublishIsLawful(p: Pub, id: CmdId, c: Command, r: ApplyResult)
    requires !Throws(p, id, c, r)
    ensures PublishLaw(p, PublishMember(p, id, c, r), id, c, r)
  {
    KeptIff(p, c, r);
    if (id, c.id) !in p.marks && !IsNewer(p, c) && !IsKept(p, c, r) { PublishIsPublished(p, id, c, r); }
  }

  lemma PublishIsPublished(p: Pub, id: CmdId, c: Command, r: ApplyResult)
    requires (id, c.id) !in p.marks && !IsNewer(p, c) && !IsKept(p, c, r) && !Omits(c, r)
    ensures PublishedAs(p, PublishMember(p, id, c, r), id, c, r)
  {
    var p' := PublishMember(p, id, c, r);
    KeptIff(p, c, r);
    KeptIff(p', c, r);
    forall i | FirstListed(r, c.id, i) ensures Find(r.connections, c.id) == Some(r.connections[i]) {
      FindFirst(r.connections, c.id, i);
    }
  }

  /** The member the worker publishes in state `s`. */
  ghost predicate Publishes(s: State, c: Command)
  {
    && s.acked < |s.cmds| && s.cmds[s.acked].id in s.db.results
    && s.pc.Publishing? && s.pc.i < |s.cmds[s.acked].batch| && c == s.cmds[s.acked].batch[s.pc.i]
  }

  /** STATE_DB only changes by a step that publishes a member of the current command, and then as the law
      says of STATE_DB right before it. */
  lemma PublishedLawfully(s: State, a: Action)
    requires Step(s, a).db.pub != s.db.pub
    ensures s.acked < |s.cmds| && s.pc.Publishing? && s.pc.i < |s.cmds[s.acked].batch|
    ensures Publishes(s, s.cmds[s.acked].batch[s.pc.i])
    ensures var cmd := s.cmds[s.acked];
      PublishLaw(s.db.pub, Step(s, a).db.pub, cmd.id, cmd.batch[s.pc.i], s.db.results[cmd.id])
  {
    if s.pc.Publishing? {
      var cmd := s.cmds[s.acked];
      PublishIsLawful(s.db.pub, cmd.id, cmd.batch[s.pc.i], s.db.results[cmd.id]);
    } else {
      OtherStepsPublishNothing(s, a);
    }
  }

  // ---------------------------------------------------------------- members confirmed unchanged

  ghost predicate BatchHeld(p: Pub, cmd: Cmd)
  {
    forall c | c in cmd.batch && (cmd.id, c.id) in p.marks && p.marks[(cmd.id, c.id)] == ConfirmedUnchanged ::
      Holds(p, c)
  }

  /** While a command is being worked on, its members marked as unchanged are held just so. */
  ghost predicate KeptOk(s: State)
  {
    s.acked < |s.cmds| ==> BatchHeld(s.db.pub, s.cmds[s.acked])
  }

  lemma SameMember(batch: seq<Command>, c: Command, d: Command)
    requires DistinctIds(batch) && c in batch && d in batch && c.id == d.id
    ensures c == d
  {
    var i :| 0 <= i < |batch| && batch[i] == c;
    var j :| 0 <= j < |batch| && batch[j] == d;
    assert i == j;
  }

  lemma PublishKeepsHeld(p: Pub, p': Pub, cmd: Cmd, c: Command, r: ApplyResult)
    requires DistinctIds(cmd.batch) && c in cmd.batch && BatchHeld(p, cmd) && PublishLaw(p, p', cmd.id, c, r)
    ensures BatchHeld(p', cmd)
  {
    forall d | d in cmd.batch && (cmd.id, d.id) in p'.marks && p'.marks[(cmd.id, d.id)] == ConfirmedUnchanged
      ensures Holds(p', d)
    {
      if d.id == c.id { SameMember(cmd.batch, c, d); }
    }
  }

  lemma UntracedHeld(s: State, db: Db, cmd: Cmd)
    requires cmd.id !in Traces(db)
    ensures BatchHeld(db.pub, cmd)
  {
    forall k ensures (cmd.id, k) !in db.pub.marks { MarksAreTraces(db, cmd.id, k); }
  }

  lemma KeptStep(s: State, a: Action)
    requires Inv(s) && KeptOk(s)
    ensures KeptOk(Step(s, a))
  {
    var t := Step(s, a);
    if t.acked < |t.cmds| {
      if s.acked >= |s.cmds| || t.acked != s.acked {
        NextUntraced(s, a);
        UntracedHeld(t, t.db, t.cmds[t.acked]);
      } else if t.db.pub != s.db.pub {
        var cmd := s.cmds[s.acked];
        PublishedLawfully(s, a);
        PublishKeepsHeld(s.db.pub, t.db.pub, cmd, cmd.batch[s.pc.i], s.db.results[cmd.id]);
      }
    }
  }

  /** A command that has just become the current one has left no trace. */
  lemma NextUntraced(s: State, a: Action)
    requires Inv(s) && Step(s, a).acked < |Step(s, a).cmds|
    requires s.acked >= |s.cmds| || Step(s, a).acked != s.acked
    ensures var t := Step(s, a); t.cmds[t.acked].id !in Traces(t.db) && t.db == s.db
  {
    var t := Step(s, a);
    if s.acked < |s.cmds| {
      FutureUntraced(s, t.acked);
    } else {
      assert a.Append? && t == s.(cmds := s.cmds + [a.cmd]);
    }
  }

  lemma {:induction false} KeptOverRuns(s: State, actions: seq<Action>)
    requires Inv(s) && KeptOk(s)
    ensures KeptOk(Run(s, actions))
  {
    if actions != [] {
      KeptOverRuns(s, actions[..|actions| - 1]);
      InvOverRuns(s, actions[..|actions| - 1]);
      KeptStep(Run(s, actions[..|actions| - 1]), actions[|actions| - 1]);
    }
  }

  /** What the result event for report number `i` of a command says. */
  ghost predicate ReportLaw(db: Db, cmd: Cmd, i: nat, e: ResultEvent)
    requires cmd.id in db.results
  {
    && e.cmd == cmd.id
    && (cmd.batch == [] ==>
          i == 0 && e.id == cmd.resource && e.version == cmd.version && e.result == db.results[cmd.id])
    && (cmd.batch != [] ==>
          && i < |cmd.batch| && e.id == cmd.batch[i].id && e.version == cmd.batch[i].version
          && if (cmd.id, e.id) in db.pub.marks && db.pub.marks[(cmd.id, e.id)] == ConfirmedUnchanged then
               && db.results[cmd.id].error == PortDown && Holds(db.pub, cmd.batch[i])
               && var held := db.pub.conns[e.id];
                  e.result == ApplyResult(Ok, [Applied(e.id, held.input, held.output, held.applied)])
             else e.result == db.results[cmd.id])
  }

  /** In every step of every run, a new result event repeats the stored result, except for a member
      confirmed unchanged: there the result is a port failure, and the event lists exactly what STATE_DB
      holds for the connection. */
  lemma ReportsWhatIsHeld(conns: map<string, ConnState>, versions: map<string, Version>, generation: nat, s: State,
                          a: Action)
    requires Reachable(Init(conns, versions, generation), s) && Step(s, a).db.out.events != s.db.out.events
    ensures s.acked < |s.cmds| && s.pc.Reporting? && s.cmds[s.acked].id in s.db.results
    ensures |Step(s, a).db.out.events| > 0
    ensures var es := Step(s, a).db.out.events;
      && es == s.db.out.events + [es[|es| - 1]]
      && ReportLaw(s.db, s.cmds[s.acked], s.pc.i, es[|es| - 1])
  {
    ReachableInv(conns, versions, generation, s);
    ReachableIffRun(Init(conns, versions, generation), s);
    var actions :| s == Run(Init(conns, versions, generation), actions);
    InitOk(conns, versions, generation);
    KeptOverRuns(Init(conns, versions, generation), actions);
    if s.pc.Reporting? { ReportIsLawful(s, a); } else { OtherStepsReportNothing(s, a); }
  }

  lemma OtherStepsReportNothing(s: State, a: Action)
    requires a.Next? ==> !s.pc.Reporting?
    ensures Step(s, a).db.out == s.db.out
  {
  }

  lemma ReportIsLawful(s: State, a: Action)
    requires ContentOk(s.db) && KeptOk(s) && s.pc.Reporting? && Step(s, a).db.out.events != s.db.out.events
    ensures s.acked < |s.cmds| && s.cmds[s.acked].id in s.db.results
    ensures |Step(s, a).db.out.events| > 0
    ensures var es := Step(s, a).db.out.events;
      && es == s.db.out.events + [es[|es| - 1]]
      && ReportLaw(s.db, s.cmds[s.acked], s.pc.i, es[|es| - 1])
  {
    var cmd, i := s.cmds[s.acked], s.pc.i;
    var e := ReportAt(s.db, cmd, i);
    assert Step(s, a).db.out.events == s.db.out.events + [e];
    if cmd.batch != [] && (cmd.id, e.id) in s.db.pub.marks {
      assert MarkOk(s.db.results, cmd.id, s.db.pub.marks[(cmd.id, e.id)]);
      assert cmd.batch[i] in cmd.batch;
    }
  }

  // ---------------------------------------------------------------- the stored result

  /** A result is stored for a command in two ways only: its payload could not be decoded; or it is what
      the worker came back with from the device. */
  lemma StoredIs(conns: map<string, ConnState>, versions: map<string, Version>, generation: nat, s: State, a: Action,
                 id: CmdId)
    requires Reachable(Init(conns, versions, generation), s)
    requires id in Step(s, a).db.results && id !in s.db.results
    ensures s.acked < |s.cmds| && s.cmds[s.acked].id == id
    ensures if s.cmds[s.acked].decodes then s.pc == Called(Step(s, a).db.results[id])
            else Step(s, a).db.results[id] == ApplyResult(ProtocolMalformed, [])
  {
    ReachableInv(conns, versions, generation, s);
    assert PcOk(s.db, s.cmds[s.acked], s.pc);
  }

  /** What it comes back with: the device's answer, unless an attempted apply failed while the device
      visibly holds all of the batch; then a success that lists every upsert. */
  lemma CalledIs(s: State, answer: Answer)
    requires s.acked < |s.cmds| && s.pc.Calling?
    requires answer.view.Some? ==> Keyed(answer.view.value.conns)
    ensures Step(s, Next(answer)).pc.Called?
    ensures var cmd, r := s.cmds[s.acked], Step(s, Next(answer)).pc.result;
      if && answer.attempted && answer.result.error != Ok && cmd.batch != []
         && answer.view.Some? && InPlace(answer.view.value, cmd.batch)
      then r.error == Ok && forall c | c in cmd.batch && c.op.Upsert? :: ToApplied(c) in r.connections
      else r == answer.result
  {
    var cmd := s.cmds[s.acked];
    if answer.result.error != Ok { ConfirmedIffInPlace(cmd.batch, answer.result, answer.view); }
  }

  // ---------------------------------------------------------------- versions

  /** The version recorded for a connection is at least `v`, and of this device generation. */
  predicate KnownAt(versions: map<string, Version>, generation: nat, id: string, v: nat)
  {
    id in versions && versions[id].generation == generation && v <= versions[id].version
  }

  /** What a successful batch does to the recorded versions. */
  ghost predicate VersionLaw(before: map<string, Version>, after: map<string, Version>, generation: nat,
                             batch: seq<Command>)
  {
    && (forall c | c in batch && KnownAt(before, generation, c.id, c.version) ::
          c.id in after && after[c.id] == before[c.id])
    && (forall c | c in batch && !KnownAt(before, generation, c.id, c.version) ::
          c.id in after && after[c.id] == Version(c.version, generation))
    && (forall k | (forall c | c in batch :: c.id != k) ::
          (k in after <==> k in before) && (k in before ==> after[k] == before[k]))
  }

  lemma {:induction false} AdvanceIsLawful(versions: map<string, Version>, generation: nat, batch: seq<Command>)
    requires DistinctIds(batch)
    ensures VersionLaw(versions, Advance(versions, generation, batch), generation, batch)
  {
    if batch != [] {
      var n := |batch| - 1;
      var pre, c := batch[..n], batch[n];
      AdvanceIsLawful(versions, generation, pre);
      assert batch == pre + [c];
      LastIsNew(batch);
      AdvanceOneMore(versions, Advance(versions, generation, pre), generation, pre, c);
    }
  }

  lemma LastIsNew(batch: seq<Command>)
    requires DistinctIds(batch) && batch != []
    ensures forall d | d in batch[..|batch| - 1] :: d.id != batch[|batch| - 1].id
  {
  }

  lemma AdvanceOneMore(before: map<string, Version>, mid: map<string, Version>, generation: nat, pre: seq<Command>,
                       c: Command)
    requires VersionLaw(before, mid, generation, pre) && forall d | d in pre :: d.id != c.id
    ensures VersionLaw(before, if KnownAt(before, generation, c.id, c.version) then mid
                               else mid[c.id := Version(c.version, generation)], generation, pre + [c])
  {
    var batch := pre + [c];
    assert c in batch && forall d :: d in batch <==> d in pre || d == c;
  }

  /** A command's processed marker appears in two ways only: all its members are known at their version
      or later in the device's current generation, and the command is skipped without a result; or its
      result is fully reported, and then a success leaves every member known and a failure changes no
      version. */
  lemma ProcessedLaw(s: State, a: Action, id: CmdId)
    requires Inv(s) && id in Step(s, a).db.processed && id !in s.db.processed
    ensures s.acked < |s.cmds| && s.cmds[s.acked].id == id
    ensures var t, cmd := Step(s, a), s.cmds[s.acked];
      if id in s.db.results then
        && t.db.processed[id] == (s.db.results[id].error == Ok)
        && (s.db.results[id].error == Ok ==>
              && VersionLaw(s.db.versions, t.db.versions, s.generation, cmd.batch)
              && forall c | c in cmd.batch :: KnownAt(t.db.versions, s.generation, c.id, c.version))
        && (s.db.results[id].error != Ok ==> t.db.versions == s.db.versions)
      else
        && !t.db.processed[id] && t.db.versions == s.db.versions
        && forall c | c in cmd.batch :: KnownAt(s.db.versions, s.generation, c.id, c.version)
  {
    var cmd := s.cmds[s.acked];
    assert PcOk(s.db, cmd, s.pc);
    if s.pc.Reporting? { MarkedIs(s, a, cmd); } else { SkippedIsKnown(s, cmd); }
  }

  lemma MarkedIs(s: State, a: Action, cmd: Cmd)
    requires s.acked < |s.cmds| && cmd == s.cmds[s.acked] && s.pc.Reporting? && DistinctIds(cmd.batch)
    requires cmd.id in s.db.results && cmd.id in Step(s, a).db.processed && cmd.id !in s.db.processed
    ensures var t, ok := Step(s, a), s.db.results[cmd.id].error == Ok;
      && t.db.processed[cmd.id] == ok
      && (ok ==> VersionLaw(s.db.versions, t.db.versions, s.generation, cmd.batch))
      && (!ok ==> t.db.versions == s.db.versions)
  {
    AdvanceIsLawful(s.db.versions, s.generation, cmd.batch);
  }

  lemma SkippedIsKnown(s: State, cmd: Cmd)
    requires cmd.id !in s.db.processed && cmd.id in Begin(s, cmd).db.processed
    ensures cmd.id !in s.db.results && Begin(s, cmd).db == s.db.(processed := s.db.processed[cmd.id := false])
    ensures forall c | c in cmd.batch :: KnownAt(s.db.versions, s.generation, c.id, c.version)
  {
    forall c | c in cmd.batch ensures KnownAt(s.db.versions, s.generation, c.id, c.version) {
      assert StaleMember(s.db.versions, s.generation, c);
    }
  }

  /** A delivery that starts from nothing is skipped exactly if all its members are known; otherwise the
      attempt is recorded, and then the device is called. */
  lemma SkippedIff(s: State, answer: Answer)
    requires s.acked < |s.cmds| && s.pc.Idle? && s.cmds[s.acked].decodes
    requires var id := s.cmds[s.acked].id; id !in s.db.processed && id !in s.db.results && id !in s.db.attempts
    ensures var t, cmd := Step(s, Next(answer)), s.cmds[s.acked];
      if forall c | c in cmd.batch :: KnownAt(s.db.versions, s.generation, c.id, c.version)
      then t == s.(pc := Acking, db := s.db.(processed := s.db.processed[cmd.id := false]))
      else t == s.(pc := Calling, db := s.db.(attempts := s.db.attempts + {cmd.id}))
  {
    var cmd := s.cmds[s.acked];
    forall c | c in cmd.batch
      ensures StaleMember(s.db.versions, s.generation, c) <==> KnownAt(s.db.versions, s.generation, c.id, c.version)
    {
    }
  }

  /** The recorded version was known at the start, or a command with it was applied with success. */
  ghost predicate AppliedBy(s: State, k: string, v: Version, i: nat)
  {
    && i < |s.cmds| && s.cmds[i].id in s.db.processed && s.db.processed[s.cmds[i].id]
    && s.cmds[i].id in s.db.results && s.db.results[s.cmds[i].id].error == Ok
    && exists c :: c in s.cmds[i].batch && c.id == k && c.version == v.version
  }

  ghost predicate VersionsExplained(known: map<string, Version>, s: State)
  {
    forall k | k in s.db.versions ::
      || (k in known && s.db.versions[k] == known[k])
      || exists i: nat :: AppliedBy(s, k, s.db.versions[k], i)
  }

  lemma AppliedStays(s: State, t: State, k: string, v: Version, i: nat)
    requires AppliedBy(s, k, v, i) && |s.cmds| <= |t.cmds| && t.cmds[i] == s.cmds[i]
    requires s.cmds[i].id in t.db.processed && t.db.processed[s.cmds[i].id]
    requires s.cmds[i].id in t.db.results && t.db.results[s.cmds[i].id] == s.db.results[s.cmds[i].id]
    ensures AppliedBy(t, k, v, i)
  {
  }

  lemma ProcessedStays(s: State, a: Action, id: CmdId)
    requires Inv(s) && id in s.db.processed
    ensures id in Step(s, a).db.processed && Step(s, a).db.processed[id] == s.db.processed[id]
  {
    if a.Next? && s.acked < |s.cmds| { assert PcOk(s.db, s.cmds[s.acked], s.pc); }
  }

  lemma VersionsOnlyAtMark(s: State, a: Action)
    requires Inv(s) && Step(s, a).db.versions != s.db.versions
    ensures s.acked < |s.cmds| && s.cmds[s.acked].id !in s.db.processed
    ensures s.cmds[s.acked].id in Step(s, a).db.processed && s.cmds[s.acked].id in s.db.results
  {
    assert s.acked < |s.cmds|;
    assert PcOk(s.db, s.cmds[s.acked], s.pc);
  }

  lemma CmdsStay(s: State, a: Action)
    ensures |s.cmds| <= |Step(s, a).cmds| && forall i | 0 <= i < |s.cmds| :: Step(s, a).cmds[i] == s.cmds[i]
  {
  }

  lemma OldVersionExplained(known: map<string, Version>, s: State, a: Action, k: string)
    requires Inv(s) && VersionsExplained(known, s) && k in s.db.versions
    ensures || (k in known && s.db.versions[k] == known[k])
            || exists i: nat :: AppliedBy(Step(s, a), k, s.db.versions[k], i)
  {
    if !(k in known && s.db.versions[k] == known[k]) {
      var i: nat :| AppliedBy(s, k, s.db.versions[k], i);
      CmdsStay(s, a);
      ProcessedStays(s, a, s.cmds[i].id);
      ResultKept(s, a, s.cmds[i].id);
      AppliedStays(s, Step(s, a), k, s.db.versions[k], i);
    }
  }

  lemma NewVersionExplained(s: State, a: Action, k: string)
    requires Inv(s) && Step(s, a).db.versions != s.db.versions && k in Step(s, a).db.versions
    requires k !in s.db.versions || Step(s, a).db.versions[k] != s.db.versions[k]
    ensures s.acked < |Step(s, a).cmds| && AppliedBy(Step(s, a), k, Step(s, a).db.versions[k], s.acked)
  {
    VersionsOnlyAtMark(s, a);
    CmdsStay(s, a);
    var cmd := s.cmds[s.acked];
    ProcessedLaw(s, a, cmd.id);
    ResultKept(s, a, cmd.id);
    if forall c | c in cmd.batch :: c.id != k {
      assert false;
    }
    var c :| c in cmd.batch && c.id == k;
    assert !KnownAt(s.db.versions, s.generation, c.id, c.version);
  }

  lemma VersionsStep(known: map<string, Version>, s: State, a: Action)
    requires Inv(s) && VersionsExplained(known, s)
    ensures VersionsExplained(known, Step(s, a))
  {
    var t := Step(s, a);
    forall k | k in t.db.versions
      ensures || (k in known && t.db.versions[k] == known[k])
              || exists i: nat :: AppliedBy(t, k, t.db.versions[k], i)
    {
      if k in s.db.versions && t.db.versions[k] == s.db.versions[k] {
        OldVersionExplained(known, s, a, k);
      } else {
        NewVersionExplained(s, a, k);
      }
    }
  }

  lemma {:induction false} VersionsOverRuns(known: map<string, Version>, s: State, actions: seq<Action>)
    requires Inv(s) && VersionsExplained(known, s)
    ensures VersionsExplained(known, Run(s, actions))
  {
    if actions != [] {
      VersionsOverRuns(known, s, actions[..|actions| - 1]);
      InvOverRuns(s, actions[..|actions| - 1]);
      VersionsStep(known, Run(s, actions[..|actions| - 1]), actions[|actions| - 1]);
    }
  }

  /** In every step of every run a command is skipped only if each of its members is known at its version
      or later, and what is known was known at the start or applied by an earlier successful command. */
  lemma SkippedWasApplied(conns: map<string, ConnState>, known: map<string, Version>, generation: nat, s: State,
                          a: Action, id: CmdId, c: Command)
    requires Reachable(Init(conns, known, generation), s)
    requires id in Step(s, a).db.processed && id !in s.db.processed && id !in s.db.results
    requires s.acked < |s.cmds| && c in s.cmds[s.acked].batch
    ensures s.cmds[s.acked].id == id && KnownAt(s.db.versions, s.generation, c.id, c.version)
    ensures || (c.id in known && s.db.versions[c.id] == known[c.id])
            || exists i: nat :: AppliedBy(s, c.id, s.db.versions[c.id], i)
  {
    ReachableInv(conns, known, generation, s);
    ReachableIffRun(Init(conns, known, generation), s);
    var actions :| s == Run(Init(conns, known, generation), actions);
    InitOk(conns, known, generation);
    VersionsOverRuns(known, Init(conns, known, generation), actions);
    ProcessedLaw(s, a, id);
  }

  /** In every step of every run: what a processed marker says about results and versions. */
  lemma ProcessedOverRuns(conns: map<string, ConnState>, known: map<string, Version>, generation: nat, s: State,
                          a: Action, id: CmdId)
    requires Reachable(Init(conns, known, generation), s)
    requires id in Step(s, a).db.processed && id !in s.db.processed && id in s.db.results
    ensures s.acked < |s.cmds| && s.cmds[s.acked].id == id
    ensures var t, cmd := Step(s, a), s.cmds[s.acked];
      && t.db.processed[id] == (s.db.results[id].error == Ok)
      && (s.db.results[id].error == Ok ==>
            && VersionLaw(s.db.versions, t.db.versions, s.generation, cmd.batch)
            && forall c | c in cmd.batch :: KnownAt(t.db.versions, s.generation, c.id, c.version))
      && (s.db.results[id].error != Ok ==> t.db.versions == s.db.versions)
  {
    ReachableInv(conns, known, generation, s);
    ProcessedLaw(s, a, id);
  }
}
