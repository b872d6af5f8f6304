/** What a caller of the device can rely on, stated on ports, fences, connections and faults
directly: which batches are accepted, which error a refused one gets, what an accepted one leaves,
and what resets, faults and admin changes do to later calls. */
module DeviceLaws {
  import opened Ids
  import opened Connections
  import opened DeviceModel

  predicate Usable(ports: seq<Port>, id: nat)
  {
    1 <= id <= |ports| && ports[id - 1].enabled && ports[id - 1].oper == Up
  }

  predicate BehindFence(fences: map<string, nat>, c: Command)
  {
    c.version != 0 && c.id in fences && c.version < fences[c.id]
  }

  /** The member has an id, and an upsert names two usable ports. */
  predicate Placeable(d: Core, c: Command)
  {
    c.id != "" && (c.op.Upsert? ==> Usable(d.inPorts, c.input) && Usable(d.outPorts, c.output))
  }

  // ---------------------------------------------------------------- acceptance

  lemma PlaceableIff(d: Core, c: Command)
    ensures Placeable(d, c) <==> MemberError(d, c) == Ok
    ensures BehindFence(d.fences, c) <==> IsStale(d.fences, c)
  {
  }

  /** An apply that is not answered from the cache succeeds exactly if it is atomic, no fault is
      armed, no member is behind its fence, every member has an id and only usable ports, and the
      batch leaves a matching. */
  lemma AcceptedExactly<O>(d: Dev<O>, cs: seq<Command>, op: Option<O>, atomic: bool)
    requires op.None? || op.value !in d.cache.results
    ensures Apply(d, cs, op, atomic).1.error == Ok <==>
      && atomic && !d.core.failNext && !d.core.timeoutNext
      && (forall c | c in cs :: !BehindFence(d.core.fences, c) && Placeable(d.core, c))
      && Matching(ApplyAll(d.core.conns, cs))
  {
    forall c ensures Placeable(d.core, c) <==> MemberError(d.core, c) == Ok
             ensures BehindFence(d.core.fences, c) <==> IsStale(d.core.fences, c)
    {
      PlaceableIff(d.core, c);
    }
    ExecuteEffect(d.core, cs, atomic);
  }

  // ---------------------------------------------------------------- which error is reported

  /** The error of a port that is not usable. */
  predicate PortReport(ports: seq<Port>, id: nat, e: ErrorCode)
  {
    && (id == 0 || id > |ports| ==> e == InvalidPort)
    && (1 <= id <= |ports| && !ports[id - 1].enabled ==> e == PortDisabled)
    && (1 <= id <= |ports| && ports[id - 1].enabled && ports[id - 1].oper == Down ==> e == PortDown)
  }

  /** The error of a member that is not placeable: its id first, then its input, then its output. */
  predicate MemberReport(d: Core, c: Command, e: ErrorCode)
  {
    && (c.id == "" ==> e == InvalidArgument)
    && (c.id != "" && !Usable(d.inPorts, c.input) ==> PortReport(d.inPorts, c.input, e))
    && (c.id != "" && Usable(d.inPorts, c.input) ==> PortReport(d.outPorts, c.output, e))
  }

  ghost predicate FirstBad(d: Core, cs: seq<Command>, i: int)
  {
    0 <= i < |cs| && !Placeable(d, cs[i]) && forall j | 0 <= j < i :: Placeable(d, cs[j])
  }

  /** In key order, entry `n` is the first to share a port with an earlier one. */
  ghost predicate FirstClash(m: Matrix, ks: seq<string>, n: int)
  {
    && 0 <= n < |ks| && (forall i | 0 <= i < |ks| :: ks[i] in m)
    && (forall i, j | 0 <= i < j < n :: m[ks[i]].input != m[ks[j]].input && m[ks[i]].output != m[ks[j]].output)
    && exists i :: 0 <= i < n && (m[ks[i]].input == m[ks[n]].input || m[ks[i]].output == m[ks[n]].output)
  }

  ghost predicate SharesInput(m: Matrix, ks: seq<string>, n: int)
    requires 0 <= n < |ks| && forall i | 0 <= i < |ks| :: ks[i] in m
  {
    exists i :: 0 <= i < n && m[ks[i]].input == m[ks[n]].input
  }

  /** Which error an apply reports that is not answered from the cache: a stale member before
      anything else, then the first bad member in batch order, then the first clash in key order,
      then an armed fault, which is used up. */
  ghost predicate Reported(d: Core, cs: seq<Command>, d': Core, e: ErrorCode)
  {
    && ((exists c :: c in cs && BehindFence(d.fences, c)) ==> e == VersionStale)
    && ((forall c | c in cs :: !BehindFence(d.fences, c)) ==>
          && (forall i | FirstBad(d, cs, i) :: MemberReport(d, cs[i], e))
          && ((forall c | c in cs :: Placeable(d, c)) ==> ReportedPlaced(d, ApplyAll(d.conns, cs), d', e)))
  }

  ghost predicate ReportedPlaced(d: Core, m: Matrix, d': Core, e: ErrorCode)
  {
    && (forall n | FirstClash(m, SortedKeys(m.Keys), n) ::
          e == if SharesInput(m, SortedKeys(m.Keys), n) then InputConflict else OutputConflict)
    && (Matching(m) ==>
          && (d.failNext ==> e == ApplyFailed && !d'.failNext && d'.timeoutNext == d.timeoutNext)
          && (!d.failNext && d.timeoutNext ==> e == ApplyTimeout && !d'.failNext && !d'.timeoutNext)
          && (!d.failNext && !d.timeoutNext ==> e == Ok))
  }

  lemma {:induction false} FirstMemberReport(d: Core, cs: seq<Command>, i: int)
    requires FirstBad(d, cs, i)
    ensures FirstMemberError(d, cs) == MemberError(d, cs[i]) && FirstMemberError(d, cs) != Ok
  {
    var n := |cs| - 1;
    if i < n {
      assert FirstBad(d, cs[..n], i);
      FirstMemberReport(d, cs[..n], i);
    } else {
      forall c | c in cs[..n] ensures MemberError(d, c) == Ok {
        var j :| 0 <= j < n && cs[j] == c;
        assert Placeable(d, cs[j]);
        PlaceableIff(d, c);
      }
      FirstMemberErrorOk(d, cs[..n]);
      PlaceableIff(d, cs[i]);
    }
  }

  /** Entry `n` is the first that shares a port with an earlier one. */
  ghost predicate Clash(es: seq<Applied>, n: int)
  {
    && 0 <= n < |es|
    && (forall i, j | 0 <= i < j < n :: es[i].input != es[j].input && es[i].output != es[j].output)
    && exists i :: 0 <= i < n && (es[i].input == es[n].input || es[i].output == es[n].output)
  }

  lemma {:induction false} FirstConflictReport(es: seq<Applied>, n: int)
    requires Clash(es, n)
    ensures FirstConflict(es) ==
      if exists i :: 0 <= i < n && es[i].input == es[n].input then InputConflict else OutputConflict
  {
    var last := |es| - 1;
    if n < last {
      assert es[..last][n] == es[n] && forall i | 0 <= i < n :: es[..last][i] == es[i];
      assert Clash(es[..last], n);
      FirstConflictReport(es[..last], n);
    } else {
      assert forall i | 0 <= i < n :: es[..n][i] == es[i];
      FirstConflictOk(es[..n]);
    }
  }

  lemma ClashOfEntries(m: Matrix, n: int)
    requires FirstClash(m, SortedKeys(m.Keys), n)
    ensures Clash(Entries(m), n)
    ensures SharesInput(m, SortedKeys(m.Keys), n) <==>
      exists i :: 0 <= i < n && Entries(m)[i].input == Entries(m)[n].input
  {
    EntriesProps(m);
    var ks, es := SortedKeys(m.Keys), Entries(m);
    assert es[n] == m[ks[n]];
    var i :| 0 <= i < n && (m[ks[i]].input == m[ks[n]].input || m[ks[i]].output == m[ks[n]].output);
    assert es[i] == m[ks[i]];
    if SharesInput(m, ks, n) {
      var j :| 0 <= j < n && m[ks[j]].input == m[ks[n]].input;
      assert es[j] == m[ks[j]];
    }
  }

  lemma PlacedReport(d: Core, cs: seq<Command>)
    requires forall c | c in cs :: !IsStale(d.fences, c) && MemberError(d, c) == Ok
    ensures var (d', r) := Execute(d, cs, true); ReportedPlaced(d, ApplyAll(d.conns, cs), d', r.error)
  {
    var m := ApplyAll(d.conns, cs);
    FirstMemberErrorOk(d, cs);
    ConflictFreeIsMatching(m);
    forall n | FirstClash(m, SortedKeys(m.Keys), n)
      ensures Execute(d, cs, true).1.error ==
        if SharesInput(m, SortedKeys(m.Keys), n) then InputConflict else OutputConflict
    {
      ClashOfEntries(m, n);
      FirstConflictReport(Entries(m), n);
    }
  }

  lemma ReportedError<O>(d: Dev<O>, cs: seq<Command>, op: Option<O>)
    requires op.None? || op.value !in d.cache.results
    ensures var (d', r) := Apply(d, cs, op, true); Reported(d.core, cs, d'.core, r.error)
    ensures Apply(d, cs, op, false).1.error == Unsupported && Apply(d, cs, op, false).0.core == d.core
  {
    forall c ensures Placeable(d.core, c) <==> MemberError(d.core, c) == Ok
             ensures BehindFence(d.core.fences, c) <==> IsStale(d.core.fences, c)
    {
      PlaceableIff(d.core, c);
    }
    if c :| c in cs && BehindFence(d.core.fences, c) {
      var i :| 0 <= i < |cs| && cs[i] == c;
      assert IsStale(d.core.fences, cs[i]);
    } else {
      forall i | FirstBad(d.core, cs, i) ensures MemberReport(d.core, cs[i], Apply(d, cs, op, true).1.error) {
        FirstMemberReport(d.core, cs, i);
      }
      if forall c | c in cs :: Placeable(d.core, c) { PlacedReport(d.core, cs); }
    }
  }

  // ---------------------------------------------------------------- what an accepted batch leaves

  /** Command `i` is the last of the batch for this id. */
  ghost predicate LastFor(cs: seq<Command>, id: string, i: int)
  {
    0 <= i < |cs| && cs[i].id == id && forall j | i < j < |cs| :: cs[j].id != id
  }

  ghost predicate LastVersioned(cs: seq<Command>, id: string, i: int)
  {
    && 0 <= i < |cs| && cs[i].id == id && cs[i].version != 0
    && forall j | i < j < |cs| && cs[j].id == id :: cs[j].version == 0
  }

  /** Under an id there is afterwards what the last command for it says. */
  ghost predicate LeftUnder(before: Matrix, after: Matrix, cs: seq<Command>, id: string)
  {
    && (forall i | LastFor(cs, id, i) && cs[i].op.Upsert? ::
          id in after && after[id] == Applied(id, cs[i].input, cs[i].output, cs[i].version))
    && (forall i | LastFor(cs, id, i) && cs[i].op.Remove? :: id !in after)
    && ((forall c | c in cs :: c.id != id) ==>
          (id in after <==> id in before) && (id in before ==> after[id] == before[id]))
  }

  /** The fence of an id is afterwards the last version other than 0 the batch gives for it. */
  ghost predicate FenceUnder(before: map<string, nat>, after: map<string, nat>, cs: seq<Command>, id: string)
  {
    && (forall i | LastVersioned(cs, id, i) :: id in after && after[id] == cs[i].version)
    && ((forall c | c in cs && c.id == id :: c.version == 0) ==>
          (id in after <==> id in before) && (id in before ==> after[id] == before[id]))
  }

  lemma LeftOneMore(before: Matrix, mid: Matrix, cs: seq<Command>, id: string)
    requires cs != [] && LeftUnder(before, mid, cs[..|cs| - 1], id)
    ensures LeftUnder(before, ApplyOne(mid, cs[|cs| - 1]), cs, id)
  {
    var n := |cs| - 1;
    var pre := cs[..n];
    assert cs == pre + [cs[n]];
    if cs[n].id == id {
      assert cs[n] in cs;
      forall i | LastFor(cs, id, i) ensures i == n {}
    } else {
      forall i | LastFor(cs, id, i) ensures LastFor(pre, id, i) && pre[i] == cs[i] {}
    }
  }

  lemma {:induction false} BatchLeaves(m: Matrix, cs: seq<Command>, id: string)
    ensures LeftUnder(m, ApplyAll(m, cs), cs, id)
  {
    if cs != [] {
      BatchLeaves(m, cs[..|cs| - 1], id);
      LeftOneMore(m, ApplyAll(m, cs[..|cs| - 1]), cs, id);
    }
  }

  lemma FenceOneMore(before: map<string, nat>, mid: map<string, nat>, cs: seq<Command>, id: string)
    requires cs != [] && FenceUnder(before, mid, cs[..|cs| - 1], id)
    ensures var c := cs[|cs| - 1];
      FenceUnder(before, if c.version != 0 then mid[c.id := c.version] else mid, cs, id)
  {
    var n := |cs| - 1;
    var pre := cs[..n];
    assert cs == pre + [cs[n]];
    if cs[n].id == id && cs[n].version != 0 {
      assert cs[n] in cs;
      forall i | LastVersioned(cs, id, i) ensures i == n {}
    } else {
      forall i | LastVersioned(cs, id, i) ensures LastVersioned(pre, id, i) && pre[i] == cs[i] {}
    }
  }

  lemma {:induction false} FencesLeft(f: map<string, nat>, cs: seq<Command>, id: string)
    ensures FenceUnder(f, Fence(f, cs), cs, id)
  {
    if cs != [] {
      FencesLeft(f, cs[..|cs| - 1], id);
      FenceOneMore(f, Fence(f, cs[..|cs| - 1]), cs, id);
    }
  }

  /** The connections a success reports are what is connected under the batch's ids, command by command. */
  ghost predicate Reports(m: Matrix, cs: seq<Command>, list: seq<Applied>)
  {
    && (forall c | c in cs && c.id in m :: m[c.id] in list)
    && (forall x | x in list :: exists c :: c in cs && c.id in m && m[c.id] == x)
    && |list| <= |cs|
    && ((forall c | c in cs :: c.id in m) ==> |list| == |cs| && forall i | 0 <= i < |cs| :: list[i] == m[cs[i].id])
  }

  lemma {:induction false} ChangedReports(m: Matrix, cs: seq<Command>)
    ensures Reports(m, cs, Changed(m, cs))
  {
    if cs != [] {
      var n := |cs| - 1;
      ChangedReports(m, cs[..n]);
      assert cs == cs[..n] + [cs[n]];
    }
  }

  /** What a success leaves and reports, id by id, repeated ids included. */
  lemma AcceptedLeaves<O>(d: Dev<O>, cs: seq<Command>, op: Option<O>, atomic: bool, id: string)
    requires op.None? || op.value !in d.cache.results
    requires Apply(d, cs, op, atomic).1.error == Ok
    ensures var (d', r) := Apply(d, cs, op, atomic);
      && LeftUnder(d.core.conns, d'.core.conns, cs, id)
      && FenceUnder(d.core.fences, d'.core.fences, cs, id)
      && Reports(d'.core.conns, cs, r.connections)
  {
    ApplyAtomic(d, cs, op, atomic);
    BatchLeaves(d.core.conns, cs, id);
    FencesLeft(d.core.fences, cs, id);
    ChangedReports(ApplyAll(d.core.conns, cs), cs);
  }

  // ---------------------------------------------------------------- resets, faults and admin changes

  /** All ports that are enabled and up. */
  ghost predicate AllUsable(ports: seq<Port>)
  {
    forall p | 1 <= p <= |ports| :: Usable(ports, p)
  }

  /** Whatever happened before, a reset device has no connection, fence, cached result or fault, and
      all its ports are usable; a hard reset is a new generation. */
  lemma AfterReset<O>(d: Dev<O>, calls: seq<Call<O>>, hard: bool)
    requires Inv(d)
    ensures var was, d' := Run(d, calls), Run(d, calls + [CallReset(hard)]);
      && d'.core.conns == map[] && d'.core.fences == map[] && d'.cache.results == map[] && d'.cache.order == []
      && !d'.core.failNext && !d'.core.timeoutNext
      && |d'.core.inPorts| == |d.core.inPorts| && AllUsable(d'.core.inPorts)
      && |d'.core.outPorts| == |d.core.outPorts| && AllUsable(d'.core.outPorts)
      && d'.core.generation == was.core.generation + if hard then 1 else 0
  {
    InvOverRuns(d, calls);
    assert (calls + [CallReset(hard)])[..|calls|] == calls;
  }

  /** Only a hard reset changes the generation, and calls other than resets keep connections, except
      an apply that succeeds and an out-of-band drift. */
  lemma OnlyResetsChangeGeneration<O>(d: Dev<O>, c: Call<O>)
    ensures c != CallReset(true) ==> Step(d, c).core.generation == d.core.generation
    ensures (c.CallInject? && c.fault != OutOfBandDrift) || c.CallClear? || c.CallAdmin? ==>
      Step(d, c).core.conns == d.core.conns
    ensures c.CallInject? || c.CallClear? || c.CallAdmin? ==>
      Step(d, c).core.fences == d.core.fences && Step(d, c).cache == d.cache
  {
    if c.CallApply? { ExecuteEffect(d.core, c.commands, c.atomic); }
  }

  /** A fault or admin call on a port changes that port only, and only the attribute it is about. */
  ghost predicate OnePort(before: seq<Port>, after: seq<Port>, id: nat, p: Port)
  {
    && |after| == |before| && 1 <= id <= |after| && after[id - 1] == p
    && forall i | 0 <= i < |before| && i != id - 1 :: after[i] == before[i]
  }

  lemma PortCalls<O>(d: Dev<O>, id: nat, enabled: bool)
    requires 1 <= id
    ensures id <= |d.core.inPorts| ==>
      var p := d.core.inPorts[id - 1];
      && OnePort(d.core.inPorts, Step(d, CallInject(InputPortDown, id)).core.inPorts, id, Port(p.enabled, Down))
      && OnePort(d.core.inPorts, Step(d, CallClear(InputPortDown, id)).core.inPorts, id, Port(p.enabled, Up))
      && OnePort(d.core.inPorts, Step(d, CallAdmin(Input, id, enabled)).core.inPorts, id, Port(enabled, p.oper))
    ensures id <= |d.core.outPorts| ==>
      var p := d.core.outPorts[id - 1];
      && OnePort(d.core.outPorts, Step(d, CallInject(OutputPortDown, id)).core.outPorts, id, Port(p.enabled, Down))
      && OnePort(d.core.outPorts, Step(d, CallClear(OutputPortDown, id)).core.outPorts, id, Port(p.enabled, Up))
      && OnePort(d.core.outPorts, Step(d, CallAdmin(Output, id, enabled)).core.outPorts, id, Port(enabled, p.oper))
    ensures forall c |
      c in [CallInject(InputPortDown, id), CallClear(InputPortDown, id), CallAdmin(Input, id, enabled)] ::
      Step(d, c).core.outPorts == d.core.outPorts && (id > |d.core.inPorts| ==> Step(d, c) == d)
    ensures forall c |
      c in [CallInject(OutputPortDown, id), CallClear(OutputPortDown, id), CallAdmin(Output, id, enabled)] ::
      Step(d, c).core.inPorts == d.core.inPorts && (id > |d.core.outPorts| ==> Step(d, c) == d)
  {
  }

  predicate UsesInput(cs: seq<Command>, i: nat, p: nat)
  {
    i < |cs| && cs[i].op.Upsert? && cs[i].input == p
  }

  predicate UsesOutput(cs: seq<Command>, i: nat, p: nat)
  {
    i < |cs| && cs[i].op.Upsert? && cs[i].output == p
  }

  predicate IsDown(ports: seq<Port>, p: nat)
  {
    1 <= p <= |ports| && ports[p - 1].oper == Down
  }

  lemma {:induction false} InputStaysDown<O>(d: Dev<O>, calls: seq<Call<O>>, p: nat)
    requires IsDown(d.core.inPorts, p)
    requires forall i | 0 <= i < |calls| :: !calls[i].CallReset? && calls[i] != CallClear(InputPortDown, p)
    requires forall i | 0 <= i < |calls| :: !(calls[i].CallClear? && calls[i].fault.AllFaults?)
    ensures IsDown(Run(d, calls).core.inPorts, p)
  {
    if calls != [] {
      var n := |calls| - 1;
      InputStaysDown(d, calls[..n], p);
      var mid := Run(d, calls[..n]);
      if calls[n].CallApply? { ExecuteEffect(mid.core, calls[n].commands, calls[n].atomic); }
    }
  }

  lemma {:induction false} OutputStaysDown<O>(d: Dev<O>, calls: seq<Call<O>>, p: nat)
    requires IsDown(d.core.outPorts, p)
    requires forall i | 0 <= i < |calls| :: !calls[i].CallReset? && calls[i] != CallClear(OutputPortDown, p)
    requires forall i | 0 <= i < |calls| :: !(calls[i].CallClear? && calls[i].fault.AllFaults?)
    ensures IsDown(Run(d, calls).core.outPorts, p)
  {
    if calls != [] {
      var n := |calls| - 1;
      OutputStaysDown(d, calls[..n], p);
      var mid := Run(d, calls[..n]);
      if calls[n].CallApply? { ExecuteEffect(mid.core, calls[n].commands, calls[n].atomic); }
    }
  }

  /** From a port fault on, until it is cleared or the device reset, no batch that is actually executed
      and connects the port succeeds, and none changes the connections. */
  lemma {:induction false} DownInputRefuses<O>(d: Dev<O>, p: nat, calls: seq<Call<O>>, cs: seq<Command>,
                                               op: Option<O>, i: nat)
    requires 1 <= p <= |d.core.inPorts| && UsesInput(cs, i, p)
    requires forall j | 0 <= j < |calls| :: !calls[j].CallReset? && calls[j] != CallClear(InputPortDown, p)
    requires forall j | 0 <= j < |calls| :: !(calls[j].CallClear? && calls[j].fault.AllFaults?)
    requires op.None? || op.value !in Run(Step(d, CallInject(InputPortDown, p)), calls).cache.results
    ensures var was := Run(Step(d, CallInject(InputPortDown, p)), calls);
      Apply(was, cs, op, true).1.error != Ok && Apply(was, cs, op, true).0.core.conns == was.core.conns
  {
    var d0 := Step(d, CallInject(InputPortDown, p));
    InputStaysDown(d0, calls, p);
    AcceptedExactly(Run(d0, calls), cs, op, true);
    ApplyAtomic(Run(d0, calls), cs, op, true);
    assert cs[i] in cs;
  }

  lemma {:induction false} DownOutputRefuses<O>(d: Dev<O>, p: nat, calls: seq<Call<O>>, cs: seq<Command>,
                                                op: Option<O>, i: nat)
    requires 1 <= p <= |d.core.outPorts| && UsesOutput(cs, i, p)
    requires forall j | 0 <= j < |calls| :: !calls[j].CallReset? && calls[j] != CallClear(OutputPortDown, p)
    requires forall j | 0 <= j < |calls| :: !(calls[j].CallClear? && calls[j].fault.AllFaults?)
    requires op.None? || op.value !in Run(Step(d, CallInject(OutputPortDown, p)), calls).cache.results
    ensures var was := Run(Step(d, CallInject(OutputPortDown, p)), calls);
      Apply(was, cs, op, true).1.error != Ok && Apply(was, cs, op, true).0.core.conns == was.core.conns
  {
    var d0 := Step(d, CallInject(OutputPortDown, p));
    OutputStaysDown(d0, calls, p);
    AcceptedExactly(Run(d0, calls), cs, op, true);
    ApplyAtomic(Run(d0, calls), cs, op, true);
    assert cs[i] in cs;
  }

  /** Clearing a port fault makes an enabled port usable again, and clearing all faults every enabled
      port; neither enables a disabled one. */
  lemma ClearedPorts<O>(d: Dev<O>, p: nat)
    requires 1 <= p
    ensures p <= |d.core.inPorts| ==>
      && Usable(Step(d, CallClear(InputPortDown, p)).core.inPorts, p) == d.core.inPorts[p - 1].enabled
      && forall q :: Usable(Step(d, CallClear(AllFaults, q)).core.inPorts, p) == d.core.inPorts[p - 1].enabled
    ensures p <= |d.core.outPorts| ==>
      && Usable(Step(d, CallClear(OutputPortDown, p)).core.outPorts, p) == d.core.outPorts[p - 1].enabled
      && forall q :: Usable(Step(d, CallClear(AllFaults, q)).core.outPorts, p) == d.core.outPorts[p - 1].enabled
    ensures forall q ::
      !Step(d, CallClear(AllFaults, q)).core.failNext && !Step(d, CallClear(AllFaults, q)).core.timeoutNext
  {
  }

  /** Arming or clearing one fault for the next apply changes nothing else, clearing a drift nothing at all;
      ALL can only be cleared. */
  lemma ArmedFaults(d: Core, p: nat)
    ensures Inject(d, NextApplyError, p) == (d.(failNext := true), Ok)
    ensures Clear(d, NextApplyError, p) == (d.(failNext := false), Ok)
    ensures Inject(d, NextApplyTimeout, p) == (d.(timeoutNext := true), Ok)
    ensures Clear(d, NextApplyTimeout, p) == (d.(timeoutNext := false), Ok)
    ensures Clear(d, OutOfBandDrift, p) == (d, Ok) && Inject(d, AllFaults, p) == (d, InvalidArgument)
  {
  }

  /** So an injected apply error, with no apply in between, fails the next batch that would have been
      accepted with APPLY_FAILED, an injected timeout with APPLY_TIMEOUT, and once cleared neither does. */
  lemma InjectedFaultHits<O>(d: Dev<O>, cs: seq<Command>, op: Option<O>, p: nat)
    requires op.None? || op.value !in d.cache.results
    requires forall c | c in cs :: !BehindFence(d.core.fences, c) && Placeable(d.core, c)
    requires Matching(ApplyAll(d.core.conns, cs)) && !d.core.failNext && !d.core.timeoutNext
    ensures Apply(Step(d, CallInject(NextApplyError, p)), cs, op, true).1 == ApplyResult(ApplyFailed, [])
    ensures Apply(Step(d, CallInject(NextApplyTimeout, p)), cs, op, true).1 == ApplyResult(ApplyTimeout, [])
    ensures forall f | f in {NextApplyError, NextApplyTimeout} ::
      Apply(Step(Step(d, CallInject(f, p)), CallClear(f, p)), cs, op, true).1.error == Ok
  {
    forall c | c in cs ensures !IsStale(d.core.fences, c) && MemberError(d.core, c) == Ok { PlaceableIff(d.core, c); }
    HitBy(d.core, cs, d.core.(failNext := true));
    HitBy(d.core, cs, d.core.(timeoutNext := true));
    AcceptedExactly(d, cs, op, true);
    forall f | f in {NextApplyError, NextApplyTimeout}
      ensures Step(Step(d, CallInject(f, p)), CallClear(f, p)) == d
    {
      ArmedFaults(d.core, p);
    }
  }

  /** An armed fault is reported for a batch that would be accepted. */
  lemma HitBy(d: Core, cs: seq<Command>, armed: Core)
    requires forall c | c in cs :: !IsStale(d.fences, c) && MemberError(d, c) == Ok
    requires Matching(ApplyAll(d.conns, cs))
    requires armed == d.(failNext := armed.failNext, timeoutNext := armed.timeoutNext)
    requires armed.failNext || armed.timeoutNext
    ensures Execute(armed, cs, true).1 == ApplyResult(if armed.failNext then ApplyFailed else ApplyTimeout, [])
  {
    forall c | c in cs ensures MemberError(armed, c) == Ok { assert MemberError(d, c) == Ok; }
    VerdictIsAcceptable(armed, cs);
  }

  /** An armed fault hits one batch that would have been accepted, and then it is gone: the same batch
      under another operation id is accepted. Both armed, the failure comes first. */
  lemma FaultsAreOneShot<O>(d: Dev<O>, cs: seq<Command>, op: Option<O>, op': Option<O>)
    requires op.None? || op.value !in d.cache.results
    requires op'.None? || (op'.value !in d.cache.results && op' != op)
    requires forall c | c in cs :: !BehindFence(d.core.fences, c) && Placeable(d.core, c)
    requires Matching(ApplyAll(d.core.conns, cs)) && d.core.failNext != d.core.timeoutNext
    ensures var (d1, r1) := Apply(d, cs, op, true);
      && r1.error == (if d.core.failNext then ApplyFailed else ApplyTimeout) && d1.core.conns == d.core.conns
      && Apply(d1, cs, op', true).1.error == Ok
  {
    ReportedError(d, cs, op);
    ExecuteEffect(d.core, cs, true);
    var d1 := Apply(d, cs, op, true).0;
    forall c | c in cs ensures !BehindFence(d1.core.fences, c) && Placeable(d1.core, c) {
      assert !BehindFence(d.core.fences, c) && Placeable(d.core, c);
    }
    AcceptedExactly(d1, cs, op', true);
  }

  /** An out-of-band drift takes away the connection with the smallest id and nothing else, so that
      the fences still remember it. */
  lemma DriftTakesFirst<O>(d: Dev<O>, p: nat)
    ensures var (core', e) := Inject(d.core, OutOfBandDrift, p);
      && core' == d.core.(conns := core'.conns)
      && (e == Ok <==> d.core.conns != map[]) && (e != Ok ==> e == InvalidArgument && core' == d.core)
      && (e == Ok ==> exists k :: IsMin(k, d.core.conns.Keys) && core'.conns == d.core.conns - {k})
  {
    if d.core.conns.Keys != {} {
      MinIsMin(d.core.conns.Keys);
    } else {
      assert d.core.conns == map[];
    }
  }
}
