/** The simulated optical device: connections, two mirrored index arrays, version fences, ports,
one-shot faults and a bounded result cache, all changed in place. */
module SimulatedDevice {
  import opened Ids
  import opened Connections
  import opened DeviceModel
  import DeviceLaws

  /** Port ids are 16-bit; the loop that builds the ports needs room to stop. */
  const PORT_LIMIT: nat := 65535

  function OpOf(operationId: string): Option<string>
  {
    if operationId == "" then None else Some(operationId)
  }

  /** The output an input port is connected to, and the other way round. */
  function OutputFor(es: seq<Applied>, p: nat): Option<nat>
  {
    if es == [] then None
    else if es[|es| - 1].input == p then Some(es[|es| - 1].output)
    else OutputFor(es[..|es| - 1], p)
  }

  function InputFor(es: seq<Applied>, p: nat): Option<nat>
  {
    if es == [] then None
    else if es[|es| - 1].output == p then Some(es[|es| - 1].input)
    else InputFor(es[..|es| - 1], p)
  }

  /** The index arrays hold, port by port, what the listed connections say. */
  ghost predicate Mirrors(i2o: seq<Option<nat>>, o2i: seq<Option<nat>>, es: seq<Applied>)
  {
    && (forall p | 0 <= p < |i2o| :: i2o[p] == OutputFor(es, p + 1))
    && (forall p | 0 <= p < |o2i| :: o2i[p] == InputFor(es, p + 1))
  }

  ghost predicate ConflictFree(es: seq<Applied>)
  {
    forall i, j | 0 <= i < j < |es| :: es[i].input != es[j].input && es[i].output != es[j].output
  }

  lemma {:induction false} OutputForMiss(es: seq<Applied>, p: nat)
    ensures OutputFor(es, p).None? <==> forall i | 0 <= i < |es| :: es[i].input != p
    ensures InputFor(es, p).None? <==> forall i | 0 <= i < |es| :: es[i].output != p
  {
    if es != [] {
      var n := |es| - 1;
      OutputForMiss(es[..n], p);
      assert forall i | 0 <= i < n :: es[..n][i] == es[i];
    }
  }

  lemma {:induction false} OutputForHit(es: seq<Applied>, i: nat)
    requires ConflictFree(es) && i < |es|
    ensures OutputFor(es, es[i].input) == Some(es[i].output)
    ensures InputFor(es, es[i].output) == Some(es[i].input)
  {
    var n := |es| - 1;
    if i < n {
      OutputForHit(es[..n], i);
      assert es[n].input != es[i].input && es[n].output != es[i].output;
    }
  }

  /** The index arrays agree with the map: every connection is found under its own ports. */
  lemma IndexFindsConnection(i2o: seq<Option<nat>>, o2i: seq<Option<nat>>, m: Matrix, k: string)
    requires Mirrors(i2o, o2i, Entries(m)) && ValidMatrix(m, |i2o|, |o2i|) && k in m
    ensures i2o[m[k].input - 1] == Some(m[k].output) && o2i[m[k].output - 1] == Some(m[k].input)
  {
    var i := EntryIndex(m, k);
    ConflictFreeIsMatching(m);
    FirstConflictOk(Entries(m));
    OutputForHit(Entries(m), i);
  }

  lemma EntryIndex(m: Matrix, k: string) returns (i: nat)
    requires k in m
    ensures i < |Entries(m)| && Entries(m)[i] == m[k]
  {
    EntriesProps(m);
    SortedKeysProps(m.Keys);
    assert k in SortedKeys(m.Keys);
    i :| 0 <= i < |SortedKeys(m.Keys)| && SortedKeys(m.Keys)[i] == k;
  }

  /** A connected port in either array belongs to a connection of the map. */
  lemma IndexIsAConnection(i2o: seq<Option<nat>>, o2i: seq<Option<nat>>, m: Matrix, p: nat)
    requires Mirrors(i2o, o2i, Entries(m)) && ValidMatrix(m, |i2o|, |o2i|)
    ensures p < |i2o| && i2o[p].Some? ==> exists k :: k in m && m[k].input == p + 1 && i2o[p] == Some(m[k].output)
    ensures p < |o2i| && o2i[p].Some? ==> exists k :: k in m && m[k].output == p + 1 && o2i[p] == Some(m[k].input)
  {
    var es, ks := Entries(m), SortedKeys(m.Keys);
    EntriesProps(m);
    OutputForMiss(es, p + 1);
    if p < |i2o| && i2o[p].Some? {
      var i :| 0 <= i < |es| && es[i].input == p + 1;
      IndexFindsConnection(i2o, o2i, m, ks[i]);
    }
    if p < |o2i| && o2i[p].Some? {
      var i :| 0 <= i < |es| && es[i].output == p + 1;
      IndexFindsConnection(i2o, o2i, m, ks[i]);
    }
  }

  /** The two index arrays are inverse to each other. */
  lemma IndexesAreInverse(i2o: seq<Option<nat>>, o2i: seq<Option<nat>>, m: Matrix, p: nat)
    requires Mirrors(i2o, o2i, Entries(m)) && ValidMatrix(m, |i2o|, |o2i|)
    ensures p < |i2o| && i2o[p].Some? ==>
      1 <= i2o[p].value <= |o2i| && o2i[i2o[p].value - 1] == Some(p + 1)
    ensures p < |o2i| && o2i[p].Some? ==>
      1 <= o2i[p].value <= |i2o| && i2o[o2i[p].value - 1] == Some(p + 1)
  {
    IndexIsAConnection(i2o, o2i, m, p);
    if p < |i2o| && i2o[p].Some? {
      var k :| k in m && m[k].input == p + 1 && i2o[p] == Some(m[k].output);
      IndexFindsConnection(i2o, o2i, m, k);
    }
    if p < |o2i| && o2i[p].Some? {
      var k :| k in m && m[k].output == p + 1 && o2i[p] == Some(m[k].input);
      IndexFindsConnection(i2o, o2i, m, k);
    }
  }

  class SimulatedOcsDevice {
    const inputCount: nat
    const outputCount: nat
    var generation: nat
    var connections: Matrix
    var lastVersions: map<string, nat>
    var inputToOutput: array<Option<nat>>
    var outputToInput: array<Option<nat>>
    var inputPorts: array<Port>
    var outputPorts: array<Port>
    var failNext: bool
    var timeoutNext: bool
    var results: map<string, ApplyResult>
    var order: seq<string>

    /** The device as a value. */
    function State(): (d: Dev<string>)
      reads this, inputPorts, outputPorts
    {
      Dev(CoreState(), Cache(results, order))
    }

    function CoreState(): (d: Core)
      reads this, inputPorts, outputPorts
    {
      Core(generation, connections, lastVersions, inputPorts[..], outputPorts[..], failNext, timeoutNext)
    }

    ghost predicate Valid()
      reads this, inputToOutput, outputToInput, inputPorts, outputPorts
    {
      && 1 <= inputCount < PORT_LIMIT && 1 <= outputCount < PORT_LIMIT
      && inputPorts.Length == inputCount && outputPorts.Length == outputCount
      && inputToOutput.Length == inputCount && outputToInput.Length == outputCount
      && inputPorts != outputPorts && inputToOutput != outputToInput
      && Inv(State())
      && Mirrors(inputToOutput[..], outputToInput[..], Entries(connections))
    }

    /** Building a device with a zero port count is refused. */
    static method Create(inputs: nat, outputs: nat, gen: nat) returns (d: SimulatedOcsDevice?)
      requires inputs < PORT_LIMIT && outputs < PORT_LIMIT
      ensures d == null <==> inputs == 0 || outputs == 0
      ensures d != null ==> fresh(d) && d.Valid() && d.State() == Init(inputs, outputs, gen)
    {
      if inputs == 0 || outputs == 0 {
        return null;
      }
      d := new SimulatedOcsDevice(inputs, outputs, gen);
    }

    constructor (inputs: nat, outputs: nat, gen: nat)
      requires 1 <= inputs < PORT_LIMIT && 1 <= outputs < PORT_LIMIT
      ensures Valid() && State() == Init(inputs, outputs, gen)
      ensures fresh(inputPorts) && fresh(outputPorts) && fresh(inputToOutput) && fresh(outputToInput)
    {
      inputCount, outputCount, generation := inputs, outputs, gen;
      connections, lastVersions := map[], map[];
      inputToOutput := new Option<nat>[inputs](_ => None);
      outputToInput := new Option<nat>[outputs](_ => None);
      var ins := MakePorts(inputs);
      var outs := MakePorts(outputs);
      inputPorts, outputPorts := ins, outs;
      failNext, timeoutNext := false, false;
      results, order := map[], [];
    }

    method ValidatePortAvailableNow(dir: Direction, id: nat) returns (e: ErrorCode)
      requires Valid()
      ensures e == ValidatePortAvailable(CoreState(), dir, id)
      ensures e == Ok <==> DeviceLaws.Usable(if dir.Input? then inputPorts[..] else outputPorts[..], id)
      ensures e != Ok ==> DeviceLaws.PortReport(if dir.Input? then inputPorts[..] else outputPorts[..], id, e)
    {
      var ports := if dir.Input? then inputPorts else outputPorts;
      if id == 0 || id > ports.Length {
        return InvalidPort;
      }
      if !ports[id - 1].enabled {
        return PortDisabled;
      }
      if ports[id - 1].oper != Up {
        return PortDown;
      }
      return Ok;
    }

    /** The version check that runs before anything else. */
    method FindStale(commands: seq<Command>) returns (stale: bool)
      ensures stale <==> exists i | 0 <= i < |commands| :: IsStale(lastVersions, commands[i])
    {
      for i := 0 to |commands|
        invariant forall j | 0 <= j < i :: !IsStale(lastVersions, commands[j])
      {
        var c := commands[i];
        if c.version == 0 {
          continue;
        }
        if c.id in lastVersions && lastVersions[c.id] > c.version {
          assert IsStale(lastVersions, commands[i]);
          return true;
        }
      }
      return false;
    }

    /** The candidate matrix, or the error of the first unacceptable member. */
    method BuildCandidate(commands: seq<Command>) returns (e: ErrorCode, candidate: Matrix)
      requires Valid()
      ensures e == FirstMemberError(CoreState(), commands)
      ensures e == Ok ==> candidate == ApplyAll(connections, commands)
    {
      candidate := connections;
      for i := 0 to |commands|
        invariant FirstMemberError(CoreState(), commands[..i]) == Ok
        invariant candidate == ApplyAll(connections, commands[..i])
      {
        var c := commands[i];
        assert commands[..i + 1][..i] == commands[..i];
        if c.id == "" {
          MemberErrorStops(CoreState(), commands, i);
          return InvalidArgument, candidate;
        }
        if c.op.Remove? {
          candidate := candidate - {c.id};
          continue;
        }
        var bad := ValidatePortAvailableNow(Input, c.input);
        if bad != Ok {
          MemberErrorStops(CoreState(), commands, i);
          return bad, candidate;
        }
        bad := ValidatePortAvailableNow(Output, c.output);
        if bad != Ok {
          MemberErrorStops(CoreState(), commands, i);
          return bad, candidate;
        }
        candidate := candidate[c.id := Applied(c.id, c.input, c.output, c.version)];
      }
      assert commands[..|commands|] == commands;
      e := Ok;
    }

    /** Enter one connection into both arrays unless one of its ports is taken. */
    method EnterIndex(i2o: array<Option<nat>>, o2i: array<Option<nat>>, c: Applied,
                      ghost done: seq<Applied>, ghost more: seq<Applied>) returns (e: ErrorCode)
      requires i2o != o2i && 1 <= c.input <= i2o.Length && 1 <= c.output <= o2i.Length
      requires FirstConflict(done) == Ok && Mirrors(i2o[..], o2i[..], done)
      modifies i2o, o2i
      ensures e != Ok ==> e == FirstConflict(done + [c] + more)
      ensures e == Ok ==> FirstConflict(done + [c]) == Ok && Mirrors(i2o[..], o2i[..], done + [c])
    {
      NextIndex(i2o[..], o2i[..], done, c, more);
      assert i2o[c.input - 1] == i2o[..][c.input - 1] && o2i[c.output - 1] == o2i[..][c.output - 1];
      if i2o[c.input - 1].Some? {
        return InputConflict;
      }
      if o2i[c.output - 1].Some? {
        return OutputConflict;
      }
      i2o[c.input - 1] := Some(c.output);
      o2i[c.output - 1] := Some(c.input);
      e := Ok;
    }

    /** Fill fresh index arrays from the candidate in key order, or report the first conflict. */
    method BuildIndexes(candidate: Matrix)
      returns (e: ErrorCode, i2o: array<Option<nat>>, o2i: array<Option<nat>>)
      requires Shaped(candidate, inputCount, outputCount)
      ensures e == FirstConflict(Entries(candidate))
      ensures fresh(i2o) && fresh(o2i) && i2o != o2i && i2o.Length == inputCount && o2i.Length == outputCount
      ensures e == Ok ==> Mirrors(i2o[..], o2i[..], Entries(candidate))
    {
      i2o := new Option<nat>[inputCount](_ => None);
      o2i := new Option<nat>[outputCount](_ => None);
      var rest := candidate;
      ghost var done: seq<Applied> := [];
      while rest.Keys != {}
        invariant Entries(candidate) == done + Entries(rest)
        invariant Shaped(rest, inputCount, outputCount)
        invariant FirstConflict(done) == Ok
        invariant Mirrors(i2o[..], o2i[..], done)
        decreases |rest|
      {
        var k := Min(rest.Keys);
        ghost var more := Entries(rest - {k});
        assert (rest - {k}).Keys == rest.Keys - {k};
        assert Entries(candidate) == done + [rest[k]] + more;
        e := EnterIndex(i2o, o2i, rest[k], done, more);
        if e != Ok {
          return e, i2o, o2i;
        }
        done := done + [rest[k]];
        rest := rest - {k};
      }
      assert done + [] == done;
      e := Ok;
    }

    /** Remember a result under a non-empty operation id. */
    method Finish(operationId: string, r: ApplyResult)
      modifies this`results, this`order
      ensures Cache(results, order) ==
        if operationId == "" then old(Cache(results, order)) else Record(old(Cache(results, order)), operationId, r)
    {
      if operationId != "" {
        if |results| >= MAX_CACHED_RESULTS && order != [] {
          results := results - {order[0]};
          order := order[1..];
        }
        results := results[operationId := r];
        order := order + [operationId];
      }
    }

    method FenceVersions(commands: seq<Command>) returns (versions: map<string, nat>)
      ensures versions == Fence(lastVersions, commands)
    {
      versions := lastVersions;
      for i := 0 to |commands|
        invariant versions == Fence(lastVersions, commands[..i])
      {
        assert commands[..i + 1][..i] == commands[..i];
        if commands[i].version != 0 {
          versions := versions[commands[i].id := commands[i].version];
        }
      }
      assert commands[..|commands|] == commands;
    }

    method CollectChanged(m: Matrix, commands: seq<Command>) returns (changed: seq<Applied>)
      ensures changed == Changed(m, commands)
    {
      changed := [];
      for i := 0 to |commands|
        invariant changed == Changed(m, commands[..i])
      {
        assert commands[..i + 1][..i] == commands[..i];
        if commands[i].id in m {
          changed := changed + [m[commands[i].id]];
        }
      }
      assert commands[..|commands|] == commands;
    }

    /** All checks of an apply; nothing is changed. */
    method Validate(commands: seq<Command>)
      returns (e: ErrorCode, candidate: Matrix, i2o: array<Option<nat>>, o2i: array<Option<nat>>)
      requires Valid()
      ensures e == Verdict(CoreState(), commands)
      ensures e == Ok ==>
        && candidate == ApplyAll(connections, commands)
        && fresh(i2o) && fresh(o2i) && i2o != o2i && i2o.Length == inputCount && o2i.Length == outputCount
        && Mirrors(i2o[..], o2i[..], Entries(candidate))
    {
      candidate, i2o, o2i := connections, inputToOutput, outputToInput;
      var stale := FindStale(commands);
      if stale {
        return VersionStale, candidate, i2o, o2i;
      }
      e, candidate := BuildCandidate(commands);
      if e != Ok {
        return;
      }
      CandidateShaped(CoreState(), commands);
      e, i2o, o2i := BuildIndexes(candidate);
    }

    method ExecuteNow(commands: seq<Command>, atomic: bool) returns (r: ApplyResult)
      requires Valid()
      modifies this`connections, this`lastVersions, this`inputToOutput, this`outputToInput,
        this`failNext, this`timeoutNext
      ensures Valid()
      ensures (CoreState(), r) == Execute(old(CoreState()), commands, atomic)
      ensures inputToOutput == old(inputToOutput) || fresh(inputToOutput)
      ensures outputToInput == old(outputToInput) || fresh(outputToInput)
    {
      ExecuteKeepsInv(CoreState(), commands, atomic);
      if !atomic {
        return ApplyResult(Unsupported, []);
      }
      var e, candidate, i2o, o2i := Validate(commands);
      if e != Ok {
        return ApplyResult(e, []);
      }
      if failNext {
        failNext := false;
        return ApplyResult(ApplyFailed, []);
      }
      if timeoutNext {
        timeoutNext := false;
        return ApplyResult(ApplyTimeout, []);
      }
      var versions := FenceVersions(commands);
      Install(candidate, versions, i2o, o2i);
      var changed := CollectChanged(connections, commands);
      r := ApplyResult(Ok, changed);
    }

    method Install(candidate: Matrix, versions: map<string, nat>, i2o: array<Option<nat>>, o2i: array<Option<nat>>)
      requires Valid()
      requires i2o != o2i && i2o.Length == inputCount && o2i.Length == outputCount
      requires Mirrors(i2o[..], o2i[..], Entries(candidate))
      requires CoreInv(CoreState().(conns := candidate, fences := versions))
      modifies this`connections, this`lastVersions, this`inputToOutput, this`outputToInput
      ensures Valid() && inputToOutput == i2o && outputToInput == o2i
      ensures CoreState() == old(CoreState()).(conns := candidate, fences := versions)
    {
      connections, lastVersions := candidate, versions;
      inputToOutput, outputToInput := i2o, o2i;
    }

    method ApplyConnections(commands: seq<Command>, operationId: string, atomic: bool) returns (r: ApplyResult)
      requires Valid()
      modifies this
      ensures Valid() && inputPorts == old(inputPorts) && outputPorts == old(outputPorts)
      ensures (State(), r) == Apply(old(State()), commands, OpOf(operationId), atomic)
      ensures inputToOutput == old(inputToOutput) || fresh(inputToOutput)
      ensures outputToInput == old(outputToInput) || fresh(outputToInput)
    {
      if operationId != "" && operationId in results {
        return results[operationId];
      }
      r := ApplyNew(commands, operationId, atomic);
    }

    method ApplyNew(commands: seq<Command>, operationId: string, atomic: bool) returns (r: ApplyResult)
      requires Valid() && !Replays(State(), OpOf(operationId))
      modifies this
      ensures Valid() && inputPorts == old(inputPorts) && outputPorts == old(outputPorts)
      ensures (State(), r) == Apply(old(State()), commands, OpOf(operationId), atomic)
      ensures inputToOutput == old(inputToOutput) || fresh(inputToOutput)
      ensures outputToInput == old(outputToInput) || fresh(outputToInput)
    {
      r := ExecuteNow(commands, atomic);
      Finish(operationId, r);
      ApplyIs(old(State()), commands, OpOf(operationId), atomic);
      ApplyKeepsInv(old(State()), commands, OpOf(operationId), atomic);
    }

    method GetConnections() returns (all: seq<Applied>)
      ensures all == Entries(connections)
    {
      all := [];
      var rest := connections;
      while rest.Keys != {}
        invariant Entries(connections) == all + Entries(rest)
        decreases |rest|
      {
        var k := Min(rest.Keys);
        assert (rest - {k}).Keys == rest.Keys - {k};
        all := all + [rest[k]];
        rest := rest - {k};
      }
      assert Entries(rest) == [];
    }

    static method MakePorts(count: nat) returns (ports: array<Port>)
      ensures fresh(ports) && ports[..] == FreshPorts(count)
    {
      ports := new Port[count](_ => Port(true, Up));
      assert ports[..] == FreshPorts(count);
    }

    method ResetDevice(hard: bool) returns (gen: nat)
      requires Valid()
      modifies this, inputToOutput, outputToInput
      ensures Valid() && State() == Reset(old(State()), hard) && gen == generation
      ensures inputToOutput == old(inputToOutput) && outputToInput == old(outputToInput)
      ensures fresh(inputPorts) && fresh(outputPorts)
    {
      ghost var before := State();
      StepKeepsInv(before, CallReset(hard));
      ClearIndexes();
      ClearState(hard);
      gen := generation;
    }

    method ClearState(hard: bool)
      modifies this
      ensures inputToOutput == old(inputToOutput) && outputToInput == old(outputToInput)
      ensures fresh(inputPorts) && fresh(outputPorts) && inputPorts != outputPorts
      ensures inputPorts[..] == FreshPorts(inputCount) && outputPorts[..] == FreshPorts(outputCount)
      ensures connections == map[] && lastVersions == map[] && !failNext && !timeoutNext
      ensures results == map[] && order == []
      ensures generation == if hard then old(generation) + 1 else old(generation)
    {
      connections, lastVersions := map[], map[];
      RenewPorts();
      failNext, timeoutNext := false, false;
      results, order := map[], [];
      if hard {
        generation := generation + 1;
      }
    }

    method RenewPorts()
      modifies this`inputPorts, this`outputPorts
      ensures fresh(inputPorts) && fresh(outputPorts) && inputPorts != outputPorts
      ensures inputPorts[..] == FreshPorts(inputCount) && outputPorts[..] == FreshPorts(outputCount)
    {
      var ins := MakePorts(inputCount);
      var outs := MakePorts(outputCount);
      inputPorts, outputPorts := ins, outs;
    }

    method InjectFault(fault: FaultType, port: nat) returns (e: ErrorCode)
      requires Valid()
      modifies this, inputToOutput, outputToInput, inputPorts, outputPorts
      ensures Valid() && Cache(results, order) == old(Cache(results, order))
      ensures (CoreState(), e) == Inject(old(CoreState()), fault, port)
    {
      ghost var before := CoreState();
      FaultsKeepInv(before, fault, port);
      match fault
      case AllFaults => return InvalidArgument;
      case NextApplyError => failNext := true; return Ok;
      case NextApplyTimeout => timeoutNext := true; return Ok;
      case OutOfBandDrift =>
        if connections.Keys == {} {
          return InvalidArgument;
        }
        Drift();
        return Ok;
      case _ =>
        e := SetOper(if fault.InputPortDown? then Input else Output, port, Down);
    }

    /** Out-of-band drift: the first connection disappears from the map and both indexes. */
    method Drift()
      requires connections.Keys != {} && inputToOutput != outputToInput
      requires ValidMatrix(connections, inputToOutput.Length, outputToInput.Length)
      requires Mirrors(inputToOutput[..], outputToInput[..], Entries(connections))
      modifies this`connections, inputToOutput, outputToInput
      ensures connections == old(connections) - {Min(old(connections).Keys)}
      ensures Mirrors(inputToOutput[..], outputToInput[..], Entries(connections))
    {
      var k := Min(connections.Keys);
      MirrorsShrink(inputToOutput[..], outputToInput[..], connections);
      RemoveIndex(connections[k]);
      connections := connections - {k};
    }

    method RemoveIndex(c: Applied)
      requires 1 <= c.input <= inputToOutput.Length && 1 <= c.output <= outputToInput.Length
      requires inputToOutput != outputToInput
      modifies inputToOutput, outputToInput
      ensures inputToOutput[..] == old(inputToOutput[..])[c.input - 1 := None]
      ensures outputToInput[..] == old(outputToInput[..])[c.output - 1 := None]
    {
      inputToOutput[c.input - 1] := None;
      outputToInput[c.output - 1] := None;
    }

    method ClearIndexes()
      requires inputToOutput != outputToInput
      modifies inputToOutput, outputToInput
      ensures Mirrors(inputToOutput[..], outputToInput[..], [])
    {
      for i := 0 to inputToOutput.Length
        invariant forall j | 0 <= j < i :: inputToOutput[j] == None
      {
        inputToOutput[i] := None;
      }
      for i := 0 to outputToInput.Length
        invariant forall j | 0 <= j < i :: outputToInput[j] == None
        invariant forall j | 0 <= j < inputToOutput.Length :: inputToOutput[j] == None
      {
        outputToInput[i] := None;
      }
    }

    method SetOper(dir: Direction, port: nat, oper: PortOper) returns (e: ErrorCode)
      requires Valid()
      modifies inputPorts, outputPorts
      ensures e == ValidatePort(old(CoreState()), dir, port)
      ensures CoreState() == if e != Ok then old(CoreState())
        else SetPort(old(CoreState()), dir, port, PortsOf(old(CoreState()), dir)[port - 1].(oper := oper))
      ensures Valid()
    {
      var ports := if dir.Input? then inputPorts else outputPorts;
      if port == 0 || port > ports.Length {
        return InvalidPort;
      }
      ghost var ins, outs := inputPorts[..], outputPorts[..];
      ports[port - 1] := ports[port - 1].(oper := oper);
      assert inputPorts[..] == if dir.Input? then ins[port - 1 := ins[port - 1].(oper := oper)] else ins;
      assert outputPorts[..] == if dir.Output? then outs[port - 1 := outs[port - 1].(oper := oper)] else outs;
      return Ok;
    }

    method AllPortsUp(ports: array<Port>)
      modifies ports
      ensures ports[..] == AllUp(old(ports[..]))
    {
      ghost var was := ports[..];
      for i := 0 to ports.Length
        invariant forall j | 0 <= j < i :: ports[j] == was[j].(oper := Up)
        invariant forall j | i <= j < ports.Length :: ports[j] == was[j]
      {
        ports[i] := ports[i].(oper := Up);
      }
    }

    method ClearFault(fault: FaultType, port: nat) returns (e: ErrorCode)
      requires Valid()
      modifies this`failNext, this`timeoutNext, inputPorts, outputPorts
      ensures Valid() && (CoreState(), e) == Clear(old(CoreState()), fault, port)
    {
      ghost var before := CoreState();
      FaultsKeepInv(before, fault, port);
      match fault
      case AllFaults =>
        failNext, timeoutNext := false, false;
        AllPortsUp(inputPorts);
        AllPortsUp(outputPorts);
        return Ok;
      case NextApplyError => failNext := false; return Ok;
      case NextApplyTimeout => timeoutNext := false; return Ok;
      case OutOfBandDrift => return Ok;
      case _ =>
        e := SetOper(if fault.InputPortDown? then Input else Output, port, Up);
    }

    method SetPortAdminState(dir: Direction, port: nat, enabled: bool) returns (e: ErrorCode)
      requires Valid()
      modifies inputPorts, outputPorts
      ensures Valid() && (CoreState(), e) == SetAdmin(old(CoreState()), dir, port, enabled)
    {
      var ports := if dir.Input? then inputPorts else outputPorts;
      if port == 0 || port > ports.Length {
        return InvalidPort;
      }
      ghost var ins, outs := inputPorts[..], outputPorts[..];
      ports[port - 1] := ports[port - 1].(enabled := enabled);
      assert inputPorts[..] == if dir.Input? then ins[port - 1 := ins[port - 1].(enabled := enabled)] else ins;
      assert outputPorts[..] == if dir.Output? then outs[port - 1 := outs[port - 1].(enabled := enabled)] else outs;
      return Ok;
    }
  }

  // ---------------------------------------------------------------- steps of the proofs above

  lemma {:induction false} MemberErrorStops(d: Core, cs: seq<Command>, i: nat)
    requires i < |cs| && FirstMemberError(d, cs[..i]) == Ok && MemberError(d, cs[i]) != Ok
    ensures FirstMemberError(d, cs) == MemberError(d, cs[i])
  {
    var n := |cs| - 1;
    if i == n {
    } else {
      assert cs[..n][..i] == cs[..i];
      MemberErrorStops(d, cs[..n], i);
    }
  }

  lemma {:induction false} FirstConflictStops(a: seq<Applied>, b: seq<Applied>)
    requires FirstConflict(a) != Ok
    ensures FirstConflict(a + b) == FirstConflict(a)
  {
    if b == [] {
      assert a + b == a;
    } else {
      var n := |b| - 1;
      FirstConflictStops(a, b[..n]);
      assert (a + b)[..|a + b| - 1] == a + b[..n];
    }
  }

  lemma LastConflict(done: seq<Applied>, c: Applied)
    requires FirstConflict(done) == Ok
    ensures FirstConflict(done + [c]) ==
      if exists i | 0 <= i < |done| :: done[i].input == c.input then InputConflict
      else if exists i | 0 <= i < |done| :: done[i].output == c.output then OutputConflict
      else Ok
  {
    var next := done + [c];
    assert next[..|done|] == done && next[|done|] == c;
    assert forall i | 0 <= i < |done| :: next[i] == done[i];
  }

  lemma NextConflict(done: seq<Applied>, c: Applied, more: seq<Applied>)
    requires FirstConflict(done) == Ok
    ensures FirstConflict(done + [c]) ==
      if exists i | 0 <= i < |done| :: done[i].input == c.input then InputConflict
      else if exists i | 0 <= i < |done| :: done[i].output == c.output then OutputConflict
      else Ok
    ensures FirstConflict(done + [c]) != Ok ==> FirstConflict(done + [c] + more) == FirstConflict(done + [c])
  {
    LastConflict(done, c);
    if FirstConflict(done + [c]) != Ok { FirstConflictStops(done + [c], more); }
  }

  lemma MirrorsGrow(i2o: seq<Option<nat>>, o2i: seq<Option<nat>>, done: seq<Applied>, c: Applied)
    requires Mirrors(i2o, o2i, done) && 1 <= c.input <= |i2o| && 1 <= c.output <= |o2i|
    ensures Mirrors(i2o[c.input - 1 := Some(c.output)], o2i[c.output - 1 := Some(c.input)], done + [c])
  {
    assert (done + [c])[..|done|] == done;
  }

  lemma ApplyIs(d: Dev<string>, commands: seq<Command>, op: Option<string>, atomic: bool)
    requires !Replays(d, op)
    ensures var (core, r) := Execute(d.core, commands, atomic);
      Apply(d, commands, op, atomic) == (Dev(core, if op.None? then d.cache else Record(d.cache, op.value, r)), r)
  {
  }

  lemma ApplyKeepsInv(d: Dev<string>, commands: seq<Command>, op: Option<string>, atomic: bool)
    requires DeviceModel.Inv(d)
    ensures DeviceModel.Inv(Apply(d, commands, op, atomic).0)
  {
    StepKeepsInv(d, CallApply(commands, op, atomic));
  }

  /** What the arrays say about the next entry, and what they say once it is filled in. */
  lemma NextIndex(i2o: seq<Option<nat>>, o2i: seq<Option<nat>>, done: seq<Applied>, c: Applied, more: seq<Applied>)
    requires FirstConflict(done) == Ok && Mirrors(i2o, o2i, done) && 1 <= c.input <= |i2o| && 1 <= c.output <= |o2i|
    ensures i2o[c.input - 1].Some? ==> FirstConflict(done + [c] + more) == InputConflict
    ensures i2o[c.input - 1].None? && o2i[c.output - 1].Some? ==> FirstConflict(done + [c] + more) == OutputConflict
    ensures i2o[c.input - 1].None? && o2i[c.output - 1].None? ==> FirstConflict(done + [c]) == Ok
    ensures Mirrors(i2o[c.input - 1 := Some(c.output)], o2i[c.output - 1 := Some(c.input)], done + [c])
  {
    OutputForMiss(done, c.input);
    OutputForMiss(done, c.output);
    NextConflict(done, c, more);
    MirrorsGrow(i2o, o2i, done, c);
  }

  lemma CandidateShaped(d: Core, cs: seq<Command>)
    requires CoreInv(d) && FirstMemberError(d, cs) == Ok
    ensures Shaped(ApplyAll(d.conns, cs), |d.inPorts|, |d.outPorts|)
  {
    FirstMemberErrorOk(d, cs);
    assert Shaped(d.conns, |d.inPorts|, |d.outPorts|);
    ApplyAllShape(d, d.conns, cs);
  }

  lemma {:induction false} DropFirst(es: seq<Applied>, p: nat)
    requires ConflictFree(es) && es != []
    ensures OutputFor(es[1..], p) == if p == es[0].input then None else OutputFor(es, p)
    ensures InputFor(es[1..], p) == if p == es[0].output then None else InputFor(es, p)
  {
    var n := |es| - 1;
    if n > 0 {
      DropFirst(es[..n], p);
      assert es[..n][1..] == es[1..][..n - 1];
      assert es[0].input != es[n].input && es[0].output != es[n].output;
    }
  }

  /** Dropping the first entry of the map clears exactly its two index cells. */
  lemma MirrorsShrink(i2o: seq<Option<nat>>, o2i: seq<Option<nat>>, m: Matrix)
    requires m.Keys != {} && Mirrors(i2o, o2i, Entries(m)) && ValidMatrix(m, |i2o|, |o2i|)
    ensures var k := Min(m.Keys);
      Mirrors(i2o[m[k].input - 1 := None], o2i[m[k].output - 1 := None], Entries(m - {k}))
  {
    var k, es := Min(m.Keys), Entries(m);
    assert (m - {k}).Keys == m.Keys - {k};
    assert es[0] == m[k] && es[1..] == Entries(m - {k});
    ConflictFreeIsMatching(m);
    FirstConflictOk(es);
    forall p: nat ensures OutputFor(es[1..], p) == if p == es[0].input then None else OutputFor(es, p)
    {
      DropFirst(es, p);
    }
    forall p: nat ensures InputFor(es[1..], p) == if p == es[0].output then None else InputFor(es, p)
    {
      DropFirst(es, p);
    }
  }
}
