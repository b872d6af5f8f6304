/** What the simulated optical device does, as a function of its state.

`SimulatedDevice.SimulatedOcsDevice` is the class that changes its fields in place; every one of
its methods is proved against a function of this module, and the guarantees over whole runs
(atomicity, version fence, replay window) are proved here. Operation ids have type `O`; `None`
stands for the empty operation id, whose results are never cached. */
module DeviceModel {
  import opened Ids
  import opened Connections

  const MAX_CACHED_RESULTS: nat := 4096

  datatype Direction = Input | Output

  datatype PortOper = Up | Down

  datatype Port = Port(enabled: bool, oper: PortOper)

  datatype FaultType = NextApplyError | NextApplyTimeout | InputPortDown | OutputPortDown | OutOfBandDrift | AllFaults

  /** Matrix, version fences, ports and one-shot faults. */
  datatype Core = Core(
    generation: nat,
    conns: Matrix,
    fences: map<string, nat>,
    inPorts: seq<Port>,
    outPorts: seq<Port>,
    failNext: bool,
    timeoutNext: bool)

  /** The bounded first-in-first-out cache of apply results. */
  datatype Cache<O(==)> = Cache(results: map<O, ApplyResult>, order: seq<O>)

  datatype Dev<O(==)> = Dev(core: Core, cache: Cache<O>)

  function FreshPorts(n: nat): seq<Port>
  {
    seq(n, _ => Port(true, Up))
  }

  function PortsOf(d: Core, dir: Direction): seq<Port>
  {
    if dir.Input? then d.inPorts else d.outPorts
  }

  function ValidatePort(d: Core, dir: Direction, id: nat): ErrorCode
  {
    if id == 0 || id > |PortsOf(d, dir)| then InvalidPort else Ok
  }

  function ValidatePortAvailable(d: Core, dir: Direction, id: nat): ErrorCode
  {
    if id == 0 || id > |PortsOf(d, dir)| then InvalidPort
    else
      var p := PortsOf(d, dir)[id - 1];
      if !p.enabled then PortDisabled else if p.oper != Up then PortDown else Ok
  }

  // ---------------------------------------------------------------- one apply

  predicate IsStale(fences: map<string, nat>, c: Command)
  {
    c.version != 0 && c.id in fences && fences[c.id] > c.version
  }

  function MemberError(d: Core, c: Command): ErrorCode
  {
    if c.id == "" then InvalidArgument
    else if c.op.Remove? then Ok
    else if ValidatePortAvailable(d, Input, c.input) != Ok then ValidatePortAvailable(d, Input, c.input)
    else ValidatePortAvailable(d, Output, c.output)
  }

  /** The error of the first member of the batch that is not acceptable on its own. */
  function FirstMemberError(d: Core, cs: seq<Command>): ErrorCode
  {
    if cs == [] then Ok
    else
      var before := FirstMemberError(d, cs[..|cs| - 1]);
      if before != Ok then before else MemberError(d, cs[|cs| - 1])
  }

  /** The entries of a matrix in key order. */
  function Entries(m: Matrix): seq<Applied>
    decreases |m|
  {
    if m.Keys == {} then []
    else
      var k := Min(m.Keys);
      assert (m - {k}).Keys == m.Keys - {k};
      [m[k]] + Entries(m - {k})
  }

  /** The error found when the index arrays are filled entry by entry. */
  function FirstConflict(es: seq<Applied>): ErrorCode
  {
    if es == [] then Ok
    else
      var n := |es| - 1;
      var before := FirstConflict(es[..n]);
      if before != Ok then before
      else if exists i | 0 <= i < n :: es[i].input == es[n].input then InputConflict
      else if exists i | 0 <= i < n :: es[i].output == es[n].output then OutputConflict
      else Ok
  }

  function Verdict(d: Core, cs: seq<Command>): ErrorCode
  {
    if exists i | 0 <= i < |cs| :: IsStale(d.fences, cs[i]) then VersionStale
    else if FirstMemberError(d, cs) != Ok then FirstMemberError(d, cs)
    else FirstConflict(Entries(ApplyAll(d.conns, cs)))
  }

  function Fence(fences: map<string, nat>, cs: seq<Command>): map<string, nat>
  {
    if cs == [] then fences
    else
      var before := Fence(fences, cs[..|cs| - 1]);
      var c := cs[|cs| - 1];
      if c.version != 0 then before[c.id := c.version] else before
  }

  /** The entries reported back for a successful batch, in batch order. */
  function Changed(m: Matrix, cs: seq<Command>): seq<Applied>
  {
    if cs == [] then []
    else
      var before := Changed(m, cs[..|cs| - 1]);
      var c := cs[|cs| - 1];
      if c.id in m then before + [m[c.id]] else before
  }

  /** An apply that is not answered from the cache. */
  function Execute(d: Core, cs: seq<Command>, atomic: bool): (Core, ApplyResult)
  {
    if !atomic then (d, ApplyResult(Unsupported, []))
    else if Verdict(d, cs) != Ok then (d, ApplyResult(Verdict(d, cs), []))
    else if d.failNext then (d.(failNext := false), ApplyResult(ApplyFailed, []))
    else if d.timeoutNext then (d.(timeoutNext := false), ApplyResult(ApplyTimeout, []))
    else
      (d.(conns := ApplyAll(d.conns, cs), fences := Fence(d.fences, cs)),
       ApplyResult(Ok, Changed(ApplyAll(d.conns, cs), cs)))
  }

  /** `finish`: remember the result of a non-empty operation id, evicting the oldest entry. */
  function Record<O>(c: Cache<O>, o: O, r: ApplyResult): Cache<O>
  {
    if |c.results| >= MAX_CACHED_RESULTS && c.order != [] then
      Cache((c.results - {c.order[0]})[o := r], c.order[1..] + [o])
    else
      Cache(c.results[o := r], c.order + [o])
  }

  predicate Replays<O>(d: Dev<O>, op: Option<O>)
  {
    op.Some? && op.value in d.cache.results
  }

  function Apply<O>(d: Dev<O>, cs: seq<Command>, op: Option<O>, atomic: bool): (Dev<O>, ApplyResult)
  {
    if Replays(d, op) then (d, d.cache.results[op.value])
    else
      var (core, r) := Execute(d.core, cs, atomic);
      (Dev(core, if op.None? then d.cache else Record(d.cache, op.value, r)), r)
  }

  // ---------------------------------------------------------------- the other calls

  function Reset<O>(d: Dev<O>, hard: bool): Dev<O>
  {
    Dev(Core(if hard then d.core.generation + 1 else d.core.generation, map[], map[],
             FreshPorts(|d.core.inPorts|), FreshPorts(|d.core.outPorts|), false, false),
        Cache(map[], []))
  }

  function SetPort(d: Core, dir: Direction, id: nat, p: Port): Core
    requires ValidatePort(d, dir, id) == Ok
  {
    if dir.Input? then d.(inPorts := d.inPorts[id - 1 := p]) else d.(outPorts := d.outPorts[id - 1 := p])
  }

  function Inject(d: Core, fault: FaultType, port: nat): (Core, ErrorCode)
  {
    match fault
    case AllFaults => (d, InvalidArgument)
    case NextApplyError => (d.(failNext := true), Ok)
    case NextApplyTimeout => (d.(timeoutNext := true), Ok)
    case OutOfBandDrift =>
      if d.conns.Keys == {} then (d, InvalidArgument)
      else (d.(conns := d.conns - {Min(d.conns.Keys)}), Ok)
    case _ =>
      var dir := if fault.InputPortDown? then Input else Output;
      if ValidatePort(d, dir, port) != Ok then (d, ValidatePort(d, dir, port))
      else (SetPort(d, dir, port, PortsOf(d, dir)[port - 1].(oper := Down)), Ok)
  }

  function AllUp(ps: seq<Port>): seq<Port>
  {
    seq(|ps|, i requires 0 <= i < |ps| => ps[i].(oper := Up))
  }

  function Clear(d: Core, fault: FaultType, port: nat): (Core, ErrorCode)
  {
    match fault
    case AllFaults =>
      (d.(failNext := false, timeoutNext := false, inPorts := AllUp(d.inPorts), outPorts := AllUp(d.outPorts)), Ok)
    case NextApplyError => (d.(failNext := false), Ok)
    case NextApplyTimeout => (d.(timeoutNext := false), Ok)
    case OutOfBandDrift => (d, Ok)
    case _ =>
      var dir := if fault.InputPortDown? then Input else Output;
      if ValidatePort(d, dir, port) != Ok then (d, ValidatePort(d, dir, port))
      else (SetPort(d, dir, port, PortsOf(d, dir)[port - 1].(oper := Up)), Ok)
  }

  function SetAdmin(d: Core, dir: Direction, port: nat, enabled: bool): (Core, ErrorCode)
  {
    if ValidatePort(d, dir, port) != Ok then (d, ValidatePort(d, dir, port))
    else (SetPort(d, dir, port, PortsOf(d, dir)[port - 1].(enabled := enabled)), Ok)
  }

  // ---------------------------------------------------------------- runs

  datatype Call<O> =
    | CallApply(commands: seq<Command>, op: Option<O>, atomic: bool)
    | CallReset(hard: bool)
    | CallInject(fault: FaultType, port: nat)
    | CallClear(fault: FaultType, port: nat)
    | CallAdmin(dir: Direction, port: nat, enabled: bool)

  function Step<O>(d: Dev<O>, c: Call<O>): Dev<O>
  {
    match c
    case CallApply(cs, op, atomic) => Apply(d, cs, op, atomic).0
    case CallReset(hard) => Reset(d, hard)
    case CallInject(f, p) => d.(core := Inject(d.core, f, p).0)
    case CallClear(f, p) => d.(core := Clear(d.core, f, p).0)
    case CallAdmin(dir, p, e) => d.(core := SetAdmin(d.core, dir, p, e).0)
  }

  function Run<O>(d: Dev<O>, calls: seq<Call<O>>): Dev<O>
  {
    if calls == [] then d else Step(Run(d, calls[..|calls| - 1]), calls[|calls| - 1])
  }

  /** The connections are a partial bijection on in-range ports keyed by their own non-empty ids,
      and a connection applied under a real version carries exactly its fence. */
  ghost predicate CoreInv(d: Core)
  {
    && ValidMatrix(d.conns, |d.inPorts|, |d.outPorts|)
    && FencedMatrix(d.conns, d.fences)
  }

  ghost predicate FencedMatrix(m: Matrix, fences: map<string, nat>)
  {
    forall k | k in m && m[k].version != 0 :: k in fences && fences[k] == m[k].version
  }

  /** The cache's keys are its queue's elements, without repeats, and never exceed the cap. */
  ghost predicate CacheInv<O>(c: Cache<O>)
  {
    && (forall i, j | 0 <= i < j < |c.order| :: c.order[i] != c.order[j])
    && (forall o | o in c.results :: o in c.order) && (forall o | o in c.order :: o in c.results)
    && |c.results| == |c.order| <= MAX_CACHED_RESULTS
  }

  ghost predicate Inv<O>(d: Dev<O>)
  {
    CoreInv(d.core) && CacheInv(d.cache)
  }

  function Init<O>(nIn: nat, nOut: nat, generation: nat): (d: Dev<O>)
    ensures Inv(d)
  {
    Dev(Core(generation, map[], map[], FreshPorts(nIn), FreshPorts(nOut), false, false), Cache(map[], []))
  }

  // ---------------------------------------------------------------- acceptance

  lemma {:induction false} FirstMemberErrorOk(d: Core, cs: seq<Command>)
    ensures FirstMemberError(d, cs) == Ok <==> forall c | c in cs :: MemberError(d, c) == Ok
  {
    if cs != [] {
      var n := |cs| - 1;
      FirstMemberErrorOk(d, cs[..n]);
      assert cs == cs[..n] + [cs[n]];
    }
  }

  lemma {:induction false} EntriesProps(m: Matrix)
    ensures |Entries(m)| == |SortedKeys(m.Keys)|
    ensures forall i | 0 <= i < |Entries(m)| :: SortedKeys(m.Keys)[i] in m && Entries(m)[i] == m[SortedKeys(m.Keys)[i]]
    decreases |m|
  {
    if m.Keys != {} {
      var k := Min(m.Keys);
      var rest := m - {k};
      assert rest.Keys == m.Keys - {k};
      EntriesProps(rest);
    }
  }

  /** Filling the index arrays finds no conflict exactly when the entries are a matching. */
  lemma {:induction false} FirstConflictOk(es: seq<Applied>)
    ensures FirstConflict(es) == Ok <==>
      forall i, j | 0 <= i < j < |es| :: es[i].input != es[j].input && es[i].output != es[j].output
  {
    if es != [] {
      var n := |es| - 1;
      FirstConflictOk(es[..n]);
      assert forall i | 0 <= i < n :: es[..n][i] == es[i];
    }
  }

  lemma ConflictFreeIsMatching(m: Matrix)
    ensures FirstConflict(Entries(m)) == Ok <==> Matching(m)
  {
    var ks, es := SortedKeys(m.Keys), Entries(m);
    FirstConflictOk(es);
    EntriesProps(m);
    SortedKeysProps(m.Keys);
    if FirstConflict(es) == Ok {
      forall j, k | j in m && k in m && j != k ensures m[j].input != m[k].input && m[j].output != m[k].output {
        assert j in ks && k in ks;
        var a :| 0 <= a < |ks| && ks[a] == j;
        var b :| 0 <= b < |ks| && ks[b] == k;
        assert es[a] == m[j] && es[b] == m[k];
        if a < b {} else { assert b < a; }
      }
    }
    if Matching(m) {
      forall i, j | 0 <= i < j < |es| ensures es[i].input != es[j].input && es[i].output != es[j].output {
        assert ks[i] != ks[j];
      }
    }
  }

  /** When a batch passes validation, said without any order: no member is older than its fence,
      every member is acceptable on its own, and the resulting matrix is a matching. */
  ghost predicate Acceptable(d: Core, cs: seq<Command>)
  {
    && (forall c | c in cs :: !IsStale(d.fences, c))
    && (forall c | c in cs :: MemberError(d, c) == Ok)
    && Matching(ApplyAll(d.conns, cs))
  }

  lemma VerdictIsAcceptable(d: Core, cs: seq<Command>)
    ensures Verdict(d, cs) == Ok <==> Acceptable(d, cs)
  {
    FirstMemberErrorOk(d, cs);
    ConflictFreeIsMatching(ApplyAll(d.conns, cs));
  }

  /** What one execution does, case by case. */
  lemma ExecuteEffect(d: Core, cs: seq<Command>, atomic: bool)
    ensures var (d', r) := Execute(d, cs, atomic);
      && d'.inPorts == d.inPorts && d'.outPorts == d.outPorts && d'.generation == d.generation
      && (r.error == Ok <==> atomic && Acceptable(d, cs) && !d.failNext && !d.timeoutNext)
      && (r.error == Ok ==> d'.conns == ApplyAll(d.conns, cs) && d'.fences == Fence(d.fences, cs))
      && (r.error != Ok ==> d'.conns == d.conns && d'.fences == d.fences && r.connections == [])
  {
    VerdictIsAcceptable(d, cs);
  }

  /** Acceptance, final matrix and fences of a batch with distinct ids do not depend on the order of
      its commands. */
  lemma OrderIndependence(d: Core, a: seq<Command>, b: seq<Command>)
    requires DistinctIds(a) && DistinctIds(b)
    requires multiset(a) == multiset(b)
    ensures Execute(d, a, true).1.error == Ok <==> Execute(d, b, true).1.error == Ok
    ensures Execute(d, a, true).0.conns == Execute(d, b, true).0.conns
    ensures Execute(d, a, true).0.fences == Execute(d, b, true).0.fences
  {
    DistinctAgree(a);
    SameOutcome(d, a, b);
    SameMembers(a, b);
    FenceOrderFree(d.fences, a, b);
    ExecuteEffect(d, a, true);
    ExecuteEffect(d, b, true);
  }

  lemma SameOutcome(d: Core, a: seq<Command>, b: seq<Command>)
    requires Agreeing(a) && multiset(a) == multiset(b)
    ensures Execute(d, a, true).1.error == Ok <==> Execute(d, b, true).1.error == Ok
    ensures Execute(d, a, true).0.conns == Execute(d, b, true).0.conns
  {
    SameMembers(a, b);
    ApplyAllOrderFree(d.conns, a, b);
    ExecuteEffect(d, a, true);
    ExecuteEffect(d, b, true);
  }

  /** Every order of the batch is accepted or refused alike and leaves the same connections. */
  ghost predicate OrderIndependent(d: Core, cs: seq<Command>)
  {
    forall p | multiset(p) == multiset(cs) ::
      && (Execute(d, p, true).1.error == Ok <==> Execute(d, cs, true).1.error == Ok)
      && Execute(d, p, true).0.conns == Execute(d, cs, true).0.conns
  }

  /** What does not depend on the order anyway: no fault is armed, and every member is neither stale
      nor refused on its own. */
  ghost predicate Passes(d: Core, cs: seq<Command>)
  {
    !d.failNext && !d.timeoutNext && forall c | c in cs :: !IsStale(d.fences, c) && MemberError(d, c) == Ok
  }

  ghost predicate NeverMatching(m: Matrix, cs: seq<Command>)
  {
    forall p | multiset(p) == multiset(cs) :: !Matching(ApplyAll(m, p))
  }

  lemma AcceptedIff(d: Core, p: seq<Command>, cs: seq<Command>)
    requires multiset(p) == multiset(cs)
    ensures Execute(d, p, true).1.error == Ok <==> Passes(d, cs) && Matching(ApplyAll(d.conns, p))
    ensures Execute(d, p, true).0.conns ==
      if Execute(d, p, true).1.error == Ok then ApplyAll(d.conns, p) else d.conns
  {
    SameMembers(p, cs);
    ExecuteEffect(d, p, true);
  }

  /** The order of a batch does not matter exactly if commands with the same id ask for the same thing,
      or no order is accepted in the first place. */
  lemma OrderIndependentIff(d: Core, cs: seq<Command>)
    ensures OrderIndependent(d, cs) <==> Agreeing(cs) || !Passes(d, cs) || NeverMatching(d.conns, cs)
  {
    if Agreeing(cs) {
      forall p | multiset(p) == multiset(cs)
        ensures Execute(d, p, true).1.error == Ok <==> Execute(d, cs, true).1.error == Ok
        ensures Execute(d, p, true).0.conns == Execute(d, cs, true).0.conns
      {
        SameOutcome(d, cs, p);
      }
    } else {
      forall p | multiset(p) == multiset(cs)
        ensures Execute(d, p, true).1.error == Ok <==> Passes(d, cs) && Matching(ApplyAll(d.conns, p))
        ensures Execute(d, p, true).0.conns ==
          if Execute(d, p, true).1.error == Ok then ApplyAll(d.conns, p) else d.conns
      {
        AcceptedIff(d, p, cs);
      }
      OrderFreeIff(d.conns, cs);
      if Passes(d, cs) && !NeverMatching(d.conns, cs) { OneOrderDiffers(d, cs); }
    }
  }

  /** If an order is accepted and commands disagree, another order is refused or leaves something else. */
  lemma OneOrderDiffers(d: Core, cs: seq<Command>)
    requires !OrderFree(d.conns, cs) && Passes(d, cs) && !NeverMatching(d.conns, cs)
    ensures !OrderIndependent(d, cs)
  {
    var p :| multiset(p) == multiset(cs) && Matching(ApplyAll(d.conns, p));
    var q :| multiset(q) == multiset(cs) && ApplyAll(d.conns, q) != ApplyAll(d.conns, cs);
    AcceptedIff(d, p, cs);
    AcceptedIff(d, q, cs);
    AcceptedIff(d, cs, cs);
  }

  lemma ExecuteOk(d: Core, cs: seq<Command>)
    requires Acceptable(d, cs) && !d.failNext && !d.timeoutNext
    ensures Execute(d, cs, true).1.error == Ok && Execute(d, cs, true).0.conns == ApplyAll(d.conns, cs)
  {
    VerdictIsAcceptable(d, cs);
  }

  /** With a repeated id the order does matter, so the distinctness assumption cannot be dropped. */
  lemma RepeatedIdsAreOrderDependent(d: Core, up: Command, down: Command)
    requires up.op.Upsert? && down.op.Remove? && up.id == down.id && up.id !in d.fences && d.conns == map[]
    requires MemberError(d, up) == Ok && !d.failNext && !d.timeoutNext
    ensures Execute(d, [up, down], true).1.error == Ok && Execute(d, [down, up], true).1.error == Ok
    ensures Execute(d, [up, down], true).0.conns == map[]
    ensures Execute(d, [down, up], true).0.conns == map[up.id := ToApplied(up)]
  {
    var m0: Matrix := map[];
    assert [up, down][..1] == [up] && [down, up][..1] == [down];
    assert [up][..0] == [] && [down][..0] == [];
    assert ApplyAll(m0, [up]) == map[up.id := ToApplied(up)];
    assert ApplyAll(m0, [down]) == m0;
    assert ApplyAll(m0, [up, down]) == m0;
    ExecuteOk(d, [up, down]);
    ExecuteOk(d, [down, up]);
  }

  // ---------------------------------------------------------------- fences

  lemma {:induction false} FenceUnnamed(f: map<string, nat>, cs: seq<Command>, k: string)
    requires forall c | c in cs :: c.id != k || c.version == 0
    ensures k in Fence(f, cs) <==> k in f
    ensures k in f ==> Fence(f, cs)[k] == f[k]
  {
    if cs != [] {
      assert cs[|cs| - 1] in cs;
      FenceUnnamed(f, cs[..|cs| - 1], k);
    }
  }

  lemma {:induction false} FenceNamed(f: map<string, nat>, cs: seq<Command>, i: nat)
    requires DistinctIds(cs) && i < |cs| && cs[i].version != 0
    ensures cs[i].id in Fence(f, cs) && Fence(f, cs)[cs[i].id] == cs[i].version
  {
    if i < |cs| - 1 { FenceNamed(f, cs[..|cs| - 1], i); }
  }

  lemma FenceOrderFree(f: map<string, nat>, a: seq<Command>, b: seq<Command>)
    requires DistinctIds(a) && DistinctIds(b)
    requires forall c :: c in a <==> c in b
    ensures Fence(f, a) == Fence(f, b)
  {
    var fa, fb := Fence(f, a), Fence(f, b);
    forall k ensures (k in fa <==> k in fb) && (k in fa ==> fa[k] == fb[k]) {
      if c :| c in a && c.id == k && c.version != 0 {
        assert c in b;
        var i :| 0 <= i < |a| && a[i] == c;
        var j :| 0 <= j < |b| && b[j] == c;
        FenceNamed(f, a, i);
        FenceNamed(f, b, j);
      } else {
        FenceUnnamed(f, a, k);
        FenceUnnamed(f, b, k);
      }
    }
  }

  /** Fences only grow through batches that are not stale, repeated ids included. */
  lemma {:induction false} FenceMonotone(f: map<string, nat>, cs: seq<Command>)
    requires forall i | 0 <= i < |cs| :: !IsStale(f, cs[i])
    ensures forall k | k in f :: k in Fence(f, cs) && f[k] <= Fence(f, cs)[k]
  {
    if cs != [] {
      var n := |cs| - 1;
      FenceMonotone(f, cs[..n]);
      assert !IsStale(f, cs[n]);
    }
  }

  lemma {:induction false} FencedAfter(m: Matrix, f: map<string, nat>, cs: seq<Command>)
    requires FencedMatrix(m, f)
    ensures FencedMatrix(ApplyAll(m, cs), Fence(f, cs))
  {
    if cs != [] {
      FencedAfter(m, f, cs[..|cs| - 1]);
    }
  }

  // ---------------------------------------------------------------- invariant over runs

  ghost predicate Shaped(m: Matrix, nIn: nat, nOut: nat)
  {
    forall k | k in m :: k != "" && m[k].id == k && 1 <= m[k].input <= nIn && 1 <= m[k].output <= nOut
  }

  lemma {:induction false} ApplyAllShape(d: Core, m: Matrix, cs: seq<Command>)
    requires Shaped(m, |d.inPorts|, |d.outPorts|)
    requires forall i | 0 <= i < |cs| :: MemberError(d, cs[i]) == Ok
    ensures Shaped(ApplyAll(m, cs), |d.inPorts|, |d.outPorts|)
  {
    if cs != [] {
      var n := |cs| - 1;
      ApplyAllShape(d, m, cs[..n]);
      assert MemberError(d, cs[n]) == Ok;
    }
  }

  lemma ExecuteKeepsInv(d: Core, cs: seq<Command>, atomic: bool)
    requires CoreInv(d)
    ensures CoreInv(Execute(d, cs, atomic).0)
  {
    ExecuteEffect(d, cs, atomic);
    var (d', r) := Execute(d, cs, atomic);
    if r.error == Ok {
      assert Shaped(d.conns, |d.inPorts|, |d.outPorts|);
      ApplyAllShape(d, d.conns, cs);
      FencedAfter(d.conns, d.fences, cs);
    }
  }

  lemma EvictFirst<O>(c: Cache<O>)
    requires CacheInv(c) && c.order != []
    ensures CacheInv(Cache(c.results - {c.order[0]}, c.order[1..]))
  {
    var first, rest := c.order[0], c.order[1..];
    var mid := c.results - {first};
    assert mid.Keys == c.results.Keys - {first};
    assert first in c.order && first in c.results && |mid| == |c.results| - 1;
    TailOf(c.order);
  }

  lemma TailOf<O>(q: seq<O>)
    requires q != [] && forall i, j | 0 <= i < j < |q| :: q[i] != q[j]
    ensures forall o | o in q[1..] :: o in q && o != q[0]
    ensures forall o | o in q && o != q[0] :: o in q[1..]
    ensures forall i, j | 0 <= i < j < |q[1..]| :: q[1..][i] != q[1..][j]
  {
    assert q == [q[0]] + q[1..];
    assert forall i | 0 <= i < |q[1..]| :: q[1..][i] == q[i + 1];
  }

  lemma AppendLast<O>(c: Cache<O>, o: O, r: ApplyResult)
    requires CacheInv(c) && o !in c.results && |c.order| < MAX_CACHED_RESULTS
    ensures CacheInv(Cache(c.results[o := r], c.order + [o]))
  {
    assert c.results[o := r].Keys == c.results.Keys + {o};
    assert forall i | 0 <= i < |c.order| :: c.order[i] in c.order && c.order[i] != o;
  }

  lemma RecordKeepsCache<O>(c: Cache<O>, o: O, r: ApplyResult)
    requires CacheInv(c) && o !in c.results
    ensures CacheInv(Record(c, o, r))
  {
    if |c.results| >= MAX_CACHED_RESULTS && c.order != [] {
      EvictFirst(c);
      AppendLast(Cache(c.results - {c.order[0]}, c.order[1..]), o, r);
    } else {
      AppendLast(c, o, r);
    }
  }

  lemma FaultsKeepInv(d: Core, fault: FaultType, port: nat)
    requires CoreInv(d)
    ensures CoreInv(Inject(d, fault, port).0) && CoreInv(Clear(d, fault, port).0)
    ensures |Inject(d, fault, port).0.inPorts| == |d.inPorts| && |Inject(d, fault, port).0.outPorts| == |d.outPorts|
    ensures |Clear(d, fault, port).0.inPorts| == |d.inPorts| && |Clear(d, fault, port).0.outPorts| == |d.outPorts|
  {
  }

  lemma StepKeepsInv<O>(d: Dev<O>, c: Call<O>)
    requires Inv(d)
    ensures Inv(Step(d, c))
    ensures |Step(d, c).core.inPorts| == |d.core.inPorts| && |Step(d, c).core.outPorts| == |d.core.outPorts|
  {
    match c
    case CallApply(cs, op, atomic) =>
      if !Replays(d, op) {
        ExecuteKeepsInv(d.core, cs, atomic);
        ExecuteEffect(d.core, cs, atomic);
        if op.Some? { RecordKeepsCache(d.cache, op.value, Execute(d.core, cs, atomic).1); }
      }
    case CallReset(hard) =>
    case CallInject(f, p) => FaultsKeepInv(d.core, f, p);
    case CallClear(f, p) => FaultsKeepInv(d.core, f, p);
    case CallAdmin(dir, p, e) =>
  }

  /** The invariant holds after any sequence of calls: apply, reset, inject, clear and admin. */
  lemma {:induction false} InvOverRuns<O>(d: Dev<O>, calls: seq<Call<O>>)
    requires Inv(d)
    ensures Inv(Run(d, calls))
    ensures |Run(d, calls).core.inPorts| == |d.core.inPorts| && |Run(d, calls).core.outPorts| == |d.core.outPorts|
  {
    if calls != [] {
      InvOverRuns(d, calls[..|calls| - 1]);
      StepKeepsInv(Run(d, calls[..|calls| - 1]), calls[|calls| - 1]);
    }
  }

  /** A failed apply leaves connections, ports and fences as they were; a successful one that was
      not answered from the cache leaves exactly the fold of the batch; one that was changes
      nothing. */
  lemma ApplyAtomic<O>(d: Dev<O>, cs: seq<Command>, op: Option<O>, atomic: bool)
    ensures var (d', r) := Apply(d, cs, op, atomic);
      && d'.core.inPorts == d.core.inPorts && d'.core.outPorts == d.core.outPorts
      && (r.error != Ok ==> d'.core.conns == d.core.conns && d'.core.fences == d.core.fences)
      && (r.error == Ok && !Replays(d, op) ==>
            && Acceptable(d.core, cs)
            && d'.core.conns == ApplyAll(d.core.conns, cs)
            && d'.core.fences == Fence(d.core.fences, cs))
      && (Replays(d, op) ==> d' == d)
  {
    ExecuteEffect(d.core, cs, atomic);
  }

  predicate NoReset<O>(calls: seq<Call<O>>)
  {
    forall i | 0 <= i < |calls| :: !calls[i].CallReset?
  }

  ghost predicate FencesLe(a: map<string, nat>, b: map<string, nat>)
  {
    forall k | k in a :: k in b && a[k] <= b[k]
  }

  lemma StepFences<O>(d: Dev<O>, c: Call<O>)
    requires !c.CallReset?
    ensures FencesLe(d.core.fences, Step(d, c).core.fences)
  {
    if c.CallApply? {
      ApplyAtomic(d, c.commands, c.op, c.atomic);
      if Acceptable(d.core, c.commands) { FenceMonotone(d.core.fences, c.commands); }
    }
  }

  /** Between resets no fence ever decreases. */
  lemma {:induction false} FencesNeverDecrease<O>(d: Dev<O>, calls: seq<Call<O>>)
    requires NoReset(calls)
    ensures FencesLe(d.core.fences, Run(d, calls).core.fences)
  {
    if calls != [] {
      var n := |calls| - 1;
      FencesNeverDecrease(d, calls[..n]);
      StepFences(Run(d, calls[..n]), calls[n]);
    }
  }

  // ---------------------------------------------------------------- replay window

  /** How many results a call records. */
  function Records<O>(d: Dev<O>, c: Call<O>): nat
  {
    if c.CallApply? && c.op.Some? && !Replays(d, c.op) then 1 else 0
  }

  function RecordedIn<O>(d: Dev<O>, calls: seq<Call<O>>): nat
  {
    if calls == [] then 0
    else RecordedIn(d, calls[..|calls| - 1]) + Records(Run(d, calls[..|calls| - 1]), calls[|calls| - 1])
  }

  /** Operation `o` is cached with result `r` and `age` newer results are queued behind it. */
  ghost predicate CachedAt<O>(c: Cache<O>, o: O, r: ApplyResult, age: nat)
  {
    && age < |c.order|
    && c.order[|c.order| - 1 - age] == o
    && o in c.results && c.results[o] == r
  }

  lemma AgesByOne<O>(c: Cache<O>, o: O, r: ApplyResult, age: nat, o': O, r': ApplyResult)
    requires CacheInv(c) && CachedAt(c, o, r, age) && o' !in c.results
    ensures age + 1 < MAX_CACHED_RESULTS ==> CachedAt(Record(c, o', r'), o, r, age + 1)
    ensures age + 1 == MAX_CACHED_RESULTS ==> o !in Record(c, o', r').results
  {
    var c' := Record(c, o', r');
    assert o' != o;
    if |c.results| >= MAX_CACHED_RESULTS && c.order != [] {
      if age + 1 < MAX_CACHED_RESULTS {
        assert c.order[0] != c.order[|c.order| - 1 - age];
        assert c'.order[|c'.order| - 2 - age] == o;
      }
    } else {
      assert c'.order[|c'.order| - 2 - age] == o;
    }
  }

  lemma StepAges<O>(d: Dev<O>, o: O, r: ApplyResult, age: nat, c: Call<O>)
    requires CacheInv(d.cache) && CachedAt(d.cache, o, r, age) && !c.CallReset?
    ensures age + Records(d, c) < MAX_CACHED_RESULTS ==> CachedAt(Step(d, c).cache, o, r, age + Records(d, c))
    ensures Records(d, c) == 1 && age + 1 == MAX_CACHED_RESULTS ==> o !in Step(d, c).cache.results
  {
    if Records(d, c) == 1 {
      AgesByOne(d.cache, o, r, age, c.op.value, Execute(d.core, c.commands, c.atomic).1);
    }
  }

  /** Between resets a recorded result stays retrievable until 4096 newer results are recorded. */
  lemma {:induction false} ReplayWindow<O>(d: Dev<O>, o: O, r: ApplyResult, calls: seq<Call<O>>)
    requires Inv(d) && CachedAt(d.cache, o, r, 0) && NoReset(calls)
    requires RecordedIn(d, calls) < MAX_CACHED_RESULTS
    ensures CachedAt(Run(d, calls).cache, o, r, RecordedIn(d, calls))
  {
    if calls != [] {
      var n := |calls| - 1;
      ReplayWindow(d, o, r, calls[..n]);
      InvOverRuns(d, calls[..n]);
      StepAges(Run(d, calls[..n]), o, r, RecordedIn(d, calls[..n]), calls[n]);
    }
  }

  lemma FirstRecording<O>(d: Dev<O>, cs: seq<Command>, o: O, atomic: bool)
    requires Inv(d) && o !in d.cache.results
    ensures var (d1, r) := Apply(d, cs, Some(o), atomic); Inv(d1) && CachedAt(d1.cache, o, r, 0)
  {
    StepKeepsInv(d, CallApply(cs, Some(o), atomic));
  }

  /** Repeating an operation id inside the window returns the first result, including a first
      failure, and changes nothing, whatever commands come with it. */
  lemma RepeatedOperation<O>(d: Dev<O>, cs: seq<Command>, o: O, atomic: bool, calls: seq<Call<O>>,
                             cs': seq<Command>, atomic': bool)
    requires Inv(d) && o !in d.cache.results && NoReset(calls)
    requires RecordedIn(Apply(d, cs, Some(o), atomic).0, calls) < MAX_CACHED_RESULTS
    ensures var (d1, r) := Apply(d, cs, Some(o), atomic);
      Apply(Run(d1, calls), cs', Some(o), atomic') == (Run(d1, calls), r)
  {
    FirstRecording(d, cs, o, atomic);
    var (d1, r) := Apply(d, cs, Some(o), atomic);
    ReplayWindow(d1, o, r, calls);
  }

  /** The bound is sharp: the 4096th newer result evicts the operation. */
  lemma WindowIsSharp<O>(d: Dev<O>, cs: seq<Command>, o: O, atomic: bool, calls: seq<Call<O>>, last: Call<O>)
    requires Inv(d) && o !in d.cache.results && NoReset(calls) && !last.CallReset?
    requires var d1 := Apply(d, cs, Some(o), atomic).0;
      RecordedIn(d1, calls) == MAX_CACHED_RESULTS - 1 && Records(Run(d1, calls), last) == 1
    ensures o !in Step(Run(Apply(d, cs, Some(o), atomic).0, calls), last).cache.results
  {
    FirstRecording(d, cs, o, atomic);
    var (d1, r) := Apply(d, cs, Some(o), atomic);
    ReplayWindow(d1, o, r, calls);
    InvOverRuns(d1, calls);
    StepAges(Run(d1, calls), o, r, MAX_CACHED_RESULTS - 1, last);
  }
}
