/** Connection commands, applied connections and the cross-connect matrix they build up. */
module Connections {
  datatype Operation = Upsert | Remove

  datatype Command = Command(op: Operation, id: string, input: nat, output: nat, version: nat)

  datatype Applied = Applied(id: string, input: nat, output: nat, version: nat)

  datatype ErrorCode =
    | Ok
    | InvalidArgument
    | InvalidPort
    | InputConflict
    | OutputConflict
    | PortDisabled
    | PortDown
    | DeviceNotReady
    | ApplyTimeout
    | ApplyFailed
    | VersionStale
    | ProtocolMalformed
    | Unsupported

  datatype ApplyResult = ApplyResult(error: ErrorCode, connections: seq<Applied>)

  /** What is connected, keyed by connection id. */
  type Matrix = map<string, Applied>

  function ToApplied(c: Command): Applied
  {
    Applied(c.id, c.input, c.output, c.version)
  }

  function ApplyOne(m: Matrix, c: Command): Matrix
  {
    if c.op.Remove? then m - {c.id} else m[c.id := ToApplied(c)]
  }

  /** The matrix after a batch, command by command. */
  function ApplyAll(m: Matrix, cs: seq<Command>): Matrix
  {
    if cs == [] then m else ApplyOne(ApplyAll(m, cs[..|cs| - 1]), cs[|cs| - 1])
  }

  ghost predicate DistinctIds(cs: seq<Command>)
  {
    forall i, j | 0 <= i < j < |cs| :: cs[i].id != cs[j].id
  }

  function IdsOf(cs: seq<Command>): set<string>
  {
    set c | c in cs :: c.id
  }

  /** The effect of a batch read off pointwise, without any order: for a batch with distinct ids
      each named id takes the state its own command asks for, every other id is untouched. */
  ghost predicate Pointwise(m: Matrix, cs: seq<Command>, r: Matrix)
  {
    && (forall c | c in cs && c.op.Upsert? :: c.id in r && r[c.id] == ToApplied(c))
    && (forall c | c in cs && c.op.Remove? :: c.id !in r)
    && (forall k | k !in IdsOf(cs) :: (k in r <==> k in m) && (k in m ==> r[k] == m[k]))
  }

  /** Two commands that leave the same connection, or none, under their id. */
  predicate SameEffect(a: Command, b: Command)
  {
    a.op == b.op && (a.op.Upsert? ==> ToApplied(a) == ToApplied(b))
  }

  /** Commands with the same id ask for the same thing. */
  ghost predicate Agreeing(cs: seq<Command>)
  {
    forall a, b | a in cs && b in cs && a.id == b.id :: SameEffect(a, b)
  }

  lemma DistinctAgree(cs: seq<Command>)
    requires DistinctIds(cs)
    ensures Agreeing(cs)
  {
    forall a, b | a in cs && b in cs && a.id == b.id ensures SameEffect(a, b) {
      var i :| 0 <= i < |cs| && cs[i] == a;
      var j :| 0 <= j < |cs| && cs[j] == b;
      assert i == j;
    }
  }

  lemma PointwiseStep(m: Matrix, pre: seq<Command>, last: Command, q: Matrix)
    requires Pointwise(m, pre, q) && forall c | c in pre && c.id == last.id :: SameEffect(c, last)
    ensures Pointwise(m, pre + [last], ApplyOne(q, last))
  {
    assert IdsOf(pre + [last]) == IdsOf(pre) + {last.id};
  }

  lemma {:induction false} ApplyAllPointwise(m: Matrix, cs: seq<Command>)
    requires Agreeing(cs)
    ensures Pointwise(m, cs, ApplyAll(m, cs))
  {
    if cs != [] {
      var n := |cs| - 1;
      assert cs == cs[..n] + [cs[n]];
      assert forall c | c in cs[..n] :: c in cs;
      ApplyAllPointwise(m, cs[..n]);
      PointwiseStep(m, cs[..n], cs[n], ApplyAll(m, cs[..n]));
    }
  }

  /** The batch leaves under an id what its last command for it asks for. */
  lemma LastWins(m: Matrix, cs: seq<Command>)
    requires cs != []
    ensures var c := cs[|cs| - 1];
      if c.op.Remove? then c.id !in ApplyAll(m, cs)
      else c.id in ApplyAll(m, cs) && ApplyAll(m, cs)[c.id] == ToApplied(c)
  {
  }

  lemma PointwiseUnique(m: Matrix, cs: seq<Command>, a: Matrix, b: Matrix)
    requires Pointwise(m, cs, a) && Pointwise(m, cs, b)
    ensures a == b
  {
    forall k ensures (k in a <==> k in b) && (k in a ==> a[k] == b[k]) {
      if k in IdsOf(cs) {
        var c :| c in cs && c.id == k;
      }
    }
  }

  /** For agreeing commands only the set of commands matters, not their order. */
  lemma ApplyAllOrderFree(m: Matrix, a: seq<Command>, b: seq<Command>)
    requires Agreeing(a) && forall c :: c in a <==> c in b
    ensures ApplyAll(m, a) == ApplyAll(m, b)
  {
    ApplyAllPointwise(m, a);
    ApplyAllPointwise(m, b);
    assert IdsOf(a) == IdsOf(b);
    assert Pointwise(m, a, ApplyAll(m, b));
    PointwiseUnique(m, a, ApplyAll(m, a), ApplyAll(m, b));
  }

  lemma SameMembers(a: seq<Command>, b: seq<Command>)
    requires multiset(a) == multiset(b)
    ensures forall c :: c in a <==> c in b
  {
    forall c ensures c in a <==> c in b {
      assert c in a <==> c in multiset(a);
      assert c in b <==> c in multiset(b);
    }
  }

  /** Every order of the batch gives the same matrix. */
  ghost predicate OrderFree(m: Matrix, cs: seq<Command>)
  {
    forall p | multiset(p) == multiset(cs) :: ApplyAll(m, p) == ApplyAll(m, cs)
  }

  /** Some order of the batch ends with the given member. */
  lemma MoveLast(cs: seq<Command>, c: Command) returns (p: seq<Command>)
    requires c in cs
    ensures multiset(p) == multiset(cs) && p != [] && p[|p| - 1] == c
  {
    var i :| 0 <= i < |cs| && cs[i] == c;
    p := cs[..i] + cs[i + 1..] + [c];
    assert cs == cs[..i] + [cs[i]] + cs[i + 1..];
  }

  /** The order of a batch does not matter exactly if commands with the same id ask for the same. */
  lemma OrderFreeIff(m: Matrix, cs: seq<Command>)
    ensures OrderFree(m, cs) <==> Agreeing(cs)
  {
    if Agreeing(cs) {
      forall p | multiset(p) == multiset(cs) ensures ApplyAll(m, p) == ApplyAll(m, cs) {
        SameMembers(p, cs);
        ApplyAllOrderFree(m, cs, p);
      }
    }
    if OrderFree(m, cs) {
      forall a, b | a in cs && b in cs && a.id == b.id ensures SameEffect(a, b) {
        var p := MoveLast(cs, a);
        var q := MoveLast(cs, b);
        LastWins(m, p);
        LastWins(m, q);
        assert ApplyAll(m, p) == ApplyAll(m, cs) == ApplyAll(m, q);
      }
    }
  }

  /** Connections keyed by their own non-empty id, on ports of an `nIn` x `nOut` device, no input
      and no output used twice: a partial bijection between inputs and outputs. */
  ghost predicate ValidMatrix(m: Matrix, nIn: nat, nOut: nat)
  {
    && (forall k | k in m :: k != "" && m[k].id == k && 1 <= m[k].input <= nIn && 1 <= m[k].output <= nOut)
    && Matching(m)
  }

  ghost predicate Matching(m: Matrix)
  {
    forall j, k | j in m && k in m && j != k :: m[j].input != m[k].input && m[j].output != m[k].output
  }
}
