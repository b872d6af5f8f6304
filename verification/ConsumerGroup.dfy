/** A stream read through a consumer group that allows one pending entry.

Consumers only use `claimPending` (two commands: look at the pending list, then claim) and the
atomic "read unless something is pending" script, both for one entry at a time. Any number of
consumers interleave; a consumer may crash and forget what it holds at any point. */
module ConsumerGroup {
  type Consumer = nat

  /** Entries are named by their position in the stream. */
  datatype Group = Group(
    length: nat,
    delivered: nat,
    pending: map<nat, Consumer>,
    acked: set<nat>,
    scanned: map<Consumer, nat>,
    held: map<Consumer, set<nat>>)

  datatype Action =
    | Append
    | ReadIfNoPending(c: Consumer)
    | ScanPending(c: Consumer, id: nat)
    | Claim(c: Consumer, idleLongEnough: bool)
    | Ack(c: Consumer, id: nat)
    | Crash(c: Consumer)

  function Held(g: Group, c: Consumer): set<nat>
  {
    if c in g.held then g.held[c] else {}
  }

  function Step(g: Group, a: Action): Group
  {
    match a
    case Append => g.(length := g.length + 1)
    case ReadIfNoPending(c) =>
      if g.pending.Keys == {} && g.delivered < g.length then
        g.(pending := g.pending[g.delivered := c],
           held := g.held[c := Held(g, c) + {g.delivered}],
           delivered := g.delivered + 1)
      else g
    case ScanPending(c, id) =>
      if id in g.pending then g.(scanned := g.scanned[c := id]) else g
    case Claim(c, idle) =>
      if c in g.scanned then
        var id := g.scanned[c];
        if id in g.pending && idle then
          g.(pending := g.pending[id := c], held := g.held[c := Held(g, c) + {id}], scanned := g.scanned - {c})
        else g.(scanned := g.scanned - {c})
      else g
    case Ack(c, id) =>
      if id in Held(g, c) then
        g.(pending := g.pending - {id},
           acked := if id in g.pending then g.acked + {id} else g.acked,
           held := g.held[c := Held(g, c) - {id}])
      else g
    case Crash(c) => g.(scanned := g.scanned - {c}, held := g.held - {c})
  }

  function Run(g: Group, actions: seq<Action>): Group
  {
    if actions == [] then g else Step(Run(g, actions[..|actions| - 1]), actions[|actions| - 1])
  }

  const Init := Group(0, 0, map[], {}, map[], map[])

  ghost predicate Prefix(s: set<nat>, n: nat)
  {
    forall i: nat :: i in s <==> i < n
  }

  /** How many entries have been acknowledged. */
  function Done(g: Group): int
  {
    if g.pending.Keys == {} then g.delivered else g.delivered - 1
  }

  ghost predicate Inv(g: Group)
  {
    && g.delivered <= g.length
    && (g.pending.Keys == {} || (g.delivered > 0 && g.pending.Keys == {g.delivered - 1}))
    && Prefix(g.acked, Done(g))
  }

  lemma StepKeepsInv(g: Group, a: Action)
    requires Inv(g)
    ensures Inv(Step(g, a))
  {
    match a
    case ReadIfNoPending(c) =>
      assert g.pending[g.delivered := c].Keys == g.pending.Keys + {g.delivered};
    case Claim(c, idle) =>
      if c in g.scanned && g.scanned[c] in g.pending {
        assert g.pending[g.scanned[c] := c].Keys == g.pending.Keys;
      }
    case Ack(c, id) =>
      assert (g.pending - {id}).Keys == g.pending.Keys - {id};
    case _ =>
  }

  /** Over every run: at most one entry is pending and the acknowledged entries are a prefix of the
      stream that the pending entry, if any, directly follows. */
  lemma {:induction false} SerializedDelivery(actions: seq<Action>)
    ensures var g := Run(Init, actions);
      && Inv(g)
      && |g.pending| <= 1
      && Prefix(g.acked, Done(g))
      && forall i | i in g.pending :: i == Done(g)
  {
    if actions != [] {
      SerializedDelivery(actions[..|actions| - 1]);
      StepKeepsInv(Run(Init, actions[..|actions| - 1]), actions[|actions| - 1]);
    }
    var g := Run(Init, actions);
    assert |g.pending| == |g.pending.Keys|;
  }

  /** An entry is handed out for the first time only after every earlier one was acknowledged, and
      it is handed out to one consumer. */
  lemma FirstDeliveryInOrder(actions: seq<Action>, a: Action)
    ensures var g, g' := Run(Init, actions), Step(Run(Init, actions), a);
      && g.delivered <= g'.delivered <= g.delivered + 1
      && (g'.delivered == g.delivered + 1 ==>
            && Prefix(g.acked, g.delivered)
            && a.ReadIfNoPending?
            && g'.pending == map[g.delivered := a.c])
      && g.acked <= g'.acked
  {
    SerializedDelivery(actions);
    var g := Run(Init, actions);
    if a.ReadIfNoPending? && g.pending.Keys == {} {
      assert g.pending == map[];
    }
  }
}
