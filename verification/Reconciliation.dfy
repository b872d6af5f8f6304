/** Reconciling a device: read its connections, plan against the desired state, apply the plan, look again. */
module Reconciliation {
  import opened Connections
  import opened DeviceModel
  import opened SimulatedDevice
  import opened Reconciler

  datatype Outcome = Converged | Refused(error: ErrorCode) | Repeated

  lemma DistinctIsDistinct(cs: seq<Command>)
    ensures Distinct(cs, CommandId) <==> DistinctIds(cs)
  {
    if Distinct(cs, CommandId) {
      forall i, j | 0 <= i < j < |cs| ensures cs[i].id != cs[j].id { assert CommandId(cs[i]) != CommandId(cs[j]); }
    }
  }

  lemma EntriesDistinct(m: Matrix)
    requires forall k | k in m :: m[k].id == k
    ensures Distinct(Entries(m), AppliedId)
  {
    EntriesMembers(m);
  }

  /** What the plan says about a device that holds `m`. */
  method PlanFor(d: SimulatedOcsDevice, desired: seq<Command>) returns (commands: seq<Command>, drifts: seq<Drift>)
    requires d.Valid() && DistinctIds(desired)
    ensures IsPlan(desired, Entries(d.connections), commands, drifts)
  {
    var actual := d.GetConnections();
    DistinctIsDistinct(desired);
    EntriesDistinct(d.connections);
    var plan := BuildReconciliationPlan(desired, actual);
    return plan.commands, plan.drifts;
  }

  /** One round on a device with no one-shot fault armed and an operation id it has not seen. It
      converges exactly if nothing had drifted or the desired state is reconcilable, and then the
      device holds exactly the desired connections; otherwise it holds what it held. */
  method ReconcileDevice(d: SimulatedOcsDevice, desired: seq<Command>, operationId: string) returns (o: Outcome)
    requires d.Valid() && AllUpserts(desired)
    modifies d
    ensures d.Valid()
    ensures o.Repeated? <==> !DistinctIds(desired)
    ensures o.Converged? ==> d.connections == DesiredMatrix(desired)
    ensures !o.Converged? ==> d.connections == old(d.connections)
    ensures DistinctIds(desired) && !old(d.failNext) && !old(d.timeoutNext) && operationId !in old(d.results) ==>
      (o.Converged? <==> old(d.connections) == DesiredMatrix(desired) || Reconcilable(old(d.CoreState()), desired))
  {
    DistinctIsDistinct(desired);
    var actual := d.GetConnections();
    EntriesDistinct(d.connections);
    var plan := BuildReconciliationPlan(desired, actual);
    if plan.DuplicateIds? {
      return Repeated;
    }
    NoDriftIffSame(desired, d.connections, plan.commands, plan.drifts);
    if plan.drifts == [] {
      return Converged;
    }
    ghost var core := d.CoreState();
    var r := d.ApplyConnections(plan.commands, operationId, true);
    var commands, drifts := PlanFor(d, desired);
    NoDriftIffSame(desired, d.connections, commands, drifts);
    RoundConverges(core, desired, plan.commands, plan.drifts);
    if drifts == [] {
      o := Converged;
    } else {
      o := Refused(r.error);
    }
  }

  lemma RoundConverges(d: Core, desired: seq<Command>, commands: seq<Command>, drifts: seq<Drift>)
    requires CoreInv(d) && AllUpserts(desired) && DistinctIds(desired)
    requires IsPlan(desired, Entries(d.conns), commands, drifts)
    ensures var (d', r) := Execute(d, commands, true);
      && (r.error != Ok ==> d'.conns == d.conns)
      && (r.error == Ok ==> d'.conns == DesiredMatrix(desired))
      && (!d.failNext && !d.timeoutNext ==> (r.error == Ok <==> Reconcilable(d, desired)))
  {
    ExecuteEffect(d, commands, true);
    PlanAcceptedIff(d, desired, commands, drifts);
    PlanYieldsDesired(d.conns, desired, commands, drifts);
  }
}
