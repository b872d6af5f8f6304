/** The apply lifecycle of one connection and the transition into execution. */
module StatusMachine {
  import opened Ids
  import opened Connections

  datatype Status =
    | Absent | PendingCreate | Applying | Active | PendingUpdate | PendingDelete
    | Removing | Failed | RetryWait | Drifted | Reconciling

  predicate CanTransition(from: Status, to: Status)
  {
    match from
    case Absent => to == PendingCreate
    case PendingCreate => to == Applying || to == Failed
    case PendingUpdate => to == Applying || to == Failed
    case Applying => to == Active || to == Failed
    case Active => to == PendingUpdate || to == PendingDelete || to == Drifted
    case PendingDelete => to == Removing || to == Failed
    case Removing => to == Status.Absent || to == Failed
    case Failed => to == RetryWait
    case RetryWait => to == Applying || to == Removing
    case Drifted => to == Reconciling
    case Reconciling => to == Active || to == Failed
  }

  function Executing(op: Operation): Status
  {
    if op.Remove? then Removing else Applying
  }

  /** `startApplyTransition`; `None` is the exception thrown by `requireTransition`. */
  function StartApply(current: Status, op: Operation): Option<Status>
  {
    var executing := Executing(op);
    if current == Applying || current == Removing then Some(executing)
    else if current == Failed then
      if CanTransition(current, RetryWait) && CanTransition(RetryWait, executing) then Some(executing) else None
    else if current == RetryWait then
      if CanTransition(current, executing) then Some(executing) else None
    else
      var pending := if op.Remove? then PendingDelete
                     else if current == Absent then PendingCreate else PendingUpdate;
      if CanTransition(current, pending) && CanTransition(pending, executing) then Some(executing) else None
  }

  /** A path of at most two legal transitions. */
  ghost predicate Path(from: Status, to: Status)
  {
    CanTransition(from, to) || exists via :: CanTransition(from, via) && CanTransition(via, to)
  }

  /** Starting to execute throws exactly when there is nothing to remove or the connection is in
      the middle of something else; otherwise it follows legal transitions or replaces an
      execution that is still running. */
  lemma StartApplyThrowsIff(current: Status, op: Operation)
    ensures StartApply(current, op).None? <==>
      || (current == Absent && op.Remove?)
      || current in {PendingCreate, PendingUpdate, PendingDelete, Drifted, Reconciling}
    ensures StartApply(current, op).Some? ==>
      && StartApply(current, op).value == Executing(op)
      && (current in {Applying, Removing} || Path(current, Executing(op)))
  {
    assert CanTransition(Absent, PendingCreate) && CanTransition(PendingCreate, Applying);
    assert CanTransition(Active, PendingUpdate) && CanTransition(PendingUpdate, Applying);
    assert CanTransition(Active, PendingDelete) && CanTransition(PendingDelete, Removing);
    assert CanTransition(Failed, RetryWait) && CanTransition(RetryWait, Executing(op));
  }

  /** The same table read backwards: from where each status can be entered. */
  lemma EnteredFrom(from: Status, to: Status)
    ensures CanTransition(from, to) <==>
      || (to == PendingCreate && from == Absent)
      || (to in {PendingUpdate, PendingDelete, Drifted} && from == Active)
      || (to == Applying && from in {PendingCreate, PendingUpdate, RetryWait})
      || (to == Removing && from in {PendingDelete, RetryWait})
      || (to == Active && from in {Applying, Reconciling})
      || (to == Absent && from == Removing)
      || (to == Reconciling && from == Drifted)
      || (to == RetryWait && from == Failed)
      || (to == Failed && from in {PendingCreate, PendingUpdate, PendingDelete, Applying, Removing, Reconciling})
  {
  }
}
