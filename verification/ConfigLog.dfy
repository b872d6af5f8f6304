/** The log of batch configuration events and the matrix it replays to. */
module ConfigLog {
  import opened Connections

  /** One committed Set: all its commands carry the revision it created. */
  datatype Event = Event(version: nat, commands: seq<Command>)

  function Replay(log: seq<Event>): Matrix
  {
    if log == [] then map[] else ApplyAll(Replay(log[..|log| - 1]), log[|log| - 1].commands)
  }

  /** Event number `n` (from 0) as a Set produces it on top of matrix `before`. */
  ghost predicate EventOk(before: Matrix, n: nat, e: Event)
  {
    && e.version == n + 1
    && e.commands != [] && DistinctIds(e.commands)
    && (forall c | c in e.commands :: c.version == e.version && c.id != "" && (c.op.Remove? ==> c.id in before))
  }

  ghost predicate LogOk(log: seq<Event>)
  {
    forall i | 0 <= i < |log| :: EventOk(Replay(log[..i]), i, log[i])
  }

  ghost predicate AllPrefixesValid(log: seq<Event>, nIn: nat, nOut: nat)
  {
    forall j | 0 <= j <= |log| :: ValidMatrix(Replay(log[..j]), nIn, nOut)
  }

  lemma ReplayAppend(log: seq<Event>, e: Event)
    ensures Replay(log + [e]) == ApplyAll(Replay(log), e.commands)
  {
    assert (log + [e])[..|log|] == log;
  }

  lemma LogOkAppend(log: seq<Event>, e: Event)
    requires LogOk(log) && EventOk(Replay(log), |log|, e)
    ensures LogOk(log + [e])
  {
    var l := log + [e];
    forall i | 0 <= i < |l| ensures EventOk(Replay(l[..i]), i, l[i]) {
      if i < |log| { assert l[..i] == log[..i]; } else { assert l[..i] == log; }
    }
  }

  lemma PrefixesAppend(log: seq<Event>, e: Event, nIn: nat, nOut: nat)
    requires AllPrefixesValid(log, nIn, nOut) && ValidMatrix(Replay(log + [e]), nIn, nOut)
    ensures AllPrefixesValid(log + [e], nIn, nOut)
  {
    var l := log + [e];
    forall j | 0 <= j <= |l| ensures ValidMatrix(Replay(l[..j]), nIn, nOut) {
      if j <= |log| { assert l[..j] == log[..j]; } else { assert l[..j] == l; }
    }
  }

  lemma ReplayStep(log: seq<Event>, i: nat)
    requires i < |log|
    ensures Replay(log[..i + 1]) == ApplyAll(Replay(log[..i]), log[i].commands)
  {
    assert log[..i + 1][..i] == log[..i];
  }
}
