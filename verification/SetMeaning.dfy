/** What a Set request means for one connection, field by field.

The laws read the request's three lists directly: the last update that carries a field decides it,
then the last replace, then what is stored, unless the connection was deleted. */
module SetMeaning {
  import opened Ids
  import opened SetTransaction
  import opened ConfigStore

  type Items = seq<(string, Values)>

  // ---------------------------------------------------------------- who decides a field

  ghost predicate Named(items: Items, id: string)
  {
    exists i :: 0 <= i < |items| && items[i].0 == id
  }

  ghost predicate LastNamed(items: Items, id: string, i: int)
  {
    0 <= i < |items| && items[i].0 == id && forall j | i < j < |items| :: items[j].0 != id
  }

  ghost predicate HasInput(items: Items, id: string)
  {
    exists i :: 0 <= i < |items| && items[i].0 == id && items[i].1.input.Some?
  }

  ghost predicate LastInput(items: Items, id: string, i: int)
  {
    && 0 <= i < |items| && items[i].0 == id && items[i].1.input.Some?
    && forall j | i < j < |items| && items[j].0 == id :: items[j].1.input.None?
  }

  ghost predicate HasOutput(items: Items, id: string)
  {
    exists i :: 0 <= i < |items| && items[i].0 == id && items[i].1.output.Some?
  }

  ghost predicate LastOutput(items: Items, id: string, i: int)
  {
    && 0 <= i < |items| && items[i].0 == id && items[i].1.output.Some?
    && forall j | i < j < |items| && items[j].0 == id :: items[j].1.output.None?
  }

  ghost predicate HasAdmin(items: Items, id: string)
  {
    exists i :: 0 <= i < |items| && items[i].0 == id && items[i].1.admin.Some?
  }

  ghost predicate LastAdmin(items: Items, id: string, i: int)
  {
    && 0 <= i < |items| && items[i].0 == id && items[i].1.admin.Some?
    && forall j | i < j < |items| && items[j].0 == id :: items[j].1.admin.None?
  }

  datatype Request = Request(deletes: seq<string>, replacements: Items, updates: Items)

  function OpsOf(q: Request): seq<SetOp>
  {
    PlanOf(q.deletes, q.replacements, q.updates)
  }

  /** The stored connection is still there when the replaces and updates come. */
  predicate Survives(current: Configs, q: Request, id: string)
  {
    id in current && id !in q.deletes
  }

  ghost predicate Exists(current: Configs, q: Request, id: string)
  {
    Named(q.updates, id) || Named(q.replacements, id) || Survives(current, q, id)
  }

  ghost predicate InputIs(current: Configs, q: Request, id: string, x: Option<nat>)
  {
    && (forall i | LastInput(q.updates, id, i) :: x == q.updates[i].1.input)
    && (!HasInput(q.updates, id) ==>
          && (forall i | LastNamed(q.replacements, id, i) :: x == q.replacements[i].1.input)
          && (!Named(q.replacements, id) ==>
                x == if Survives(current, q, id) then Some(current[id].input) else None))
  }

  ghost predicate OutputIs(current: Configs, q: Request, id: string, x: Option<nat>)
  {
    && (forall i | LastOutput(q.updates, id, i) :: x == q.updates[i].1.output)
    && (!HasOutput(q.updates, id) ==>
          && (forall i | LastNamed(q.replacements, id, i) :: x == q.replacements[i].1.output)
          && (!Named(q.replacements, id) ==>
                x == if Survives(current, q, id) then Some(current[id].output) else None))
  }

  ghost predicate AdminIs(current: Configs, q: Request, id: string, x: string)
  {
    && (forall i | LastAdmin(q.updates, id, i) :: Some(x) == q.updates[i].1.admin)
    && (!HasAdmin(q.updates, id) ==>
          && (forall i | LastNamed(q.replacements, id, i) ::
                if q.replacements[i].1.admin.Some? then Some(x) == q.replacements[i].1.admin else x == "ENABLED")
          && (!Named(q.replacements, id) ==>
                x == if Survives(current, q, id) then current[id].admin else "ENABLED"))
  }

  // ---------------------------------------------------------------- a last item exists

  lemma {:induction false} SomeLast(items: Items, id: string)
    ensures Named(items, id) ==> exists i :: LastNamed(items, id, i)
    ensures HasInput(items, id) ==> exists i :: LastInput(items, id, i)
    ensures HasOutput(items, id) ==> exists i :: LastOutput(items, id, i)
    ensures HasAdmin(items, id) ==> exists i :: LastAdmin(items, id, i)
  {
    if items != [] {
      var n := |items| - 1;
      var pre := items[..n];
      SomeLast(pre, id);
      assert forall i | 0 <= i < n :: pre[i] == items[i];
      if items[n].0 == id {
        assert LastNamed(items, id, n);
        if items[n].1.input.Some? { assert LastInput(items, id, n); }
        if items[n].1.output.Some? { assert LastOutput(items, id, n); }
        if items[n].1.admin.Some? { assert LastAdmin(items, id, n); }
      }
      forall i | 0 <= i < n
        ensures LastNamed(pre, id, i) && items[n].0 != id ==> LastNamed(items, id, i)
        ensures LastInput(pre, id, i) && (items[n].0 != id || items[n].1.input.None?) ==> LastInput(items, id, i)
        ensures LastOutput(pre, id, i) && (items[n].0 != id || items[n].1.output.None?) ==> LastOutput(items, id, i)
        ensures LastAdmin(pre, id, i) && (items[n].0 != id || items[n].1.admin.None?) ==> LastAdmin(items, id, i)
      {
      }
    }
  }

  // ---------------------------------------------------------------- the updates of one connection

  /** What the last item of a list adds to the predicates over the items before it. */
  lemma NamedGrows(items: Items, id: string)
    requires items != []
    ensures var n := |items| - 1; Named(items, id) <==> Named(items[..n], id) || items[n].0 == id
  {
    var n := |items| - 1;
    if i :| 0 <= i < |items| && items[i].0 == id {
      if i < n { assert items[..n][i].0 == id; }
    }
    if i :| 0 <= i < n && items[..n][i].0 == id { assert items[i].0 == id; }
  }

  lemma {:induction false} UpdatesExist(before: Option<Draft>, items: Items, id: string)
    ensures AllUpdates(before, items, id).Some? <==> before.Some? || Named(items, id)
  {
    if items != [] {
      UpdatesExist(before, items[..|items| - 1], id);
      NamedGrows(items, id);
    }
  }

  lemma {:induction false} UpdatedInput(before: Option<Draft>, items: Items, id: string)
    requires AllUpdates(before, items, id).Some?
    ensures forall i | LastInput(items, id, i) :: AllUpdates(before, items, id).value.input == items[i].1.input
    ensures !HasInput(items, id) ==>
      AllUpdates(before, items, id).value.input == if before.Some? then before.value.input else None
  {
    if items != [] {
      var n := |items| - 1;
      var pre := items[..n];
      assert forall i | 0 <= i < n :: pre[i] == items[i];
      if AllUpdates(before, pre, id).Some? {
        UpdatedInput(before, pre, id);
      } else {
        UpdatesExist(before, pre, id);
      }
      forall i | LastInput(items, id, i) ensures AllUpdates(before, items, id).value.input == items[i].1.input {
        if i < n {
          assert LastInput(pre, id, i) && Named(pre, id);
          UpdatesExist(before, pre, id);
        }
      }
    }
  }

  lemma {:induction false} UpdatedOutput(before: Option<Draft>, items: Items, id: string)
    requires AllUpdates(before, items, id).Some?
    ensures forall i | LastOutput(items, id, i) :: AllUpdates(before, items, id).value.output == items[i].1.output
    ensures !HasOutput(items, id) ==>
      AllUpdates(before, items, id).value.output == if before.Some? then before.value.output else None
  {
    if items != [] {
      var n := |items| - 1;
      var pre := items[..n];
      assert forall i | 0 <= i < n :: pre[i] == items[i];
      if AllUpdates(before, pre, id).Some? {
        UpdatedOutput(before, pre, id);
      } else {
        UpdatesExist(before, pre, id);
      }
      forall i | LastOutput(items, id, i) ensures AllUpdates(before, items, id).value.output == items[i].1.output {
        if i < n {
          assert LastOutput(pre, id, i) && Named(pre, id);
          UpdatesExist(before, pre, id);
        }
      }
    }
  }

  lemma {:induction false} UpdatedAdmin(before: Option<Draft>, items: Items, id: string)
    requires AllUpdates(before, items, id).Some?
    ensures forall i | LastAdmin(items, id, i) :: Some(AllUpdates(before, items, id).value.admin) == items[i].1.admin
    ensures !HasAdmin(items, id) ==>
      AllUpdates(before, items, id).value.admin == if before.Some? then before.value.admin else "ENABLED"
  {
    if items != [] {
      var n := |items| - 1;
      var pre := items[..n];
      assert forall i | 0 <= i < n :: pre[i] == items[i];
      if AllUpdates(before, pre, id).Some? {
        UpdatedAdmin(before, pre, id);
      } else {
        UpdatesExist(before, pre, id);
      }
      forall i | LastAdmin(items, id, i) ensures Some(AllUpdates(before, items, id).value.admin) == items[i].1.admin {
        if i < n {
          assert LastAdmin(pre, id, i) && Named(pre, id);
          UpdatesExist(before, pre, id);
        }
      }
    }
  }

  lemma {:induction false} ReplaceExists(items: Items, id: string)
    ensures LastReplace(items, id).Some? <==> Named(items, id)
  {
    if items != [] {
      ReplaceExists(items[..|items| - 1], id);
      NamedGrows(items, id);
    }
  }

  /** The last replace of a connection sets all its fields. */
  lemma {:induction false} ReplacedFields(items: Items, id: string, i: int)
    requires LastNamed(items, id, i)
    ensures var v := items[i].1;
      LastReplace(items, id) == Some(Draft(v.input, v.output, if v.admin.Some? then v.admin.value else "ENABLED"))
  {
    var n := |items| - 1;
    if i < n {
      assert LastNamed(items[..n], id, i);
      ReplacedFields(items[..n], id, i);
    }
  }

  // ---------------------------------------------------------------- the law

  /** After a request a connection is there exactly if an update or a replace names it or it was
      stored and not deleted. Each of its fields is the one in the last update carrying it, else
      the one in the last replace (ENABLED if that leaves out the admin status), else the stored
      one; an update of a connection that is not there starts without ports and ENABLED. */
  lemma SetFields(current: Configs, q: Request, id: string)
    ensures var w := ApplyOps(DraftsOf(current), OpsOf(q));
      && (id in w <==> Exists(current, q, id))
      && (id in w ==>
            && InputIs(current, q, id, w[id].input)
            && OutputIs(current, q, id, w[id].output)
            && AdminIs(current, q, id, w[id].admin))
  {
    var w := ApplyOps(DraftsOf(current), OpsOf(q));
    SetLaw(current, q.deletes, q.replacements, q.updates, id);
    var before :=
      if LastReplace(q.replacements, id).Some? then LastReplace(q.replacements, id)
      else if id in q.deletes then None
      else Get(DraftsOf(current), id);
    assert Get(w, id) == AllUpdates(before, q.updates, id);
    BeforeUpdates(current, q, id, before);
    UpdatesExist(before, q.updates, id);
    if id in w {
      UpdatedInput(before, q.updates, id);
      UpdatedOutput(before, q.updates, id);
      UpdatedAdmin(before, q.updates, id);
    }
  }

  lemma BeforeUpdates(current: Configs, q: Request, id: string, before: Option<Draft>)
    requires before ==
      if LastReplace(q.replacements, id).Some? then LastReplace(q.replacements, id)
      else if id in q.deletes then None
      else Get(DraftsOf(current), id)
    ensures before.Some? <==> Named(q.replacements, id) || Survives(current, q, id)
    ensures forall i | LastNamed(q.replacements, id, i) ::
      && before.Some?
      && before.value.input == q.replacements[i].1.input
      && before.value.output == q.replacements[i].1.output
      && if q.replacements[i].1.admin.Some? then Some(before.value.admin) == q.replacements[i].1.admin
         else before.value.admin == "ENABLED"
    ensures !Named(q.replacements, id) && Survives(current, q, id) ==>
      before == Some(Draft(Some(current[id].input), Some(current[id].output), current[id].admin))
  {
    ReplaceExists(q.replacements, id);
    forall i | LastNamed(q.replacements, id, i)
      ensures before == Some(Draft(q.replacements[i].1.input, q.replacements[i].1.output,
                                   if q.replacements[i].1.admin.Some? then q.replacements[i].1.admin.value
                                   else "ENABLED"))
    {
      ReplacedFields(q.replacements, id, i);
    }
  }

  /** The fields the law gives a connection are unique. */
  lemma FieldsAreDetermined(current: Configs, q: Request, id: string, d: Draft, e: Draft)
    requires InputIs(current, q, id, d.input) && InputIs(current, q, id, e.input)
    requires OutputIs(current, q, id, d.output) && OutputIs(current, q, id, e.output)
    requires AdminIs(current, q, id, d.admin) && AdminIs(current, q, id, e.admin)
    ensures d == e
  {
    SomeLast(q.updates, id);
    SomeLast(q.replacements, id);
  }

  // ---------------------------------------------------------------- what is accepted and stored

  /** A request is accepted exactly if every connection it leaves has both ports within the counts and
      no two of them share one. */
  lemma AcceptedIffPlaced(current: Configs, q: Request, revision: nat, nIn: nat, nOut: nat, r: Candidate)
    requires IsCandidate(current, OpsOf(q), revision, nIn, nOut, r)
    ensures var w := ApplyOps(DraftsOf(current), OpsOf(q));
      r.Accepted? <==>
        && (forall k | k in w ::
              && w[k].input.Some? && 1 <= w[k].input.value <= nIn
              && w[k].output.Some? && 1 <= w[k].output.value <= nOut)
        && (forall j, k | j in w && k in w && j != k :: w[j].input != w[k].input && w[j].output != w[k].output)
  {
    var w := ApplyOps(DraftsOf(current), OpsOf(q));
    assert Complete(w, nIn, nOut) <==> forall k | k in w ::
      && w[k].input.Some? && 1 <= w[k].input.value <= nIn
      && w[k].output.Some? && 1 <= w[k].output.value <= nOut;
    if Complete(w, nIn, nOut) {
      forall j, k | j in w && k in w && j != k ensures w[j].input.Some? && w[j].output.Some? {
        assert InRange(w[j], nIn, nOut);
      }
    }
  }

  /** What an accepted request leaves in the store: exactly the connections of the law, with its
      fields; one whose fields are the stored ones keeps its version, any other gets the new one. */
  ghost predicate Leaves(current: Configs, q: Request, revision: nat, stored: Configs)
  {
    forall id ::
      && (id in stored <==> Exists(current, q, id))
      && (id in stored ==>
            && InputIs(current, q, id, Some(stored[id].input))
            && OutputIs(current, q, id, Some(stored[id].output))
            && AdminIs(current, q, id, stored[id].admin)
            && stored[id].version ==
               if && id in current && current[id].input == stored[id].input
                  && current[id].output == stored[id].output && current[id].admin == stored[id].admin
               then current[id].version else revision)
  }

  lemma StoredAre(current: Configs, ops: seq<SetOp>, revision: nat, nIn: nat, nOut: nat, r: Candidate, id: string)
    requires IsCandidate(current, ops, revision, nIn, nOut, r) && r.Accepted?
    ensures var w, stored := ApplyOps(DraftsOf(current), ops), ApplyChanges(current, r.changes);
      && (id in stored <==> id in w)
      && (id in stored ==>
            && w[id] == Draft(Some(stored[id].input), Some(stored[id].output), stored[id].admin)
            && stored[id].version ==
               if && id in current && current[id].input == stored[id].input
                  && current[id].output == stored[id].output && current[id].admin == stored[id].admin
               then current[id].version else revision)
  {
    var w, touched := ApplyOps(DraftsOf(current), ops), Touched(ops);
    TouchedAre(ops);
    OnlyTouchedChange(DraftsOf(current), ops);
    assert id !in touched ==> Get(w, id) == Get(DraftsOf(current), id);
    ChangesAre(current, r.finalized, touched);
    if i :| 0 <= i < |r.changes| && r.changes[i].id == id {
      assert r.changes[i] in r.changes;
      ChangedAt(current, r.changes, i);
    } else {
      UnchangedAt(current, r.changes, id);
    }
  }

  lemma AcceptedLeaves(current: Configs, q: Request, revision: nat, nIn: nat, nOut: nat, r: Candidate)
    requires IsCandidate(current, OpsOf(q), revision, nIn, nOut, r) && r.Accepted?
    ensures Leaves(current, q, revision, ApplyChanges(current, r.changes))
  {
    forall id
      ensures var stored := ApplyChanges(current, r.changes);
        && (id in stored <==> Exists(current, q, id))
        && (id in stored ==>
              && InputIs(current, q, id, Some(stored[id].input))
              && OutputIs(current, q, id, Some(stored[id].output))
              && AdminIs(current, q, id, stored[id].admin)
              && stored[id].version ==
                 if && id in current && current[id].input == stored[id].input
                    && current[id].output == stored[id].output && current[id].admin == stored[id].admin
                 then current[id].version else revision)
    {
      SetFields(current, q, id);
      StoredAre(current, OpsOf(q), revision, nIn, nOut, r, id);
    }
  }

  /** An accepted request changes nothing, and is answered without a commit, exactly if the law leaves
      every connection as it is stored. */
  lemma UnchangedIff(current: Configs, q: Request, revision: nat, nIn: nat, nOut: nat, r: Candidate)
    requires IsCandidate(current, OpsOf(q), revision, nIn, nOut, r) && r.Accepted?
    ensures r.changes == [] <==> Leaves(current, q, revision, current)
  {
    AcceptedLeaves(current, q, revision, nIn, nOut, r);
    if r.changes != [] && Leaves(current, q, revision, current) {
      var ch := r.changes[0];
      TouchedAre(OpsOf(q));
      ChangesAre(current, r.finalized, Touched(OpsOf(q)));
      assert ch in r.changes && ChangeFor(current, r.finalized, ch.id);
      StoredAre(current, OpsOf(q), revision, nIn, nOut, r, ch.id);
      SetFields(current, q, ch.id);
      ChangedAt(current, r.changes, 0);
      var stored := ApplyChanges(current, r.changes);
      assert ch.id in stored && ch.id in current;
      FieldsAreDetermined(current, q, ch.id,
                          Draft(Some(stored[ch.id].input), Some(stored[ch.id].output), stored[ch.id].admin),
                          Draft(Some(current[ch.id].input), Some(current[ch.id].output), current[ch.id].admin));
      assert false;
    }
  }

  /** Under any interleaving of concurrent Sets, the step in which a client commits its request
      leaves exactly what the law says about the connections stored right before that step. */
  lemma CommitLeaves(maxRetries: nat, actions: seq<Action>, a: Action, q: Request)
    requires var s := Run(Init(maxRetries), actions); Commits(s, a) && s.clients[a.c].ops == OpsOf(q)
    ensures var s := Run(Init(maxRetries), actions);
      Leaves(s.conns, q, s.revision + 1, Step(s, a).conns)
  {
    var s := Run(Init(maxRetries), actions);
    SetIsAtomic(maxRetries, actions, a);
    var r := CandidateOf(s.conns, OpsOf(q), s.revision + 1, s.ports.value);
    AcceptedLeaves(s.conns, q, s.revision + 1, s.ports.value.0, s.ports.value.1, r);
  }

  // ---------------------------------------------------------------- what a client is told

  ghost predicate Placed(current: Configs, q: Request, nIn: nat, nOut: nat)
  {
    var w := ApplyOps(DraftsOf(current), OpsOf(q));
    && (forall k | k in w ::
          && w[k].input.Some? && 1 <= w[k].input.value <= nIn
          && w[k].output.Some? && 1 <= w[k].output.value <= nOut)
    && (forall j, k | j in w && k in w && j != k :: w[j].input != w[k].input && w[j].output != w[k].output)
  }

  /** What a client finds out when it has read a snapshot nobody wrote to meanwhile: it is refused exactly
      if a port is disabled or the connections the request leaves cannot be placed; it is told that
      nothing changes exactly if the request leaves what is stored; else it goes on to commit changes
      that lead to what the law says. */
  lemma AnswerLaw(maxRetries: nat, actions: seq<Action>, a: Action, q: Request)
    requires var s := Run(Init(maxRetries), actions);
      && a.Next? && a.c in s.clients && s.clients[a.c].Loaded? && s.clients[a.c].at == s.touches
      && s.clients[a.c].ops == OpsOf(q)
    ensures Run(Init(maxRetries), actions).ports.Some?
    ensures var s := Run(Init(maxRetries), actions);
      var ports, next := s.ports.value, Step(s, a).clients[a.c];
      && (next == Finished(Refused) <==> !a.portsEnabled || !Placed(s.conns, q, ports.0, ports.1))
      && (next == Finished(Unchanged) <==>
            && a.portsEnabled && Placed(s.conns, q, ports.0, ports.1)
            && Leaves(s.conns, q, s.revision + 1, s.conns))
      && (next.Finished? || (next.Ready? && Leaves(s.conns, q, s.revision + 1, ApplyChanges(s.conns, next.changes))))
  {
    InvOverRuns(maxRetries, actions);
    var s := Run(Init(maxRetries), actions);
    assert ClientOk(s, s.clients[a.c]);
    var ports := s.ports.value;
    var r := CandidateOf(s.conns, OpsOf(q), s.revision + 1, ports);
    AcceptedIffPlaced(s.conns, q, s.revision + 1, ports.0, ports.1, r);
    if r.Accepted? {
      UnchangedIff(s.conns, q, s.revision + 1, ports.0, ports.1, r);
      AcceptedLeaves(s.conns, q, s.revision + 1, ports.0, ports.1, r);
    }
  }

  /** A client gives up only when an EXEC was beaten by another write and no try is left; with tries left
      it starts over, watching from now on. */
  lemma LostRace(maxRetries: nat, actions: seq<Action>, a: Action)
    requires var s := Run(Init(maxRetries), actions); a.Next? && a.c in s.clients && s.clients[a.c].Ready?
    ensures var s, next := Run(Init(maxRetries), actions), Step(Run(Init(maxRetries), actions), a).clients[a.c];
      var c := s.clients[a.c];
      && (next.Finished? && next.outcome.Committed? <==> s.touches == c.at && !a.portKeyWritten)
      && (next == Finished(GaveUp) <==> (s.touches > c.at || a.portKeyWritten) && c.attempt + 1 >= maxRetries)
      && (next.Watching? ==> next == Watching(c.ops, c.attempt + 1, s.touches))
      && (next.Finished? || next.Watching?)
  {
    InvOverRuns(maxRetries, actions);
    var s := Run(Init(maxRetries), actions);
    TriesFixed(Init(maxRetries), actions);
    assert ClientOk(s, s.clients[a.c]);
  }

  lemma {:induction false} TriesFixed(s: Store, actions: seq<Action>)
    ensures Run(s, actions).maxRetries == s.maxRetries
  {
    if actions != [] { TriesFixed(s, actions[..|actions| - 1]); }
  }

  // ---------------------------------------------------------------- the order of changes

  ghost predicate FirstMention(ops: seq<SetOp>, id: string, i: int)
  {
    0 <= i < |ops| && ops[i].id == id && forall j | 0 <= j < i :: ops[j].id != id
  }

  lemma {:induction false} TouchedInOrder(ops: seq<SetOp>, a: nat, b: nat, i: int, j: int)
    requires a < b < |Touched(ops)| && FirstMention(ops, Touched(ops)[a], i) && FirstMention(ops, Touched(ops)[b], j)
    ensures i < j
  {
    var n := |ops| - 1;
    var pre := Touched(ops[..n]);
    TouchedAre(ops[..n]);
    assert Touched(ops)[a] == pre[a];
    assert pre[a] in pre;
    var k :| 0 <= k < n && ops[..n][k].id == pre[a];
    assert ops[k].id == pre[a] && FirstMention(ops[..n], pre[a], i);
    if b < |pre| {
      assert pre[b] in pre;
      var l :| 0 <= l < n && ops[..n][l].id == pre[b];
      assert ops[l].id == pre[b] && FirstMention(ops[..n], pre[b], j);
      TouchedInOrder(ops[..n], a, b, i, j);
    } else {
      assert ops[..n][i].id == pre[a];
      assert forall l | 0 <= l < n :: ops[..n][l].id == ops[l].id;
    }
  }

  lemma {:induction false} ChangesFollow(current: Configs, finalized: Configs, touched: seq<string>, a: nat, b: nat)
    returns (x: nat, y: nat)
    requires a < b < |Changes(current, finalized, touched)|
    ensures x < y < |touched|
    ensures touched[x] == Changes(current, finalized, touched)[a].id
    ensures touched[y] == Changes(current, finalized, touched)[b].id
  {
    var n := |touched| - 1;
    var pre := Changes(current, finalized, touched[..n]);
    if b < |pre| {
      x, y := ChangesFollow(current, finalized, touched[..n], a, b);
    } else {
      x := ChangeFrom(current, finalized, touched[..n], a);
      y := n;
    }
  }

  lemma {:induction false} ChangeFrom(current: Configs, finalized: Configs, touched: seq<string>, a: nat)
    returns (x: nat)
    requires a < |Changes(current, finalized, touched)|
    ensures x < |touched| && touched[x] == Changes(current, finalized, touched)[a].id
  {
    var n := |touched| - 1;
    if a < |Changes(current, finalized, touched[..n])| {
      x := ChangeFrom(current, finalized, touched[..n], a);
    } else {
      x := n;
    }
  }

  /** The changes of a request come in the order in which its operations first mention them. */
  lemma ChangesInOrder(current: Configs, ops: seq<SetOp>, revision: nat, nIn: nat, nOut: nat, r: Candidate,
                       a: nat, b: nat, i: int, j: int)
    requires IsCandidate(current, ops, revision, nIn, nOut, r) && r.Accepted? && a < b < |r.changes|
    requires FirstMention(ops, r.changes[a].id, i) && FirstMention(ops, r.changes[b].id, j)
    ensures i < j
  {
    var x, y := ChangesFollow(current, r.finalized, Touched(ops), a, b);
    TouchedInOrder(ops, x, y, i, j);
  }
}
