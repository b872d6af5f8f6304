/** gNMI Set: operations are applied in the order delete, replace, update to a candidate, and the
complete candidate is validated before anything is kept. */
module SetTransaction {
  import opened Ids

  const ENABLED := "ENABLED"

  datatype OpKind = Delete | Replace | Update

  datatype Values = Values(input: Option<nat>, output: Option<nat>, admin: Option<string>)

  datatype SetOp = SetOp(kind: OpKind, id: string, values: Values)

  /** A stored connection; timestamps are not modelled. */
  datatype Config = Config(input: nat, output: nat, admin: string, version: nat)

  /** A connection while operations are being applied. */
  datatype Draft = Draft(input: Option<nat>, output: Option<nat>, admin: string)

  type Configs = map<string, Config>
  type Drafts = map<string, Draft>

  datatype SetError = InvalidRequest | PortConflict

  datatype Change = Change(id: string, config: Option<Config>)

  datatype Candidate = Accepted(changes: seq<Change>, finalized: Configs) | Rejected(error: SetError)

  // ---------------------------------------------------------------- request order

  /** The operations of a request in the order section 3.4 of the gNMI Specification gives them. */
  function PlanOf(deletes: seq<string>, replacements: seq<(string, Values)>, updates: seq<(string, Values)>): seq<SetOp>
  {
    Deletes(deletes) + Keyed(Replace, replacements) + Keyed(Update, updates)
  }

  function Deletes(ids: seq<string>): seq<SetOp>
  {
    if ids == [] then [] else Deletes(ids[..|ids| - 1]) + [SetOp(Delete, ids[|ids| - 1], Values(None, None, None))]
  }

  function Keyed(kind: OpKind, items: seq<(string, Values)>): seq<SetOp>
  {
    if items == [] then []
    else
      var n := |items| - 1;
      Keyed(kind, items[..n]) + [SetOp(kind, items[n].0, items[n].1)]
  }

  // ---------------------------------------------------------------- applying operations

  function DraftOf(c: Config): Draft
  {
    Draft(Some(c.input), Some(c.output), c.admin)
  }

  function DraftsOf(current: Configs): Drafts
  {
    map k | k in current :: DraftOf(current[k])
  }

  function Replaced(v: Values): Draft
  {
    Draft(v.input, v.output, if v.admin.Some? then v.admin.value else ENABLED)
  }

  function Overlay(d: Draft, v: Values): Draft
  {
    Draft(if v.input.Some? then v.input else d.input,
          if v.output.Some? then v.output else d.output,
          if v.admin.Some? then v.admin.value else d.admin)
  }

  function Get(w: Drafts, id: string): Option<Draft>
  {
    if id in w then Some(w[id]) else None
  }

  function Updated(before: Option<Draft>, v: Values): Draft
  {
    Overlay(if before.Some? then before.value else Draft(None, None, ENABLED), v)
  }

  function ApplyOp(w: Drafts, op: SetOp): Drafts
  {
    match op.kind
    case Delete => w - {op.id}
    case Replace => w[op.id := Replaced(op.values)]
    case Update => w[op.id := Updated(Get(w, op.id), op.values)]
  }

  function ApplyOps(w: Drafts, ops: seq<SetOp>): Drafts
  {
    if ops == [] then w else ApplyOp(ApplyOps(w, ops[..|ops| - 1]), ops[|ops| - 1])
  }

  /** The ids a plan names, in order of first mention. */
  function Touched(ops: seq<SetOp>): seq<string>
  {
    if ops == [] then []
    else
      var before, id := Touched(ops[..|ops| - 1]), ops[|ops| - 1].id;
      if id in before then before else before + [id]
  }

  // ---------------------------------------------------------------- the law of a Set

  function LastReplace(items: seq<(string, Values)>, id: string): Option<Draft>
  {
    if items == [] then None
    else if items[|items| - 1].0 == id then Some(Replaced(items[|items| - 1].1))
    else LastReplace(items[..|items| - 1], id)
  }

  function AllUpdates(before: Option<Draft>, items: seq<(string, Values)>, id: string): Option<Draft>
  {
    if items == [] then before
    else
      var d := AllUpdates(before, items[..|items| - 1], id);
      if items[|items| - 1].0 == id then Some(Updated(d, items[|items| - 1].1)) else d
  }

  lemma {:induction false} ApplyOpsConcat(w: Drafts, a: seq<SetOp>, b: seq<SetOp>)
    ensures ApplyOps(w, a + b) == ApplyOps(ApplyOps(w, a), b)
  {
    if b == [] {
      assert a + b == a;
    } else {
      ApplyOpsConcat(w, a, b[..|b| - 1]);
      assert (a + b)[..|a + b| - 1] == a + b[..|b| - 1];
    }
  }

  lemma {:induction false} AfterDeletes(w: Drafts, ids: seq<string>, id: string)
    ensures Get(ApplyOps(w, Deletes(ids)), id) == if id in ids then None else Get(w, id)
  {
    if ids != [] {
      var n := |ids| - 1;
      AfterDeletes(w, ids[..n], id);
      var ops := Deletes(ids);
      assert ops[..|ops| - 1] == Deletes(ids[..n]);
      assert ids == ids[..n] + [ids[n]];
    }
  }

  lemma {:induction false} AfterReplaces(w: Drafts, items: seq<(string, Values)>, id: string)
    ensures Get(ApplyOps(w, Keyed(Replace, items)), id) ==
      if LastReplace(items, id).Some? then LastReplace(items, id) else Get(w, id)
  {
    if items != [] {
      AfterReplaces(w, items[..|items| - 1], id);
      var ops := Keyed(Replace, items);
      assert ops[..|ops| - 1] == Keyed(Replace, items[..|items| - 1]);
    }
  }

  lemma {:induction false} AfterUpdates(w: Drafts, items: seq<(string, Values)>, id: string)
    ensures Get(ApplyOps(w, Keyed(Update, items)), id) == AllUpdates(Get(w, id), items, id)
  {
    if items != [] {
      AfterUpdates(w, items[..|items| - 1], id);
      var ops := Keyed(Update, items);
      assert ops[..|ops| - 1] == Keyed(Update, items[..|items| - 1]);
    }
  }

  /** What a whole request means for one connection, whatever it says about others: the last
      replace wins over a delete, which wins over the stored value, and updates are overlaid. */
  lemma SetLaw(current: Configs, deletes: seq<string>, replacements: seq<(string, Values)>,
               updates: seq<(string, Values)>, id: string)
    ensures Get(ApplyOps(DraftsOf(current), PlanOf(deletes, replacements, updates)), id) ==
      AllUpdates(
        if LastReplace(replacements, id).Some? then LastReplace(replacements, id)
        else if id in deletes then None
        else Get(DraftsOf(current), id),
        updates, id)
  {
    var w := DraftsOf(current);
    var d, r, u := Deletes(deletes), Keyed(Replace, replacements), Keyed(Update, updates);
    ApplyOpsConcat(w, d + r, u);
    ApplyOpsConcat(w, d, r);
    AfterDeletes(w, deletes, id);
    AfterReplaces(ApplyOps(w, d), replacements, id);
    AfterUpdates(ApplyOps(w, d + r), updates, id);
  }

  // ---------------------------------------------------------------- validation

  predicate InRange(d: Draft, nIn: nat, nOut: nat)
  {
    d.input.Some? && d.output.Some? && 1 <= d.input.value <= nIn && 1 <= d.output.value <= nOut
  }

  ghost predicate Complete(w: Drafts, nIn: nat, nOut: nat)
  {
    forall k | k in w :: InRange(w[k], nIn, nOut)
  }

  ghost predicate NoConflict(w: Drafts)
  {
    forall j, k | j in w && k in w && j != k ::
      (w[j].input.Some? ==> w[j].input != w[k].input) && (w[j].output.Some? ==> w[j].output != w[k].output)
  }

  ghost predicate Admissible(w: Drafts, nIn: nat, nOut: nat)
  {
    Complete(w, nIn, nOut) && NoConflict(w)
  }

  /** The candidate snapshot: a named connection gets the new revision, others keep theirs. */
  function Finalize(current: Configs, w: Drafts, touched: seq<string>, revision: nat): Configs
  {
    map k | k in w && w[k].input.Some? && w[k].output.Some? && (k in touched || k in current) ::
      Config(w[k].input.value, w[k].output.value, w[k].admin, if k in touched then revision else current[k].version)
  }

  predicate SameConfig(a: Config, b: Config)
  {
    a.input == b.input && a.output == b.output && a.admin == b.admin
  }

  /** The changes to store, in order of first mention; a named connection whose final value is the
      stored one is not a change. */
  function Changes(current: Configs, finalized: Configs, touched: seq<string>): seq<Change>
  {
    if touched == [] then []
    else
      var before := Changes(current, finalized, touched[..|touched| - 1]);
      var id := touched[|touched| - 1];
      if id !in current && id !in finalized then before
      else if id in current && id in finalized && SameConfig(current[id], finalized[id]) then before
      else before + [Change(id, if id in finalized then Some(finalized[id]) else None)]
  }

  /** What a Set computes from a snapshot, up to which of several faults is reported. */
  ghost predicate IsCandidate(current: Configs, ops: seq<SetOp>, revision: nat, nIn: nat, nOut: nat, r: Candidate)
  {
    var w := ApplyOps(DraftsOf(current), ops);
    && (r.Accepted? <==> Admissible(w, nIn, nOut))
    && (r.Accepted? ==>
          && r.finalized == Finalize(current, w, Touched(ops), revision)
          && r.changes == Changes(current, r.finalized, Touched(ops)))
    && (r == Rejected(InvalidRequest) ==> !Complete(w, nIn, nOut))
    && (r == Rejected(PortConflict) ==> !NoConflict(w))
  }

  method BuildCandidate(current: Configs, ops: seq<SetOp>, revision: nat, nIn: nat, nOut: nat) returns (r: Candidate)
    requires "" !in current && forall i | 0 <= i < |ops| :: ops[i].id != ""
    ensures IsCandidate(current, ops, revision, nIn, nOut, r)
  {
    var working, touched := ApplyOperations(current, ops);
    OnlyTouchedChange(DraftsOf(current), ops);
    var error := Validate(working, nIn, nOut);
    if error.Some? {
      return Rejected(error.value);
    }
    var finalized := map k | k in working && working[k].input.Some? && working[k].output.Some?
                             && (k in touched || k in current) ::
      Config(working[k].input.value, working[k].output.value, working[k].admin,
             if k in touched then revision else current[k].version);
    var changes := CollectChanges(current, finalized, touched);
    r := Accepted(changes, finalized);
  }

  method ApplyOperations(current: Configs, ops: seq<SetOp>) returns (working: Drafts, touched: seq<string>)
    requires "" !in current && forall i | 0 <= i < |ops| :: ops[i].id != ""
    ensures working == ApplyOps(DraftsOf(current), ops) && touched == Touched(ops) && "" !in working
  {
    working, touched := map k | k in current :: DraftOf(current[k]), [];
    for i := 0 to |ops|
      invariant working == ApplyOps(DraftsOf(current), ops[..i]) && touched == Touched(ops[..i]) && "" !in working
    {
      assert ops[..i + 1][..i] == ops[..i];
      var op := ops[i];
      if op.id !in touched {
        touched := touched + [op.id];
      }
      if op.kind.Delete? {
        working := working - {op.id};
      } else if op.kind.Replace? {
        working := working[op.id := Replaced(op.values)];
      } else {
        var draft := if op.id in working then working[op.id] else Draft(None, None, ENABLED);
        working := working[op.id := Overlay(draft, op.values)];
      }
    }
    assert ops[..|ops|] == ops;
  }

  predicate Seen(working: Drafts, todo: set<string>, k: string)
  {
    k in working && k !in todo
  }

  /** The connections looked at so far are in range, and each port they use is recorded under their id. */
  ghost predicate Occupied(working: Drafts, todo: set<string>, nIn: nat, nOut: nat, inputs: map<nat, string>,
                           outputs: map<nat, string>)
  {
    && (forall k | Seen(working, todo, k) :: InRange(working[k], nIn, nOut)
          && working[k].input.value in inputs && inputs[working[k].input.value] == k
          && working[k].output.value in outputs && outputs[working[k].output.value] == k)
    && (forall p | p in inputs :: Seen(working, todo, inputs[p]) && working[inputs[p]].input == Some(p))
    && (forall p | p in outputs :: Seen(working, todo, outputs[p]) && working[outputs[p]].output == Some(p))
  }

  lemma OccupyOne(working: Drafts, todo: set<string>, nIn: nat, nOut: nat, inputs: map<nat, string>,
                  outputs: map<nat, string>, id: string)
    requires Occupied(working, todo, nIn, nOut, inputs, outputs) && id in working && id in todo
    requires InRange(working[id], nIn, nOut)
    requires working[id].input.value !in inputs && working[id].output.value !in outputs
    ensures Occupied(working, todo - {id}, nIn, nOut,
                     inputs[working[id].input.value := id], outputs[working[id].output.value := id])
  {
    forall k | Seen(working, todo - {id}, k) ensures k == id || Seen(working, todo, k) {}
  }

  lemma OccupiedIsAdmissible(working: Drafts, nIn: nat, nOut: nat, inputs: map<nat, string>, outputs: map<nat, string>)
    requires Occupied(working, {}, nIn, nOut, inputs, outputs)
    ensures Admissible(working, nIn, nOut)
  {
    forall k | k in working ensures Seen(working, {}, k) {}
  }

  /** A port in use is in use by another connection. */
  lemma PortTaken(working: Drafts, todo: set<string>, nIn: nat, nOut: nat, inputs: map<nat, string>,
                  outputs: map<nat, string>, id: string)
    requires Occupied(working, todo, nIn, nOut, inputs, outputs) && id in working && id in todo
    requires InRange(working[id], nIn, nOut)
    ensures working[id].input.value in inputs || working[id].output.value in outputs ==> !NoConflict(working)
    ensures working[id].input.value in inputs ==> inputs[working[id].input.value] in working
    ensures working[id].output.value in outputs ==> outputs[working[id].output.value] in working
  {
    if working[id].input.value in inputs { assert inputs[working[id].input.value] != id; }
    if working[id].output.value in outputs { assert outputs[working[id].output.value] != id; }
  }

  /** The occupancy check. As in the source a port counts as taken only if the id recorded for it
      is not the empty string, which is why ids must not be empty. */
  method Validate(working: Drafts, nIn: nat, nOut: nat) returns (error: Option<SetError>)
    requires "" !in working
    ensures error.None? <==> Admissible(working, nIn, nOut)
    ensures error == Some(InvalidRequest) ==> !Complete(working, nIn, nOut)
    ensures error == Some(PortConflict) ==> !NoConflict(working)
  {
    var inputs: map<nat, string>, outputs: map<nat, string> := map[], map[];
    var todo := working.Keys;
    while todo != {}
      invariant todo <= working.Keys
      invariant Occupied(working, todo, nIn, nOut, inputs, outputs)
      decreases |todo|
    {
      var id := Min(todo);
      var d := working[id];
      if !InRange(d, nIn, nOut) {
        return Some(InvalidRequest);
      }
      PortTaken(working, todo, nIn, nOut, inputs, outputs, id);
      if d.input.value in inputs && inputs[d.input.value] != "" {
        return Some(PortConflict);
      }
      if d.output.value in outputs && outputs[d.output.value] != "" {
        return Some(PortConflict);
      }
      OccupyOne(working, todo, nIn, nOut, inputs, outputs, id);
      inputs := inputs[d.input.value := id];
      outputs := outputs[d.output.value := id];
      todo := todo - {id};
    }
    OccupiedIsAdmissible(working, nIn, nOut, inputs, outputs);
    return None;
  }

  method CollectChanges(current: Configs, finalized: Configs, touched: seq<string>) returns (changes: seq<Change>)
    ensures changes == Changes(current, finalized, touched)
  {
    changes := [];
    for i := 0 to |touched|
      invariant changes == Changes(current, finalized, touched[..i])
    {
      assert touched[..i + 1][..i] == touched[..i];
      var id := touched[i];
      if id !in current && id !in finalized {
        continue;
      }
      if id in current && id in finalized && SameConfig(current[id], finalized[id]) {
        continue;
      }
      changes := changes + [Change(id, if id in finalized then Some(finalized[id]) else None)];
    }
    assert touched[..|touched|] == touched;
  }

  // ---------------------------------------------------------------- consequences

  lemma {:induction false} TouchedAre(ops: seq<SetOp>)
    ensures forall id :: id in Touched(ops) <==> exists i :: 0 <= i < |ops| && ops[i].id == id
    ensures forall i, j | 0 <= i < j < |Touched(ops)| :: Touched(ops)[i] != Touched(ops)[j]
  {
    if ops != [] {
      var n := |ops| - 1;
      TouchedAre(ops[..n]);
      forall id ensures id in Touched(ops) <==> exists i :: 0 <= i < |ops| && ops[i].id == id {
        if id in Touched(ops) {
          if id in Touched(ops[..n]) {
            var i :| 0 <= i < n && ops[..n][i].id == id;
            assert ops[i].id == id;
          } else {
            assert ops[n].id == id;
          }
        }
        if i :| 0 <= i < |ops| && ops[i].id == id {
          if i < n { assert ops[..n][i].id == id; }
        }
      }
    }
  }

  lemma {:induction false} OnlyTouchedChange(w: Drafts, ops: seq<SetOp>)
    ensures forall id | id !in Touched(ops) :: Get(ApplyOps(w, ops), id) == Get(w, id)
  {
    if ops != [] {
      OnlyTouchedChange(w, ops[..|ops| - 1]);
    }
  }

  ghost predicate DistinctChanges(chs: seq<Change>)
  {
    forall i, j | 0 <= i < j < |chs| :: chs[i].id != chs[j].id
  }

  ghost predicate ChangeFor(current: Configs, finalized: Configs, id: string)
  {
    !(id !in current && id !in finalized) &&
    !(id in current && id in finalized && SameConfig(current[id], finalized[id]))
  }

  lemma {:induction false} ChangesAre(current: Configs, finalized: Configs, touched: seq<string>)
    requires forall i, j | 0 <= i < j < |touched| :: touched[i] != touched[j]
    ensures DistinctChanges(Changes(current, finalized, touched))
    ensures forall ch | ch in Changes(current, finalized, touched) ::
      && ch.id in touched && ChangeFor(current, finalized, ch.id)
      && ch.config == if ch.id in finalized then Some(finalized[ch.id]) else None
    ensures forall id | id in touched && ChangeFor(current, finalized, id) ::
      exists ch :: ch in Changes(current, finalized, touched) && ch.id == id
  {
    if touched != [] {
      var n := |touched| - 1;
      var pre, id := Changes(current, finalized, touched[..n]), touched[n];
      ChangesAre(current, finalized, touched[..n]);
      var chs := Changes(current, finalized, touched);
      assert touched == touched[..n] + [id];
      assert id !in touched[..n];
      assert forall i | 0 <= i < |pre| :: pre[i] in pre && pre[i].id in touched[..n];
      var last := Change(id, if id in finalized then Some(finalized[id]) else None);
      assert chs == pre || chs == pre + [last];
      forall k | k in touched && ChangeFor(current, finalized, k) ensures exists ch :: ch in chs && ch.id == k {
        if k == id {
          assert chs == pre + [last] && last in chs;
        } else {
          var ch :| ch in pre && ch.id == k;
          assert ch in chs;
        }
      }
    }
  }

  function ApplyChanges(m: Configs, chs: seq<Change>): Configs
  {
    if chs == [] then m
    else
      var before, ch := ApplyChanges(m, chs[..|chs| - 1]), chs[|chs| - 1];
      if ch.config.Some? then before[ch.id := ch.config.value] else before - {ch.id}
  }

  lemma {:induction false} ChangedAt(m: Configs, chs: seq<Change>, i: nat)
    requires DistinctChanges(chs) && i < |chs|
    ensures if chs[i].config.Some?
            then chs[i].id in ApplyChanges(m, chs) && ApplyChanges(m, chs)[chs[i].id] == chs[i].config.value
            else chs[i].id !in ApplyChanges(m, chs)
  {
    if i < |chs| - 1 { ChangedAt(m, chs[..|chs| - 1], i); }
  }

  lemma {:induction false} UnchangedAt(m: Configs, chs: seq<Change>, k: string)
    requires forall i | 0 <= i < |chs| :: chs[i].id != k
    ensures (k in ApplyChanges(m, chs) <==> k in m) && (k in m ==> ApplyChanges(m, chs)[k] == m[k])
  {
    if chs != [] { UnchangedAt(m, chs[..|chs| - 1], k); }
  }

  /** Storing the changes of an accepted candidate leaves its ids with its ports; a named but
      unchanged connection keeps its stored version. */
  lemma StoredIsFinalized(current: Configs, ops: seq<SetOp>, revision: nat, nIn: nat, nOut: nat, r: Candidate)
    requires IsCandidate(current, ops, revision, nIn, nOut, r) && r.Accepted?
    ensures var stored := ApplyChanges(current, r.changes);
      && (forall k :: k in stored <==> k in r.finalized)
      && (forall k | k in stored :: SameConfig(stored[k], r.finalized[k]))
      && (forall k | k in stored :: stored[k].version == revision || (k in current && stored[k] == current[k]))
  {
    var w, touched := ApplyOps(DraftsOf(current), ops), Touched(ops);
    TouchedAre(ops);
    OnlyTouchedChange(DraftsOf(current), ops);
    ChangesAre(current, r.finalized, touched);
    var stored := ApplyChanges(current, r.changes);
    forall k
      ensures k in stored <==> k in r.finalized
      ensures k in stored ==> SameConfig(stored[k], r.finalized[k])
      ensures k in stored ==> stored[k].version == revision || (k in current && stored[k] == current[k])
    {
      if i :| 0 <= i < |r.changes| && r.changes[i].id == k {
        assert r.changes[i] in r.changes;
        ChangedAt(current, r.changes, i);
      } else {
        UnchangedAt(current, r.changes, k);
        if k !in touched { assert Get(w, k) == Get(DraftsOf(current), k); }
      }
    }
  }
}
