/** CONFIG_DB under concurrent Sets.

Each Set is one client that issues Redis commands one at a time: WATCH, read the revision, list
the connection keys, read each connection hash, read the device record, validate, and finally
MULTI/EXEC. Any number of clients interleave at this granularity, so what a client has read may be
torn; EXEC succeeds only if no watched key was written since WATCH. The connection keys themselves
are not watched: every commit writes the watched revision key. */
module ConfigStore {
  import opened Ids
  import opened Connections
  import opened ConfigLog
  import opened SetTransaction

  datatype Outcome = Committed(version: nat) | Unchanged | Refused | GaveUp

  /** A client between two Redis commands, with everything it remembers. `at` is the number of
      writes to watched keys at the time of its WATCH. */
  datatype Client =
    | Watching(ops: seq<SetOp>, attempt: nat, at: nat)
    | HasRevision(ops: seq<SetOp>, attempt: nat, at: nat, rev: nat)
    | Loading(ops: seq<SetOp>, attempt: nat, at: nat, rev: nat, keys: set<string>, todo: set<string>, got: Configs)
    | Loaded(ops: seq<SetOp>, attempt: nat, at: nat, rev: nat, got: Configs, ports: (nat, nat))
    | Ready(ops: seq<SetOp>, attempt: nat, at: nat, rev: nat, changes: seq<Change>)
    | Finished(outcome: Outcome)

  datatype Store = Store(
    conns: Configs,
    revision: nat,
    log: seq<Event>,
    ports: Option<(nat, nat)>,
    touches: nat,
    clients: map<nat, Client>,
    maxRetries: nat)

  datatype Action =
    | Register(nIn: nat, nOut: nat)
    | Submit(c: nat, ops: seq<SetOp>)
    | Next(c: nat, pick: string, portsEnabled: bool, portKeyWritten: bool)

  /** The candidate a Set computes from a snapshot. */
  ghost function CandidateOf(current: Configs, ops: seq<SetOp>, revision: nat, ports: (nat, nat)): (r: Candidate)
    ensures IsCandidate(current, ops, revision, ports.0, ports.1, r)
  {
    var w := ApplyOps(DraftsOf(current), ops);
    if !Complete(w, ports.0, ports.1) then Rejected(InvalidRequest)
    else if !NoConflict(w) then Rejected(PortConflict)
    else
      var finalized := Finalize(current, w, Touched(ops), revision);
      Accepted(Changes(current, finalized, Touched(ops)), finalized)
  }

  function CommandOf(ch: Change, version: nat): Command
  {
    if ch.config.Some? then Command(Upsert, ch.id, ch.config.value.input, ch.config.value.output, version)
    else Command(Remove, ch.id, 0, 0, version)
  }

  function CommandsOf(chs: seq<Change>, version: nat): (cs: seq<Command>)
    ensures |cs| == |chs| && forall i | 0 <= i < |chs| :: cs[i] == CommandOf(chs[i], version)
  {
    if chs == [] then [] else CommandsOf(chs[..|chs| - 1], version) + [CommandOf(chs[|chs| - 1], version)]
  }

  /** The queued writes of one EXEC: snapshots, revision and one batch event, all or nothing. */
  function Commit(s: Store, rev: nat, changes: seq<Change>): Store
  {
    s.(conns := ApplyChanges(s.conns, changes),
       revision := rev + 1,
       log := s.log + [Event(rev + 1, CommandsOf(changes, rev + 1))],
       touches := s.touches + 1)
  }

  predicate NamedOps(ops: seq<SetOp>)
  {
    forall i | 0 <= i < |ops| :: ops[i].id != ""
  }

  ghost function ClientStep(s: Store, c: Client, a: Action): Client
    requires a.Next?
  {
    match c
    case Watching(ops, n, at) => HasRevision(ops, n, at, s.revision)
    case HasRevision(ops, n, at, rev) => Loading(ops, n, at, rev, s.conns.Keys, s.conns.Keys, map[])
    case Loading(ops, n, at, rev, keys, todo, got) =>
      if todo != {} then
        if a.pick !in todo then c
        else Loading(ops, n, at, rev, keys, todo - {a.pick},
                     if a.pick in s.conns then got[a.pick := s.conns[a.pick]] else got)
      else if s.ports.None? then Finished(Refused)
      else Loaded(ops, n, at, rev, got, s.ports.value)
    case Loaded(ops, n, at, rev, got, ports) =>
      var r := CandidateOf(got, ops, rev + 1, ports);
      if r.Rejected? || !a.portsEnabled then Finished(Refused)
      else if r.changes == [] then Finished(Unchanged)
      else Ready(ops, n, at, rev, r.changes)
    case Ready(ops, n, at, rev, changes) =>
      if s.touches == at && !a.portKeyWritten then Finished(Committed(rev + 1))
      else if n + 1 < s.maxRetries then Watching(ops, n + 1, s.touches)
      else Finished(GaveUp)
    case Finished(_) => c
  }

  predicate Commits(s: Store, a: Action)
  {
    a.Next? && a.c in s.clients && s.clients[a.c].Ready? && s.touches == s.clients[a.c].at && !a.portKeyWritten
  }

  ghost function Step(s: Store, a: Action): Store
  {
    match a
    case Register(nIn, nOut) =>
      if s.ports.None? && nIn > 0 && nOut > 0 then s.(ports := Some((nIn, nOut)), touches := s.touches + 1) else s
    case Submit(c, ops) =>
      if c !in s.clients && NamedOps(ops) then s.(clients := s.clients[c := Watching(ops, 0, s.touches)]) else s
    case Next(c, _, _, _) =>
      if c !in s.clients then s
      else
        var moved := s.clients[c := ClientStep(s, s.clients[c], a)];
        if Commits(s, a) then Commit(s, s.clients[c].rev, s.clients[c].changes).(clients := moved)
        else s.(clients := moved)
  }

  ghost function Run(s: Store, actions: seq<Action>): Store
  {
    if actions == [] then s else Step(Run(s, actions[..|actions| - 1]), actions[|actions| - 1])
  }

  function Init(maxRetries: nat): Store
  {
    Store(map[], 0, [], None, 0, map[], maxRetries)
  }

  // ---------------------------------------------------------------- invariant

  /** The stored snapshot in the terms of the device: ids, ports and versions. */
  function Strip(conns: Configs): Matrix
  {
    map k | k in conns :: Applied(k, conns[k].input, conns[k].output, conns[k].version)
  }

  ghost predicate StoreInv(s: Store)
  {
    && s.revision == |s.log| && LogOk(s.log)
    && Replay(s.log) == Strip(s.conns)
    && (forall k | k in s.conns :: 1 <= s.conns[k].version <= s.revision)
    && (s.ports.None? ==> s.log == [] && s.conns == map[])
    && (s.ports.Some? ==> AllPrefixesValid(s.log, s.ports.value.0, s.ports.value.1))
  }

  /** While nothing watched has been written, what the client has read is the store. */
  ghost predicate ClientOk(s: Store, c: Client)
  {
    match c
    case Watching(ops, _, at) => NamedOps(ops) && at <= s.touches
    case HasRevision(ops, _, at, rev) => NamedOps(ops) && at <= s.touches && (at == s.touches ==> rev == s.revision)
    case Loading(ops, _, at, rev, keys, todo, got) =>
      && NamedOps(ops) && at <= s.touches
      && (at == s.touches ==>
            && rev == s.revision && keys == s.conns.Keys && todo <= keys && got.Keys == keys - todo
            && (forall k | k in got :: got[k] == s.conns[k]))
    case Loaded(ops, _, at, rev, got, ports) =>
      && NamedOps(ops) && at <= s.touches
      && (at == s.touches ==> rev == s.revision && got == s.conns && s.ports == Some(ports))
    case Ready(ops, _, at, rev, changes) =>
      && NamedOps(ops) && at <= s.touches
      && (at == s.touches ==>
            && rev == s.revision && s.ports.Some? && changes != []
            && CandidateOf(s.conns, ops, rev + 1, s.ports.value).Accepted?
            && changes == CandidateOf(s.conns, ops, rev + 1, s.ports.value).changes)
    case Finished(_) => true
  }

  ghost predicate Inv(s: Store)
  {
    StoreInv(s) && forall c | c in s.clients :: ClientOk(s, s.clients[c])
  }

  // ---------------------------------------------------------------- a commit

  lemma StripOne(conns: Configs, ch: Change, version: nat)
    requires ch.config.Some? ==> ch.config.value.version == version
    ensures ApplyOne(Strip(conns), CommandOf(ch, version)) ==
      Strip(if ch.config.Some? then conns[ch.id := ch.config.value] else conns - {ch.id})
  {
  }

  lemma {:induction false} StripChanges(conns: Configs, chs: seq<Change>, version: nat)
    requires forall i | 0 <= i < |chs| && chs[i].config.Some? :: chs[i].config.value.version == version
    ensures Strip(ApplyChanges(conns, chs)) == ApplyAll(Strip(conns), CommandsOf(chs, version))
  {
    if chs != [] {
      var n := |chs| - 1;
      StripChanges(conns, chs[..n], version);
      StripOne(ApplyChanges(conns, chs[..n]), chs[n], version);
      var cs := CommandsOf(chs, version);
      assert cs[..n] == CommandsOf(chs[..n], version);
    }
  }

  /** What an accepted candidate changes, seen from the store. */
  lemma AcceptedChanges(conns: Configs, ops: seq<SetOp>, version: nat, ports: (nat, nat))
    requires NamedOps(ops) && CandidateOf(conns, ops, version, ports).Accepted?
    ensures var chs := CandidateOf(conns, ops, version, ports).changes;
      && DistinctChanges(chs)
      && (forall i | 0 <= i < |chs| ::
            && chs[i].id != ""
            && (chs[i].config.Some? ==> chs[i].config.value.version == version)
            && (chs[i].config.None? ==> chs[i].id in conns))
  {
    var r := CandidateOf(conns, ops, version, ports);
    TouchedAre(ops);
    ChangesAre(conns, r.finalized, Touched(ops));
    forall i | 0 <= i < |r.changes|
      ensures r.changes[i].id != ""
      ensures r.changes[i].config.Some? ==> r.changes[i].config.value.version == version
      ensures r.changes[i].config.None? ==> r.changes[i].id in conns
    {
      var ch := r.changes[i];
      assert ch in r.changes && ch.id in Touched(ops);
    }
  }

  lemma StoredMatching(conns: Configs, ops: seq<SetOp>, version: nat, ports: (nat, nat))
    requires CandidateOf(conns, ops, version, ports).Accepted? && NamedOps(ops) && "" !in conns
    ensures ValidMatrix(Strip(ApplyChanges(conns, CandidateOf(conns, ops, version, ports).changes)), ports.0, ports.1)
  {
    var r := CandidateOf(conns, ops, version, ports);
    StoredIsFinalized(conns, ops, version, ports.0, ports.1, r);
    var w, stored := ApplyOps(DraftsOf(conns), ops), ApplyChanges(conns, r.changes);
    forall k | k in stored
      ensures k != "" && k in w && w[k].input == Some(stored[k].input) && w[k].output == Some(stored[k].output)
    {
      assert k in r.finalized;
      TouchedAre(ops);
    }
  }

  lemma CommandsAreAnEvent(before: Matrix, chs: seq<Change>, n: nat)
    requires chs != [] && DistinctChanges(chs)
    requires forall i | 0 <= i < |chs| :: chs[i].id != "" && (chs[i].config.None? ==> chs[i].id in before)
    ensures EventOk(before, n, Event(n + 1, CommandsOf(chs, n + 1)))
  {
    var cs := CommandsOf(chs, n + 1);
    forall c | c in cs ensures c.version == n + 1 && c.id != "" && (c.op.Remove? ==> c.id in before) {
      var i :| 0 <= i < |cs| && cs[i] == c;
      assert c == CommandOf(chs[i], n + 1);
    }
  }

  lemma CommitEvent(s: Store, ops: seq<SetOp>)
    requires s.revision == |s.log| && Replay(s.log) == Strip(s.conns) && NamedOps(ops) && s.ports.Some?
    requires CandidateOf(s.conns, ops, s.revision + 1, s.ports.value).Accepted?
    requires CandidateOf(s.conns, ops, s.revision + 1, s.ports.value).changes != []
    ensures var chs := CandidateOf(s.conns, ops, s.revision + 1, s.ports.value).changes;
      EventOk(Replay(s.log), |s.log|, Event(s.revision + 1, CommandsOf(chs, s.revision + 1)))
  {
    AcceptedChanges(s.conns, ops, s.revision + 1, s.ports.value);
    CommandsAreAnEvent(Replay(s.log), CandidateOf(s.conns, ops, s.revision + 1, s.ports.value).changes, s.revision);
  }

  lemma NoEmptyId(s: Store)
    requires StoreInv(s) && s.ports.Some?
    ensures "" !in s.conns
  {
    assert s.log[..|s.log|] == s.log;
    assert forall k | k in s.conns :: k in Strip(s.conns);
  }

  lemma CommitReplays(s: Store, ops: seq<SetOp>, v: nat, chs: seq<Change>)
    requires Replay(s.log) == Strip(s.conns) && NamedOps(ops) && s.ports.Some?
    requires CandidateOf(s.conns, ops, v, s.ports.value).Accepted?
    requires chs == CandidateOf(s.conns, ops, v, s.ports.value).changes
    ensures Replay(s.log + [Event(v, CommandsOf(chs, v))]) == Strip(ApplyChanges(s.conns, chs))
  {
    AcceptedChanges(s.conns, ops, v, s.ports.value);
    StripChanges(s.conns, chs, v);
    ReplayAppend(s.log, Event(v, CommandsOf(chs, v)));
  }

  lemma CommitVersions(s: Store, ops: seq<SetOp>, v: nat, chs: seq<Change>)
    requires s.ports.Some? && v >= 1 && forall k | k in s.conns :: 1 <= s.conns[k].version <= v
    requires CandidateOf(s.conns, ops, v, s.ports.value).Accepted?
    requires chs == CandidateOf(s.conns, ops, v, s.ports.value).changes
    ensures forall k | k in ApplyChanges(s.conns, chs) :: 1 <= ApplyChanges(s.conns, chs)[k].version <= v
  {
    StoredIsFinalized(s.conns, ops, v, s.ports.value.0, s.ports.value.1, CandidateOf(s.conns, ops, v, s.ports.value));
  }

  lemma CommitKeepsStore(s: Store, ops: seq<SetOp>)
    requires StoreInv(s) && NamedOps(ops) && s.ports.Some?
    requires CandidateOf(s.conns, ops, s.revision + 1, s.ports.value).Accepted?
    requires CandidateOf(s.conns, ops, s.revision + 1, s.ports.value).changes != []
    ensures StoreInv(Commit(s, s.revision, CandidateOf(s.conns, ops, s.revision + 1, s.ports.value).changes))
  {
    var v := s.revision + 1;
    var chs := CandidateOf(s.conns, ops, v, s.ports.value).changes;
    var e := Event(v, CommandsOf(chs, v));
    CommitReplays(s, ops, v, chs);
    CommitEvent(s, ops);
    LogOkAppend(s.log, e);
    NoEmptyId(s);
    StoredMatching(s.conns, ops, v, s.ports.value);
    PrefixesAppend(s.log, e, s.ports.value.0, s.ports.value.1);
    CommitVersions(s, ops, v, chs);
  }

  // ---------------------------------------------------------------- every step

  lemma OthersSurvive(s: Store, s': Store, c: Client)
    requires ClientOk(s, c)
    requires s'.touches > s.touches
          || (s'.touches == s.touches && s'.conns == s.conns && s'.revision == s.revision && s'.ports == s.ports)
    ensures ClientOk(s', c)
  {
  }

  lemma ClientStepOk(s: Store, c: Client, a: Action)
    requires ClientOk(s, c) && a.Next? && !(c.Ready? && s.touches == c.at && !a.portKeyWritten)
    ensures ClientOk(s, ClientStep(s, c, a))
  {
    if c.Loading? && c.at == s.touches && c.todo == {} {
      assert c.got.Keys == s.conns.Keys;
      assert c.got == s.conns;
    }
  }

  ghost predicate SameOrWritten(s: Store, s': Store)
  {
    s'.touches > s.touches
    || (s'.touches == s.touches && s'.conns == s.conns && s'.revision == s.revision && s'.ports == s.ports)
  }

  lemma ClientsKept(s: Store, s': Store, moved: set<nat>)
    requires forall c | c in s.clients :: ClientOk(s, s.clients[c])
    requires SameOrWritten(s, s')
    requires forall c | c in s'.clients && c !in moved :: c in s.clients && s'.clients[c] == s.clients[c]
    requires forall c | c in s'.clients && c in moved :: ClientOk(s', s'.clients[c])
    ensures forall c | c in s'.clients :: ClientOk(s', s'.clients[c])
  {
    forall c | c in s'.clients ensures ClientOk(s', s'.clients[c]) {
      if c !in moved { OthersSurvive(s, s', s.clients[c]); }
    }
  }

  lemma RegisterKeepsInv(s: Store, a: Action)
    requires Inv(s) && a.Register?
    ensures Inv(Step(s, a))
  {
    var s' := Step(s, a);
    ClientsKept(s, s', {});
    if s' != s {
      assert s.log[..0] == [];
      assert AllPrefixesValid(s.log, a.nIn, a.nOut);
    }
  }

  lemma SubmitKeepsInv(s: Store, a: Action)
    requires Inv(s) && a.Submit?
    ensures Inv(Step(s, a))
  {
    ClientsKept(s, Step(s, a), {a.c});
  }

  lemma ReadKeepsInv(s: Store, a: Action)
    requires Inv(s) && a.Next? && a.c in s.clients && !Commits(s, a)
    ensures Inv(Step(s, a))
  {
    var s' := Step(s, a);
    ClientStepOk(s, s.clients[a.c], a);
    OthersSurvive(s, s', ClientStep(s, s.clients[a.c], a));
    ClientsKept(s, s', {a.c});
  }

  /** What the EXEC of a client with a clean WATCH does. */
  lemma CommitStep(s: Store, a: Action)
    requires Inv(s) && Commits(s, a)
    ensures s.ports.Some?
    ensures var r := CandidateOf(s.conns, s.clients[a.c].ops, s.revision + 1, s.ports.value);
      && r.Accepted? && r.changes != []
      && Step(s, a) ==
         Commit(s, s.revision, r.changes).(clients := s.clients[a.c := Finished(Committed(s.revision + 1))])
  {
    var c := s.clients[a.c];
    assert ClientOk(s, c);
    assert ClientStep(s, c, a) == Finished(Committed(c.rev + 1));
  }

  lemma ClientsDoNotMatter(s: Store, clients: map<nat, Client>)
    requires StoreInv(s)
    ensures StoreInv(s.(clients := clients))
  {
  }

  lemma FinishedClientsKept(s: Store, t: Store, c: nat, v: nat)
    requires (forall d | d in s.clients :: ClientOk(s, s.clients[d])) && StoreInv(t) && t.touches > s.touches
    ensures Inv(t.(clients := s.clients[c := Finished(Committed(v))]))
  {
    var s' := t.(clients := s.clients[c := Finished(Committed(v))]);
    ClientsDoNotMatter(t, s'.clients);
    ClientsKept(s, s', {c});
  }

  lemma CommitKeepsInv(s: Store, a: Action)
    requires Inv(s) && Commits(s, a)
    ensures Inv(Step(s, a))
  {
    var s', ops := Step(s, a), s.clients[a.c].ops;
    CommitStep(s, a);
    assert NamedOps(ops) by { assert ClientOk(s, s.clients[a.c]); }
    CommitKeepsStore(s, ops);
    var chs := CandidateOf(s.conns, ops, s.revision + 1, s.ports.value).changes;
    FinishedClientsKept(s, Commit(s, s.revision, chs), a.c, s.revision + 1);
  }

  lemma StepKeepsInv(s: Store, a: Action)
    requires Inv(s)
    ensures Inv(Step(s, a))
  {
    match a
    case Register(_, _) => RegisterKeepsInv(s, a);
    case Submit(_, _) => SubmitKeepsInv(s, a);
    case Next(c, _, _, _) =>
      if Commits(s, a) { CommitKeepsInv(s, a); } else if c in s.clients { ReadKeepsInv(s, a); }
  }

  lemma {:induction false} InvOverRuns(maxRetries: nat, actions: seq<Action>)
    ensures Inv(Run(Init(maxRetries), actions))
  {
    if actions != [] {
      InvOverRuns(maxRetries, actions[..|actions| - 1]);
      StepKeepsInv(Run(Init(maxRetries), actions[..|actions| - 1]), actions[|actions| - 1]);
    } else {
      assert Strip(map[]) == map[];
    }
  }

  /** Under any interleaving of concurrent Sets: revisions in the event stream are 1, 2, 3, ...,
      stored versions never exceed the revision, folding all events over the empty map gives
      exactly the stored ids, ports and versions, and these are a matching within the port
      counts, as was every earlier snapshot. */
  lemma LogReplaysToSnapshot(maxRetries: nat, actions: seq<Action>)
    ensures var s := Run(Init(maxRetries), actions);
      && s.revision == |s.log|
      && (forall i | 0 <= i < |s.log| :: s.log[i].version == i + 1)
      && (forall k | k in s.conns :: 1 <= s.conns[k].version <= s.revision)
      && Replay(s.log) == Strip(s.conns)
      && (s.ports.Some? ==> ValidMatrix(Strip(s.conns), s.ports.value.0, s.ports.value.1)
                            && AllPrefixesValid(s.log, s.ports.value.0, s.ports.value.1))
      && (s.ports.None? ==> s.conns == map[])
  {
    InvOverRuns(maxRetries, actions);
    var s := Run(Init(maxRetries), actions);
    assert s.log[..|s.log|] == s.log;
    forall i | 0 <= i < |s.log| ensures s.log[i].version == i + 1 {
      assert EventOk(Replay(s.log[..i]), i, s.log[i]);
    }
  }

  /** Only a client that reports success with a new version changes anything, and then the change
      is that of the whole Set applied atomically to the snapshot it found; a refused, unchanged
      or abandoned Set leaves connections, revision and log as they were. */
  lemma SetIsAtomic(maxRetries: nat, actions: seq<Action>, a: Action)
    ensures var s, s' := Run(Init(maxRetries), actions), Step(Run(Init(maxRetries), actions), a);
      && (!Commits(s, a) ==> s'.conns == s.conns && s'.revision == s.revision && s'.log == s.log)
      && (Commits(s, a) ==>
            && s.ports.Some?
            && s'.clients[a.c] == Finished(Committed(s.revision + 1))
            && var r := CandidateOf(s.conns, s.clients[a.c].ops, s.revision + 1, s.ports.value);
               && r.Accepted? && r.changes != []
               && s'.conns == ApplyChanges(s.conns, r.changes)
               && s'.revision == s.revision + 1
               && s'.log == s.log + [Event(s.revision + 1, CommandsOf(r.changes, s.revision + 1))])
  {
    InvOverRuns(maxRetries, actions);
    var s := Run(Init(maxRetries), actions);
    if Commits(s, a) { CommitStep(s, a); }
  }
}
