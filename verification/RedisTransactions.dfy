/** The optimistic "once" transactions of the Redis repository.

Every caller issues WATCH, EXISTS, HGET and EXEC as separate commands, and any number of callers
interleave between them. Each transaction is shown to take effect atomically, at most once per
marker key, or not at all. */
module RedisTransactions {
  import opened Ids
  import Runs

  const MAX_ATTEMPTS: nat := 8
  const VERSION := "desired_version"
  const MAX_LATENCY := "max_apply_latency_ms"
  const LAST_LATENCY := "last_apply_latency_ms"

  /** Markers and data never share a key. */
  datatype Key = Marker(name: string) | Data(name: string)

  datatype Val = Num(n: int) | Text(t: string)

  type Fields = map<string, Val>

  datatype Db = Db(hashes: map<Key, Fields>, streams: map<string, seq<string>>)

  datatype Op =
    | PutIfAbsent(marker: string, mark: Fields)
    | ReplaceAndAppend(marker: string, mark: Fields, key: string, fields: Fields, stream: string, event: string)
    | AppendOnce(marker: string, mark: Fields, stream: string, event: string)
    | IncrementOnce(marker: string, mark: Fields, key: string, increments: map<string, int>)
    | RecordApply(marker: string, mark: Fields, key: string, increments: map<string, int>, latency: nat)
    | PutVersioned(marker: string, mark: Fields, version: nat, hashes: seq<(string, Fields)>)

  /** One queued command of a MULTI block. */
  datatype Write =
    | Del(key: Key)
    | HMSet(key: Key, fields: Fields)
    | HIncrBy(key: Key, increments: map<string, int>)
    | XAdd(stream: string, event: string)

  // ---------------------------------------------------------------- reads and writes of an operation

  /** The fields an operation reads after its EXISTS, each on a key it watches. */
  function Reads(op: Op): seq<(Key, string)>
  {
    match op
    case RecordApply(_, _, key, _, _) => [(Data(key), MAX_LATENCY)]
    case PutVersioned(_, _, _, hashes) => seq(|hashes|, i requires 0 <= i < |hashes| => (Data(hashes[i].0), VERSION))
    case _ => []
  }

  function Watched(op: Op): seq<Key>
  {
    [Marker(op.marker)] + seq(|Reads(op)|, i requires 0 <= i < |Reads(op)| => Reads(op)[i].0)
  }

  function HGet(db: Db, key: Key, field: string): Option<Val>
  {
    if key in db.hashes && field in db.hashes[key] then Some(db.hashes[key][field]) else None
  }

  function AsNum(v: Option<Val>): int
  {
    if v.Some? && v.value.Num? then v.value.n else 0
  }

  function MaxOf(latency: int, existing: Option<Val>): int
  {
    if existing.Some? && AsNum(existing) > latency then AsNum(existing) else latency
  }

  predicate MayPublish(existing: Option<Val>, version: nat)
  {
    existing.None? || AsNum(existing) <= version
  }

  function Replace(key: Key, fields: Fields): seq<Write>
  {
    if fields == map[] then [Del(key)] else [Del(key), HMSet(key, fields)]
  }

  function PublishQueue(version: nat, hashes: seq<(string, Fields)>, vals: seq<Option<Val>>): seq<Write>
    requires |hashes| == |vals|
  {
    if hashes == [] then []
    else
      var n := |hashes| - 1;
      PublishQueue(version, hashes[..n], vals[..n])
      + if MayPublish(vals[n], version) then Replace(Data(hashes[n].0), hashes[n].1) else []
  }

  /** What the MULTI block contains, given the values that were read. */
  function Queue(op: Op, vals: seq<Option<Val>>): seq<Write>
    requires |vals| == |Reads(op)|
  {
    var mark := [HMSet(Marker(op.marker), op.mark)];
    match op
    case PutIfAbsent(_, _) => mark
    case ReplaceAndAppend(_, _, key, fields, stream, event) => Replace(Data(key), fields) + [XAdd(stream, event)] + mark
    case AppendOnce(_, _, stream, event) => [XAdd(stream, event)] + mark
    case IncrementOnce(_, _, key, increments) => [HIncrBy(Data(key), increments)] + mark
    case RecordApply(_, _, key, increments, latency) =>
      [HIncrBy(Data(key), increments),
       HMSet(Data(key), map[LAST_LATENCY := Num(latency), MAX_LATENCY := Num(MaxOf(latency, vals[0]))])] + mark
    case PutVersioned(_, _, version, hashes) => PublishQueue(version, hashes, vals) + mark
  }

  function FieldsAt(db: Db, key: Key): Fields
  {
    if key in db.hashes then db.hashes[key] else map[]
  }

  function Incremented(f: Fields, inc: map<string, int>): Fields
  {
    f + map x | x in inc && inc[x] != 0 :: Num((if x in f && f[x].Num? then f[x].n else 0) + inc[x])
  }

  function Stream(db: Db, stream: string): seq<string>
  {
    if stream in db.streams then db.streams[stream] else []
  }

  function Perform(db: Db, w: Write): Db
  {
    match w
    case Del(k) => db.(hashes := db.hashes - {k})
    case HMSet(k, fields) => db.(hashes := db.hashes[k := FieldsAt(db, k) + fields])
    case HIncrBy(k, inc) =>
      if forall x | x in inc :: inc[x] == 0 then db
      else db.(hashes := db.hashes[k := Incremented(FieldsAt(db, k), inc)])
    case XAdd(stream, event) => db.(streams := db.streams[stream := Stream(db, stream) + [event]])
  }

  function PerformAll(db: Db, q: seq<Write>): Db
  {
    if q == [] then db else Perform(PerformAll(db, q[..|q| - 1]), q[|q| - 1])
  }

  function Writes(q: seq<Write>): set<Key>
  {
    set w | w in q && !w.XAdd? :: w.key
  }

  function CurrentReads(db: Db, op: Op): (vals: seq<Option<Val>>)
    ensures |vals| == |Reads(op)|
  {
    seq(|Reads(op)|, i requires 0 <= i < |Reads(op)| => HGet(db, Reads(op)[i].0, Reads(op)[i].1))
  }

  /** The operation executed in one indivisible step. */
  function Atomic(db: Db, op: Op): Db
  {
    if Marker(op.marker) in db.hashes then db else PerformAll(db, Queue(op, CurrentReads(db, op)))
  }

  /** What callers supply: a non-empty marker. */
  predicate OpOk(op: Op)
  {
    op.mark != map[]
  }

  /** A hash of a versioned write names another version than its marker: the call throws. */
  predicate Mismatch(op: Op, i: nat)
    requires i < |Reads(op)|
  {
    op.PutVersioned? && VERSION in op.hashes[i].1 && op.hashes[i].1[VERSION] != Num(op.version)
  }

  // ---------------------------------------------------------------- interleaved callers

  datatype Outcome = Applied | AlreadyDone | Threw | Exhausted

  datatype Client =
    | Watching(op: Op, attempt: nat, at: seq<nat>)
    | Reading(op: Op, attempt: nat, at: seq<nat>, vals: seq<Option<Val>>)
    | Returned(op: Op, outcome: Outcome)

  /** `touched` counts the writes to each key; `history` lists who committed what, in order. */
  datatype State = State(db: Db, touched: map<Key, nat>, clients: map<nat, Client>, history: seq<(nat, Op)>)

  datatype Action = Call(c: nat, op: Op) | Next(c: nat)

  function Touches(touched: map<Key, nat>, k: Key): nat
  {
    if k in touched then touched[k] else 0
  }

  function AfterWrites(touched: map<Key, nat>, ks: set<Key>): map<Key, nat>
  {
    map k | k in touched.Keys + ks :: Touches(touched, k) + if k in ks then 1 else 0
  }

  /** No watched key has been written since it was watched. */
  predicate Clean(touched: map<Key, nat>, op: Op, at: seq<nat>)
  {
    |at| == |Watched(op)| && forall i | 0 <= i < |at| :: at[i] == Touches(touched, Watched(op)[i])
  }

  function Exec(s: State, c: nat, op: Op, vals: seq<Option<Val>>): State
    requires |vals| == |Reads(op)|
  {
    var q := Queue(op, vals);
    State(PerformAll(s.db, q),
          AfterWrites(s.touched, Writes(q)),
          s.clients[c := Returned(op, Applied)],
          s.history + [(c, op)])
  }

  function ClientStep(s: State, c: Client): Client
  {
    match c
    case Watching(op, n, at) =>
      if |at| < |Watched(op)| then Watching(op, n, at + [Touches(s.touched, Watched(op)[|at|])])
      else if Marker(op.marker) in s.db.hashes then Returned(op, AlreadyDone)
      else Reading(op, n, at, [])
    case Reading(op, n, at, vals) =>
      if |vals| < |Reads(op)| then
        if Mismatch(op, |vals|) then Returned(op, Threw)
        else Reading(op, n, at, vals + [HGet(s.db, Reads(op)[|vals|].0, Reads(op)[|vals|].1)])
      else if n + 1 < MAX_ATTEMPTS then Watching(op, n + 1, [])
      else Returned(op, Exhausted)
    case Returned(_, _) => c
  }

  predicate Commits(s: State, a: Action)
  {
    && a.Next? && a.c in s.clients && s.clients[a.c].Reading?
    && |s.clients[a.c].vals| == |Reads(s.clients[a.c].op)|
    && Clean(s.touched, s.clients[a.c].op, s.clients[a.c].at)
  }

  function Step(s: State, a: Action): State
  {
    match a
    case Call(c, op) =>
      if c !in s.clients && OpOk(op) then s.(clients := s.clients[c := Watching(op, 0, [])]) else s
    case Next(c) =>
      if c !in s.clients then s
      else if Commits(s, a) then Exec(s, c, s.clients[c].op, s.clients[c].vals)
      else s.(clients := s.clients[c := ClientStep(s, s.clients[c])])
  }

  function Run(s: State, actions: seq<Action>): State
  {
    if actions == [] then s else Step(Run(s, actions[..|actions| - 1]), actions[|actions| - 1])
  }

  function Init(db: Db): State
  {
    State(db, map[], map[], [])
  }

  // ---------------------------------------------------------------- invariant

  function ReplayOps(db: Db, history: seq<(nat, Op)>): Db
  {
    if history == [] then db else Atomic(ReplayOps(db, history[..|history| - 1]), history[|history| - 1].1)
  }

  /** Watched keys have been written at least as often as when they were watched. */
  ghost predicate WatchOk(touched: map<Key, nat>, op: Op, at: seq<nat>)
  {
    |at| <= |Watched(op)| && forall i | 0 <= i < |at| :: at[i] <= Touches(touched, Watched(op)[i])
  }

  /** If the marker has not been written since WATCH, it is still absent. */
  ghost predicate AbsentOk(db: Db, touched: map<Key, nat>, op: Op, at: seq<nat>)
  {
    |at| == |Watched(op)| && (at[0] == Touches(touched, Watched(op)[0]) ==> Watched(op)[0] !in db.hashes)
  }

  /** If a key has not been written since WATCH, what was read from it is still there. */
  ghost predicate ReadsOk(db: Db, touched: map<Key, nat>, op: Op, at: seq<nat>, vals: seq<Option<Val>>)
  {
    && |at| == |Watched(op)| && |vals| <= |Reads(op)|
    && forall i | 0 <= i < |vals| && at[i + 1] == Touches(touched, Reads(op)[i].0) ::
         vals[i] == HGet(db, Reads(op)[i].0, Reads(op)[i].1)
  }

  ghost predicate ClientOk(db: Db, touched: map<Key, nat>, c: Client)
  {
    && OpOk(c.op)
    && match c
       case Watching(op, n, at) => n < MAX_ATTEMPTS && WatchOk(touched, op, at)
       case Reading(op, n, at, vals) =>
         && n < MAX_ATTEMPTS && WatchOk(touched, op, at) && AbsentOk(db, touched, op, at)
         && ReadsOk(db, touched, op, at, vals) && forall i | 0 <= i < |vals| :: !Mismatch(op, i)
       case Returned(op, outcome) => outcome.AlreadyDone? ==> Marker(op.marker) in db.hashes
  }

  /** Committed operations have markers of their own that were not there at the start. */
  ghost predicate MarkersOk(db0: Db, db: Db, history: seq<(nat, Op)>)
  {
    && (forall i, j | 0 <= i < j < |history| :: history[i].1.marker != history[j].1.marker)
    && (forall i | 0 <= i < |history| :: Marker(history[i].1.marker) !in db0.hashes)
    && (forall m :: Marker(m) in db.hashes <==> Marker(m) in db0.hashes || Committed(history, m))
  }

  ghost predicate Committed(history: seq<(nat, Op)>, m: string)
  {
    exists i :: 0 <= i < |history| && history[i].1.marker == m
  }

  ghost predicate CommittedBy(history: seq<(nat, Op)>, c: nat, op: Op)
  {
    exists i :: 0 <= i < |history| && history[i] == (c, op)
  }

  /** Exactly the callers that returned success are in the history. */
  ghost predicate CallersOk(clients: map<nat, Client>, history: seq<(nat, Op)>)
  {
    && (forall i | 0 <= i < |history| ::
          history[i].0 in clients && clients[history[i].0] == Returned(history[i].1, Applied))
    && (forall c | c in clients && clients[c].Returned? && clients[c].outcome.Applied? ::
          CommittedBy(history, c, clients[c].op))
  }

  ghost predicate Inv(db0: Db, s: State)
  {
    && s.db == ReplayOps(db0, s.history)
    && MarkersOk(db0, s.db, s.history)
    && CallersOk(s.clients, s.history)
    && forall c | c in s.clients :: ClientOk(s.db, s.touched, s.clients[c])
  }

  // ---------------------------------------------------------------- effects of a queue

  lemma {:induction false} UnwrittenUnchanged(db: Db, q: seq<Write>, k: Key)
    requires k !in Writes(q)
    ensures k in PerformAll(db, q).hashes <==> k in db.hashes
    ensures k in db.hashes ==> PerformAll(db, q).hashes[k] == db.hashes[k]
  {
    if q != [] {
      var n := |q| - 1;
      assert q == q[..n] + [q[n]];
      assert forall w | w in q[..n] && !w.XAdd? :: w.key in Writes(q);
      UnwrittenUnchanged(db, q[..n], k);
    }
  }

  lemma {:induction false} PublishWrites(version: nat, hashes: seq<(string, Fields)>, vals: seq<Option<Val>>)
    requires |hashes| == |vals|
    ensures forall w | w in PublishQueue(version, hashes, vals) :: !w.XAdd? && w.key.Data?
  {
    if hashes != [] {
      var n := |hashes| - 1;
      PublishWrites(version, hashes[..n], vals[..n]);
    }
  }

  /** The only marker an operation writes is its own, and it does write it. */
  lemma MarkerWrites(op: Op, vals: seq<Option<Val>>)
    requires |vals| == |Reads(op)|
    ensures forall k | k in Writes(Queue(op, vals)) && k.Marker? :: k == Marker(op.marker)
    ensures Marker(op.marker) in Writes(Queue(op, vals))
    ensures forall db :: Marker(op.marker) in PerformAll(db, Queue(op, vals)).hashes
  {
    if op.PutVersioned? { PublishWrites(op.version, op.hashes, vals); }
    var q := Queue(op, vals);
    var n := |q| - 1;
    assert q[n] == HMSet(Marker(op.marker), op.mark);
    assert q[n] in q;
    forall db ensures Marker(op.marker) in PerformAll(db, q).hashes {
      assert PerformAll(db, q) == Perform(PerformAll(db, q[..n]), q[n]);
    }
  }

  lemma MarkersKept(db: Db, op: Op, vals: seq<Option<Val>>, m: string)
    requires |vals| == |Reads(op)|
    ensures Marker(m) in PerformAll(db, Queue(op, vals)).hashes <==> Marker(m) in db.hashes || m == op.marker
  {
    MarkerWrites(op, vals);
    if m != op.marker { UnwrittenUnchanged(db, Queue(op, vals), Marker(m)); }
  }

  /** A clean EXEC queued exactly what the operation would do in one step right now. */
  lemma CleanReadsAreCurrent(s: State, c: Client)
    requires ClientOk(s.db, s.touched, c) && c.Reading? && |c.vals| == |Reads(c.op)| && Clean(s.touched, c.op, c.at)
    ensures Marker(c.op.marker) !in s.db.hashes
    ensures c.vals == CurrentReads(s.db, c.op)
  {
    forall i | 0 <= i < |c.vals| ensures c.vals[i] == HGet(s.db, Reads(c.op)[i].0, Reads(c.op)[i].1) {
      assert Watched(c.op)[i + 1] == Reads(c.op)[i].0;
    }
  }

  // ---------------------------------------------------------------- every step

  lemma TouchedOnce(touched: map<Key, nat>, ks: set<Key>, k: Key)
    ensures Touches(AfterWrites(touched, ks), k) == Touches(touched, k) + if k in ks then 1 else 0
  {
  }

  lemma WatchKept(touched: map<Key, nat>, ks: set<Key>, op: Op, at: seq<nat>)
    requires WatchOk(touched, op, at)
    ensures WatchOk(AfterWrites(touched, ks), op, at)
  {
    forall i | 0 <= i < |at| ensures at[i] <= Touches(AfterWrites(touched, ks), Watched(op)[i]) {
      TouchedOnce(touched, ks, Watched(op)[i]);
    }
  }

  lemma AbsentKept(db: Db, touched: map<Key, nat>, q: seq<Write>, op: Op, at: seq<nat>)
    requires WatchOk(touched, op, at) && AbsentOk(db, touched, op, at)
    ensures AbsentOk(PerformAll(db, q), AfterWrites(touched, Writes(q)), op, at)
  {
    var k := Watched(op)[0];
    TouchedOnce(touched, Writes(q), k);
    if k !in Writes(q) { UnwrittenUnchanged(db, q, k); }
  }

  lemma ReadsKept(db: Db, touched: map<Key, nat>, q: seq<Write>, op: Op, at: seq<nat>, vals: seq<Option<Val>>)
    requires WatchOk(touched, op, at) && ReadsOk(db, touched, op, at, vals)
    ensures ReadsOk(PerformAll(db, q), AfterWrites(touched, Writes(q)), op, at, vals)
  {
    var touched', db' := AfterWrites(touched, Writes(q)), PerformAll(db, q);
    forall i | 0 <= i < |vals| && at[i + 1] == Touches(touched', Reads(op)[i].0)
      ensures vals[i] == HGet(db', Reads(op)[i].0, Reads(op)[i].1)
    {
      var k := Reads(op)[i].0;
      assert Watched(op)[i + 1] == k;
      TouchedOnce(touched, Writes(q), k);
      UnwrittenUnchanged(db, q, k);
    }
  }

  lemma OtherClientKept(db: Db, touched: map<Key, nat>, op: Op, vals: seq<Option<Val>>, d: Client)
    requires ClientOk(db, touched, d) && |vals| == |Reads(op)|
    ensures ClientOk(PerformAll(db, Queue(op, vals)), AfterWrites(touched, Writes(Queue(op, vals))), d)
  {
    var q := Queue(op, vals);
    match d
    case Watching(o, _, at) => WatchKept(touched, Writes(q), o, at);
    case Reading(o, _, at, vs) =>
      WatchKept(touched, Writes(q), o, at);
      AbsentKept(db, touched, q, o, at);
      ReadsKept(db, touched, q, o, at, vs);
    case Returned(o, _) => MarkersKept(db, op, vals, o.marker);
  }

  lemma CommittedGrows(history: seq<(nat, Op)>, c: nat, op: Op, m: string)
    ensures Committed(history + [(c, op)], m) <==> Committed(history, m) || m == op.marker
  {
    var h := history + [(c, op)];
    assert h[|history|] == (c, op);
    if Committed(history, m) {
      var i :| 0 <= i < |history| && history[i].1.marker == m;
      assert h[i] == history[i];
    }
  }

  lemma MarkersExtended(db0: Db, db: Db, history: seq<(nat, Op)>, c: nat, op: Op, vals: seq<Option<Val>>)
    requires MarkersOk(db0, db, history) && Marker(op.marker) !in db.hashes && |vals| == |Reads(op)|
    ensures MarkersOk(db0, PerformAll(db, Queue(op, vals)), history + [(c, op)])
  {
    var h, db' := history + [(c, op)], PerformAll(db, Queue(op, vals));
    forall m ensures Marker(m) in db'.hashes <==> Marker(m) in db0.hashes || Committed(h, m) {
      MarkersKept(db, op, vals, m);
      CommittedGrows(history, c, op, m);
    }
    assert !Committed(history, op.marker);
  }

  lemma CallersExtended(clients: map<nat, Client>, history: seq<(nat, Op)>, c: nat, op: Op)
    requires CallersOk(clients, history) && c in clients && !clients[c].Returned?
    ensures CallersOk(clients[c := Returned(op, Applied)], history + [(c, op)])
  {
    var h, clients' := history + [(c, op)], clients[c := Returned(op, Applied)];
    assert h[|history|] == (c, op);
    forall d | d in clients' && clients'[d].Returned? && clients'[d].outcome.Applied?
      ensures CommittedBy(h, d, clients'[d].op)
    {
      if d != c {
        var i :| 0 <= i < |history| && history[i] == (d, clients[d].op);
        assert h[i] == history[i];
      }
    }
  }

  lemma ExecKeepsInv(db0: Db, s: State, c: nat)
    requires Inv(db0, s) && Commits(s, Next(c))
    ensures Inv(db0, Step(s, Next(c)))
  {
    var cl := s.clients[c];
    assert ClientOk(s.db, s.touched, cl);
    CleanReadsAreCurrent(s, cl);
    var op, vals := cl.op, cl.vals;
    var s' := Exec(s, c, op, vals);
    assert s'.history[..|s.history|] == s.history;
    MarkersExtended(db0, s.db, s.history, c, op, vals);
    CallersExtended(s.clients, s.history, c, op);
    forall d | d in s'.clients ensures ClientOk(s'.db, s'.touched, s'.clients[d]) {
      if d != c { OtherClientKept(s.db, s.touched, op, vals, s.clients[d]); }
    }
  }

  /** A step that commits nothing keeps what the client may rely on, and never reports success. */
  lemma ClientStepOk(s: State, c: Client)
    requires ClientOk(s.db, s.touched, c) && !c.Returned?
    ensures ClientOk(s.db, s.touched, ClientStep(s, c))
    ensures ClientStep(s, c).Returned? ==> !ClientStep(s, c).outcome.Applied?
  {
    match c
    case Watching(op, n, at) => WatchingStepOk(s, op, n, at);
    case Reading(op, n, at, vals) => ReadingStepOk(s, op, n, at, vals);
  }

  lemma WatchingStepOk(s: State, op: Op, n: nat, at: seq<nat>)
    requires OpOk(op) && n < MAX_ATTEMPTS && WatchOk(s.touched, op, at)
    ensures ClientOk(s.db, s.touched, ClientStep(s, Watching(op, n, at)))
  {
    assert Watched(op)[0] == Marker(op.marker);
  }

  lemma ReadingStepOk(s: State, op: Op, n: nat, at: seq<nat>, vals: seq<Option<Val>>)
    requires OpOk(op) && n < MAX_ATTEMPTS && WatchOk(s.touched, op, at)
    requires AbsentOk(s.db, s.touched, op, at) && ReadsOk(s.db, s.touched, op, at, vals)
    requires forall i | 0 <= i < |vals| :: !Mismatch(op, i)
    ensures ClientOk(s.db, s.touched, ClientStep(s, Reading(op, n, at, vals)))
  {
    if |vals| < |Reads(op)| && !Mismatch(op, |vals|) { NextReadOk(s, op, at, vals); }
  }

  lemma NextReadOk(s: State, op: Op, at: seq<nat>, vals: seq<Option<Val>>)
    requires |vals| < |Reads(op)| && ReadsOk(s.db, s.touched, op, at, vals) && !Mismatch(op, |vals|)
    requires forall i | 0 <= i < |vals| :: !Mismatch(op, i)
    ensures var more := vals + [HGet(s.db, Reads(op)[|vals|].0, Reads(op)[|vals|].1)];
      ReadsOk(s.db, s.touched, op, at, more) && forall i | 0 <= i < |more| :: !Mismatch(op, i)
  {
  }

  lemma QuietStepKeepsInv(db0: Db, s: State, c: nat, cl: Client)
    requires Inv(db0, s) && ClientOk(s.db, s.touched, cl)
    requires c in s.clients ==> !s.clients[c].Returned?
    requires cl.Returned? ==> !cl.outcome.Applied?
    ensures Inv(db0, s.(clients := s.clients[c := cl]))
  {
  }

  lemma StepKeepsInv(db0: Db, s: State, a: Action)
    requires Inv(db0, s)
    ensures Inv(db0, Step(s, a))
  {
    match a
    case Call(c, op) =>
      if c !in s.clients && OpOk(op) { QuietStepKeepsInv(db0, s, c, Watching(op, 0, [])); }
    case Next(c) =>
      if c in s.clients {
        var cl := s.clients[c];
        if Commits(s, a) {
          ExecKeepsInv(db0, s, c);
        } else if !cl.Returned? {
          ClientStepOk(s, cl);
          QuietStepKeepsInv(db0, s, c, ClientStep(s, cl));
        } else {
          assert s.clients[c := cl] == s.clients;
        }
      }
  }

  lemma {:induction false} InvOverRuns(db0: Db, actions: seq<Action>)
    ensures Inv(db0, Run(Init(db0), actions))
  {
    if actions != [] {
      InvOverRuns(db0, actions[..|actions| - 1]);
      StepKeepsInv(db0, Run(Init(db0), actions[..|actions| - 1]), actions[|actions| - 1]);
    }
  }

  // ---------------------------------------------------------------- reachable states

  ghost predicate Reachable(start: State, s: State)
  {
    Runs.Reachable(Step, start, s)
  }

  lemma {:induction false} RunIsFold(s: State, actions: seq<Action>)
    ensures Run(s, actions) == Runs.Fold(Step, s, actions)
  {
    if actions != [] { RunIsFold(s, actions[..|actions| - 1]); }
  }

  /** The reachable states are those at the end of some run. */
  lemma ReachableIffRun(start: State, s: State)
    ensures Reachable(start, s) <==> exists actions :: s == Run(start, actions)
  {
    Runs.ReachableIffRun(Step, start, s);
    if actions: seq<Action> :| s == Run(start, actions) { RunIsFold(start, actions); }
    if actions: seq<Action> :| s == Runs.Fold(Step, start, actions) { RunIsFold(start, actions); }
  }

  lemma ReachableInv(db0: Db, s: State)
    requires Reachable(Init(db0), s)
    ensures Inv(db0, s)
  {
    ReachableIffRun(Init(db0), s);
    var actions :| s == Run(Init(db0), actions);
    InvOverRuns(db0, actions);
  }

  // ---------------------------------------------------------------- theorems

  /** However callers interleave, the database is what the committed operations produce when each
      runs in one indivisible step in commit order; no two of them share a marker; exactly the
      callers in that order returned success; a caller that found the marker, threw or used up
      its eight attempts is not in it. */
  lemma RefinesAtomic(db0: Db, s: State)
    requires Reachable(Init(db0), s)
    ensures s.db == ReplayOps(db0, s.history)
    ensures forall i, j | 0 <= i < j < |s.history| :: s.history[i].1.marker != s.history[j].1.marker
    ensures forall c | c in s.clients && s.clients[c].Returned? ::
      s.clients[c].outcome.Applied? <==> CommittedBy(s.history, c, s.clients[c].op)
    ensures forall i | 0 <= i < |s.history| :: s.history[i].0 in s.clients && s.clients[s.history[i].0].Returned?
    ensures forall m :: Marker(m) in s.db.hashes <==> Marker(m) in db0.hashes || Committed(s.history, m)
    ensures forall c | c in s.clients && s.clients[c].Returned? && s.clients[c].outcome.AlreadyDone? ::
      Marker(s.clients[c].op.marker) in s.db.hashes
  {
    ReachableInv(db0, s);
    forall c | c in s.clients ensures ClientOk(s.db, s.touched, s.clients[c]) {}
  }

  /** At most one caller per marker succeeds. */
  lemma OneSuccessPerMarker(db0: Db, s: State, c: nat, d: nat)
    requires Reachable(Init(db0), s)
    requires c in s.clients && s.clients[c].Returned? && s.clients[c].outcome.Applied?
    requires d in s.clients && s.clients[d].Returned? && s.clients[d].outcome.Applied?
    requires s.clients[c].op.marker == s.clients[d].op.marker
    ensures c == d
  {
    ReachableInv(db0, s);
    assert CommittedBy(s.history, c, s.clients[c].op) && CommittedBy(s.history, d, s.clients[d].op);
    var i :| 0 <= i < |s.history| && s.history[i] == (c, s.clients[c].op);
    var j :| 0 <= j < |s.history| && s.history[j] == (d, s.clients[d].op);
    assert i == j;
  }

  /** A step changes the database exactly when it makes a marker appear, and then it performs the
      whole operation of that marker at once. */
  lemma EffectWithMarker(db0: Db, s: State, a: Action)
    requires Reachable(Init(db0), s)
    ensures !Commits(s, a) ==> Step(s, a).db == s.db
    ensures Commits(s, a) ==>
      && Marker(s.clients[a.c].op.marker) !in s.db.hashes
      && Marker(s.clients[a.c].op.marker) in Step(s, a).db.hashes
      && Step(s, a).db == Atomic(s.db, s.clients[a.c].op)
  {
    ReachableInv(db0, s);
    if Commits(s, a) {
      assert ClientOk(s.db, s.touched, s.clients[a.c]);
      CleanReadsAreCurrent(s, s.clients[a.c]);
      MarkersKept(s.db, s.clients[a.c].op, s.clients[a.c].vals, s.clients[a.c].op.marker);
    }
  }

  // ---------------------------------------------------------------- what one operation does

  /** Nothing but hash `key` and the marker changes. */
  ghost predicate OnlyChanges(db: Db, db': Db, marker: string, key: Key)
  {
    forall k | k != Marker(marker) && k != key :: FieldsAt(db', k) == FieldsAt(db, k)
  }

  /** Exactly `event` is added to exactly `stream`. */
  ghost predicate Appended(db: Db, db': Db, stream: string, event: string)
  {
    forall t :: Stream(db', t) == if t == stream then Stream(db, t) + [event] else Stream(db, t)
  }

  /** Every field grows by its increment. */
  ghost predicate Added(db: Db, db': Db, key: Key, increments: map<string, int>)
  {
    forall x | x in increments :: AsNum(HGet(db', key, x)) == AsNum(HGet(db, key, x)) + increments[x]
  }

  lemma PutIfAbsentEffect(db: Db, op: Op)
    requires op.PutIfAbsent? && Marker(op.marker) !in db.hashes
    ensures var db' := Atomic(db, op);
      && FieldsAt(db', Marker(op.marker)) == op.mark && db'.streams == db.streams
      && OnlyChanges(db, db', op.marker, Marker(op.marker))
  {
    var q := Queue(op, CurrentReads(db, op));
    assert q[..0] == [];
    assert PerformAll(db, q) == Perform(PerformAll(db, q[..0]), q[0]);
  }

  lemma AppendOnceEffect(db: Db, op: Op)
    requires op.AppendOnce? && Marker(op.marker) !in db.hashes
    ensures var db' := Atomic(db, op);
      && FieldsAt(db', Marker(op.marker)) == op.mark && Appended(db, db', op.stream, op.event)
      && OnlyChanges(db, db', op.marker, Marker(op.marker))
  {
    PerformTwo(db, Queue(op, CurrentReads(db, op)));
  }

  lemma ReplaceAndAppendEffect(db: Db, op: Op)
    requires op.ReplaceAndAppend? && Marker(op.marker) !in db.hashes
    ensures var db' := Atomic(db, op);
      && FieldsAt(db', Marker(op.marker)) == op.mark && Appended(db, db', op.stream, op.event)
      && FieldsAt(db', Data(op.key)) == op.fields
      && OnlyChanges(db, db', op.marker, Data(op.key))
  {
    var w := Replace(Data(op.key), op.fields);
    var rest := [XAdd(op.stream, op.event), HMSet(Marker(op.marker), op.mark)];
    assert Queue(op, CurrentReads(db, op)) == w + rest;
    PerformConcat(db, w, rest);
    var mid := PerformAll(db, w);
    ReplaceOne(db, Data(op.key), op.fields);
    ReplaceNoStream(db, Data(op.key), op.fields);
    UnwrittenUnchanged(db, w, Marker(op.marker));
    PerformTwo(mid, rest);
  }

  lemma ReplaceNoStream(db: Db, k: Key, fields: Fields)
    ensures PerformAll(db, Replace(k, fields)).streams == db.streams
  {
    var q := Replace(k, fields);
    assert [Del(k)][..0] == [];
    assert PerformAll(db, [Del(k)]) == Perform(PerformAll(db, [Del(k)][..0]), Del(k));
    if fields != map[] { PerformTwo(db, q); }
  }

  lemma IncrementOnceEffect(db: Db, op: Op)
    requires op.IncrementOnce? && Marker(op.marker) !in db.hashes
    ensures var db' := Atomic(db, op);
      && FieldsAt(db', Marker(op.marker)) == op.mark && db'.streams == db.streams
      && Added(db, db', Data(op.key), op.increments)
      && OnlyChanges(db, db', op.marker, Data(op.key))
  {
    PerformTwo(db, Queue(op, CurrentReads(db, op)));
    TwoWrites(db, op.marker, op.mark, Data(op.key), op.increments);
  }

  lemma TwoWrites(db: Db, marker: string, mark: Fields, key: Key, increments: map<string, int>)
    requires Marker(marker) !in db.hashes && key.Data?
    ensures var db' := Perform(Perform(db, HIncrBy(key, increments)), HMSet(Marker(marker), mark));
      && FieldsAt(db', Marker(marker)) == mark && db'.streams == db.streams
      && Added(db, db', key, increments) && OnlyChanges(db, db', marker, key)
  {
    IncrementEffect(db, key, increments);
    SetEffect(Perform(db, HIncrBy(key, increments)), Marker(marker), mark);
  }

  lemma RecordApplyEffect(db: Db, op: Op)
    requires op.RecordApply? && Marker(op.marker) !in db.hashes
    requires LAST_LATENCY !in op.increments && MAX_LATENCY !in op.increments
    ensures var db' := Atomic(db, op);
      && FieldsAt(db', Marker(op.marker)) == op.mark && db'.streams == db.streams
      && Added(db, db', Data(op.key), op.increments)
      && HGet(db', Data(op.key), LAST_LATENCY) == Some(Num(op.latency))
      && HGet(db', Data(op.key), MAX_LATENCY) == Some(Num(MaxOf(op.latency, HGet(db, Data(op.key), MAX_LATENCY))))
      && OnlyChanges(db, db', op.marker, Data(op.key))
  {
    var q := Queue(op, CurrentReads(db, op));
    PerformThree(db, q);
    ThreeWrites(db, op.marker, op.mark, Data(op.key), op.increments, q[1].fields);
  }

  lemma ThreeWrites(db: Db, marker: string, mark: Fields, key: Key, increments: map<string, int>, fields: Fields)
    requires Marker(marker) !in db.hashes && key.Data? && fields.Keys !! increments.Keys
    ensures var counted := Perform(db, HIncrBy(key, increments));
      var db' := Perform(Perform(counted, HMSet(key, fields)), HMSet(Marker(marker), mark));
      && FieldsAt(db', Marker(marker)) == mark && db'.streams == db.streams
      && Added(db, db', key, increments)
      && (forall x | x in fields :: HGet(db', key, x) == Some(fields[x]))
      && OnlyChanges(db, db', marker, key)
  {
    var d1 := Perform(db, HIncrBy(key, increments));
    var d2 := Perform(d1, HMSet(key, fields));
    IncrementEffect(db, key, increments);
    SetEffect(d1, key, fields);
    SetEffect(d2, Marker(marker), mark);
    HGetAfterSet(d1, key, fields);
  }

  lemma HGetAfterSet(db: Db, key: Key, fields: Fields)
    ensures var db' := Perform(db, HMSet(key, fields));
      forall x :: HGet(db', key, x) == if x in fields then Some(fields[x]) else HGet(db, key, x)
  {
  }

  lemma IncrementEffect(db: Db, key: Key, increments: map<string, int>)
    ensures var db' := Perform(db, HIncrBy(key, increments));
      && Added(db, db', key, increments) && db'.streams == db.streams
      && forall k | k != key :: FieldsAt(db', k) == FieldsAt(db, k)
  {
  }

  lemma SetEffect(db: Db, key: Key, fields: Fields)
    ensures var db' := Perform(db, HMSet(key, fields));
      && FieldsAt(db', key) == FieldsAt(db, key) + fields && db'.streams == db.streams
      && forall k | k != key :: FieldsAt(db', k) == FieldsAt(db, k)
  {
  }

  // ---------------------------------------------------------------- versioned writes

  function VersionAt(db: Db, key: string): Option<Val>
  {
    HGet(db, Data(key), VERSION)
  }

  ghost predicate NotOlder(db: Db, db': Db, version: nat, key: string)
  {
    || FieldsAt(db', Data(key)) == FieldsAt(db, Data(key))
    || (&& MayPublish(VersionAt(db, key), version)
        && (VersionAt(db', key).None? || VersionAt(db', key) == Some(Num(version))))
  }

  function Versions(db: Db, hashes: seq<(string, Fields)>): seq<Option<Val>>
  {
    seq(|hashes|, i requires 0 <= i < |hashes| => VersionAt(db, hashes[i].0))
  }

  /** A hash may leave its version out, but it must not name another one. */
  ghost predicate NamesVersion(fields: Fields, version: nat)
  {
    VERSION in fields ==> fields[VERSION] == Num(version)
  }

  /** Replacing one more hash keeps the promise for every key. */
  lemma OneMoreReplaced(db: Db, mid: Db, version: nat, k: string, fields: Fields, key: string)
    requires NotOlder(db, mid, version, key) && MayPublish(VersionAt(db, k), version) && NamesVersion(fields, version)
    ensures NotOlder(db, PerformAll(mid, Replace(Data(k), fields)), version, key)
  {
    ReplaceOne(mid, Data(k), fields);
  }

  lemma {:induction false} PublishNeverOlder(db: Db, version: nat, hashes: seq<(string, Fields)>, key: string)
    requires forall i | 0 <= i < |hashes| :: NamesVersion(hashes[i].1, version)
    ensures NotOlder(db, PerformAll(db, PublishQueue(version, hashes, Versions(db, hashes))), version, key)
  {
    if hashes != [] {
      var n := |hashes| - 1;
      PublishNeverOlder(db, version, hashes[..n], key);
      assert Versions(db, hashes)[..n] == Versions(db, hashes[..n]);
      var q0 := PublishQueue(version, hashes[..n], Versions(db, hashes[..n]));
      if MayPublish(VersionAt(db, hashes[n].0), version) {
        OneMoreReplaced(db, PerformAll(db, q0), version, hashes[n].0, hashes[n].1, key);
        PerformConcat(db, q0, Replace(Data(hashes[n].0), hashes[n].1));
      } else {
        assert q0 + [] == q0;
      }
    }
  }

  lemma ReplaceOne(db: Db, k: Key, fields: Fields)
    ensures var db' := PerformAll(db, Replace(k, fields));
      && FieldsAt(db', k) == fields
      && forall j | j != k :: FieldsAt(db', j) == FieldsAt(db, j)
  {
    var q := Replace(k, fields);
    assert [Del(k)][..0] == [];
    assert PerformAll(db, [Del(k)]) == Perform(db, Del(k));
    if fields != map[] {
      assert q[..1] == [Del(k)];
    }
  }

  lemma {:induction false} PerformConcat(db: Db, a: seq<Write>, b: seq<Write>)
    ensures PerformAll(db, a + b) == PerformAll(PerformAll(db, a), b)
  {
    if b == [] {
      assert a + b == a;
    } else {
      var n := |b| - 1;
      PerformConcat(db, a, b[..n]);
      assert (a + b)[..|a + b| - 1] == a + b[..n];
    }
  }

  /** However callers interleave, a versioned write never replaces a hash by one with a lower version:
      where the stored version is higher the hash is left exactly as it is. A call with a hash that
      names another version than the marker never commits. */
  lemma VersionsNeverGoBack(db0: Db, s: State, a: Action, key: string)
    requires Reachable(Init(db0), s) && Commits(s, a) && s.clients[a.c].op.PutVersioned?
    ensures forall i | 0 <= i < |Reads(s.clients[a.c].op)| :: !Mismatch(s.clients[a.c].op, i)
    ensures NotOlder(s.db, Step(s, a).db, s.clients[a.c].op.version, key)
    ensures VersionAt(s.db, key).Some? && VersionAt(Step(s, a).db, key).Some? ==>
      AsNum(VersionAt(s.db, key)) <= AsNum(VersionAt(Step(s, a).db, key))
  {
    var op := s.clients[a.c].op;
    ReachableInv(db0, s);
    assert ClientOk(s.db, s.touched, s.clients[a.c]);
    EffectWithMarker(db0, s, a);
    AtomicNotOlder(s.db, op, key);
    NotOlderVersions(s.db, Step(s, a).db, op.version, key);
  }

  lemma AtomicNotOlder(db: Db, op: Op, key: string)
    requires op.PutVersioned? && forall i | 0 <= i < |Reads(op)| :: !Mismatch(op, i)
    ensures NotOlder(db, Atomic(db, op), op.version, key)
  {
    forall i | 0 <= i < |op.hashes| ensures NamesVersion(op.hashes[i].1, op.version) {
      assert !Mismatch(op, i);
    }
    if Marker(op.marker) !in db.hashes {
      var vals := CurrentReads(db, op);
      var mark := [HMSet(Marker(op.marker), op.mark)];
      PublishNeverOlder(db, op.version, op.hashes, key);
      assert vals == Versions(db, op.hashes);
      var q := PublishQueue(op.version, op.hashes, vals);
      var mid := PerformAll(db, q);
      PerformConcat(db, q, mark);
      UnwrittenUnchanged(mid, mark, Data(key));
      assert FieldsAt(PerformAll(mid, mark), Data(key)) == FieldsAt(mid, Data(key));
      SameFieldsNotOlder(db, mid, PerformAll(mid, mark), op.version, key);
    }
  }

  lemma SameFieldsNotOlder(db: Db, mid: Db, db': Db, version: nat, key: string)
    requires NotOlder(db, mid, version, key) && FieldsAt(db', Data(key)) == FieldsAt(mid, Data(key))
    ensures NotOlder(db, db', version, key)
  {
    HGetOfFields(mid, Data(key), VERSION);
    HGetOfFields(db', Data(key), VERSION);
  }

  lemma HGetOfFields(db: Db, k: Key, field: string)
    ensures HGet(db, k, field) == if field in FieldsAt(db, k) then Some(FieldsAt(db, k)[field]) else None
  {
  }

  lemma NotOlderVersions(db: Db, db': Db, version: nat, key: string)
    requires NotOlder(db, db', version, key)
    ensures VersionAt(db, key).Some? && VersionAt(db', key).Some? ==>
      AsNum(VersionAt(db, key)) <= AsNum(VersionAt(db', key))
  {
    HGetOfFields(db, Data(key), VERSION);
    HGetOfFields(db', Data(key), VERSION);
  }

  /** Item `i` is the last one for the hash `key`; with distinct keys, the only one. */
  ghost predicate LastFor(hashes: seq<(string, Fields)>, key: string, i: int)
  {
    0 <= i < |hashes| && hashes[i].0 == key && forall j | i < j < |hashes| :: hashes[j].0 != key
  }

  /** What a versioned write leaves of one hash: where the stored version is absent or at most the
      given one, exactly the fields given for it; where it is higher, or nothing is given, what was
      there. */
  ghost predicate WrittenExactly(before: Fields, after: Fields, version: nat, hashes: seq<(string, Fields)>,
                                 key: string)
  {
    && (forall i | LastFor(hashes, key, i) ::
          after == if "desired_version" in before && before["desired_version"].Num?
                      && before["desired_version"].n > version then before else hashes[i].1)
    && ((forall i | 0 <= i < |hashes| :: hashes[i].0 != key) ==> after == before)
  }

  lemma {:induction false} PublishExactly(db: Db, version: nat, hashes: seq<(string, Fields)>, key: string)
    ensures var db' := PerformAll(db, PublishQueue(version, hashes, Versions(db, hashes)));
      WrittenExactly(FieldsAt(db, Data(key)), FieldsAt(db', Data(key)), version, hashes, key)
  {
    if hashes != [] {
      var n := |hashes| - 1;
      PublishExactly(db, version, hashes[..n], key);
      assert Versions(db, hashes)[..n] == Versions(db, hashes[..n]);
      var q0 := PublishQueue(version, hashes[..n], Versions(db, hashes[..n]));
      var last := if MayPublish(VersionAt(db, hashes[n].0), version) then Replace(Data(hashes[n].0), hashes[n].1)
                  else [];
      PerformConcat(db, q0, last);
      ReplaceOne(PerformAll(db, q0), Data(hashes[n].0), hashes[n].1);
      HGetOfFields(db, Data(key), VERSION);
      WrittenOneMore(FieldsAt(db, Data(key)), FieldsAt(PerformAll(db, q0), Data(key)),
                     FieldsAt(PerformAll(db, q0 + last), Data(key)), version, hashes, key);
    }
  }

  lemma WrittenOneMore(before: Fields, mid: Fields, after: Fields, version: nat, hashes: seq<(string, Fields)>,
                       key: string)
    requires hashes != [] && WrittenExactly(before, mid, version, hashes[..|hashes| - 1], key)
    requires var n := |hashes| - 1;
      after == if hashes[n].0 == key && (VERSION in before && before[VERSION].Num? ==> before[VERSION].n <= version)
               then hashes[n].1 else mid
    ensures WrittenExactly(before, after, version, hashes, key)
  {
    var n := |hashes| - 1;
    assert forall i | 0 <= i < n :: hashes[..n][i] == hashes[i];
    forall i | LastFor(hashes, key, i) && i < n ensures LastFor(hashes[..n], key, i) {}
    if hashes[n].0 == key {
      assert mid == before || !(VERSION in before && before[VERSION].Num? && before[VERSION].n > version) by {
        if i :| 0 <= i < n && hashes[i].0 == key { SomeLastFor(hashes[..n], key, i); }
      }
    }
  }

  lemma {:induction false} SomeLastFor(hashes: seq<(string, Fields)>, key: string, i: int)
    requires 0 <= i < |hashes| && hashes[i].0 == key
    ensures exists j :: LastFor(hashes, key, j)
    decreases |hashes| - i
  {
    if j :| i < j < |hashes| && hashes[j].0 == key {
      SomeLastFor(hashes, key, j);
    } else {
      assert LastFor(hashes, key, i);
    }
  }

  /** However callers interleave, a versioned write that commits leaves every hash as
      `WrittenExactly` says, sets its marker, and touches no stream and no other marker. */
  lemma VersionedWriteExact(db0: Db, s: State, a: Action, key: string)
    requires Reachable(Init(db0), s) && Commits(s, a) && s.clients[a.c].op.PutVersioned?
    ensures var op, db' := s.clients[a.c].op, Step(s, a).db;
      && WrittenExactly(FieldsAt(s.db, Data(key)), FieldsAt(db', Data(key)), op.version, op.hashes, key)
      && FieldsAt(db', Marker(op.marker)) == op.mark && db'.streams == s.db.streams
      && forall m | m != op.marker :: FieldsAt(db', Marker(m)) == FieldsAt(s.db, Marker(m))
  {
    ReachableInv(db0, s);
    assert ClientOk(s.db, s.touched, s.clients[a.c]);
    EffectWithMarker(db0, s, a);
    AtomicExact(s.db, s.clients[a.c].op, key);
  }

  lemma AtomicExact(db: Db, op: Op, key: string)
    requires op.PutVersioned? && Marker(op.marker) !in db.hashes
    ensures var db' := Atomic(db, op);
      && WrittenExactly(FieldsAt(db, Data(key)), FieldsAt(db', Data(key)), op.version, op.hashes, key)
      && FieldsAt(db', Marker(op.marker)) == op.mark && db'.streams == db.streams
      && forall m | m != op.marker :: FieldsAt(db', Marker(m)) == FieldsAt(db, Marker(m))
  {
    var vals := CurrentReads(db, op);
    assert vals == Versions(db, op.hashes);
    var q, mark := PublishQueue(op.version, op.hashes, vals), HMSet(Marker(op.marker), op.mark);
    var mid := PerformAll(db, q);
    PublishExactly(db, op.version, op.hashes, key);
    PublishMarkers(db, op.version, op.hashes, vals);
    PerformConcat(db, q, [mark]);
    assert [mark][..0] == [];
    assert PerformAll(mid, [mark]) == Perform(mid, mark);
    SetEffect(mid, Marker(op.marker), op.mark);
  }

  /** The hashes of a versioned write are neither markers nor streams. */
  lemma {:induction false} PublishMarkers(db: Db, version: nat, hashes: seq<(string, Fields)>, vals: seq<Option<Val>>)
    requires |hashes| == |vals|
    ensures var db' := PerformAll(db, PublishQueue(version, hashes, vals));
      db'.streams == db.streams && forall m :: FieldsAt(db', Marker(m)) == FieldsAt(db, Marker(m))
  {
    var q := PublishQueue(version, hashes, vals);
    PublishWrites(version, hashes, vals);
    forall m ensures FieldsAt(PerformAll(db, q), Marker(m)) == FieldsAt(db, Marker(m)) {
      UnwrittenUnchanged(db, q, Marker(m));
    }
    StreamsKept(db, q);
  }

  lemma {:induction false} StreamsKept(db: Db, q: seq<Write>)
    requires forall w | w in q :: !w.XAdd?
    ensures PerformAll(db, q).streams == db.streams
  {
    if q != [] { StreamsKept(db, q[..|q| - 1]); }
  }

  /** In every step of every run, a caller gives up only after an eighth EXEC beaten by another write to a
      key it watches, and throws only over a hash that names another version than its marker. */
  lemma GivesUpOnlyWhenBeaten(db0: Db, s: State, a: Action, c: nat)
    requires Reachable(Init(db0), s) && c in s.clients && !s.clients[c].Returned?
    requires c in Step(s, a).clients && Step(s, a).clients[c].Returned?
    ensures var was, now := s.clients[c], Step(s, a).clients[c];
      && now.op == was.op
      && (now.outcome == Exhausted ==>
            && was.Reading? && was.attempt == 7 && |was.at| == |Watched(was.op)|
            && exists i :: 0 <= i < |was.at| && was.at[i] < Touches(s.touched, Watched(was.op)[i]))
      && (now.outcome == Threw ==>
            && was.op.PutVersioned?
            && exists i :: 0 <= i < |was.op.hashes| && !NamesVersion(was.op.hashes[i].1, was.op.version))
      && (now.outcome == AlreadyDone ==> Marker(was.op.marker) in s.db.hashes)
      && (now.outcome == Applied ==> Commits(s, a))
  {
    ReachableInv(db0, s);
    var was := s.clients[c];
    assert ClientOk(s.db, s.touched, was);
    if was.Reading? && |was.vals| == |Reads(was.op)| && !Clean(s.touched, was.op, was.at) {
      var i :| 0 <= i < |was.at| && was.at[i] != Touches(s.touched, Watched(was.op)[i]);
    } else if was.Reading? && |was.vals| < |Reads(was.op)| && Mismatch(was.op, |was.vals|) {
      assert !NamesVersion(was.op.hashes[|was.vals|].1, was.op.version);
    }
  }

  // ---------------------------------------------------------------- latency maximum

  /** No other operation in the history writes hash `key` except by incrementing other fields. */
  ghost predicate OnlyCounters(history: seq<(nat, Op)>, key: string)
  {
    forall i | 0 <= i < |history| ::
      var op := history[i].1;
      match op
      case ReplaceAndAppend(_, _, k, _, _, _) => k != key
      case IncrementOnce(_, _, k, inc) => k == key ==> MAX_LATENCY !in inc
      case RecordApply(_, _, k, inc, _) => k == key ==> MAX_LATENCY !in inc
      case PutVersioned(_, _, _, hashes) => forall j | 0 <= j < |hashes| :: hashes[j].0 != key
      case _ => true
  }

  /** The largest latency recorded for `key`, starting from what was there before. */
  function Largest(db0: Db, history: seq<(nat, Op)>, key: string): Option<Val>
  {
    if history == [] then HGet(db0, Data(key), MAX_LATENCY)
    else
      var before := Largest(db0, history[..|history| - 1], key);
      var op := history[|history| - 1].1;
      if op.RecordApply? && op.key == key then Some(Num(MaxOf(op.latency, before))) else before
  }

  lemma {:induction false} PublishKeepsOthers(version: nat, hashes: seq<(string, Fields)>, vals: seq<Option<Val>>,
                                              key: string)
    requires |hashes| == |vals| && forall j | 0 <= j < |hashes| :: hashes[j].0 != key
    ensures forall w | w in PublishQueue(version, hashes, vals) :: !w.XAdd? && w.key != Data(key)
  {
    if hashes != [] {
      PublishKeepsOthers(version, hashes[..|hashes| - 1], vals[..|vals| - 1], key);
    }
  }

  lemma PerformTwo(db: Db, q: seq<Write>)
    requires |q| == 2
    ensures PerformAll(db, q) == Perform(Perform(db, q[0]), q[1])
  {
    assert q[..1][..0] == [];
    assert PerformAll(db, q[..1]) == Perform(PerformAll(db, q[..1][..0]), q[0]);
  }

  lemma PerformThree(db: Db, q: seq<Write>)
    requires |q| == 3
    ensures PerformAll(db, q) == Perform(Perform(Perform(db, q[0]), q[1]), q[2])
  {
    PerformTwo(db, q[..2]);
  }

  lemma LatencyStep(db: Db, op: Op, key: string)
    requires OnlyCounters([(0, op)], key) && Marker(op.marker) !in db.hashes
    ensures HGet(Atomic(db, op), Data(key), MAX_LATENCY) ==
      if op.RecordApply? && op.key == key then Some(Num(MaxOf(op.latency, HGet(db, Data(key), MAX_LATENCY))))
      else HGet(db, Data(key), MAX_LATENCY)
  {
    assert [(0, op)][0].1 == op;
    var vals := CurrentReads(db, op);
    var q := Queue(op, vals);
    if op.RecordApply? && op.key == key {
      PerformThree(db, q);
    } else if op.IncrementOnce? && op.key == key {
      PerformTwo(db, q);
    } else {
      if op.PutVersioned? { PublishKeepsOthers(op.version, op.hashes, vals, key); }
      UnwrittenUnchanged(db, q, Data(key));
    }
  }

  lemma {:induction false} LatencyOverHistory(db0: Db, history: seq<(nat, Op)>, key: string)
    requires OnlyCounters(history, key)
    requires forall i | 0 <= i < |history| :: Marker(history[i].1.marker) !in db0.hashes
    requires forall i, j | 0 <= i < j < |history| :: history[i].1.marker != history[j].1.marker
    ensures HGet(ReplayOps(db0, history), Data(key), MAX_LATENCY) == Largest(db0, history, key)
  {
    if history != [] {
      var n := |history| - 1;
      LatencyOverHistory(db0, history[..n], key);
      var op := history[n].1;
      MarkersOfReplay(db0, history[..n], op.marker);
      assert OnlyCounters([(0, op)], key) by { assert [(0, op)][0].1 == history[n].1; }
      LatencyStep(ReplayOps(db0, history[..n]), op, key);
    }
  }

  lemma {:induction false} MarkersOfReplay(db0: Db, history: seq<(nat, Op)>, m: string)
    requires Marker(m) !in db0.hashes && forall i | 0 <= i < |history| :: history[i].1.marker != m
    ensures Marker(m) !in ReplayOps(db0, history).hashes
  {
    if history != [] {
      var n := |history| - 1;
      MarkersOfReplay(db0, history[..n], m);
      var db, op := ReplayOps(db0, history[..n]), history[n].1;
      MarkersKept(db, op, CurrentReads(db, op), m);
    }
  }

  /** The stored maximum latency is the true maximum of everything recorded, in every run. */
  lemma MaximumLatency(db0: Db, s: State, key: string)
    requires Reachable(Init(db0), s) && OnlyCounters(s.history, key)
    ensures HGet(s.db, Data(key), MAX_LATENCY) == Largest(db0, s.history, key)
  {
    ReachableInv(db0, s);
    LatencyOverHistory(db0, s.history, key);
  }

  predicate IsRecord(op: Op, key: string, latency: int)
  {
    op.RecordApply? && op.key == key && op.latency == latency
  }

  ghost predicate Recorded(history: seq<(nat, Op)>, key: string, latency: int)
  {
    exists j :: 0 <= j < |history| && IsRecord(history[j].1, key, latency)
  }

  /** `Largest` is an upper bound of everything recorded, and it is reached. */
  lemma {:induction false} LargestIsMaximum(db0: Db, history: seq<(nat, Op)>, key: string)
    ensures forall v | Recorded(history, key, v) :: v <= AsNum(Largest(db0, history, key))
    ensures || AsNum(Largest(db0, history, key)) == AsNum(HGet(db0, Data(key), MAX_LATENCY))
            || Recorded(history, key, AsNum(Largest(db0, history, key)))
  {
    if history != [] {
      var n := |history| - 1;
      var op := history[n].1;
      LargestIsMaximum(db0, history[..n], key);
      forall v ensures Recorded(history, key, v) <==>
        Recorded(history[..n], key, v) || IsRecord(op, key, v)
      {
        RecordedGrows(history, key, v);
      }
    }
  }

  lemma RecordedGrows(history: seq<(nat, Op)>, key: string, v: int)
    requires history != []
    ensures var n := |history| - 1;
      Recorded(history, key, v) <==>
        Recorded(history[..n], key, v) || IsRecord(history[n].1, key, v)
  {
    var n := |history| - 1;
    if Recorded(history[..n], key, v) {
      var j :| 0 <= j < n && IsRecord(history[..n][j].1, key, v);
      assert history[j] == history[..n][j];
    }
    if Recorded(history, key, v) {
      var j :| 0 <= j < |history| && IsRecord(history[j].1, key, v);
      if j < n { assert history[..n][j] == history[j]; }
    }
  }
}
