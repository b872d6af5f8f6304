/** ON_CHANGE subscriptions: capture the stream positions, read a baseline, then tail the events.

Writers change a resource and append its event in one step. The reader's snapshot of a collection
is not atomic: while it is being read any resource in it may change, and what the read then says
about such a resource is arbitrary. */
module Subscription {
  import opened Ids

  datatype Kind = Connection | InputPort | OutputPort | Alarm

  datatype Resource = Resource(device: string, kind: Kind, id: string)

  type Value = string

  type Payload = map<Resource, Value>

  datatype Stream = StateEvents | AlarmEvents

  datatype Path =
    | Connections | ConnectionState(id: string)
    | Ports | InputPortState(id: string) | OutputPortState(id: string)
    | Alarms | OneAlarm(id: string)

  datatype Spec = Spec(device: string, path: Path)

  const MAX_READ: nat := 100

  /** `SubscriptionSpec.stream`. */
  function StreamOf(spec: Spec): Stream
  {
    if spec.path.Alarms? || spec.path.OneAlarm? then AlarmEvents else StateEvents
  }

  /** The stream a writer of this resource appends to. */
  function EventStream(r: Resource): Stream
  {
    if r.kind.Alarm? then AlarmEvents else StateEvents
  }

  /** `SubscriptionSpec.matches`, for the event of a resource. */
  predicate Matches(spec: Spec, r: Resource)
  {
    spec.device == r.device &&
    match spec.path
    case Connections => r.kind.Connection?
    case ConnectionState(id) => r.kind.Connection? && r.id == id
    case Ports => r.kind.InputPort? || r.kind.OutputPort?
    case InputPortState(id) => r.kind.InputPort? && r.id == id
    case OutputPortState(id) => r.kind.OutputPort? && r.id == id
    case Alarms => r.kind.Alarm?
    case OneAlarm(id) => r.kind.Alarm? && r.id == id
  }

  /** What a subscription is about, now. */
  function View(db: Payload, spec: Spec): Payload
  {
    map r | r in db && Matches(spec, r) :: db[r]
  }

  datatype Pc =
    | Capturing(todo: set<Stream>)
    | Baseline
    | BaselineRead(dirty: set<Resource>)
    | Tailing
    | Fetching(fetched: map<Stream, seq<Resource>>)
    | Processing(batch: seq<Resource>, i: nat)
    | Rereading(batch: seq<Resource>, i: nat, dirty: set<Resource>)

  /** `recorded[i]` lists the payloads recorded for subscription `i`; the last one is `previous[i]`. */
  datatype State = State(
    db: Payload,
    states: seq<Resource>,
    alarms: seq<Resource>,
    specs: seq<Spec>,
    cursors: map<Stream, nat>,
    recorded: seq<seq<Payload>>,
    pc: Pc)

  datatype Action =
    | Write(r: Resource, value: Option<Value>)
    | Capture(stream: Stream)
    | BeginRead
    | EndRead(got: Payload)
    | BeginFetch
    | Fetch(stream: Stream)
    | Cancel
    | EndFetch(order: seq<Resource>)
    | Next

  function Log(s: State, stream: Stream): seq<Resource>
  {
    if stream.StateEvents? then s.states else s.alarms
  }

  function Streams(specs: seq<Spec>): set<Stream>
  {
    set spec | spec in specs :: StreamOf(spec)
  }

  /** A read that began with nothing dirty: exact on every resource that was not written meanwhile. */
  ghost predicate TornRead(db: Payload, spec: Spec, dirty: set<Resource>, got: Payload)
  {
    && (forall r | r in got :: Matches(spec, r))
    && (forall r | Matches(spec, r) && r !in dirty :: (r in got <==> r in db) && (r in db ==> got[r] == db[r]))
  }

  function WriteStep(s: State, r: Resource, value: Option<Value>): State
  {
    s.(db := if value.Some? then s.db[r := value.value] else s.db - {r},
       states := if EventStream(r).StateEvents? then s.states + [r] else s.states,
       alarms := if EventStream(r).AlarmEvents? then s.alarms + [r] else s.alarms,
       pc := match s.pc
             case BaselineRead(dirty) => BaselineRead(dirty + {r})
             case Rereading(batch, i, dirty) => Rereading(batch, i, dirty + {r})
             case _ => s.pc)
  }

  function Last<T>(q: seq<T>): T
    requires q != []
  {
    q[|q| - 1]
  }

  /** Record a payload unless it is the one recorded last. */
  function Recorded(q: seq<Payload>, got: Payload): seq<Payload>
  {
    if q != [] && Last(q) == got then q else q + [got]
  }

  function Fetched(pc: Pc, stream: Stream): seq<Resource>
  {
    if pc.Fetching? && stream in pc.fetched then pc.fetched[stream] else []
  }

  ghost predicate Enabled(s: State, a: Action)
  {
    match a
    case Write(_, _) => true
    case Capture(stream) => s.pc.Capturing? && stream in s.pc.todo
    case BeginRead =>
      (s.pc.Baseline? && |s.recorded| < |s.specs|)
      || (s.pc.Processing? && s.pc.batch != [] && s.pc.i < |s.specs| && Matches(s.specs[s.pc.i], s.pc.batch[0]))
    case EndRead(got) =>
      (s.pc.BaselineRead? && |s.recorded| < |s.specs| && TornRead(s.db, s.specs[|s.recorded|], s.pc.dirty, got))
      || (&& s.pc.Rereading? && s.pc.i < |s.specs| && s.pc.i < |s.recorded|
          && TornRead(s.db, s.specs[s.pc.i], s.pc.dirty, got))
    case BeginFetch => s.pc.Tailing?
    case Fetch(stream) =>
      s.pc.Fetching? && stream in s.cursors && stream !in s.pc.fetched && s.cursors[stream] <= |Log(s, stream)|
    case Cancel => s.pc.Fetching?
    case EndFetch(order) =>
      && s.pc.Fetching? && s.pc.fetched.Keys == s.cursors.Keys
      && multiset(order) == multiset(Fetched(s.pc, StateEvents)) + multiset(Fetched(s.pc, AlarmEvents))
    case Next =>
      || (s.pc.Capturing? && s.pc.todo == {})
      || (s.pc.Baseline? && |s.recorded| == |s.specs|)
      || (s.pc.Processing? && !(s.pc.batch != [] && s.pc.i < |s.specs| && Matches(s.specs[s.pc.i], s.pc.batch[0])))
  }

  function Min(a: nat, b: nat): nat { if a <= b then a else b }

  ghost function Step(s: State, a: Action): State
  {
    if !Enabled(s, a) then s
    else
      match a
      case Write(r, value) => WriteStep(s, r, value)
      case Capture(stream) =>
        s.(cursors := s.cursors[stream := |Log(s, stream)|], pc := Capturing(s.pc.todo - {stream}))
      case BeginRead =>
        if s.pc.Baseline? then s.(pc := BaselineRead({})) else s.(pc := Rereading(s.pc.batch, s.pc.i, {}))
      case EndRead(got) =>
        if s.pc.BaselineRead? then s.(recorded := s.recorded + [[got]], pc := Baseline)
        else
          s.(recorded := s.recorded[s.pc.i := Recorded(s.recorded[s.pc.i], got)],
             pc := Processing(s.pc.batch, s.pc.i + 1))
      case BeginFetch => s.(pc := Fetching(map[]))
      case Fetch(stream) =>
        var from := s.cursors[stream];
        s.(pc := Fetching(s.pc.fetched[stream := Log(s, stream)[from..Min(from + MAX_READ, |Log(s, stream)|)]]))
      case Cancel => s.(pc := Tailing)
      case EndFetch(order) =>
        s.(cursors := map st | st in s.cursors :: s.cursors[st] + |Fetched(s.pc, st)|, pc := Processing(order, 0))
      case Next =>
        if s.pc.Capturing? then s.(pc := Baseline)
        else if s.pc.Baseline? then s.(pc := Tailing)
        else if s.pc.batch == [] then s.(pc := Tailing)
        else if s.pc.i < |s.specs| then s.(pc := Processing(s.pc.batch, s.pc.i + 1))
        else s.(pc := Processing(s.pc.batch[1..], 0))
  }

  ghost function Run(s: State, actions: seq<Action>): State
  {
    if actions == [] then s else Step(Run(s, actions[..|actions| - 1]), actions[|actions| - 1])
  }

  function Init(db: Payload, states: seq<Resource>, alarms: seq<Resource>, specs: seq<Spec>): State
  {
    State(db, states, alarms, specs, map[], [], Capturing(Streams(specs)))
  }

  // ---------------------------------------------------------------- invariant

  /** The event of `r` has not yet been handled for subscription `i`: it is still in the stream, or
      in the batch being worked on. */
  ghost predicate Owed(s: State, i: nat, r: Resource)
  {
    || Ahead(s, r)
    || (s.pc.Processing? && InBatch(s.pc.batch, s.pc.i, i, r))
    || (s.pc.Rereading? && InBatch(s.pc.batch, s.pc.i, i, r))
  }

  ghost predicate Ahead(s: State, r: Resource)
  {
    var stream := EventStream(r);
    stream in s.cursors && s.cursors[stream] <= |Log(s, stream)| && r in Log(s, stream)[s.cursors[stream]..]
  }

  ghost predicate InBatch(batch: seq<Resource>, at: nat, i: nat, r: Resource)
  {
    batch != [] && (r in batch[1..] || (r == batch[0] && at <= i))
  }

  ghost predicate UpToDate(db: Payload, p: Payload, r: Resource)
  {
    (r in p <==> r in db) && (r in db ==> p[r] == db[r])
  }

  ghost predicate NothingLost(s: State)
    requires RecordsOk(s)
  {
    forall i, r | 0 <= i < |s.recorded| && Matches(s.specs[i], r) ::
      UpToDate(s.db, Last(s.recorded[i]), r) || Owed(s, i, r)
  }

  ghost predicate RecordsOk(s: State)
  {
    && |s.recorded| <= |s.specs|
    && (forall i | 0 <= i < |s.recorded| ::
          s.recorded[i] != [] && forall r | r in Last(s.recorded[i]) :: Matches(s.specs[i], r))
    && (forall i, j | 0 <= i < |s.recorded| && 0 < j < |s.recorded[i]| :: s.recorded[i][j - 1] != s.recorded[i][j])
  }

  ghost predicate CursorsOk(s: State)
  {
    && (forall st | st in s.cursors :: s.cursors[st] <= |Log(s, st)|)
    && (s.pc.Capturing? ==> s.cursors.Keys + s.pc.todo == Streams(s.specs) && s.recorded == [])
    && (!s.pc.Capturing? ==> s.cursors.Keys == Streams(s.specs))
  }

  ghost predicate PcOk(s: State)
  {
    match s.pc
    case Capturing(_) => true
    case Baseline => true
    case BaselineRead(dirty) =>
      |s.recorded| < |s.specs| && forall r | r in dirty && EventStream(r) in s.cursors :: Ahead(s, r)
    case Tailing => |s.recorded| == |s.specs|
    case Fetching(fetched) =>
      |s.recorded| == |s.specs| && forall st | st in fetched :: st in s.cursors && FetchOk(s, st, fetched[st])
    case Processing(batch, i) => |s.recorded| == |s.specs| && i <= |s.specs|
    case Rereading(batch, i, dirty) =>
      |s.recorded| == |s.specs| && i < |s.specs| && forall r | r in dirty && EventStream(r) in s.cursors :: Ahead(s, r)
  }

  ghost predicate FetchOk(s: State, st: Stream, got: seq<Resource>)
    requires st in s.cursors
  {
    s.cursors[st] + |got| <= |Log(s, st)| && got == Log(s, st)[s.cursors[st]..s.cursors[st] + |got|]
  }

  ghost predicate Inv(s: State)
  {
    RecordsOk(s) && CursorsOk(s) && PcOk(s) && NothingLost(s)
  }

  /** Every resource of a subscription is announced on the stream the subscription tails. */
  lemma MatchesOnStream(spec: Spec, r: Resource)
    requires Matches(spec, r)
    ensures EventStream(r) == StreamOf(spec)
  {
  }

  // ---------------------------------------------------------------- steps

  lemma AheadAppend(s: State, t: State, r: Resource, e: Resource)
    requires t.cursors == s.cursors
    requires (forall st :: Log(t, st) == if st == EventStream(e) then Log(s, st) + [e] else Log(s, st))
    requires CursorsOk(s)
    ensures Ahead(s, r) ==> Ahead(t, r)
    ensures EventStream(e) in s.cursors ==> Ahead(t, e)
  {
    var st := EventStream(e);
    if st in s.cursors {
      var from := s.cursors[st];
      assert Log(t, st)[from..] == Log(s, st)[from..] + [e];
    }
  }

  lemma SliceAppend<T>(q: seq<T>, e: T, from: nat, to: nat)
    requires from <= to <= |q|
    ensures (q + [e])[from..to] == q[from..to]
  {
  }

  lemma WriteKeepsPc(s: State, r: Resource, value: Option<Value>)
    requires CursorsOk(s) && PcOk(s)
    ensures PcOk(WriteStep(s, r, value))
  {
    var t := WriteStep(s, r, value);
    forall k ensures (Ahead(s, k) ==> Ahead(t, k)) && (EventStream(r) in s.cursors ==> Ahead(t, r)) {
      AheadAppend(s, t, k, r);
    }
    if s.pc.Fetching? {
      forall st | st in s.pc.fetched ensures FetchOk(t, st, s.pc.fetched[st]) {
        assert FetchOk(s, st, s.pc.fetched[st]);
        SliceAppend(Log(s, st), r, s.cursors[st], s.cursors[st] + |s.pc.fetched[st]|);
      }
    }
  }

  /** A write either leaves a subscription alone or is owed to it. */
  lemma WriteKeepsInv(s: State, r: Resource, value: Option<Value>)
    requires Inv(s)
    ensures Inv(WriteStep(s, r, value))
  {
    var t := WriteStep(s, r, value);
    WriteKeepsPc(s, r, value);
    forall i, k | 0 <= i < |t.recorded| && Matches(t.specs[i], k)
      ensures UpToDate(t.db, Last(t.recorded[i]), k) || Owed(t, i, k)
    {
      AheadAppend(s, t, k, r);
      if k == r {
        MatchesOnStream(s.specs[i], r);
        assert s.specs[i] in s.specs;
      } else {
        assert UpToDate(s.db, Last(s.recorded[i]), k) || Owed(s, i, k);
      }
    }
  }

  /** After a re-read, whatever is not up to date was written during the read and is still ahead. */
  lemma ReadIsFresh(s: State, spec: Spec, dirty: set<Resource>, got: Payload, r: Resource)
    requires TornRead(s.db, spec, dirty, got) && Matches(spec, r) && StreamOf(spec) in s.cursors
    requires forall k | k in dirty && EventStream(k) in s.cursors :: Ahead(s, k)
    ensures UpToDate(s.db, got, r) || Ahead(s, r)
  {
    MatchesOnStream(spec, r);
  }

  lemma BaselineKeepsRecords(s: State, got: Payload)
    requires RecordsOk(s) && |s.recorded| < |s.specs| && forall r | r in got :: Matches(s.specs[|s.recorded|], r)
    ensures RecordsOk(s.(recorded := s.recorded + [[got]]))
  {
  }

  lemma BaselineEndKeepsInv(s: State, got: Payload)
    requires Inv(s) && s.pc.BaselineRead? && Enabled(s, EndRead(got))
    ensures Inv(Step(s, EndRead(got)))
  {
    BaselineKeepsRecords(s, got);
    BaselineLosesNothing(s, got, s.(recorded := s.recorded + [[got]], pc := Baseline));
  }

  lemma BaselineLosesNothing(s: State, got: Payload, t: State)
    requires RecordsOk(s) && NothingLost(s) && CursorsOk(s) && PcOk(s) && s.pc.BaselineRead?
    requires TornRead(s.db, s.specs[|s.recorded|], s.pc.dirty, got)
    requires t == s.(recorded := s.recorded + [[got]], pc := Baseline) && RecordsOk(t)
    ensures NothingLost(t)
  {
    var n := |s.recorded|;
    forall i, r | 0 <= i < |t.recorded| && Matches(t.specs[i], r)
      ensures UpToDate(t.db, Last(t.recorded[i]), r) || Owed(t, i, r)
    {
      assert Ahead(s, r) ==> Ahead(t, r);
      if i == n {
        assert s.specs[n] in s.specs;
        ReadIsFresh(s, s.specs[n], s.pc.dirty, got, r);
      } else {
        assert UpToDate(s.db, Last(s.recorded[i]), r) || Owed(s, i, r);
      }
    }
  }

  lemma RecordedDiffers(q: seq<Payload>, got: Payload)
    requires q != [] && forall j | 0 < j < |q| :: q[j - 1] != q[j]
    ensures var p := Recorded(q, got); p != [] && Last(p) == got && forall j | 0 < j < |p| :: p[j - 1] != p[j]
  {
  }

  lemma ReadKeepsRecords(s: State, i: nat, got: Payload)
    requires RecordsOk(s) && i < |s.recorded| && forall r | r in got :: Matches(s.specs[i], r)
    ensures var t := s.(recorded := s.recorded[i := Recorded(s.recorded[i], got)]);
      RecordsOk(t) && Last(t.recorded[i]) == got
  {
    RecordedDiffers(s.recorded[i], got);
  }

  lemma RereadEndKeepsInv(s: State, got: Payload)
    requires Inv(s) && s.pc.Rereading? && Enabled(s, EndRead(got))
    ensures Inv(Step(s, EndRead(got)))
  {
    var t, n := Step(s, EndRead(got)), s.pc.i;
    ReadKeepsRecords(s, n, got);
    forall i, r | 0 <= i < |t.recorded| && Matches(t.specs[i], r)
      ensures UpToDate(t.db, Last(t.recorded[i]), r) || Owed(t, i, r)
    {
      assert Ahead(s, r) ==> Ahead(t, r);
      if i == n {
        assert s.specs[n] in s.specs;
        ReadIsFresh(s, s.specs[n], s.pc.dirty, got, r);
      } else {
        assert UpToDate(s.db, Last(s.recorded[i]), r) || Owed(s, i, r);
      }
    }
  }

  lemma FetchIsOk(s: State, stream: Stream, got: seq<Resource>)
    requires stream in s.cursors && s.cursors[stream] <= |Log(s, stream)|
    requires got == Log(s, stream)[s.cursors[stream]..Min(s.cursors[stream] + MAX_READ, |Log(s, stream)|)]
    ensures FetchOk(s, stream, got)
  {
  }

  lemma FetchKeepsPc(s: State, stream: Stream)
    requires CursorsOk(s) && PcOk(s) && Enabled(s, Fetch(stream))
    ensures CursorsOk(Step(s, Fetch(stream))) && PcOk(Step(s, Fetch(stream)))
  {
    var t := Step(s, Fetch(stream));
    FetchIsOk(s, stream, t.pc.fetched[stream]);
    forall st | st in t.pc.fetched ensures st in t.cursors && FetchOk(t, st, t.pc.fetched[st]) {
      assert st != stream ==> FetchOk(s, st, s.pc.fetched[st]);
    }
  }

  lemma FetchKeepsInv(s: State, stream: Stream)
    requires Inv(s) && Enabled(s, Fetch(stream))
    ensures Inv(Step(s, Fetch(stream)))
  {
    FetchKeepsPc(s, stream);
    OwedKept(s, Step(s, Fetch(stream)));
  }

  /** Steps that touch neither data nor positions and leave no batch behind. */
  lemma OwedKept(s: State, t: State)
    requires RecordsOk(s) && NothingLost(s)
    requires t.db == s.db && t.states == s.states && t.alarms == s.alarms && t.specs == s.specs
    requires t.recorded == s.recorded
    requires s.cursors == t.cursors && !s.pc.Processing? && !s.pc.Rereading?
    ensures RecordsOk(t) && NothingLost(t)
  {
    forall i, r | 0 <= i < |t.recorded| && Matches(t.specs[i], r)
      ensures UpToDate(t.db, Last(t.recorded[i]), r) || Owed(t, i, r)
    {
      assert UpToDate(s.db, Last(s.recorded[i]), r) || Owed(s, i, r);
      assert Ahead(s, r) ==> Ahead(t, r);
    }
  }

  lemma TailSplit<T>(log: seq<T>, from: nat, got: seq<T>, r: T)
    requires from + |got| <= |log| && got == log[from..from + |got|] && r in log[from..]
    ensures r in got || r in log[from + |got|..]
  {
    assert log[from..] == got + log[from + |got|..];
  }

  lemma FetchedInOrder(pc: Pc, order: seq<Resource>, st: Stream, r: Resource)
    requires multiset(order) == multiset(Fetched(pc, StateEvents)) + multiset(Fetched(pc, AlarmEvents))
    requires r in Fetched(pc, st)
    ensures r in order
  {
    assert r in multiset(Fetched(pc, st));
    assert r in multiset(order);
  }

  /** What was ahead is still ahead after the positions move, or is in the batch. */
  lemma AheadOrFetched(s: State, t: State, order: seq<Resource>, r: Resource)
    requires PcOk(s) && Enabled(s, EndFetch(order)) && t == Step(s, EndFetch(order)) && Ahead(s, r)
    ensures Ahead(t, r) || r in order
  {
    var st := EventStream(r);
    var got := s.pc.fetched[st];
    assert FetchOk(s, st, got);
    TailSplit(Log(s, st), s.cursors[st], got, r);
    if r in got { FetchedInOrder(s.pc, order, st, r); }
  }

  lemma EndFetchKeepsCursors(s: State, order: seq<Resource>)
    requires CursorsOk(s) && PcOk(s) && Enabled(s, EndFetch(order))
    ensures CursorsOk(Step(s, EndFetch(order)))
  {
    var t := Step(s, EndFetch(order));
    forall st | st in t.cursors ensures t.cursors[st] <= |Log(t, st)| {
      assert FetchOk(s, st, s.pc.fetched[st]);
    }
    assert t.cursors.Keys == s.cursors.Keys;
  }

  lemma WholeBatchOwed(batch: seq<Resource>, i: nat, r: Resource)
    requires r in batch
    ensures InBatch(batch, 0, i, r)
  {
    assert batch == [batch[0]] + batch[1..];
  }

  lemma EndFetchOwes(s: State, t: State, order: seq<Resource>, i: nat, r: Resource)
    requires PcOk(s) && Enabled(s, EndFetch(order)) && t == Step(s, EndFetch(order)) && Owed(s, i, r)
    ensures Owed(t, i, r)
  {
    AheadOrFetched(s, t, order, r);
    if r in order { WholeBatchOwed(order, i, r); }
  }

  lemma EndFetchKeepsInv(s: State, order: seq<Resource>)
    requires Inv(s) && Enabled(s, EndFetch(order))
    ensures Inv(Step(s, EndFetch(order)))
  {
    var t := Step(s, EndFetch(order));
    EndFetchKeepsCursors(s, order);
    assert t.recorded == s.recorded && t.specs == s.specs && t.db == s.db;
    forall i, r | 0 <= i < |s.recorded| && Matches(s.specs[i], r)
      ensures UpToDate(s.db, Last(s.recorded[i]), r) || Owed(t, i, r)
    {
      if Owed(s, i, r) { EndFetchOwes(s, t, order, i, r); }
    }
  }

  lemma NextEventKeepsInv(s: State)
    requires Inv(s) && s.pc.Processing? && Enabled(s, Next)
    ensures Inv(Step(s, Next))
  {
    var t := Step(s, Next);
    forall i, r | 0 <= i < |t.recorded| && Matches(t.specs[i], r)
      ensures UpToDate(t.db, Last(t.recorded[i]), r) || Owed(t, i, r)
    {
      assert UpToDate(s.db, Last(s.recorded[i]), r) || Owed(s, i, r);
      assert Ahead(s, r) ==> Ahead(t, r);
      if s.pc.batch != [] && s.pc.i == |s.specs| && r in s.pc.batch[1..] {
        assert s.pc.batch[1..] == [s.pc.batch[1]] + s.pc.batch[1..][1..];
      }
    }
  }

  lemma BeginRereadKeepsInv(s: State)
    requires Inv(s) && s.pc.Processing? && Enabled(s, BeginRead)
    ensures Inv(Step(s, BeginRead))
  {
    var t := Step(s, BeginRead);
    forall i, r | 0 <= i < |t.recorded| && Matches(t.specs[i], r)
      ensures UpToDate(t.db, Last(t.recorded[i]), r) || Owed(t, i, r)
    {
      assert UpToDate(s.db, Last(s.recorded[i]), r) || Owed(s, i, r);
      assert Ahead(s, r) ==> Ahead(t, r);
    }
  }

  lemma CaptureKeepsInv(s: State, stream: Stream)
    requires Inv(s) && Enabled(s, Capture(stream))
    ensures Inv(Step(s, Capture(stream)))
  {
  }

  lemma StepKeepsInv(s: State, a: Action)
    requires Inv(s)
    ensures Inv(Step(s, a))
  {
    if Enabled(s, a) {
      match a
      case Write(r, value) => WriteKeepsInv(s, r, value);
      case Capture(stream) => CaptureKeepsInv(s, stream);
      case BeginRead => if s.pc.Baseline? { OwedKept(s, Step(s, a)); } else { BeginRereadKeepsInv(s); }
      case EndRead(got) => if s.pc.BaselineRead? { BaselineEndKeepsInv(s, got); } else { RereadEndKeepsInv(s, got); }
      case BeginFetch => OwedKept(s, Step(s, a));
      case Fetch(stream) => FetchKeepsInv(s, stream);
      case Cancel => OwedKept(s, Step(s, a));
      case EndFetch(order) => EndFetchKeepsInv(s, order);
      case Next => if s.pc.Processing? { NextEventKeepsInv(s); } else { OwedKept(s, Step(s, a)); }
    }
  }

  lemma {:induction false} InvOverRuns(db: Payload, states: seq<Resource>, alarms: seq<Resource>, specs: seq<Spec>,
                                       actions: seq<Action>)
    ensures Inv(Run(Init(db, states, alarms, specs), actions))
  {
    if actions != [] {
      InvOverRuns(db, states, alarms, specs, actions[..|actions| - 1]);
      StepKeepsInv(Run(Init(db, states, alarms, specs), actions[..|actions| - 1]), actions[|actions| - 1]);
    }
  }

  // ---------------------------------------------------------------- theorem

  /** The reader has caught up: no batch in hand and every position at the end of its stream. */
  ghost predicate CaughtUp(s: State)
  {
    (s.pc.Tailing? || s.pc.Fetching?) && forall st | st in s.cursors :: s.cursors[st] == |Log(s, st)|
  }

  /** In every interleaving of writers and reader no update is lost: whenever the reader has caught
      up, the last recorded payload of every subscription is the current view; and payloads
      recorded one after the other always differ. */
  lemma NoUpdateLost(db: Payload, states: seq<Resource>, alarms: seq<Resource>, specs: seq<Spec>, actions: seq<Action>)
    ensures var s := Run(Init(db, states, alarms, specs), actions);
      && (CaughtUp(s) ==> |s.recorded| == |s.specs| && forall i | 0 <= i < |s.specs| ::
            s.recorded[i] != [] && Last(s.recorded[i]) == View(s.db, s.specs[i]))
      && (forall i, j | 0 <= i < |s.recorded| && 0 < j < |s.recorded[i]| :: s.recorded[i][j - 1] != s.recorded[i][j])
  {
    InvOverRuns(db, states, alarms, specs, actions);
    var s := Run(Init(db, states, alarms, specs), actions);
    if CaughtUp(s) {
      forall i | 0 <= i < |s.specs| ensures s.recorded[i] != [] && Last(s.recorded[i]) == View(s.db, s.specs[i]) {
        CaughtUpIsCurrent(s, i);
      }
    }
  }

  lemma CaughtUpIsCurrent(s: State, i: nat)
    requires Inv(s) && CaughtUp(s) && i < |s.specs|
    ensures i < |s.recorded| && s.recorded[i] != [] && Last(s.recorded[i]) == View(s.db, s.specs[i])
  {
    var p, v := Last(s.recorded[i]), View(s.db, s.specs[i]);
    forall r | Matches(s.specs[i], r) ensures UpToDate(s.db, p, r) {
      assert UpToDate(s.db, Last(s.recorded[i]), r) || Owed(s, i, r);
      assert !Ahead(s, r);
    }
    forall r ensures (r in p <==> r in v) && (r in p ==> p[r] == v[r]) {
      if Matches(s.specs[i], r) { assert UpToDate(s.db, p, r); }
    }
  }

  /** What each path is about, path by path: a caught-up reader of subscription `i` holds resource `r`,
      with its current value, exactly if it is stored, of the device, and of the path's kind and id. */
  lemma HeldExactly(db: Payload, states: seq<Resource>, alarms: seq<Resource>, specs: seq<Spec>, actions: seq<Action>,
                    i: nat, r: Resource)
    requires CaughtUp(Run(Init(db, states, alarms, specs), actions))
    requires i < |Run(Init(db, states, alarms, specs), actions).specs|
    ensures i < |Run(Init(db, states, alarms, specs), actions).recorded|
    ensures Run(Init(db, states, alarms, specs), actions).recorded[i] != []
    ensures var s := Run(Init(db, states, alarms, specs), actions);
      var p, path := Last(s.recorded[i]), s.specs[i].path;
      && (r in p <==>
            && r in s.db && r.device == s.specs[i].device
            && (|| (path == Connections && r.kind == Connection)
                || (path == ConnectionState(r.id) && r.kind == Connection)
                || (path == Ports && r.kind in {InputPort, OutputPort})
                || (path == InputPortState(r.id) && r.kind == InputPort)
                || (path == OutputPortState(r.id) && r.kind == OutputPort)
                || (path == Alarms && r.kind == Alarm)
                || (path == OneAlarm(r.id) && r.kind == Alarm)))
      && (r in p ==> p[r] == s.db[r])
  {
    InvOverRuns(db, states, alarms, specs, actions);
    var s := Run(Init(db, states, alarms, specs), actions);
    CaughtUpIsCurrent(s, i);
    var p := Last(s.recorded[i]);
    assert r in p <==> r in s.db && Matches(s.specs[i], r);
  }

  /** A fetch reads on from the position, in order, at most a hundred events, and fewer only if the
      stream ends there. */
  lemma FetchReads(s: State, stream: Stream)
    requires Enabled(s, Fetch(stream))
    ensures var t := Step(s, Fetch(stream));
      && t.pc.Fetching? && stream in t.pc.fetched && t.cursors == s.cursors
      && var got, from := t.pc.fetched[stream], s.cursors[stream];
         var log := if stream.StateEvents? then s.states else s.alarms;
         && |got| <= 100 && from + |got| <= |log| && (|got| < 100 ==> from + |got| == |log|)
         && forall k | 0 <= k < |got| :: got[k] == log[from + k]
  {
  }
}
