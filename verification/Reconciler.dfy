/** The reconciliation plan: what to send to the device so that its connections become the
desired ones, and which connections differ. */
module Reconciler {
  import opened Ids
  import opened Connections
  import opened DeviceModel

  datatype DriftKind = Missing | Mismatched | Unexpected

  datatype Drift = Drift(id: string, kind: DriftKind, desired: Command, actual: Option<Applied>)

  datatype PlanResult = Planned(commands: seq<Command>, drifts: seq<Drift>) | DuplicateIds

  // ---------------------------------------------------------------- sorting by id

  function Insert<T>(x: T, xs: seq<T>, key: T -> string): seq<T>
  {
    if xs == [] then [x]
    else if LexLe(key(x), key(xs[0])) then [x] + xs
    else [xs[0]] + Insert(x, xs[1..], key)
  }

  function SortBy<T>(xs: seq<T>, key: T -> string): seq<T>
  {
    if xs == [] then [] else Insert(xs[0], SortBy(xs[1..], key), key)
  }

  ghost predicate Ascending<T>(xs: seq<T>, key: T -> string)
  {
    forall i, j | 0 <= i < j < |xs| :: LexLe(key(xs[i]), key(xs[j]))
  }

  lemma {:induction false} InsertMembers<T>(x: T, xs: seq<T>, key: T -> string)
    ensures multiset(Insert(x, xs, key)) == multiset(xs) + multiset{x}
    ensures |Insert(x, xs, key)| == |xs| + 1
  {
    if xs != [] && !LexLe(key(x), key(xs[0])) {
      InsertMembers(x, xs[1..], key);
      assert xs == [xs[0]] + xs[1..];
    }
  }

  /** `a` is below every element of `xs`. */
  ghost predicate Below<T>(a: T, xs: seq<T>, key: T -> string)
  {
    forall j | 0 <= j < |xs| :: LexLe(key(a), key(xs[j]))
  }

  lemma {:induction false} InsertBelow<T>(a: T, x: T, xs: seq<T>, key: T -> string)
    requires Below(a, xs, key) && LexLe(key(a), key(x))
    ensures Below(a, Insert(x, xs, key), key)
  {
    if xs != [] && !LexLe(key(x), key(xs[0])) {
      InsertBelow(a, x, xs[1..], key);
    }
  }

  lemma {:induction false} InsertAscending<T>(x: T, xs: seq<T>, key: T -> string)
    requires Ascending(xs, key)
    ensures Ascending(Insert(x, xs, key), key)
  {
    if xs == [] {
    } else if LexLe(key(x), key(xs[0])) {
      forall j | 0 < j < |xs| ensures LexLe(key(x), key(xs[j])) {
        LexTransitive(key(x), key(xs[0]), key(xs[j]));
      }
    } else {
      LexTotal(key(x), key(xs[0]));
      InsertAscending(x, xs[1..], key);
      InsertBelow(xs[0], x, xs[1..], key);
    }
  }

  lemma {:induction false} SortKeepsMembers<T>(xs: seq<T>, key: T -> string)
    ensures multiset(SortBy(xs, key)) == multiset(xs)
    ensures |SortBy(xs, key)| == |xs|
  {
    if xs != [] {
      SortKeepsMembers(xs[1..], key);
      InsertMembers(xs[0], SortBy(xs[1..], key), key);
      assert xs == [xs[0]] + xs[1..];
    }
  }

  lemma {:induction false} SortAscends<T>(xs: seq<T>, key: T -> string)
    ensures Ascending(SortBy(xs, key), key)
  {
    if xs != [] {
      SortAscends(xs[1..], key);
      InsertAscending(xs[0], SortBy(xs[1..], key), key);
    }
  }

  lemma SortProps<T>(xs: seq<T>, key: T -> string)
    ensures multiset(SortBy(xs, key)) == multiset(xs)
    ensures Ascending(SortBy(xs, key), key)
    ensures |SortBy(xs, key)| == |xs|
  {
    SortKeepsMembers(xs, key);
    SortAscends(xs, key);
  }

  lemma SortMembers<T>(xs: seq<T>, key: T -> string, x: T)
    ensures x in SortBy(xs, key) <==> x in xs
  {
    SortProps(xs, key);
    assert x in SortBy(xs, key) <==> x in multiset(SortBy(xs, key));
    assert x in xs <==> x in multiset(xs);
  }

  ghost predicate Distinct<T>(xs: seq<T>, key: T -> string)
  {
    forall i, j | 0 <= i < j < |xs| :: key(xs[i]) != key(xs[j])
  }

  /** `adjacent_find` on a sorted sequence finds a repeated key exactly when there is one. */
  method HasAdjacentRepeat<T>(xs: seq<T>, key: T -> string) returns (found: bool)
    requires Ascending(xs, key)
    ensures found <==> !Distinct(xs, key)
  {
    var i := 1;
    while i < |xs|
      invariant 1 <= i
      invariant forall a, b | 0 <= a < b < i && b < |xs| :: key(xs[a]) != key(xs[b])
    {
      if key(xs[i - 1]) == key(xs[i]) {
        return true;
      }
      forall a | 0 <= a < i ensures key(xs[a]) != key(xs[i]) {
        if key(xs[a]) == key(xs[i]) && a != i - 1 {
          LexAntisymmetric(key(xs[a]), key(xs[i - 1]));
        }
      }
      i := i + 1;
    }
    return false;
  }

  /** Sorting keeps the number of repeats: a key occurs twice after iff it did before. */
  lemma DistinctByCount<T>(xs: seq<T>, ys: seq<T>, key: T -> string)
    requires multiset(xs) == multiset(ys) && Distinct(xs, key)
    ensures Distinct(ys, key)
  {
    forall i, j | 0 <= i < j < |ys| ensures key(ys[i]) != key(ys[j]) {
      TwoOccurrences(ys, i, j);
      var a, b := OccurrencesOf(xs, ys[i], ys[j]);
    }
  }

  lemma OccurrencesOf<T>(xs: seq<T>, x: T, y: T) returns (a: nat, b: nat)
    requires x in multiset(xs) && y in multiset(xs) && (x == y ==> multiset(xs)[x] >= 2)
    ensures a < |xs| && b < |xs| && a != b && xs[a] == x && xs[b] == y
  {
    if x == y {
      a, b := OccursTwice(xs, x);
    } else {
      assert x in xs && y in xs;
      a :| 0 <= a < |xs| && xs[a] == x;
      b :| 0 <= b < |xs| && xs[b] == y;
    }
  }

  lemma TwoOccurrences<T>(ys: seq<T>, i: nat, j: nat)
    requires i < j < |ys|
    ensures ys[i] in multiset(ys) && ys[j] in multiset(ys)
    ensures ys[i] == ys[j] ==> multiset(ys)[ys[i]] >= 2
  {
    assert ys == ys[..j] + [ys[j]] + ys[j + 1..];
    assert ys[i] in ys[..j];
  }

  lemma {:induction false} OccursTwice<T>(xs: seq<T>, x: T) returns (a: nat, b: nat)
    requires multiset(xs)[x] >= 2
    ensures a < b < |xs| && xs[a] == x && xs[b] == x
  {
    var n := |xs| - 1;
    assert xs == xs[..n] + [xs[n]];
    if xs[n] == x {
      assert x in multiset(xs[..n]);
      assert x in xs[..n];
      a :| 0 <= a < n && xs[..n][a] == x;
      b := n;
    } else {
      a, b := OccursTwice(xs[..n], x);
    }
  }

  // ---------------------------------------------------------------- the plan

  function CommandId(c: Command): string { c.id }

  function AppliedId(a: Applied): string { a.id }

  function DriftId(d: Drift): string { d.id }

  /** The removal sent for a connection nobody desires. */
  function Removal(a: Applied): Command
  {
    Command(Remove, a.id, 0, 0, if a.version < 1 then 1 else a.version)
  }

  ghost predicate Desires(desired: seq<Command>, id: string)
  {
    exists c :: c in desired && c.id == id
  }

  ghost predicate Has(actual: seq<Applied>, id: string)
  {
    exists a :: a in actual && a.id == id
  }

  predicate Differs(c: Command, a: Applied)
  {
    a.input != c.input || a.output != c.output || a.version != c.version
  }

  /** Commands of a plan: every desired command, and a removal per unexpected connection. */
  ghost predicate PlansCommand(desired: seq<Command>, actual: seq<Applied>, c: Command)
  {
    c in desired || exists a :: a in actual && !Desires(desired, a.id) && c == Removal(a)
  }

  ghost predicate IsDrift(desired: seq<Command>, actual: seq<Applied>, d: Drift)
  {
    match d.kind
    case Missing => d.desired in desired && d.id == d.desired.id && d.actual.None? && !Has(actual, d.id)
    case Mismatched =>
      && d.desired in desired && d.id == d.desired.id
      && d.actual.Some? && d.actual.value in actual && d.actual.value.id == d.id && Differs(d.desired, d.actual.value)
    case Unexpected =>
      && d.actual.Some? && d.actual.value in actual && d.id == d.actual.value.id
      && !Desires(desired, d.id) && d.desired == Removal(d.actual.value)
  }

  ghost predicate IsPlan(desired: seq<Command>, actual: seq<Applied>, commands: seq<Command>, drifts: seq<Drift>)
  {
    && DistinctIds(commands) && Ascending(commands, CommandId)
    && Distinct(drifts, DriftId) && Ascending(drifts, DriftId)
    && (forall c :: c in commands <==> PlansCommand(desired, actual, c))
    && (forall d :: d in drifts <==> IsDrift(desired, actual, d))
  }

  method BuildReconciliationPlan(desired: seq<Command>, actual: seq<Applied>) returns (r: PlanResult)
    ensures r.DuplicateIds? <==> !Distinct(desired, CommandId) || !Distinct(actual, AppliedId)
    ensures r.Planned? ==> IsPlan(desired, actual, r.commands, r.drifts)
  {
    var wanted, present := SortBy(desired, CommandId), SortBy(actual, AppliedId);
    SortProps(desired, CommandId);
    SortProps(actual, AppliedId);
    var repeatWanted := HasAdjacentRepeat(wanted, CommandId);
    var repeatPresent := HasAdjacentRepeat(present, AppliedId);
    RepeatsSurviveSorting(desired, actual);
    if repeatWanted || repeatPresent {
      return DuplicateIds;
    }
    var actualById := IndexById(present);
    forall a ensures a in present <==> a in actual { SortMembers(actual, AppliedId, a); }
    forall c ensures c in wanted <==> c in desired { SortMembers(desired, CommandId, c); }
    var drifts, left := CompareDesired(wanted, actual, actualById);
    var commands, drifts' := AppendRemovals(wanted, drifts, left);
    DesiresSame(wanted, desired);
    FinishPlan(wanted, desired, actual, commands, drifts', left);
    r := Planned(SortBy(commands, CommandId), SortBy(drifts', DriftId));
  }

  method IndexById(present: seq<Applied>) returns (m: Matrix)
    requires Distinct(present, AppliedId)
    ensures forall k :: k in m <==> Has(present, k)
    ensures forall k | k in m :: m[k] in present && m[k].id == k
  {
    m := map[];
    for i := 0 to |present|
      invariant forall k :: k in m <==> Has(present[..i], k)
      invariant forall k | k in m :: m[k] in present[..i] && m[k].id == k
    {
      assert present[..i + 1] == present[..i] + [present[i]];
      forall k ensures Has(present[..i + 1], k) <==> Has(present[..i], k) || k == present[i].id {
        if k == present[i].id { assert present[i] in present[..i + 1]; }
        if Has(present[..i], k) { var a :| a in present[..i] && a.id == k; assert a in present[..i + 1]; }
      }
      m := m[present[i].id := present[i]];
    }
    assert present[..|present|] == present;
  }

  /** First loop: missing and mismatched connections; what is left over was not desired. */
  method CompareDesired(wanted: seq<Command>, ghost actual: seq<Applied>, actualById: Matrix)
    returns (drifts: seq<Drift>, left: Matrix)
    requires Distinct(wanted, CommandId)
    requires forall k :: k in actualById <==> Has(actual, k)
    requires forall a | a in actual :: a.id in actualById && actualById[a.id] == a
    requires forall k | k in actualById :: actualById[k] in actual && actualById[k].id == k
    ensures forall d :: d in drifts <==> IsDrift(wanted, actual, d) && !d.kind.Unexpected?
    ensures Distinct(drifts, DriftId) && forall d | d in drifts :: Desires(wanted, d.id)
    ensures forall k :: k in left <==> k in actualById && !Desires(wanted, k)
    ensures forall k | k in left :: left[k] == actualById[k]
  {
    drifts, left := [], actualById;
    for i := 0 to |wanted|
      invariant forall d :: d in drifts <==> IsDrift(wanted[..i], actual, d) && !d.kind.Unexpected?
      invariant Distinct(drifts, DriftId) && forall d | d in drifts :: Desires(wanted[..i], d.id)
      invariant forall k :: k in left <==> k in actualById && !Desires(wanted[..i], k)
      invariant forall k | k in left :: left[k] == actualById[k]
    {
      var c := wanted[i];
      ghost var seen := wanted[..i];
      assert wanted[..i + 1] == seen + [c];
      forall x | x in seen ensures x.id != c.id {
        var j :| 0 <= j < i && wanted[j] == x;
        assert CommandId(wanted[j]) != CommandId(wanted[i]);
      }
      DesiresGrows(seen, c);
      DriftGrows(seen, actual, c);
      if c.id !in left {
        drifts := drifts + [Drift(c.id, Missing, c, None)];
        continue;
      }
      var found := left[c.id];
      if Differs(c, found) {
        drifts := drifts + [Drift(c.id, Mismatched, c, Some(found))];
      }
      left := left - {c.id};
    }
    assert wanted[..|wanted|] == wanted;
  }

  lemma DesiresGrows(seen: seq<Command>, c: Command)
    ensures forall k :: Desires(seen + [c], k) <==> Desires(seen, k) || k == c.id
  {
    forall k ensures Desires(seen + [c], k) <==> Desires(seen, k) || k == c.id {
      if Desires(seen, k) { var x :| x in seen && x.id == k; assert x in seen + [c]; }
      if k == c.id { assert c in seen + [c]; }
    }
  }

  lemma DriftGrows(seen: seq<Command>, actual: seq<Applied>, c: Command)
    ensures forall d: Drift | !d.kind.Unexpected? ::
      IsDrift(seen + [c], actual, d) <==> IsDrift(seen, actual, d) || (d.desired == c && IsDrift([c], actual, d))
  {
  }

  ghost predicate RemovalFrom(left: Matrix, done: set<string>, c: Command)
  {
    exists k :: k in done && k in left && c == Removal(left[k])
  }

  ghost predicate UnexpectedFrom(left: Matrix, done: set<string>, d: Drift)
  {
    d.id in done && d.id in left && d == Drift(d.id, Unexpected, Removal(left[d.id]), Some(left[d.id]))
  }

  /** Second loop: one removal and one drift per connection nobody desires, in key order. */
  method AppendRemovals(wanted: seq<Command>, drifts0: seq<Drift>, left: Matrix)
    returns (commands: seq<Command>, drifts: seq<Drift>)
    requires Distinct(wanted, CommandId) && Distinct(drifts0, DriftId)
    requires forall k | k in left :: left[k].id == k && !Desires(wanted, k)
    requires forall d | d in drifts0 :: Desires(wanted, d.id)
    ensures Distinct(commands, CommandId) && Distinct(drifts, DriftId)
    ensures forall c :: c in commands <==> c in wanted || RemovalFrom(left, left.Keys, c)
    ensures forall d :: d in drifts <==> d in drifts0 || UnexpectedFrom(left, left.Keys, d)
  {
    commands, drifts := wanted, drifts0;
    var todo := left.Keys;
    while todo != {}
      invariant todo <= left.Keys
      invariant Distinct(commands, CommandId) && Distinct(drifts, DriftId)
      invariant forall k | k in todo, c | c in commands :: c.id != k
      invariant forall k | k in todo, d | d in drifts :: d.id != k
      invariant forall c :: c in commands <==> c in wanted || RemovalFrom(left, left.Keys - todo, c)
      invariant forall d :: d in drifts <==> d in drifts0 || UnexpectedFrom(left, left.Keys - todo, d)
    {
      var k := Min(todo);
      var removal := Removal(left[k]);
      RemovalGrows(left, left.Keys - todo, k);
      assert left.Keys - (todo - {k}) == left.Keys - todo + {k};
      commands := commands + [removal];
      drifts := drifts + [Drift(k, Unexpected, removal, Some(left[k]))];
      todo := todo - {k};
    }
  }

  lemma RemovalGrows(left: Matrix, done: set<string>, k: string)
    requires k in left
    ensures forall c :: RemovalFrom(left, done + {k}, c) <==> RemovalFrom(left, done, c) || c == Removal(left[k])
  {
    forall c ensures RemovalFrom(left, done + {k}, c) <==> RemovalFrom(left, done, c) || c == Removal(left[k]) {
      if j :| j in done && j in left && c == Removal(left[j]) { assert j in done + {k}; }
      if c == Removal(left[k]) { assert k in done + {k}; }
    }
  }

  lemma RepeatsSurviveSorting(desired: seq<Command>, actual: seq<Applied>)
    ensures Distinct(SortBy(desired, CommandId), CommandId) <==> Distinct(desired, CommandId)
    ensures Distinct(SortBy(actual, AppliedId), AppliedId) <==> Distinct(actual, AppliedId)
  {
    SortProps(desired, CommandId);
    SortProps(actual, AppliedId);
    var w, p := SortBy(desired, CommandId), SortBy(actual, AppliedId);
    if Distinct(w, CommandId) { DistinctByCount(w, desired, CommandId); }
    if Distinct(desired, CommandId) { DistinctByCount(desired, w, CommandId); }
    if Distinct(p, AppliedId) { DistinctByCount(p, actual, AppliedId); }
    if Distinct(actual, AppliedId) { DistinctByCount(actual, p, AppliedId); }
  }

  lemma DesiresSame(wanted: seq<Command>, desired: seq<Command>)
    requires forall c :: c in wanted <==> c in desired
    ensures forall k :: Desires(wanted, k) <==> Desires(desired, k)
  {
    forall k ensures Desires(wanted, k) <==> Desires(desired, k) {
      if Desires(wanted, k) { var c :| c in wanted && c.id == k; assert c in desired; }
      if Desires(desired, k) { var c :| c in desired && c.id == k; assert c in wanted; }
    }
  }

  lemma FinishPlan(wanted: seq<Command>, desired: seq<Command>, actual: seq<Applied>,
                   commands: seq<Command>, drifts: seq<Drift>, left: Matrix)
    requires forall c :: c in wanted <==> c in desired
    requires forall k :: Desires(wanted, k) <==> Desires(desired, k)
    requires Distinct(commands, CommandId) && Distinct(drifts, DriftId)
    requires forall k :: k in left <==> Has(actual, k) && !Desires(wanted, k)
    requires forall k | k in left :: left[k] in actual && left[k].id == k
    requires forall a | a in actual && a.id in left :: left[a.id] == a
    requires forall c :: c in commands <==> c in wanted || RemovalFrom(left, left.Keys, c)
    requires forall d: Drift :: d in drifts <==>
      (IsDrift(wanted, actual, d) && !d.kind.Unexpected?) || UnexpectedFrom(left, left.Keys, d)
    ensures IsPlan(desired, actual, SortBy(commands, CommandId), SortBy(drifts, DriftId))
  {
    var cs, ds := SortBy(commands, CommandId), SortBy(drifts, DriftId);
    SortProps(commands, CommandId);
    SortProps(drifts, DriftId);
    DistinctByCount(commands, cs, CommandId);
    DistinctByCount(drifts, ds, DriftId);
    assert DistinctIds(cs) by {
      forall i, j | 0 <= i < j < |cs| ensures cs[i].id != cs[j].id { assert CommandId(cs[i]) != CommandId(cs[j]); }
    }
    forall c ensures c in cs <==> PlansCommand(desired, actual, c) {
      SortMembers(commands, CommandId, c);
      if k :| k in left && c == Removal(left[k]) {
        assert left[k] in actual && !Desires(desired, left[k].id);
      }
      if a :| a in actual && !Desires(desired, a.id) && c == Removal(a) {
        assert Has(actual, a.id) && a.id in left;
      }
    }
    forall d ensures d in ds <==> IsDrift(desired, actual, d) {
      SortMembers(drifts, DriftId, d);
      if d.kind.Unexpected? && IsDrift(desired, actual, d) {
        assert Has(actual, d.id) && d.id in left;
      }
    }
  }

  // ---------------------------------------------------------------- what a plan achieves

  ghost predicate AllUpserts(desired: seq<Command>)
  {
    forall c | c in desired :: c.op.Upsert?
  }

  function DesiredMatrix(desired: seq<Command>): Matrix
  {
    ApplyAll(map[], desired)
  }

  /** Nothing has drifted exactly when desired and actual are the same map. */
  lemma NoDriftIffSame(desired: seq<Command>, m: Matrix, commands: seq<Command>, drifts: seq<Drift>)
    requires AllUpserts(desired) && DistinctIds(desired) && (forall k | k in m :: m[k].id == k)
    requires IsPlan(desired, Entries(m), commands, drifts)
    ensures drifts == [] <==> DesiredMatrix(desired) == m
  {
    var actual := Entries(m);
    DistinctAgree(desired);
    ApplyAllPointwise(map[], desired);
    var want := DesiredMatrix(desired);
    EntriesMembers(m);
    if drifts == [] {
      forall k ensures (k in want <==> k in m) && (k in m ==> want[k] == m[k]) {
        if k in want {
          assert k in IdsOf(desired);
          var c :| c in desired && c.id == k;
          assert !IsDrift(desired, actual, Drift(k, Missing, c, None));
          var a :| a in actual && a.id == k;
          assert !IsDrift(desired, actual, Drift(k, Mismatched, c, Some(a)));
        } else if k in m {
          assert m[k] in actual;
          assert !IsDrift(desired, actual, Drift(k, Unexpected, Removal(m[k]), Some(m[k])));
          var c :| c in desired && c.id == k;
        }
      }
    }
    if want == m {
      forall d ensures d !in drifts { SameMapNoDrift(desired, m, d); }
      HasMember(drifts);
    }
  }

  lemma HasMember<T>(xs: seq<T>)
    ensures xs == [] || exists x :: x in xs
  {
    if xs != [] { assert xs[0] in xs; }
  }

  lemma SameMapNoDrift(desired: seq<Command>, m: Matrix, d: Drift)
    requires AllUpserts(desired) && Pointwise(map[], desired, m) && (forall k | k in m :: m[k].id == k)
    ensures !IsDrift(desired, Entries(m), d)
  {
    EntriesMembers(m);
    forall k | k in m ensures Desires(desired, k) {
      assert k in IdsOf(desired);
      var c :| c in desired && c.id == k;
    }
    forall c | c in desired
      ensures Has(Entries(m), c.id) && forall a | a in Entries(m) && a.id == c.id :: !Differs(c, a)
    {
      assert m[c.id] == ToApplied(c) && m[c.id] in Entries(m);
    }
  }

  lemma EntriesMembers(m: Matrix)
    requires forall k | k in m :: m[k].id == k
    ensures forall k | k in m :: m[k] in Entries(m)
    ensures forall a | a in Entries(m) :: a.id in m && m[a.id] == a
    ensures Distinct(Entries(m), AppliedId)
  {
    EntriesProps(m);
    SortedKeysProps(m.Keys);
    var es, ks := Entries(m), SortedKeys(m.Keys);
    forall k | k in m ensures m[k] in es {
      assert k in ks;
      var i :| 0 <= i < |ks| && ks[i] == k;
      assert es[i] == m[k];
    }
    forall i, j | 0 <= i < j < |es| ensures AppliedId(es[i]) != AppliedId(es[j]) {
      assert ks[i] != ks[j];
    }
  }

  /** The batch of a plan built from the device's own connections turns them into the desired
      matrix, whatever the device is connected to now. */
  lemma PlanYieldsDesired(m: Matrix, desired: seq<Command>, commands: seq<Command>, drifts: seq<Drift>)
    requires AllUpserts(desired) && DistinctIds(desired) && (forall k | k in m :: m[k].id == k)
    requires IsPlan(desired, Entries(m), commands, drifts)
    ensures ApplyAll(m, commands) == DesiredMatrix(desired)
  {
    DistinctAgree(commands);
    ApplyAllPointwise(m, commands);
    DistinctAgree(desired);
    ApplyAllPointwise(map[], desired);
    EntriesMembers(m);
    var r, want := ApplyAll(m, commands), DesiredMatrix(desired);
    forall k ensures (k in r <==> k in want) && (k in want ==> r[k] == want[k]) {
      if k in IdsOf(desired) {
        PlanKeepsWanted(m, desired, commands, drifts, r, want, k);
      } else {
        PlanDropsUnwanted(m, desired, commands, drifts, r, k);
      }
    }
  }

  lemma PlanKeepsWanted(m: Matrix, desired: seq<Command>, commands: seq<Command>, drifts: seq<Drift>, r: Matrix,
                        want: Matrix, k: string)
    requires AllUpserts(desired) && IsPlan(desired, Entries(m), commands, drifts) && k in IdsOf(desired)
    requires Pointwise(m, commands, r) && Pointwise(map[], desired, want)
    ensures k in r && k in want && r[k] == want[k]
  {
    var c :| c in desired && c.id == k;
    assert PlansCommand(desired, Entries(m), c);
    assert c in commands;
  }

  lemma PlanDropsUnwanted(m: Matrix, desired: seq<Command>, commands: seq<Command>, drifts: seq<Drift>, r: Matrix,
                          k: string)
    requires IsPlan(desired, Entries(m), commands, drifts) && k !in IdsOf(desired)
    requires forall a | a in Entries(m) :: a.id in m && m[a.id] == a
    requires forall j | j in m :: m[j] in Entries(m) && m[j].id == j
    requires Pointwise(m, commands, r)
    ensures k !in r
  {
    assert forall c | c in desired :: c.id in IdsOf(desired) && c.id != k;
    if k in m {
      assert PlansCommand(desired, Entries(m), Removal(m[k]));
      assert Removal(m[k]) in commands;
    } else {
      forall c | c in commands ensures c.id != k {
        assert PlansCommand(desired, Entries(m), c);
      }
    }
  }

  /** What a caller can check before sending a plan: desired members are acceptable on their own
      and not older than their fence, the desired matrix is a matching, and no unwanted connection
      that was applied without a version hides a fence above 1. */
  ghost predicate Reconcilable(d: Core, desired: seq<Command>)
  {
    && (forall c | c in desired :: !IsStale(d.fences, c) && MemberError(d, c) == Ok)
    && Matching(DesiredMatrix(desired))
    && (forall k | k in d.conns && !Desires(desired, k) && d.conns[k].version == 0 ::
          k in d.fences ==> d.fences[k] <= 1)
  }

  lemma PlanAcceptedIff(d: Core, desired: seq<Command>, commands: seq<Command>, drifts: seq<Drift>)
    requires CoreInv(d) && AllUpserts(desired) && DistinctIds(desired)
    requires IsPlan(desired, Entries(d.conns), commands, drifts)
    ensures Acceptable(d, commands) <==> Reconcilable(d, desired)
  {
    PlanYieldsDesired(d.conns, desired, commands, drifts);
    EntriesMembers(d.conns);
    if Acceptable(d, commands) {
      forall c | c in desired ensures !IsStale(d.fences, c) && MemberError(d, c) == Ok {
        assert PlansCommand(desired, Entries(d.conns), c);
        assert c in commands;
      }
      forall k | k in d.conns && !Desires(desired, k) && d.conns[k].version == 0 && k in d.fences
        ensures d.fences[k] <= 1
      {
        assert PlansCommand(desired, Entries(d.conns), Removal(d.conns[k]));
        assert Removal(d.conns[k]) in commands;
        assert !IsStale(d.fences, Removal(d.conns[k]));
      }
    }
    if Reconcilable(d, desired) {
      forall c | c in commands ensures !IsStale(d.fences, c) && MemberError(d, c) == Ok {
        assert PlansCommand(desired, Entries(d.conns), c);
        if c !in desired {
          var a :| a in Entries(d.conns) && !Desires(desired, a.id) && c == Removal(a);
          assert a.id in d.conns && d.conns[a.id] == a;
        }
      }
    }
  }

  /** One apply is enough. On a reachable device with no one-shot fault armed, the plan built from
      its own connections is accepted exactly when it is reconcilable; the device then holds
      exactly the desired matrix and every later plan for the same desired state is converged. */
  lemma ReconciliationConverges(d: Core, desired: seq<Command>, commands: seq<Command>, drifts: seq<Drift>,
                                commands': seq<Command>, drifts': seq<Drift>)
    requires CoreInv(d) && !d.failNext && !d.timeoutNext
    requires AllUpserts(desired) && DistinctIds(desired)
    requires IsPlan(desired, Entries(d.conns), commands, drifts)
    requires IsPlan(desired, Entries(Execute(d, commands, true).0.conns), commands', drifts')
    ensures Execute(d, commands, true).1.error == Ok <==> Reconcilable(d, desired)
    ensures Reconcilable(d, desired) ==>
      Execute(d, commands, true).0.conns == DesiredMatrix(desired) && drifts' == []
    ensures !Reconcilable(d, desired) ==> Execute(d, commands, true).0.conns == d.conns
  {
    ExecuteEffect(d, commands, true);
    PlanAcceptedIff(d, desired, commands, drifts);
    PlanYieldsDesired(d.conns, desired, commands, drifts);
    ExecuteKeepsInv(d, commands, true);
    if Reconcilable(d, desired) {
      NoDriftIffSame(desired, DesiredMatrix(desired), commands', drifts');
    }
  }

  /** With positive applied versions the fence condition on unwanted connections is automatic. */
  lemma PositiveVersionsReconcile(d: Core, desired: seq<Command>)
    requires CoreInv(d) && (forall k | k in d.conns :: d.conns[k].version > 0)
    ensures Reconcilable(d, desired) <==>
      && (forall c | c in desired :: !IsStale(d.fences, c) && MemberError(d, c) == Ok)
      && Matching(DesiredMatrix(desired))
  {
  }

  /** A device can get there: a connection applied at version 5 and then again without a version keeps
      fence 5 and shows version 0, so the plan that removes it is refused. */
  lemma HiddenFence(commands: seq<Command>, drifts: seq<Drift>)
    requires var five := CallApply([Command(Upsert, "x", 1, 1, 5)], None, true);
      var none := CallApply([Command(Upsert, "x", 1, 1, 0)], None, true);
      IsPlan([], Entries(Run(Init<string>(1, 1, 0), [five, none]).core.conns), commands, drifts)
    ensures var five := CallApply([Command(Upsert, "x", 1, 1, 5)], None, true);
      var none := CallApply([Command(Upsert, "x", 1, 1, 0)], None, true);
      var d := Run(Init<string>(1, 1, 0), [five, none]).core;
      && CoreInv(d) && d.conns == map["x" := Applied("x", 1, 1, 0)] && d.fences == map["x" := 5]
      && !Reconcilable(d, []) && Execute(d, commands, true).1.error != Ok
  {
    var five: Call<string> := CallApply([Command(Upsert, "x", 1, 1, 5)], None, true);
    var none: Call<string> := CallApply([Command(Upsert, "x", 1, 1, 0)], None, true);
    var d0 := Init<string>(1, 1, 0);
    var d1, d2 := Step(d0, five), Step(Step(d0, five), none);
    assert [five, none][..1] == [five] && [five][..0] == [];
    assert Run(d0, [five]) == Step(Run(d0, []), five);
    OneUpsert(d0.core, five.commands[0]);
    OneUpsert(d1.core, none.commands[0]);
    InvOverRuns(d0, [five, none]);
    PlanAcceptedIff(d2.core, [], commands, drifts);
    ExecuteEffect(d2.core, commands, true);
  }

  /** One upsert on a one-port device that holds nothing but that connection. */
  lemma OneUpsert(d: Core, c: Command)
    requires c.op.Upsert? && c.id != "" && c.input == 1 && c.output == 1 && !IsStale(d.fences, c)
    requires d.conns.Keys <= {c.id} && !d.failNext && !d.timeoutNext
    requires d.inPorts == FreshPorts(1) && d.outPorts == FreshPorts(1)
    ensures Execute(d, [c], true).1.error == Ok
    ensures Execute(d, [c], true).0.conns == map[c.id := ToApplied(c)]
    ensures Execute(d, [c], true).0.fences == if c.version != 0 then d.fences[c.id := c.version] else d.fences
    ensures Execute(d, [c], true).0.inPorts == d.inPorts && Execute(d, [c], true).0.outPorts == d.outPorts
    ensures !Execute(d, [c], true).0.failNext && !Execute(d, [c], true).0.timeoutNext
  {
    assert [c][..0] == [];
    assert ApplyAll(d.conns, [c]) == ApplyOne(ApplyAll(d.conns, []), c) == map[c.id := ToApplied(c)];
    assert Fence(d.fences, []) == d.fences;
    ExecuteEffect(d, [c], true);
  }
}
