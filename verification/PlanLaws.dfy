/**
 The plan means the requested change, is safe after every operation, and can be
 run again from wherever it stopped.
 */
module PlanLaws {
  import opened Options
  import opened Plans
  import opened Text
  import opened Translate

  // ---------- what operations do to one name ----------

  predicate IsWrite(op: Op) {
    op.Create? || op.Patch?
  }

  predicate DeletesBefore(ops: seq<Op>, k: nat, n: string)
    requires k <= |ops|
  {
    exists j :: 0 <= j < k && ops[j] == Delete(n)
  }

  predicate WritesBefore(ops: seq<Op>, k: nat, r: RecordObject)
    requires k <= |ops|
  {
    exists j :: 0 <= j < k && (ops[j] == Create(r) || ops[j] == Patch(r))
  }

  predicate Agree(a: Op, b: Op) {
    IsWrite(a) && IsWrite(b) && a.record.name == b.record.name ==> a.record == b.record
  }

  /** Operations on one name agree, deletes come last, and patches find their object. */
  predicate Orderly(store: Store, ops: seq<Op>) {
    && (forall i, j :: 0 <= i < j < |ops| && ops[i].Delete? ==> ops[j].Delete?)
    && (forall i, j :: 0 <= i < |ops| && 0 <= j < |ops| ==> Agree(ops[i], ops[j]))
    && (forall i :: 0 <= i < |ops| && ops[i].Patch? ==> ops[i].record.name in store)
  }

  /** Nothing before k touches the name. */
  predicate Untouched(ops: seq<Op>, k: nat, n: string)
    requires k <= |ops|
  {
    forall j :: 0 <= j < k ==> ops[j] != Delete(n) && (IsWrite(ops[j]) ==> ops[j].record.name != n)
  }

  predicate SameAt(a: Store, b: Store, n: string) {
    (n in a <==> n in b) && (n in a ==> a[n] == b[n])
  }

  /** What the first k operations made of one name. */
  lemma PrefixState(store: Store, ops: seq<Op>, k: nat, n: string)
    requires Orderly(store, ops) && k <= |ops|
    ensures var s := ExecAll(store, ops[..k]);
      && (DeletesBefore(ops, k, n) ==> n !in s)
      && (Untouched(ops, k, n) ==> SameAt(store, s, n))
      && (!DeletesBefore(ops, k, n) ==>
            forall r :: WritesBefore(ops, k, r) && r.name == n ==> n in s && s[n] == Stored(r))
      && (!DeletesBefore(ops, k, n) && n in store ==> n in s)
  {
    if DeletesBefore(ops, k, n) {
      PrefixDeleted(store, ops, k, n);
    } else {
      PrefixKept(store, ops, k, n);
      forall r | WritesBefore(ops, k, r) && r.name == n
        ensures n in ExecAll(store, ops[..k]) && ExecAll(store, ops[..k])[n] == Stored(r)
      {
        PrefixWritten(store, ops, k, r);
      }
    }
    if Untouched(ops, k, n) {
      PrefixUntouched(store, ops, k, n);
    }
  }

  lemma {:induction false} PrefixDeleted(store: Store, ops: seq<Op>, k: nat, n: string)
    requires Orderly(store, ops) && k <= |ops| && DeletesBefore(ops, k, n)
    ensures n !in ExecAll(store, ops[..k])
    decreases k
  {
    ExecNext(store, ops, k - 1);
    if ops[k - 1] != Delete(n) {
      assert DeletesBefore(ops, k - 1, n);
      PrefixDeleted(store, ops, k - 1, n);
    }
  }

  lemma {:induction false} PrefixUntouched(store: Store, ops: seq<Op>, k: nat, n: string)
    requires k <= |ops| && Untouched(ops, k, n)
    ensures SameAt(store, ExecAll(store, ops[..k]), n)
    decreases k
  {
    if k > 0 {
      PrefixUntouched(store, ops, k - 1, n);
      ExecNext(store, ops, k - 1);
    }
  }

  lemma {:induction false} PrefixKept(store: Store, ops: seq<Op>, k: nat, n: string)
    requires k <= |ops| && !DeletesBefore(ops, k, n)
    ensures n in store ==> n in ExecAll(store, ops[..k])
    decreases k
  {
    if k > 0 {
      PrefixKept(store, ops, k - 1, n);
      ExecNext(store, ops, k - 1);
    }
  }

  lemma PrefixWritten(store: Store, ops: seq<Op>, k: nat, r: RecordObject)
    requires Orderly(store, ops) && k <= |ops| && WritesBefore(ops, k, r) && !DeletesBefore(ops, k, r.name)
    ensures var s := ExecAll(store, ops[..k]); r.name in s && s[r.name] == Stored(r)
  {
    var j :| 0 <= j < k && (ops[j] == Create(r) || ops[j] == Patch(r));
    WrittenSince(store, ops, j, k, r);
  }

  /** Once written at j, and not deleted since, the name holds the record. */
  lemma {:induction false} WrittenSince(store: Store, ops: seq<Op>, j: nat, k: nat, r: RecordObject)
    requires j < k <= |ops| && (ops[j] == Create(r) || ops[j] == Patch(r)) && !DeletesBefore(ops, k, r.name)
    requires Orderly(store, ops)
    ensures var s := ExecAll(store, ops[..k]); r.name in s && s[r.name] == Stored(r)
    decreases k
  {
    ExecNext(store, ops, k - 1);
    assert Agree(ops[j], ops[k - 1]);
    var s := ExecAll(store, ops[..k - 1]);
    if j < k - 1 {
      WrittenSince(store, ops, j, k - 1, r);
      StaysWritten(s, ops[k - 1], r);
    } else {
      PrefixKept(store, ops, k - 1, r.name);
    }
  }

  lemma StaysWritten(s: Store, op: Op, r: RecordObject)
    requires r.name in s && s[r.name] == Stored(r)
    requires op != Delete(r.name) && (IsWrite(op) && op.record.name == r.name ==> op.record == r)
    ensures r.name in Exec(s, op) && Exec(s, op)[r.name] == Stored(r)
  {
  }

  lemma OpsShape(p: Plan)
    ensures var ops := OpsOf(p);
      && |ops| == |p.create| + |p.patch| + |p.delete|
      && (forall i :: 0 <= i < |p.create| ==> ops[i] == Create(p.create[i]))
      && (forall i :: |p.create| <= i < |p.create| + |p.patch| ==> ops[i] == Patch(p.patch[i - |p.create|]))
      && (forall i :: |p.create| + |p.patch| <= i < |ops| ==> ops[i] == Delete(p.delete[i - |p.create| - |p.patch|]))
  {
  }

  /** A plan whose writes agree per name and whose patches find their objects. */
  predicate Sensible(store: Store, p: Plan) {
    && (forall q, r :: q in p.create + p.patch && r in p.create + p.patch && q.name == r.name ==> q == r)
    && (forall r :: r in p.patch ==> r.name in store)
  }

  lemma SensibleIsOrderly(store: Store, p: Plan)
    requires Sensible(store, p)
    ensures Orderly(store, OpsOf(p))
  {
    OpsShape(p);
    var ops := OpsOf(p);
    forall i | 0 <= i < |ops| && IsWrite(ops[i]) ensures ops[i].record in p.create + p.patch {
      if i < |p.create| {
        assert (p.create + p.patch)[i] == ops[i].record;
      } else {
        assert (p.create + p.patch)[i] == ops[i].record;
      }
    }
    forall i | 0 <= i < |ops| && ops[i].Patch? ensures ops[i].record.name in store {
      assert p.patch[i - |p.create|] in p.patch;
    }
  }

  lemma PlanTouches(p: Plan, n: string)
    ensures DeletesBefore(OpsOf(p), |OpsOf(p)|, n) <==> n in p.delete
    ensures forall r :: WritesBefore(OpsOf(p), |OpsOf(p)|, r) <==> r in p.create || r in p.patch
    ensures Untouched(OpsOf(p), |OpsOf(p)|, n) <==>
      n !in p.delete && forall r :: r in p.create || r in p.patch ==> r.name != n
  {
    OpsShape(p);
    var ops := OpsOf(p);
    forall i | 0 <= i < |p.create| ensures ops[i] == Create(p.create[i]) {}
    forall i | 0 <= i < |p.patch| ensures ops[|p.create| + i] == Patch(p.patch[i]) {}
    forall i | 0 <= i < |p.delete| ensures ops[|p.create| + |p.patch| + i] == Delete(p.delete[i]) {}
    if n in p.delete {
      var i :| 0 <= i < |p.delete| && p.delete[i] == n;
      assert ops[|p.create| + |p.patch| + i] == Delete(n);
    }
    forall r ensures WritesBefore(ops, |ops|, r) <==> r in p.create || r in p.patch {
      if r in p.create {
        var i :| 0 <= i < |p.create| && p.create[i] == r;
        assert ops[i] == Create(r);
      }
      if r in p.patch {
        var i :| 0 <= i < |p.patch| && p.patch[i] == r;
        assert ops[|p.create| + i] == Patch(r);
      }
    }
    if Untouched(ops, |ops|, n) {
      forall r | r in p.create || r in p.patch ensures r.name != n {
        assert WritesBefore(ops, |ops|, r);
      }
    }
  }

  // ---------- retry ----------

  /** Running a sensible plan again from wherever it stopped ends in the same store. */
  lemma Retry(store: Store, p: Plan, k: nat)
    requires Sensible(store, p) && k <= |OpsOf(p)|
    requires forall r :: r in p.patch ==> r.name !in p.delete
    ensures ExecAll(ExecAll(store, OpsOf(p)[..k]), OpsOf(p)) == ExecAll(store, OpsOf(p))
    ensures Sensible(ExecAll(store, OpsOf(p)[..k]), p)
  {
    var ops := OpsOf(p);
    var m := |ops|;
    assert ops[..m] == ops;
    SensibleIsOrderly(store, p);
    var s := ExecAll(store, ops[..k]);
    forall r | r in p.patch ensures r.name in s {
      PlanTouches(p, r.name);
      assert !DeletesBefore(ops, k, r.name);
      PrefixState(store, ops, k, r.name);
    }
    SensibleIsOrderly(s, p);
    forall n ensures SameAt(ExecAll(s, ops), ExecAll(store, ops), n) {
      RetryAt(store, p, k, n);
    }
    SameEverywhere(ExecAll(s, ops), ExecAll(store, ops));
  }

  lemma SameEverywhere(a: Store, b: Store)
    requires forall n :: SameAt(a, b, n)
    ensures a == b
  {
    assert forall n :: n in a <==> n in b by {
      forall n ensures n in a <==> n in b { assert SameAt(a, b, n); }
    }
    assert forall n :: n in a ==> a[n] == b[n] by {
      forall n | n in a ensures a[n] == b[n] { assert SameAt(a, b, n); }
    }
  }

  lemma RetryAt(store: Store, p: Plan, k: nat, n: string)
    requires k <= |OpsOf(p)|
    requires Orderly(store, OpsOf(p)) && Orderly(ExecAll(store, OpsOf(p)[..k]), OpsOf(p))
    ensures SameAt(ExecAll(ExecAll(store, OpsOf(p)[..k]), OpsOf(p)), ExecAll(store, OpsOf(p)), n)
  {
    var ops := OpsOf(p);
    var m := |ops|;
    var s := ExecAll(store, ops[..k]);
    assert ops[..m] == ops;
    PrefixState(store, ops, m, n);
    PrefixState(s, ops, m, n);
    PrefixState(store, ops, k, n);
    if !DeletesBefore(ops, m, n) && !Untouched(ops, m, n) {
      var j :| 0 <= j < m && (ops[j] == Delete(n) || (IsWrite(ops[j]) && ops[j].record.name == n));
      assert WritesBefore(ops, m, ops[j].record);
    }
  }

  // ---------- what is in a plan ----------

  /** r is the Record of some target of some of the endpoints. */
  ghost predicate Asked(b: Builder, eps: seq<Endpoint>, r: RecordObject) {
    exists ep, tg :: ep in eps && tg in ep.targets && b.desired(ep, tg).Ok? && r == b.desired(ep, tg).record
  }

  /** n is the object name of some target of some of the endpoints. */
  ghost predicate Named(b: Builder, eps: seq<Endpoint>, n: string) {
    exists ep, tg :: ep in eps && tg in ep.targets && n == b.name(ep, tg)
  }

  ghost predicate BuiltFrom(b: Builder, ep: Endpoint, targets: seq<string>, chosen: set<string>, inside: bool, r: RecordObject) {
    exists tg :: tg in targets && (tg in chosen) == inside && b.desired(ep, tg).Ok? && r == b.desired(ep, tg).record
  }

  lemma {:induction false} BuildMeans(b: Builder, ep: Endpoint, targets: seq<string>, chosen: set<string>, inside: bool, r: RecordObject)
    requires forall i :: 0 <= i < |targets| ==> b.desired(ep, targets[i]).Ok?
    ensures r in Build(b, ep, targets, chosen, inside) <==> BuiltFrom(b, ep, targets, chosen, inside, r)
    decreases |targets|
  {
    if targets != [] {
      var m := |targets| - 1;
      var front, last := targets[..m], targets[m];
      BuildMeans(b, ep, front, chosen, inside, r);
      assert forall tg :: tg in targets <==> tg in front || tg == last;
      assert b.desired(ep, last).Ok?;
    }
  }

  lemma {:induction false} BuildAllMeans(b: Builder, eps: seq<Endpoint>, r: RecordObject)
    requires AllBuildable(b, eps)
    ensures r in BuildAll(b, eps) <==> Asked(b, eps, r)
    decreases |eps|
  {
    if eps != [] {
      var m := |eps| - 1;
      var front, last := eps[..m], eps[m];
      BuildAllMeans(b, front, r);
      BuildMeans(b, last, last.targets, {}, false, r);
      assert forall ep :: ep in eps <==> ep in front || ep == last;
    }
  }

  ghost predicate NamedOutside(b: Builder, ep: Endpoint, targets: seq<string>, kept: set<string>, n: string) {
    exists tg :: tg in targets && tg !in kept && n == b.name(ep, tg)
  }

  lemma {:induction false} AddNamesMeans(b: Builder, names: seq<string>, ep: Endpoint, targets: seq<string>, kept: set<string>, n: string)
    ensures n in AddNames(b, names, ep, targets, kept) <==> n in names || NamedOutside(b, ep, targets, kept, n)
    decreases |targets|
  {
    if targets != [] {
      var m := |targets| - 1;
      AddNamesMeans(b, names, ep, targets[..m], kept, n);
      AddNamesMeans(b, names, ep, targets[..m], kept, b.name(ep, targets[m]));
      assert forall tg :: tg in targets <==> tg in targets[..m] || tg == targets[m];
    }
  }

  lemma {:induction false} AddAllMeans(b: Builder, names: seq<string>, eps: seq<Endpoint>, n: string)
    ensures n in AddAll(b, names, eps) <==> n in names || Named(b, eps, n)
    decreases |eps|
  {
    if eps != [] {
      var m := |eps| - 1;
      var front, last := eps[..m], eps[m];
      AddAllMeans(b, names, front, n);
      AddNamesMeans(b, AddAll(b, names, front), last, last.targets, {}, n);
      assert forall ep :: ep in eps <==> ep in front || ep == last;
    }
  }

  /** r is built for a target of nw that its previous endpoint lacked. */
  ghost predicate Fresh(b: Builder, olds: seq<Endpoint>, nw: Endpoint, r: RecordObject) {
    BuiltFrom(b, nw, nw.targets, OldTargets(Lookup(b, olds, b.key(nw))), false, r)
  }

  /** r is built for a target nw keeps under a new TTL. */
  ghost predicate TtlChanged(b: Builder, olds: seq<Endpoint>, nw: Endpoint, r: RecordObject) {
    var previous := Lookup(b, olds, b.key(nw));
    previous.Some? && previous.value.ttl != nw.ttl && BuiltFrom(b, nw, nw.targets, OldTargets(previous), true, r)
  }

  /** n names a target nw no longer has. */
  ghost predicate Dropped(b: Builder, olds: seq<Endpoint>, nw: Endpoint, n: string) {
    var previous := Lookup(b, olds, b.key(nw));
    previous.Some? && NamedOutside(b, previous.value, previous.value.targets, SetOf(nw.targets), n)
  }

  lemma {:induction false} PlanUpdatesMeans(b: Builder, p: Plan, olds: seq<Endpoint>, news: seq<Endpoint>, r: RecordObject, n: string)
    requires AllBuildable(b, news)
    ensures var q := PlanUpdates(b, p, olds, news);
      && (r in q.create <==> r in p.create || exists nw :: nw in news && Fresh(b, olds, nw, r))
      && (r in q.patch <==> r in p.patch || exists nw :: nw in news && TtlChanged(b, olds, nw, r))
      && (n in q.delete <==> n in p.delete || exists nw :: nw in news && Dropped(b, olds, nw, n))
    decreases |news|
  {
    if news != [] {
      var m := |news| - 1;
      var front, last := news[..m], news[m];
      PlanUpdatesMeans(b, p, olds, front, r, n);
      var previous := Lookup(b, olds, b.key(last));
      BuildMeans(b, last, last.targets, OldTargets(previous), false, r);
      BuildMeans(b, last, last.targets, OldTargets(previous), true, r);
      if previous.Some? {
        AddNamesMeans(b, PlanUpdates(b, p, olds, front).delete, previous.value, previous.value.targets, SetOf(last.targets), n);
      }
      assert forall nw :: nw in news <==> nw in front || nw == last;
      assert last in news;
      var q := PlanUpdates(b, p, olds, front);
      assert PlanUpdates(b, p, olds, news) == PlanUpdate(b, q, previous, last);
      assert r in PlanUpdates(b, p, olds, news).create <==> r in q.create || Fresh(b, olds, last, r);
      assert r in PlanUpdates(b, p, olds, news).patch <==> r in q.patch || TtlChanged(b, olds, last, r);
      assert n in PlanUpdates(b, p, olds, news).delete <==> n in q.delete || Dropped(b, olds, last, n);
    }
  }

  lemma {:induction false} UnmatchedMeans(b: Builder, keys: seq<Key>, olds: seq<Endpoint>, news: seq<Endpoint>, ep: Endpoint)
    requires forall k :: k in keys ==> Lookup(b, olds, k).Some?
    ensures ep in Unmatched(b, keys, olds, news) <==>
      b.key(ep) in keys && Lookup(b, olds, b.key(ep)) == Some(ep) && Lookup(b, news, b.key(ep)).None?
    decreases |keys|
  {
    if keys != [] {
      var m := |keys| - 1;
      UnmatchedMeans(b, keys[..m], olds, news, ep);
      assert forall k :: k in keys <==> k in keys[..m] || k == keys[m];
    }
  }

  lemma PlanMeans(b: Builder, c: Changes, r: RecordObject, n: string)
    requires AllBuildable(b, c.create) && AllBuildable(b, c.updateNew)
    ensures var p := PlanOf(b, c);
      && (r in p.create <==> Asked(b, c.create, r) || exists nw :: nw in c.updateNew && Fresh(b, c.updateOld, nw, r))
      && (r in p.patch <==> exists nw :: nw in c.updateNew && TtlChanged(b, c.updateOld, nw, r))
      && (n in p.delete <==>
            || (exists nw :: nw in c.updateNew && Dropped(b, c.updateOld, nw, n))
            || Named(b, Unmatched(b, KeysInOrder(b, c.updateOld), c.updateOld, c.updateNew), n)
            || Named(b, c.delete, n))
  {
    var created := Plan(BuildAll(b, c.create), [], []);
    BuildAllMeans(b, c.create, r);
    PlanUpdatesMeans(b, created, c.updateOld, c.updateNew, r, n);
    var updated := PlanUpdates(b, created, c.updateOld, c.updateNew);
    var unmatched := Unmatched(b, KeysInOrder(b, c.updateOld), c.updateOld, c.updateNew);
    AddAllMeans(b, updated.delete, unmatched, n);
    AddAllMeans(b, AddAll(b, updated.delete, unmatched), c.delete, n);
  }

  // ---------- the meaning of a plan ----------

  function Endpoints(c: Changes): seq<Endpoint> {
    c.create + c.updateNew + c.updateOld + c.delete
  }

  /** Names follow key and target, one to one among the endpoints at hand, and Records follow key, TTL and target. */
  ghost predicate Faithful(b: Builder, eps: seq<Endpoint>) {
    && (forall e, f, x :: b.key(e) == b.key(f) ==> b.name(e, x) == b.name(f, x))
    && (forall e, f, x :: b.key(e) == b.key(f) && e.ttl == f.ttl ==> b.desired(e, x) == b.desired(f, x))
    && (forall e, x :: b.desired(e, x).Ok? ==> b.desired(e, x).record.name == b.name(e, x))
    && (forall e, f, x, y :: e in eps && f in eps && x in e.targets && y in f.targets && b.name(e, x) == b.name(f, y) ==>
          b.key(e) == b.key(f) && x == y)
  }

  predicate KeysApart(b: Builder, xs: seq<Endpoint>, ys: seq<Endpoint>) {
    forall x, y :: x in xs && y in ys ==> b.key(x) != b.key(y)
  }

  predicate KeysDistinct(b: Builder, xs: seq<Endpoint>) {
    forall x, y :: x in xs && y in xs && b.key(x) == b.key(y) ==> x == y
  }

  /** One entry per key among what is wanted, and among what was there; only updates touch both. */
  predicate Coherent(b: Builder, c: Changes) {
    && KeysDistinct(b, c.create) && KeysDistinct(b, c.updateNew) && KeysApart(b, c.create, c.updateNew)
    && KeysDistinct(b, c.updateOld) && KeysDistinct(b, c.delete) && KeysApart(b, c.updateOld, c.delete)
    && KeysApart(b, c.create, c.updateOld) && KeysApart(b, c.create, c.delete) && KeysApart(b, c.updateNew, c.delete)
  }

  /** The store holds the Records of the endpoints being updated. */
  ghost predicate Holds(b: Builder, store: Store, eps: seq<Endpoint>) {
    forall ep, tg :: ep in eps && tg in ep.targets ==>
      b.desired(ep, tg).Ok? && b.name(ep, tg) in store && store[b.name(ep, tg)] == Stored(b.desired(ep, tg).record)
  }

  ghost predicate Request(b: Builder, c: Changes, store: Store) {
    && Faithful(b, Endpoints(c)) && Coherent(b, c)
    && AllBuildable(b, c.create) && AllBuildable(b, c.updateNew)
    && Holds(b, store, c.updateOld)
  }

  lemma LookupUnique(b: Builder, eps: seq<Endpoint>, ep: Endpoint)
    requires KeysDistinct(b, eps) && ep in eps
    ensures Lookup(b, eps, b.key(ep)) == Some(ep)
  {
  }

  lemma TargetBuilds(b: Builder, eps: seq<Endpoint>, ep: Endpoint, tg: string)
    requires AllBuildable(b, eps) && ep in eps && tg in ep.targets
    ensures b.desired(ep, tg).Ok?
  {
    var k :| 0 <= k < |eps| && eps[k] == ep;
    assert Buildable(b, eps[k]);
    var i :| 0 <= i < |ep.targets| && ep.targets[i] == tg;
  }

  /** Every write is the Record of a wanted target. */
  lemma WriteIsWanted(b: Builder, c: Changes, store: Store, r: RecordObject) returns (ep: Endpoint, tg: string)
    requires Request(b, c, store)
    requires r in PlanOf(b, c).create || r in PlanOf(b, c).patch
    ensures (ep in c.create || ep in c.updateNew) && tg in ep.targets
    ensures b.desired(ep, tg).Ok? && r == b.desired(ep, tg).record && r.name == b.name(ep, tg)
  {
    PlanMeans(b, c, r, "");
    if Asked(b, c.create, r) {
      ep, tg :| ep in c.create && tg in ep.targets && b.desired(ep, tg).Ok? && r == b.desired(ep, tg).record;
    } else {
      ep :| ep in c.updateNew && (Fresh(b, c.updateOld, ep, r) || TtlChanged(b, c.updateOld, ep, r));
      tg :| tg in ep.targets && b.desired(ep, tg).Ok? && r == b.desired(ep, tg).record;
    }
  }

  lemma SameTarget(b: Builder, c: Changes, store: Store, e: Endpoint, x: string, f: Endpoint, y: string)
    requires Request(b, c, store)
    requires (e in c.create || e in c.updateNew) && (f in c.create || f in c.updateNew)
    requires x in e.targets && y in f.targets && b.name(e, x) == b.name(f, y)
    ensures e == f && x == y
  {
    assert e in Endpoints(c) && f in Endpoints(c);
  }

  lemma PlanIsSensible(b: Builder, c: Changes, store: Store)
    requires Request(b, c, store)
    ensures Sensible(store, PlanOf(b, c))
  {
    var p := PlanOf(b, c);
    forall q, r | q in p.create + p.patch && r in p.create + p.patch && q.name == r.name ensures q == r {
      var e, x := WriteIsWanted(b, c, store, q);
      var f, y := WriteIsWanted(b, c, store, r);
      SameTarget(b, c, store, e, x, f, y);
    }
    forall r | r in p.patch ensures r.name in store {
      PlanMeans(b, c, r, "");
      var nw :| nw in c.updateNew && TtlChanged(b, c.updateOld, nw, r);
      var previous := Lookup(b, c.updateOld, b.key(nw)).value;
      var tg :| tg in nw.targets && tg in SetOf(previous.targets) && b.desired(nw, tg).Ok? && r == b.desired(nw, tg).record;
      assert b.name(nw, tg) == b.name(previous, tg);
    }
  }

  /** A deleted name belongs to an old endpoint and to no wanted target. */
  lemma DeleteIsOld(b: Builder, c: Changes, store: Store, n: string) returns (f: Endpoint, y: string)
    requires Request(b, c, store) && n in PlanOf(b, c).delete
    ensures (f in c.updateOld || f in c.delete) && y in f.targets && n == b.name(f, y)
    ensures f in c.updateOld ==> Lookup(b, c.updateNew, b.key(f)).None? || y !in Lookup(b, c.updateNew, b.key(f)).value.targets
  {
    var any: RecordObject := RecordObject("", "", None, RecordSpec("", "", "", "", "", None, None));
    PlanMeans(b, c, any, n);
    var unmatched := Unmatched(b, KeysInOrder(b, c.updateOld), c.updateOld, c.updateNew);
    if nw :| nw in c.updateNew && Dropped(b, c.updateOld, nw, n) {
      f := Lookup(b, c.updateOld, b.key(nw)).value;
      y :| y in f.targets && y !in SetOf(nw.targets) && n == b.name(f, y);
      LookupUnique(b, c.updateNew, nw);
    } else if Named(b, unmatched, n) {
      f, y :| f in unmatched && y in f.targets && n == b.name(f, y);
      UnmatchedMeans(b, KeysInOrder(b, c.updateOld), c.updateOld, c.updateNew, f);
    } else {
      f, y :| f in c.delete && y in f.targets && n == b.name(f, y);
    }
  }

  lemma WantedNotDeleted(b: Builder, c: Changes, store: Store, ep: Endpoint, tg: string)
    requires Request(b, c, store) && (ep in c.create || ep in c.updateNew) && tg in ep.targets
    ensures b.name(ep, tg) !in PlanOf(b, c).delete
  {
    if b.name(ep, tg) in PlanOf(b, c).delete {
      var f, y := DeleteIsOld(b, c, store, b.name(ep, tg));
      assert ep in Endpoints(c) && f in Endpoints(c);
      assert b.key(ep) == b.key(f) && tg == y;
      if ep in c.updateNew {
        LookupUnique(b, c.updateNew, ep);
      }
      assert false;
    }
  }

  /** A wanted target is written, or kept with an unchanged TTL and therefore already right. */
  lemma WantedIsWritten(b: Builder, c: Changes, store: Store, ep: Endpoint, tg: string)
    requires Request(b, c, store) && (ep in c.create || ep in c.updateNew) && tg in ep.targets
    ensures b.desired(ep, tg).Ok?
    ensures var p, r := PlanOf(b, c), b.desired(ep, tg).record;
      || r in p.create || r in p.patch
      || (b.name(ep, tg) in store && store[b.name(ep, tg)] == Stored(r))
  {
    if ep in c.create {
      TargetBuilds(b, c.create, ep, tg);
    } else {
      TargetBuilds(b, c.updateNew, ep, tg);
    }
    var r := b.desired(ep, tg).record;
    PlanMeans(b, c, r, "");
    if ep in c.updateNew {
      var previous := Lookup(b, c.updateOld, b.key(ep));
      if tg !in OldTargets(previous) {
        assert Fresh(b, c.updateOld, ep, r);
      } else if previous.value.ttl != ep.ttl {
        assert TtlChanged(b, c.updateOld, ep, r);
      } else {
        assert b.desired(previous.value, tg) == b.desired(ep, tg);
        assert b.name(previous.value, tg) == b.name(ep, tg);
      }
    } else {
      assert Asked(b, c.create, r);
    }
  }

  /** What an old endpoint's target not wanted any more comes to. */
  lemma OldIsDeleted(b: Builder, c: Changes, store: Store, f: Endpoint, y: string)
    requires Request(b, c, store) && (f in c.updateOld || f in c.delete) && y in f.targets
    requires !Named(b, c.create + c.updateNew, b.name(f, y))
    ensures b.name(f, y) in PlanOf(b, c).delete
  {
    var n := b.name(f, y);
    var any: RecordObject := RecordObject("", "", None, RecordSpec("", "", "", "", "", None, None));
    PlanMeans(b, c, any, n);
    if f in c.delete {
      assert Named(b, c.delete, n);
    } else {
      LookupUnique(b, c.updateOld, f);
      var nw := Lookup(b, c.updateNew, b.key(f));
      if nw.Some? {
        assert n == b.name(nw.value, y);
        assert nw.value in c.create + c.updateNew;
        assert y !in nw.value.targets;
        assert Dropped(b, c.updateOld, nw.value, n);
      } else {
        UnmatchedMeans(b, KeysInOrder(b, c.updateOld), c.updateOld, c.updateNew, f);
        assert Named(b, Unmatched(b, KeysInOrder(b, c.updateOld), c.updateOld, c.updateNew), n);
      }
    }
  }

  function Final(b: Builder, c: Changes, store: Store): Store
    requires AllBuildable(b, c.create) && AllBuildable(b, c.updateNew)
  {
    ExecAll(store, OpsOf(PlanOf(b, c)))
  }

  lemma WantedIsThere(b: Builder, c: Changes, store: Store, ep: Endpoint, tg: string)
    requires Request(b, c, store) && (ep in c.create || ep in c.updateNew) && tg in ep.targets
    ensures b.desired(ep, tg).Ok?
    ensures b.name(ep, tg) in Final(b, c, store) && Final(b, c, store)[b.name(ep, tg)] == Stored(b.desired(ep, tg).record)
  {
    var p, n := PlanOf(b, c), b.name(ep, tg);
    var ops := OpsOf(p);
    assert ops[..|ops|] == ops;
    PlanIsSensible(b, c, store);
    SensibleIsOrderly(store, p);
    WantedIsWritten(b, c, store, ep, tg);
    WantedNotDeleted(b, c, store, ep, tg);
    PlanTouches(p, n);
    PrefixState(store, ops, |ops|, n);
    var r := b.desired(ep, tg).record;
    if r in p.create || r in p.patch {
      assert WritesBefore(ops, |ops|, r);
    } else {
      forall q | q in p.create || q in p.patch ensures q.name != n {
        var e, x := WriteIsWanted(b, c, store, q);
        if q.name == n {
          SameTarget(b, c, store, e, x, ep, tg);
        }
      }
      assert Untouched(ops, |ops|, n);
    }
  }

  /**
   Running the plan of a coherent request makes the store hold exactly what was
   asked for: every wanted target's Record, no Record of an old target that is
   not wanted any more, and everything else as it was.
   */
  lemma PlanMeaning(b: Builder, c: Changes, store: Store)
    requires Request(b, c, store)
    ensures forall ep, tg :: ep in c.create + c.updateNew && tg in ep.targets ==>
      && b.desired(ep, tg).Ok?
      && b.name(ep, tg) in Final(b, c, store)
      && Final(b, c, store)[b.name(ep, tg)] == Stored(b.desired(ep, tg).record)
    ensures forall n :: Named(b, c.updateOld + c.delete, n) && !Named(b, c.create + c.updateNew, n) ==> n !in Final(b, c, store)
    ensures forall n :: !Named(b, c.updateOld + c.delete, n) && !Named(b, c.create + c.updateNew, n) ==>
      SameAt(store, Final(b, c, store), n)
  {
    var p := PlanOf(b, c);
    var ops := OpsOf(p);
    assert ops[..|ops|] == ops;
    PlanIsSensible(b, c, store);
    SensibleIsOrderly(store, p);
    forall ep, tg | ep in c.create + c.updateNew && tg in ep.targets
      ensures b.desired(ep, tg).Ok? && b.name(ep, tg) in Final(b, c, store)
      ensures Final(b, c, store)[b.name(ep, tg)] == Stored(b.desired(ep, tg).record)
    {
      WantedIsThere(b, c, store, ep, tg);
    }
    forall n | !Named(b, c.create + c.updateNew, n)
      ensures Named(b, c.updateOld + c.delete, n) ==> n !in Final(b, c, store)
      ensures !Named(b, c.updateOld + c.delete, n) ==> SameAt(store, Final(b, c, store), n)
    {
      PlanTouches(p, n);
      PrefixState(store, ops, |ops|, n);
      if Named(b, c.updateOld + c.delete, n) {
        var f, y :| f in c.updateOld + c.delete && y in f.targets && n == b.name(f, y);
        OldIsDeleted(b, c, store, f, y);
      } else {
        NotNamedNotTouched(b, c, store, n);
      }
    }
  }

  lemma NotNamedNotTouched(b: Builder, c: Changes, store: Store, n: string)
    requires Request(b, c, store)
    requires !Named(b, c.create + c.updateNew, n) && !Named(b, c.updateOld + c.delete, n)
    ensures n !in PlanOf(b, c).delete && forall r :: r in PlanOf(b, c).create || r in PlanOf(b, c).patch ==> r.name != n
  {
    if n in PlanOf(b, c).delete {
      var f, y := DeleteIsOld(b, c, store, n);
      assert false;
    }
    forall r | r in PlanOf(b, c).create || r in PlanOf(b, c).patch ensures r.name != n {
      var ep, tg := WriteIsWanted(b, c, store, r);
      assert ep in c.create + c.updateNew;
    }
  }

  // ---------- safety of every prefix, and retry ----------

  /**
   After any number of operations: no object that was there is gone as long as a
   create or patch is outstanding, and a target kept by an update is never absent.
   */
  lemma PrefixSafe(b: Builder, c: Changes, store: Store, k: nat)
    requires Request(b, c, store) && k <= |OpsOf(PlanOf(b, c))|
    ensures var p := PlanOf(b, c);
      k <= |p.create| + |p.patch| ==> store.Keys <= ExecAll(store, OpsOf(p)[..k]).Keys
    ensures forall f, nw, tg :: f in c.updateOld && nw in c.updateNew && b.key(f) == b.key(nw) && tg in f.targets && tg in nw.targets ==>
      b.name(f, tg) in ExecAll(store, OpsOf(PlanOf(b, c))[..k])
  {
    var p := PlanOf(b, c);
    var ops := OpsOf(p);
    PlanIsSensible(b, c, store);
    SensibleIsOrderly(store, p);
    OpsShape(p);
    if k <= |p.create| + |p.patch| {
      forall n | n in store ensures n in ExecAll(store, ops[..k]) {
        assert !DeletesBefore(ops, k, n);
        PrefixState(store, ops, k, n);
      }
    }
    forall f, nw, tg | f in c.updateOld && nw in c.updateNew && b.key(f) == b.key(nw) && tg in f.targets && tg in nw.targets
      ensures b.name(f, tg) in ExecAll(store, ops[..k])
    {
      var n := b.name(f, tg);
      assert n == b.name(nw, tg);
      WantedNotDeleted(b, c, store, nw, tg);
      PlanTouches(p, n);
      assert !DeletesBefore(ops, k, n);
      PrefixState(store, ops, k, n);
    }
  }

  lemma PatchesAreKept(b: Builder, c: Changes, store: Store)
    requires Request(b, c, store)
    ensures forall r :: r in PlanOf(b, c).patch ==> r.name !in PlanOf(b, c).delete
  {
    forall r | r in PlanOf(b, c).patch ensures r.name !in PlanOf(b, c).delete {
      var ep, tg := WriteIsWanted(b, c, store, r);
      WantedNotDeleted(b, c, store, ep, tg);
    }
  }

  /** Stopping anywhere and running the same plan again reaches the store of an uninterrupted run. */
  lemma PlanRetry(b: Builder, c: Changes, store: Store, k: nat)
    requires Request(b, c, store) && k <= |OpsOf(PlanOf(b, c))|
    ensures ExecAll(ExecAll(store, OpsOf(PlanOf(b, c))[..k]), OpsOf(PlanOf(b, c))) == Final(b, c, store)
  {
    var p := PlanOf(b, c);
    PlanIsSensible(b, c, store);
    PatchesAreKept(b, c, store);
    Retry(store, p, k);
  }

  /** The store after runs of the same operations that stopped at each of the given points. */
  function Interrupted(store: Store, ops: seq<Op>, stops: seq<nat>): Store
    requires forall i :: 0 <= i < |stops| ==> stops[i] <= |ops|
  {
    if stops == [] then store
    else ExecAll(Interrupted(store, ops, stops[..|stops| - 1]), ops[..stops[|stops| - 1]])
  }

  lemma {:induction false} InterruptedRetry(store: Store, p: Plan, stops: seq<nat>)
    requires Sensible(store, p) && forall r :: r in p.patch ==> r.name !in p.delete
    requires forall i :: 0 <= i < |stops| ==> stops[i] <= |OpsOf(p)|
    ensures Sensible(Interrupted(store, OpsOf(p), stops), p)
    ensures ExecAll(Interrupted(store, OpsOf(p), stops), OpsOf(p)) == ExecAll(store, OpsOf(p))
    decreases |stops|
  {
    if stops != [] {
      var m := |stops| - 1;
      InterruptedRetry(store, p, stops[..m]);
      Retry(Interrupted(store, OpsOf(p), stops[..m]), p, stops[m]);
    }
  }

  /** However often and wherever earlier runs stopped, a run that goes through ends in the intended store. */
  lemma AnyRetries(b: Builder, c: Changes, store: Store, stops: seq<nat>)
    requires Request(b, c, store)
    requires forall i :: 0 <= i < |stops| ==> stops[i] <= |OpsOf(PlanOf(b, c))|
    ensures ExecAll(Interrupted(store, OpsOf(PlanOf(b, c)), stops), OpsOf(PlanOf(b, c))) == Final(b, c, store)
  {
    var p := PlanOf(b, c);
    PlanIsSensible(b, c, store);
    PatchesAreKept(b, c, store);
    InterruptedRetry(store, p, stops);
  }

  /** However often earlier runs stopped, every operation of the next run finds what it needs. */
  lemma RetriesRun(b: Builder, c: Changes, store: Store, stops: seq<nat>, k: nat)
    requires Request(b, c, store) && k < |OpsOf(PlanOf(b, c))|
    requires forall i :: 0 <= i < |stops| ==> stops[i] <= |OpsOf(PlanOf(b, c))|
    ensures var ops := OpsOf(PlanOf(b, c));
      Runnable(ExecAll(Interrupted(store, ops, stops), ops[..k]), ops[k])
  {
    var p := PlanOf(b, c);
    var ops := OpsOf(p);
    PlanIsSensible(b, c, store);
    PatchesAreKept(b, c, store);
    InterruptedRetry(store, p, stops);
    var s := Interrupted(store, ops, stops);
    OpsShape(p);
    if ops[k].Patch? {
      var r := p.patch[k - |p.create|];
      assert r in p.patch && ops[k] == Patch(r);
      PlanTouches(p, r.name);
      assert !DeletesBefore(ops, k, r.name);
      PrefixKept(s, ops, k, r.name);
    }
  }

  // ---------- each delete once ----------

  predicate Once(names: seq<string>) {
    forall i, j :: 0 <= i < j < |names| ==> names[i] != names[j]
  }

  lemma {:induction false} AddNamesOnce(b: Builder, names: seq<string>, ep: Endpoint, targets: seq<string>, kept: set<string>)
    requires Once(names)
    ensures Once(AddNames(b, names, ep, targets, kept))
    decreases |targets|
  {
    if targets != [] {
      AddNamesOnce(b, names, ep, targets[..|targets| - 1], kept);
    }
  }

  lemma {:induction false} AddAllOnce(b: Builder, names: seq<string>, eps: seq<Endpoint>)
    requires Once(names)
    ensures Once(AddAll(b, names, eps))
    decreases |eps|
  {
    if eps != [] {
      var last := eps[|eps| - 1];
      AddAllOnce(b, names, eps[..|eps| - 1]);
      AddNamesOnce(b, AddAll(b, names, eps[..|eps| - 1]), last, last.targets, {});
    }
  }

  lemma {:induction false} PlanUpdatesOnce(b: Builder, p: Plan, olds: seq<Endpoint>, news: seq<Endpoint>)
    requires AllBuildable(b, news) && Once(p.delete)
    ensures Once(PlanUpdates(b, p, olds, news).delete)
    decreases |news|
  {
    if news != [] {
      var front, last := news[..|news| - 1], news[|news| - 1];
      PlanUpdatesOnce(b, p, olds, front);
      var previous := Lookup(b, olds, b.key(last));
      if previous.Some? {
        AddNamesOnce(b, PlanUpdates(b, p, olds, front).delete, previous.value, previous.value.targets, SetOf(last.targets));
      }
    }
  }

  /** A plan deletes no object twice, whatever the request. */
  lemma DeletesOnce(b: Builder, c: Changes)
    requires AllBuildable(b, c.create) && AllBuildable(b, c.updateNew)
    ensures Once(PlanOf(b, c).delete)
  {
    var created := Plan(BuildAll(b, c.create), [], []);
    PlanUpdatesOnce(b, created, c.updateOld, c.updateNew);
    var updated := PlanUpdates(b, created, c.updateOld, c.updateNew);
    var unmatched := Unmatched(b, KeysInOrder(b, c.updateOld), c.updateOld, c.updateNew);
    AddAllOnce(b, updated.delete, unmatched);
    AddAllOnce(b, AddAll(b, updated.delete, unmatched), c.delete);
  }

  // ---------- what a built Record says ----------

  /** Some configured zone contains the name. */
  predicate HasZone(t: Translator, name: string) {
    exists i :: 0 <= i < |t.zones| && Normalize(t.zones[i]) != "" && InZone(name, Normalize(t.zones[i]))
  }

  /** The Record goes to the webhook's server, into the longest configured zone that contains its name. */
  predicate Placed(t: Translator, r: RecordObject) {
    r.spec.serverRef == t.serverRef && r.spec.zone != "" && IsBest(t.zones, Normalize(r.spec.name), r.spec.zone)
  }

  lemma ZoneExactly(t: Translator, name: string)
    ensures IsBest(t.zones, Normalize(name), ZoneOf(t, name))
    ensures ZoneOf(t, name) != "" <==> HasZone(t, Normalize(name))
  {
    LongestIsBest(t.zones, Normalize(name), "");
  }

  /** A Record is built exactly for supported types, names in a configured zone and, for MX, targets that parse. */
  lemma BuiltExactly(t: Translator, ep: Endpoint, target: string)
    ensures var built, typ, name := Desired(t, ep, target), ToUpper(ep.recordType), Normalize(Normalize(ep.dnsName));
      var known := typ in {"A", "AAAA", "CNAME", "TXT", "NS", "PTR", "MX"};
      && (built == UnsupportedType <==> !known)
      && (built == NotInZone <==> known && !HasZone(t, name))
      && (built == MalformedMX <==> known && HasZone(t, name) && typ == "MX" && ParseMX(target).None?)
  {
    ZoneExactly(t, Normalize(ep.dnsName));
  }

  /** Upper and lower case make no difference to names and types. */
  lemma CaseIgnored(t: Translator, ep: Endpoint, target: string)
    ensures var up := ep.(dnsName := ToUpper(ep.dnsName), recordType := ToUpper(ep.recordType));
      KeyOf(up) == KeyOf(ep) && Desired(t, up, target) == Desired(t, ep, target)
    ensures var low := ep.(dnsName := ToLower(ep.dnsName), recordType := ToLower(ep.recordType));
      KeyOf(low) == KeyOf(ep) && Desired(t, low, target) == Desired(t, ep, target)
  {
    NormalizeIgnoresCase(ep.dnsName, ToUpper(ep.dnsName));
    NormalizeIgnoresCase(ep.dnsName, ToLower(ep.dnsName));
    UpperIgnoresCase(ep.recordType);
    DesiredDepends(t, ep.(dnsName := ToUpper(ep.dnsName), recordType := ToUpper(ep.recordType)), ep, target);
    DesiredDepends(t, ep.(dnsName := ToLower(ep.dnsName), recordType := ToLower(ep.recordType)), ep, target);
  }

  /** And says this, field by field. */
  lemma BuiltMeans(t: Translator, ep: Endpoint, target: string)
    ensures var built := Desired(t, ep, target);
      built.Ok? ==>
        var r := built.record;
        && r.owner == t.owner && Placed(t, r)
        && r.spec.name == Normalize(ep.dnsName) && r.spec.typ == ToUpper(ep.recordType)
        && (r.spec.typ != "MX" ==> r.spec.data == target && r.spec.priority.None?)
        && (r.spec.typ == "MX" ==>
              r.spec.priority.Some? && r.spec.priority.value >= 0 && ParseMX(target) == Some(Mx(r.spec.priority.value, r.spec.data)))
        && (ep.setIdentifier == "" ==> r.setIdentifier.None?)
        && (ep.setIdentifier != "" ==> r.setIdentifier == Some(ep.setIdentifier))
        && (ep.ttl <= 0 ==> r.spec.ttl.None?)
        && (0 < ep.ttl <= 0x7FFF_FFFF ==> r.spec.ttl == Some(ep.ttl))
        && (ep.ttl > 0x7FFF_FFFF ==> r.spec.ttl == Some(0x7FFF_FFFF))
  {
    ZoneExactly(t, Normalize(ep.dnsName));
  }

  // ---------- the translator is a faithful builder ----------

  ghost predicate Injective(digest: string -> string) {
    forall x, y :: digest(x) == digest(y) ==> x == y
  }

  function NameFields(t: Translator, ep: Endpoint, target: string): seq<string> {
    [t.owner, Normalize(ep.dnsName), ToUpper(ep.recordType), target, ep.setIdentifier]
  }

  ghost predicate Clean(t: Translator, eps: seq<Endpoint>) {
    forall ep, tg :: ep in eps && tg in ep.targets ==> NulFree(NameFields(t, ep, tg))
  }

  lemma NameInjective(t: Translator, u: Translator, e: Endpoint, x: string, f: Endpoint, y: string)
    requires t.digest == u.digest && Injective(t.digest)
    requires NulFree(NameFields(t, e, x))
    requires NameOf(t, e, x) == NameOf(u, f, y)
    ensures t.owner == u.owner && KeyOf(e) == KeyOf(f) && x == y
  {
    var a, b := NameFields(t, e, x), NameFields(u, f, y);
    assert NameOf(t, e, x)[5..] == t.digest(Encode(a));
    assert NameOf(u, f, y)[5..] == t.digest(Encode(b));
    EncodeInjective(a, b);
    assert a[0] == b[0] && a[1] == b[1] && a[2] == b[2] && a[3] == b[3] && a[4] == b[4];
  }

  /** A NUL in a target or set identifier makes another endpoint share the object name, whatever the digest. */
  lemma NameCollides(t: Translator, ep: Endpoint, tg: string) returns (ep': Endpoint, tg': string)
    requires !Without(tg, NUL) || !Without(ep.setIdentifier, NUL)
    ensures NameOf(t, ep', tg') == NameOf(t, ep, tg)
    ensures KeyOf(ep') != KeyOf(ep) || tg' != tg
    ensures ep' == ep.(setIdentifier := ep'.setIdentifier)
  {
    var a := NameFields(t, ep, tg);
    var b := EncodeCollides(a, if Without(tg, NUL) then 4 else 3);
    ep', tg' := ep.(setIdentifier := b[4]), b[3];
    assert NameFields(t, ep', tg') == b;
  }

  /** With an injective digest and no NUL in any field, the laws above hold of the operator's translator. */
  lemma TranslatorIsFaithful(t: Translator, eps: seq<Endpoint>)
    requires Injective(t.digest) && Clean(t, eps)
    ensures Faithful(BuilderOf(t), eps)
  {
    var b := BuilderOf(t);
    forall e, f, x | b.key(e) == b.key(f)
      ensures b.name(e, x) == b.name(f, x)
      ensures e.ttl == f.ttl ==> b.desired(e, x) == b.desired(f, x)
    {
      DesiredDepends(t, e, f, x);
    }
    forall e, f, x, y | e in eps && f in eps && x in e.targets && y in f.targets && b.name(e, x) == b.name(f, y)
      ensures b.key(e) == b.key(f) && x == y
    {
      NameInjective(t, t, e, x, f, y);
    }
  }

  /** A Record another owner's webhook made is untouched, whatever the request. */
  lemma OtherOwnersUntouched(t: Translator, u: Translator, c: Changes, store: Store, ep: Endpoint, tg: string)
    requires t.digest == u.digest && Injective(t.digest) && t.owner != u.owner
    requires Clean(t, Endpoints(c))
    requires Request(BuilderOf(t), c, store)
    ensures SameAt(store, Final(BuilderOf(t), c, store), NameOf(u, ep, tg))
  {
    var b, n := BuilderOf(t), NameOf(u, ep, tg);
    forall f, y | f in Endpoints(c) && y in f.targets ensures b.name(f, y) != n {
      if b.name(f, y) == n {
        NameInjective(t, u, f, y, ep, tg);
      }
    }
    assert forall f :: f in c.create + c.updateNew || f in c.updateOld + c.delete ==> f in Endpoints(c);
    PlanMeaning(b, c, store);
  }
}
