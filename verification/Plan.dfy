/**
 Compiling a Changes request into an ordered plan of creates, patches and
 deletes (BuildPlan), and running it against the Record objects (apply).
 */
module Plans {
  import opened Calls
  import opened Options
  import Records
  import opened Text
  import opened Translate

  datatype Endpoint = Endpoint(dnsName: string, targets: seq<string>, recordType: string, setIdentifier: string, ttl: int)

  datatype Changes = Changes(create: seq<Endpoint>, updateOld: seq<Endpoint>, updateNew: seq<Endpoint>, delete: seq<Endpoint>)

  /** A Record object: its name, the owner label, the set-identifier annotation and its spec. */
  datatype RecordObject = RecordObject(name: string, owner: string, setIdentifier: Option<string>, spec: RecordSpec)

  datatype RecordSpec = RecordSpec(
    serverRef: string, zone: string, name: string, typ: string, data: string, priority: Option<int>, ttl: Option<int>)

  const SUPPORTED: set<string> := {"A", "AAAA", "CNAME", "TXT", "NS", "PTR", "MX"}
  const MAX_INT32: int := 0x7FFF_FFFF

  // ---------- the Record for one target ----------

  datatype Built = Ok(record: RecordObject) | UnsupportedType | NotInZone | MalformedMX

  /** The identity of an endpoint. */
  datatype Key = Key(name: string, typ: string, setIdentifier: string)

  function KeyOf(ep: Endpoint): Key {
    Key(Normalize(ep.dnsName), ToUpper(ep.recordType), ep.setIdentifier)
  }

  function NameOf(t: Translator, ep: Endpoint, target: string): string {
    RecordName(t, ep.dnsName, ep.recordType, target, ep.setIdentifier)
  }

  function TtlOf(ttl: int): Option<int> {
    if ttl > 0 then Some(if ttl <= MAX_INT32 then ttl else MAX_INT32) else None
  }

  /** Translator.Desired. */
  function Desired(t: Translator, ep: Endpoint, target: string): (r: Built)
    ensures r.Ok? ==> r.record.name == NameOf(t, ep, target)
  {
    var typ := ToUpper(ep.recordType);
    var name := Normalize(ep.dnsName);
    var zone := ZoneOf(t, name);
    if typ !in SUPPORTED then UnsupportedType
    else if zone == "" then NotInZone
    else if typ == "MX" && ParseMX(target).None? then MalformedMX
    else
      var data := if typ == "MX" then ParseMX(target).value.host else target;
      var priority := if typ == "MX" then Some(ParseMX(target).value.preference) else None;
      Ok(RecordObject(
           NameOf(t, ep, target), t.owner, if ep.setIdentifier != "" then Some(ep.setIdentifier) else None,
           RecordSpec(t.serverRef, zone, name, typ, data, priority, TtlOf(ep.ttl))))
  }

  /** Endpoints that agree on key and TTL ask for the same Records. */
  lemma DesiredDepends(t: Translator, a: Endpoint, b: Endpoint, target: string)
    requires KeyOf(a) == KeyOf(b)
    ensures NameOf(t, a, target) == NameOf(t, b, target)
    ensures a.ttl == b.ttl ==> Desired(t, a, target) == Desired(t, b, target)
  {
  }

  /**
   What BuildPlan uses of a translator: an endpoint's key, the object name of one
   of its targets and the Record built for it. Keeping it a value keeps the plan
   laws independent of how names are hashed and zones chosen.
   */
  datatype Builder = Builder(
    key: Endpoint -> Key, name: (Endpoint, string) -> string, desired: (Endpoint, string) -> Built)

  function BuilderOf(t: Translator): Builder {
    Builder(ep => KeyOf(ep), (ep, target) => NameOf(t, ep, target), (ep, target) => Desired(t, ep, target))
  }

  predicate Buildable(b: Builder, ep: Endpoint) {
    forall i :: 0 <= i < |ep.targets| ==> b.desired(ep, ep.targets[i]).Ok?
  }

  predicate AllBuildable(b: Builder, eps: seq<Endpoint>) {
    forall k :: 0 <= k < |eps| ==> Buildable(b, eps[k])
  }

  // ---------- the plan ----------

  datatype Plan = Plan(create: seq<RecordObject>, patch: seq<RecordObject>, delete: seq<string>)

  /** The Records of those targets that lie inside (or outside) chosen. */
  function Build(b: Builder, ep: Endpoint, targets: seq<string>, chosen: set<string>, inside: bool): seq<RecordObject>
    requires forall i :: 0 <= i < |targets| ==> b.desired(ep, targets[i]).Ok?
  {
    if targets == [] then []
    else
      var last := targets[|targets| - 1];
      Build(b, ep, targets[..|targets| - 1], chosen, inside)
      + (if (last in chosen) == inside then [b.desired(ep, last).record] else [])
  }

  function BuildAll(b: Builder, eps: seq<Endpoint>): seq<RecordObject>
    requires AllBuildable(b, eps)
  {
    if eps == [] then []
    else
      var last := eps[|eps| - 1];
      BuildAll(b, eps[..|eps| - 1]) + Build(b, last, last.targets, {}, false)
  }

  /** Append the names of the targets outside kept, each at most once. */
  function AddNames(b: Builder, names: seq<string>, ep: Endpoint, targets: seq<string>, kept: set<string>): seq<string> {
    if targets == [] then names
    else
      var last := targets[|targets| - 1];
      var before := AddNames(b, names, ep, targets[..|targets| - 1], kept);
      var n := b.name(ep, last);
      if last in kept || n in before then before else before + [n]
  }

  function AddAll(b: Builder, names: seq<string>, eps: seq<Endpoint>): seq<string> {
    if eps == [] then names
    else
      var last := eps[|eps| - 1];
      AddNames(b, AddAll(b, names, eps[..|eps| - 1]), last, last.targets, {})
  }

  /** The last endpoint with the key, which a map filled in order ends up holding. */
  function Lookup(b: Builder, eps: seq<Endpoint>, k: Key): (r: Option<Endpoint>)
    ensures r.Some? ==> r.value in eps && b.key(r.value) == k
    ensures r.None? ==> forall ep :: ep in eps ==> b.key(ep) != k
  {
    if eps == [] then None
    else if b.key(eps[|eps| - 1]) == k then Some(eps[|eps| - 1])
    else Lookup(b, eps[..|eps| - 1], k)
  }

  /** The keys in order of first occurrence. */
  function KeysInOrder(b: Builder, eps: seq<Endpoint>): (ks: seq<Key>)
    ensures forall k :: k in ks <==> Lookup(b, eps, k).Some?
  {
    if eps == [] then []
    else
      var before, k := KeysInOrder(b, eps[..|eps| - 1]), b.key(eps[|eps| - 1]);
      if k in before then before else before + [k]
  }

  function OldTargets(previous: Option<Endpoint>): set<string> {
    if previous.Some? then SetOf(previous.value.targets) else {}
  }

  /** What one entry of UpdateNew adds to the plan. */
  function PlanUpdate(b: Builder, p: Plan, previous: Option<Endpoint>, nw: Endpoint): Plan
    requires Buildable(b, nw)
  {
    var had := OldTargets(previous);
    Plan(
      p.create + Build(b, nw, nw.targets, had, false),
      if previous.Some? && previous.value.ttl != nw.ttl then p.patch + Build(b, nw, nw.targets, had, true) else p.patch,
      if previous.Some? then AddNames(b, p.delete, previous.value, previous.value.targets, SetOf(nw.targets)) else p.delete)
  }

  function PlanUpdates(b: Builder, p: Plan, olds: seq<Endpoint>, news: seq<Endpoint>): Plan
    requires AllBuildable(b, news)
  {
    if news == [] then p
    else
      var last := news[|news| - 1];
      PlanUpdate(b, PlanUpdates(b, p, olds, news[..|news| - 1]), Lookup(b, olds, b.key(last)), last)
  }

  /** The UpdateOld entries, in key order, that no UpdateNew replaces. */
  function Unmatched(b: Builder, keys: seq<Key>, olds: seq<Endpoint>, news: seq<Endpoint>): seq<Endpoint>
    requires forall k :: k in keys ==> Lookup(b, olds, k).Some?
  {
    if keys == [] then []
    else
      var last := keys[|keys| - 1];
      Unmatched(b, keys[..|keys| - 1], olds, news) + (if Lookup(b, news, last).Some? then [] else [Lookup(b, olds, last).value])
  }

  /** The plan BuildPlan returns when every wanted Record can be built. */
  function PlanOf(b: Builder, c: Changes): Plan
    requires AllBuildable(b, c.create) && AllBuildable(b, c.updateNew)
  {
    var created := Plan(BuildAll(b, c.create), [], []);
    var updated := PlanUpdates(b, created, c.updateOld, c.updateNew);
    var dropped := AddAll(b, updated.delete, Unmatched(b, KeysInOrder(b, c.updateOld), c.updateOld, c.updateNew));
    updated.(delete := AddAll(b, dropped, c.delete))
  }

  // ---------- BuildPlan as the loops it is ----------

  datatype PlanResult = Planned(plan: Plan) | Rejected(why: Built)

  method BuildEndpoint(b: Builder, ep: Endpoint, chosen: set<string>, inside: bool) returns (r: Option<seq<RecordObject>>, why: Built)
    ensures r.Some? <==> Buildable(b, ep)
    ensures r.Some? ==> r.value == Build(b, ep, ep.targets, chosen, inside)
    ensures r.None? ==> !why.Ok?
  {
    var out := [];
    why := UnsupportedType;
    for i := 0 to |ep.targets|
      invariant forall k :: 0 <= k < i ==> b.desired(ep, ep.targets[k]).Ok?
      invariant out == Build(b, ep, ep.targets[..i], chosen, inside)
    {
      var built := b.desired(ep, ep.targets[i]);
      if !built.Ok? {
        return None, built;
      }
      assert ep.targets[..i + 1][..i] == ep.targets[..i];
      if (ep.targets[i] in chosen) == inside {
        out := out + [built.record];
      }
    }
    assert ep.targets[..|ep.targets|] == ep.targets;
    return Some(out), why;
  }

  method DeleteNames(b: Builder, names: seq<string>, ep: Endpoint, kept: set<string>) returns (r: seq<string>)
    ensures r == AddNames(b, names, ep, ep.targets, kept)
  {
    r := names;
    for i := 0 to |ep.targets|
      invariant r == AddNames(b, names, ep, ep.targets[..i], kept)
    {
      assert ep.targets[..i + 1][..i] == ep.targets[..i];
      if ep.targets[i] !in kept {
        var n := b.name(ep, ep.targets[i]);
        if n !in r {
          r := r + [n];
        }
      }
    }
    assert ep.targets[..|ep.targets|] == ep.targets;
  }

  lemma BuildNext(b: Builder, ep: Endpoint, i: nat, chosen: set<string>, inside: bool)
    requires i < |ep.targets| && forall k :: 0 <= k <= i ==> b.desired(ep, ep.targets[k]).Ok?
    ensures Build(b, ep, ep.targets[..i + 1], chosen, inside) ==
      Build(b, ep, ep.targets[..i], chosen, inside)
      + (if (ep.targets[i] in chosen) == inside then [b.desired(ep, ep.targets[i]).record] else [])
  {
    assert ep.targets[..i + 1][..i] == ep.targets[..i];
  }

  /** The body of the loop over UpdateNew. */
  method UpdateOne(b: Builder, p: Plan, previous: Option<Endpoint>, nw: Endpoint) returns (r: Option<Plan>, why: Built)
    ensures r.Some? <==> Buildable(b, nw)
    ensures r.Some? ==> r.value == PlanUpdate(b, p, previous, nw)
    ensures r.None? ==> !why.Ok?
  {
    var had := OldTargets(previous);
    var create, patch := p.create, p.patch;
    why := UnsupportedType;
    for i := 0 to |nw.targets|
      invariant forall k :: 0 <= k < i ==> b.desired(nw, nw.targets[k]).Ok?
      invariant create == p.create + Build(b, nw, nw.targets[..i], had, false)
      invariant patch == if previous.Some? && previous.value.ttl != nw.ttl then p.patch + Build(b, nw, nw.targets[..i], had, true) else p.patch
    {
      var built := b.desired(nw, nw.targets[i]);
      if !built.Ok? {
        return None, built;
      }
      BuildNext(b, nw, i, had, false);
      BuildNext(b, nw, i, had, true);
      if nw.targets[i] !in had {
        create := create + [built.record];
      } else if previous.value.ttl != nw.ttl {
        patch := patch + [built.record];
      }
    }
    assert nw.targets[..|nw.targets|] == nw.targets;
    var delete := p.delete;
    if previous.Some? {
      delete := DeleteNames(b, delete, previous.value, SetOf(nw.targets));
    }
    return Some(Plan(create, patch, delete)), why;
  }

  /** The loop that fills olds and oldOrder. */
  method IndexOld(b: Builder, eps: seq<Endpoint>) returns (olds: map<Key, Endpoint>, order: seq<Key>)
    ensures order == KeysInOrder(b, eps)
    ensures forall k :: k in olds <==> Lookup(b, eps, k).Some?
    ensures forall k :: k in olds ==> Lookup(b, eps, k) == Some(olds[k])
  {
    olds, order := map[], [];
    for i := 0 to |eps|
      invariant order == KeysInOrder(b, eps[..i])
      invariant forall k :: k in olds <==> Lookup(b, eps[..i], k).Some?
      invariant forall k :: k in olds ==> Lookup(b, eps[..i], k) == Some(olds[k])
    {
      assert eps[..i + 1][..i] == eps[..i];
      var k := b.key(eps[i]);
      if k !in olds {
        order := order + [k];
      }
      olds := olds[k := eps[i]];
    }
    assert eps[..|eps|] == eps;
  }

  method PlanCreates(b: Builder, eps: seq<Endpoint>) returns (r: Option<seq<RecordObject>>, why: Built)
    ensures r.Some? <==> AllBuildable(b, eps)
    ensures r.Some? ==> r.value == BuildAll(b, eps)
    ensures r.None? ==> !why.Ok?
  {
    var out := [];
    why := UnsupportedType;
    for i := 0 to |eps|
      invariant AllBuildable(b, eps[..i])
      invariant out == BuildAll(b, eps[..i])
    {
      var built, bad := BuildEndpoint(b, eps[i], {}, false);
      if built.None? {
        return None, bad;
      }
      assert eps[..i + 1][..i] == eps[..i];
      out := out + built.value;
    }
    assert eps[..|eps|] == eps;
    return Some(out), why;
  }

  lemma LookupNext(b: Builder, eps: seq<Endpoint>, i: nat)
    requires i < |eps|
    ensures forall k :: Lookup(b, eps[..i + 1], k) == if b.key(eps[i]) == k then Some(eps[i]) else Lookup(b, eps[..i], k)
  {
    var more := eps[..i + 1];
    assert more != [] && more[|more| - 1] == eps[i] && more[..|more| - 1] == eps[..i];
    forall k ensures Lookup(b, more, k) == if b.key(eps[i]) == k then Some(eps[i]) else Lookup(b, eps[..i], k) {
    }
  }

  lemma UpdatesNext(b: Builder, p: Plan, olds: seq<Endpoint>, news: seq<Endpoint>, i: nat)
    requires i < |news| && AllBuildable(b, news[..i]) && Buildable(b, news[i])
    ensures AllBuildable(b, news[..i + 1])
    ensures PlanUpdates(b, p, olds, news[..i + 1]) ==
      PlanUpdate(b, PlanUpdates(b, p, olds, news[..i]), Lookup(b, olds, b.key(news[i])), news[i])
  {
    assert news[..i + 1][..i] == news[..i];
  }

  method PlanNews(b: Builder, p: Plan, c: Changes, olds: map<Key, Endpoint>) returns (r: Option<Plan>, seen: set<Key>, why: Built)
    requires forall k :: k in olds <==> Lookup(b, c.updateOld, k).Some?
    requires forall k :: k in olds ==> Lookup(b, c.updateOld, k) == Some(olds[k])
    ensures r.Some? <==> AllBuildable(b, c.updateNew)
    ensures r.Some? ==> r.value == PlanUpdates(b, p, c.updateOld, c.updateNew)
    ensures r.Some? ==> forall k :: k in seen <==> Lookup(b, c.updateNew, k).Some?
    ensures r.None? ==> !why.Ok?
  {
    var plan, news := p, c.updateNew;
    seen := {};
    why := UnsupportedType;
    for i := 0 to |news|
      invariant AllBuildable(b, news[..i])
      invariant plan == PlanUpdates(b, p, c.updateOld, news[..i])
      invariant forall k :: k in seen <==> Lookup(b, news[..i], k).Some?
    {
      var k := b.key(news[i]);
      var previous := if k in olds then Some(olds[k]) else None;
      seen := seen + {k};
      var updated, bad := UpdateOne(b, plan, previous, news[i]);
      if updated.None? {
        return None, seen, bad;
      }
      UpdatesNext(b, p, c.updateOld, news, i);
      LookupNext(b, news, i);
      plan := updated.value;
    }
    assert news[..|news|] == news;
    return Some(plan), seen, why;
  }

  method DeleteAll(b: Builder, names: seq<string>, eps: seq<Endpoint>) returns (r: seq<string>)
    ensures r == AddAll(b, names, eps)
  {
    r := names;
    for i := 0 to |eps|
      invariant r == AddAll(b, names, eps[..i])
    {
      assert eps[..i + 1][..i] == eps[..i];
      r := DeleteNames(b, r, eps[i], {});
    }
    assert eps[..|eps|] == eps;
  }

  /** BuildPlan: nothing is applied, and the first Record that cannot be built rejects the whole request. */
  method BuildPlan(b: Builder, c: Changes) returns (r: PlanResult)
    ensures r.Planned? <==> AllBuildable(b, c.create) && AllBuildable(b, c.updateNew)
    ensures r.Planned? ==> r.plan == PlanOf(b, c)
    ensures r.Rejected? ==> !r.why.Ok?
  {
    var created, bad := PlanCreates(b, c.create);
    if created.None? {
      return Rejected(bad);
    }
    var olds, order := IndexOld(b, c.updateOld);
    var updated, seen, worse := PlanNews(b, Plan(created.value, [], []), c, olds);
    if updated.None? {
      return Rejected(worse);
    }
    var delete := DeleteUnmatched(b, updated.value.delete, c, olds, order, seen);
    delete := DeleteAll(b, delete, c.delete);
    return Planned(updated.value.(delete := delete));
  }

  /** The loop over oldOrder: endpoints of UpdateOld that nothing replaces. */
  method DeleteUnmatched(b: Builder, names: seq<string>, c: Changes, olds: map<Key, Endpoint>, order: seq<Key>, seen: set<Key>)
    returns (r: seq<string>)
    requires forall k :: k in order ==> k in olds && Lookup(b, c.updateOld, k) == Some(olds[k])
    requires forall k :: k in seen <==> Lookup(b, c.updateNew, k).Some?
    ensures r == AddAll(b, names, Unmatched(b, order, c.updateOld, c.updateNew))
  {
    r := names;
    ghost var dropped: seq<Endpoint> := [];
    for i := 0 to |order|
      invariant dropped == Unmatched(b, order[..i], c.updateOld, c.updateNew)
      invariant r == AddAll(b, names, dropped)
    {
      assert order[..i + 1][..i] == order[..i];
      assert order[i] in order;
      if order[i] !in seen {
        var ep := olds[order[i]];
        r := DeleteNames(b, r, ep, {});
        assert (dropped + [ep])[..|dropped|] == dropped;
        dropped := dropped + [ep];
      }
    }
    assert order[..|order|] == order;
  }

  // ---------- running a plan ----------

  /** What the API server stores: an unset TTL gets the schema's default. */
  function Stored(r: RecordObject): RecordObject {
    if r.spec.ttl.Some? then r else r.(spec := r.spec.(ttl := Some(Records.DEFAULT_TTL)))
  }

  datatype Op = Create(record: RecordObject) | Patch(record: RecordObject) | Delete(name: string)

  type Store = map<string, RecordObject>

  function OpsOf(p: Plan): seq<Op> {
    seq(|p.create|, i requires 0 <= i < |p.create| => Create(p.create[i]))
    + seq(|p.patch|, i requires 0 <= i < |p.patch| => Patch(p.patch[i]))
    + seq(|p.delete|, i requires 0 <= i < |p.delete| => Delete(p.delete[i]))
  }

  /** A patch needs its object; everything else always goes through. */
  predicate Runnable(store: Store, op: Op) {
    op.Patch? ==> op.record.name in store
  }

  /** Create of an existing object patches it; deleting a missing one is fine. */
  function Exec(store: Store, op: Op): Store {
    match op
    case Create(r) => store[r.name := Stored(r)]
    case Patch(r) => if r.name in store then store[r.name := Stored(r)] else store
    case Delete(n) => store - {n}
  }

  function ExecAll(store: Store, ops: seq<Op>): Store {
    if ops == [] then store else Exec(ExecAll(store, ops[..|ops| - 1]), ops[|ops| - 1])
  }

  /** The Record objects in the webhook's namespace. */
  class RecordStore {
    var records: Store

    constructor (records: Store)
      ensures this.records == records
    {
      this.records := records;
    }

    /** One call on the k-th operation, whose effect is after. */
    method Attempt(after: Store, call: Call) returns (ok: bool)
      modifies this
      ensures records == (if call.TakesEffect() then after else old(records)) && ok == call.Succeeds?
    {
      if call.TakesEffect() {
        records := after;
      }
      return call.Succeeds?;
    }

    method ApplyCreates(objects: seq<RecordObject>, ghost ops: seq<Op>, call: nat -> Call) returns (ok: bool, done: nat)
      requires |objects| <= |ops| && forall i :: 0 <= i < |objects| ==> ops[i] == Create(objects[i])
      modifies this
      ensures done <= |objects| && records == ExecAll(old(records), ops[..done])
      ensures if ok then done == |objects| else Stopped(old(records), ops, call, done)
    {
      for i := 0 to |objects|
        invariant records == ExecAll(old(records), ops[..i])
      {
        ExecNext(old(records), ops, i);
        ok := Attempt(records[objects[i].name := Stored(objects[i])], call(i));
        if !ok {
          done := if call(i).TakesEffect() then i + 1 else i;
          assert StoppedAt(old(records), ops, call, done, i);
          return;
        }
      }
      return true, |objects|;
    }

    method ApplyPatches(objects: seq<RecordObject>, ghost ops: seq<Op>, base: nat, call: nat -> Call, ghost start: Store)
      returns (ok: bool, done: nat)
      requires base + |objects| <= |ops| && forall i :: 0 <= i < |objects| ==> ops[base + i] == Patch(objects[i])
      requires records == ExecAll(start, ops[..base])
      modifies this
      ensures done <= base + |objects| && records == ExecAll(start, ops[..done])
      ensures if ok then done == base + |objects| else Stopped(start, ops, call, done)
    {
      for i := 0 to |objects|
        invariant records == ExecAll(start, ops[..base + i])
      {
        ExecNext(start, ops, base + i);
        if objects[i].name !in records {
          assert StoppedAt(start, ops, call, base + i, base + i);
          return false, base + i;
        }
        ok := Attempt(records[objects[i].name := Stored(objects[i])], call(base + i));
        if !ok {
          done := if call(base + i).TakesEffect() then base + i + 1 else base + i;
          assert StoppedAt(start, ops, call, done, base + i);
          return;
        }
      }
      return true, base + |objects|;
    }

    method ApplyDeletes(names: seq<string>, ghost ops: seq<Op>, base: nat, call: nat -> Call, ghost start: Store)
      returns (ok: bool, done: nat)
      requires base + |names| <= |ops| && forall i :: 0 <= i < |names| ==> ops[base + i] == Delete(names[i])
      requires records == ExecAll(start, ops[..base])
      modifies this
      ensures done <= base + |names| && records == ExecAll(start, ops[..done])
      ensures if ok then done == base + |names| else Stopped(start, ops, call, done)
    {
      for i := 0 to |names|
        invariant records == ExecAll(start, ops[..base + i])
      {
        ExecNext(start, ops, base + i);
        ok := Attempt(records - {names[i]}, call(base + i));
        if !ok {
          done := if call(base + i).TakesEffect() then base + i + 1 else base + i;
          assert StoppedAt(start, ops, call, done, base + i);
          return;
        }
      }
      return true, base + |names|;
    }

    /**
     apply: creates, then patches, then deletes, stopping at the first failure.
     call(k) says how the k-th operation ends; done counts the operations that
     took effect.
     */
    method Apply(p: Plan, call: nat -> Call) returns (ok: bool, done: nat)
      modifies this
      ensures done <= |OpsOf(p)|
      ensures records == ExecAll(old(records), OpsOf(p)[..done])
      ensures if ok then done == |OpsOf(p)| else Stopped(old(records), OpsOf(p), call, done)
    {
      ghost var ops := OpsOf(p);
      ok, done := ApplyCreates(p.create, ops, call);
      if !ok {
        return;
      }
      ok, done := ApplyPatches(p.patch, ops, |p.create|, call, old(records));
      if !ok {
        return;
      }
      ok, done := ApplyDeletes(p.delete, ops, |p.create| + |p.patch|, call, old(records));
    }
  }

  lemma ExecNext(store: Store, ops: seq<Op>, k: nat)
    requires k < |ops|
    ensures ExecAll(store, ops[..k + 1]) == Exec(ExecAll(store, ops[..k]), ops[k])
  {
    assert ops[..k + 1][..k] == ops[..k];
  }

  /** Operation k failed, before or after taking effect, or had nothing to patch. */
  predicate StoppedAt(store: Store, ops: seq<Op>, call: nat -> Call, done: nat, k: nat) {
    && k < |ops|
    && if !Runnable(ExecAll(store, ops[..k]), ops[k]) then done == k
       else !call(k).Succeeds? && done == if call(k).FailsAfter? then k + 1 else k
  }

  predicate Stopped(store: Store, ops: seq<Op>, call: nat -> Call, done: nat) {
    exists k :: 0 <= k < |ops| && StoppedAt(store, ops, call, done, k)
  }
}
