/**
 Listing: grouping Record objects back into endpoints (Endpoints), and the round
 trip with the creating direction.
 */
module EndpointList {
  import opened Options
  import opened Plans
  import opened Sorting
  import opened Text
  import opened Translate

  // ---------- grouping ----------

  function GroupKey(r: RecordObject): Key {
    Key(r.spec.name, r.spec.typ, if r.setIdentifier.Some? then r.setIdentifier.value else "")
  }

  /** fmt's %d. */
  function PrintInt(n: int): string {
    if n >= 0 then Decimal(n) else "-" + Decimal(-n)
  }

  function TargetOf(r: RecordObject): string {
    if r.spec.typ == "MX" && r.spec.priority.Some? then PrintInt(r.spec.priority.value) + " " + r.spec.data else r.spec.data
  }

  /** Group keys in order of first occurrence. */
  function GroupKeys(records: seq<RecordObject>): seq<Key> {
    if records == [] then []
    else
      var before, k := GroupKeys(records[..|records| - 1]), GroupKey(records[|records| - 1]);
      if k in before then before else before + [k]
  }

  function GroupTargets(records: seq<RecordObject>, k: Key): seq<string> {
    if records == [] then []
    else
      var last := records[|records| - 1];
      GroupTargets(records[..|records| - 1], k) + (if GroupKey(last) == k then [TargetOf(last)] else [])
  }

  /** The TTL of a group is that of its first Record. */
  function GroupTtl(records: seq<RecordObject>, k: Key): int {
    if records == [] then 0
    else if GroupKey(records[0]) == k then (if records[0].spec.ttl.Some? then records[0].spec.ttl.value else 0)
    else GroupTtl(records[1..], k)
  }

  function Group(records: seq<RecordObject>, k: Key): Endpoint {
    Endpoint(k.name, GroupTargets(records, k), k.typ, k.setIdentifier, GroupTtl(records, k))
  }

  function Tidy(ep: Endpoint): Endpoint {
    ep.(targets := Sort(ep.targets, Less))
  }

  function Finished(records: seq<RecordObject>, k: Key): Endpoint {
    Tidy(Group(records, k))
  }

  function KeyLess(a: Endpoint, b: Endpoint): bool {
    || Less(a.dnsName, b.dnsName)
    || (a.dnsName == b.dnsName && Less(a.recordType, b.recordType))
    || (a.dnsName == b.dnsName && a.recordType == b.recordType && Less(a.setIdentifier, b.setIdentifier))
  }

  function GroupsFor(records: seq<RecordObject>, keys: seq<Key>): seq<Endpoint> {
    seq(|keys|, i requires 0 <= i < |keys| => Finished(records, keys[i]))
  }

  /** What Endpoints returns. */
  function EndpointsOf(records: seq<RecordObject>): seq<Endpoint> {
    Sort(GroupsFor(records, GroupKeys(records)), KeyLess)
  }

  lemma {:induction false} GroupTtlExtend(records: seq<RecordObject>, r: RecordObject, k: Key)
    ensures k in GroupKeys(records) ==> GroupTtl(records + [r], k) == GroupTtl(records, k)
    ensures k !in GroupKeys(records) ==>
      GroupTtl(records + [r], k) == if GroupKey(r) == k && r.spec.ttl.Some? then r.spec.ttl.value else 0
    decreases |records|
  {
    if records == [] {
      assert (records + [r])[1..] == [];
    } else {
      GroupTtlExtend(records[1..], r, k);
      assert (records + [r])[1..] == records[1..] + [r];
      GroupKeysTail(records, k);
    }
  }

  lemma GroupKeysTail(records: seq<RecordObject>, k: Key)
    requires records != []
    ensures k in GroupKeys(records) <==> GroupKey(records[0]) == k || k in GroupKeys(records[1..])
  {
    GroupKeysMeans(records, k);
    GroupKeysMeans(records[1..], k);
    assert records == [records[0]] + records[1..];
  }

  lemma {:induction false} GroupKeysMeans(records: seq<RecordObject>, k: Key)
    ensures k in GroupKeys(records) <==> exists i :: 0 <= i < |records| && GroupKey(records[i]) == k
    decreases |records|
  {
    if records != [] {
      var m := |records| - 1;
      var front := records[..m];
      GroupKeysMeans(front, k);
      if k in GroupKeys(front) {
        var i :| 0 <= i < |front| && GroupKey(front[i]) == k;
        assert GroupKey(records[i]) == k;
      } else if k != GroupKey(records[m]) {
        forall i | 0 <= i < |records| ensures GroupKey(records[i]) != k {
          assert i < m ==> records[i] == front[i];
        }
      }
    }
  }

  lemma GroupExtend(records: seq<RecordObject>, r: RecordObject, k: Key)
    ensures Group(records + [r], k) ==
      if GroupKey(r) != k then Group(records, k)
      else if k in GroupKeys(records) then Group(records, k).(targets := GroupTargets(records, k) + [TargetOf(r)])
      else Endpoint(k.name, [TargetOf(r)], k.typ, k.setIdentifier, if r.spec.ttl.Some? then r.spec.ttl.value else 0)
  {
    GroupTtlExtend(records, r, k);
    assert (records + [r])[..|records|] == records;
    if k !in GroupKeys(records) {
      NoTargetsYet(records, k);
      NoTtlYet(records, k);
    }
  }

  lemma {:induction false} NoTtlYet(records: seq<RecordObject>, k: Key)
    requires k !in GroupKeys(records)
    ensures GroupTtl(records, k) == 0
    decreases |records|
  {
    if records != [] {
      GroupKeysMeans(records, k);
      GroupKeysMeans(records[1..], k);
      NoTtlYet(records[1..], k);
    }
  }

  /** Endpoints: group in one loop over the Records, then sort targets and groups. */
  method ListEndpoints(records: seq<RecordObject>) returns (out: seq<Endpoint>)
    ensures out == EndpointsOf(records)
  {
    var groups: map<Key, Endpoint> := map[];
    var order: seq<Key> := [];
    for i := 0 to |records|
      invariant order == GroupKeys(records[..i])
      invariant forall k :: k in groups <==> k in order
      invariant forall k :: k in groups ==> groups[k] == Group(records[..i], k)
    {
      var r := records[i];
      ghost var before := records[..i];
      assert records[..i + 1] == before + [r] && (before + [r])[..i] == before;
      var k := GroupKey(r);
      ghost var was := groups;
      if k !in groups {
        groups := groups[k := Endpoint(k.name, [], k.typ, k.setIdentifier, if r.spec.ttl.Some? then r.spec.ttl.value else 0)];
        order := order + [k];
      }
      groups := groups[k := groups[k].(targets := groups[k].targets + [TargetOf(r)])];
      forall j | j in groups ensures groups[j] == Group(before + [r], j) {
        GroupExtend(before, r, j);
      }
    }
    assert records[..|records|] == records;
    out := SortGroups(records, groups, order);
  }

  /** The second half: sort each group's targets, then the groups. */
  method SortGroups(ghost records: seq<RecordObject>, groups: map<Key, Endpoint>, order: seq<Key>) returns (out: seq<Endpoint>)
    requires order == GroupKeys(records)
    requires forall k :: k in order ==> k in groups && groups[k] == Group(records, k)
    ensures out == EndpointsOf(records)
  {
    var tidied := TidyAll(groups, order);
    assert tidied == GroupsFor(records, order);
    out := Sort(tidied, KeyLess);
  }

  method TidyAll(groups: map<Key, Endpoint>, order: seq<Key>) returns (out: seq<Endpoint>)
    requires forall k :: k in order ==> k in groups
    ensures |out| == |order| && forall j :: 0 <= j < |order| ==> out[j] == Tidy(groups[order[j]])
  {
    out := [];
    for i := 0 to |order|
      invariant |out| == i && forall j :: 0 <= j < i ==> out[j] == Tidy(groups[order[j]])
    {
      out := out + [Tidy(groups[order[i]])];
    }
  }

  lemma {:induction false} NoTargetsYet(records: seq<RecordObject>, k: Key)
    requires k !in GroupKeys(records)
    ensures GroupTargets(records, k) == []
  {
    if records != [] {
      NoTargetsYet(records[..|records| - 1], k);
    }
  }

  // ---------- the round trip ----------

  function Own(ep: Endpoint): Key {
    Key(ep.dnsName, ep.recordType, ep.setIdentifier)
  }

  predicate Distinct<T(==)>(s: seq<T>) {
    forall i, j :: 0 <= i < j < |s| ==> s[i] != s[j]
  }

  predicate DistinctKeys(eps: seq<Endpoint>) {
    forall i, j :: 0 <= i < j < |eps| ==> Own(eps[i]) != Own(eps[j])
  }

  /** The stored object shows the key, the target and the TTL it was made for. */
  predicate Shows(r: RecordObject, ep: Endpoint, tg: string) {
    GroupKey(r) == Own(ep) && TargetOf(r) == tg && r.spec.ttl == Some(ep.ttl)
  }

  /** records are the objects of all targets of eps, once each and in any order. */
  ghost predicate Enumerates(obj: (Endpoint, string) -> RecordObject, eps: seq<Endpoint>, records: seq<RecordObject>) {
    && Distinct(records)
    && forall r :: r in records <==> exists ep, tg :: ep in eps && tg in ep.targets && r == obj(ep, tg)
  }

  ghost predicate Listable(obj: (Endpoint, string) -> RecordObject, eps: seq<Endpoint>) {
    && DistinctKeys(eps)
    && (forall ep :: ep in eps ==> ep.targets != [] && StrictlySorted(ep.targets, Less))
    && (forall ep, tg :: ep in eps && tg in ep.targets ==> Shows(obj(ep, tg), ep, tg))
  }

  lemma KeyLessIsStrict()
    ensures StrictOrder(KeyLess)
  {
    LessIsStrict();
    forall x ensures !KeyLess(x, x) {
    }
    forall x, y, z | KeyLess(x, y) && KeyLess(y, z) ensures KeyLess(x, z) {
    }
  }

  lemma KeyLessTotal(a: Endpoint, b: Endpoint)
    requires Own(a) != Own(b)
    ensures KeyLess(a, b) || KeyLess(b, a)
  {
    LessTotal(a.dnsName, b.dnsName);
    LessTotal(a.recordType, b.recordType);
    LessTotal(a.setIdentifier, b.setIdentifier);
  }

  lemma {:induction false} GroupKeysDistinct(records: seq<RecordObject>)
    ensures Distinct(GroupKeys(records))
  {
    if records != [] {
      GroupKeysDistinct(records[..|records| - 1]);
    }
  }

  lemma {:induction false} GroupTargetsMeans(records: seq<RecordObject>, k: Key, tg: string)
    ensures tg in GroupTargets(records, k) <==>
      exists r :: r in records && GroupKey(r) == k && TargetOf(r) == tg
    decreases |records|
  {
    if records != [] {
      var m := |records| - 1;
      GroupTargetsMeans(records[..m], k, tg);
      assert forall r :: r in records <==> r in records[..m] || r == records[m];
    }
  }

  /** Records that differ in key or target give each group its targets once. */
  lemma {:induction false} GroupTargetsDistinct(records: seq<RecordObject>, k: Key)
    requires forall i, j :: 0 <= i < j < |records| ==>
      GroupKey(records[i]) != GroupKey(records[j]) || TargetOf(records[i]) != TargetOf(records[j])
    ensures Distinct(GroupTargets(records, k))
    decreases |records|
  {
    if records != [] {
      var m := |records| - 1;
      GroupTargetsDistinct(records[..m], k);
      if GroupKey(records[m]) == k {
        GroupTargetsMeans(records[..m], k, TargetOf(records[m]));
      }
    }
  }

  lemma {:induction false} GroupTtlIs(records: seq<RecordObject>, k: Key, ttl: int)
    requires exists r :: r in records && GroupKey(r) == k
    requires forall r :: r in records && GroupKey(r) == k ==> r.spec.ttl == Some(ttl)
    ensures GroupTtl(records, k) == ttl
    decreases |records|
  {
    assert records[0] in records;
    if GroupKey(records[0]) != k {
      assert forall r :: r in records <==> r in records[1..] || r == records[0];
      GroupTtlIs(records[1..], k, ttl);
    }
  }

  /** Every listed Record belongs to the endpoint that owns its key. */
  lemma OwnerOf(obj: (Endpoint, string) -> RecordObject, eps: seq<Endpoint>, records: seq<RecordObject>, ep: Endpoint, r: RecordObject)
    requires Listable(obj, eps) && Enumerates(obj, eps, records)
    requires ep in eps && r in records && GroupKey(r) == Own(ep)
    ensures TargetOf(r) in ep.targets && Shows(r, ep, TargetOf(r)) && r == obj(ep, TargetOf(r))
  {
    var e, tg :| e in eps && tg in e.targets && r == obj(e, tg);
    assert Shows(obj(e, tg), e, tg);
    assert e == ep;
  }

  lemma GroupIsEndpoint(obj: (Endpoint, string) -> RecordObject, eps: seq<Endpoint>, records: seq<RecordObject>, ep: Endpoint)
    requires Listable(obj, eps) && Enumerates(obj, eps, records) && ep in eps
    ensures Finished(records, Own(ep)) == ep && Own(ep) in GroupKeys(records)
  {
    var k := Own(ep);
    forall tg ensures tg in GroupTargets(records, k) <==> tg in ep.targets {
      GroupTargetsMeans(records, k, tg);
      if tg in ep.targets {
        assert obj(ep, tg) in records && Shows(obj(ep, tg), ep, tg);
      }
      forall r | r in records && GroupKey(r) == k ensures TargetOf(r) in ep.targets {
        OwnerOf(obj, eps, records, ep, r);
      }
    }
    RecordsDiffer(obj, eps, records);
    GroupTargetsDistinct(records, k);
    SortedTargets(GroupTargets(records, k), ep.targets);
    var first := obj(ep, ep.targets[0]);
    assert ep.targets[0] in ep.targets;
    assert first in records && Shows(first, ep, ep.targets[0]);
    forall r | r in records && GroupKey(r) == k ensures r.spec.ttl == Some(ep.ttl) {
      OwnerOf(obj, eps, records, ep, r);
    }
    GroupTtlIs(records, k, ep.ttl);
    GroupKeysMeans(records, k);
    var i :| 0 <= i < |records| && records[i] == first;
  }

  lemma SortedTargets(found: seq<string>, targets: seq<string>)
    requires Distinct(found) && StrictlySorted(targets, Less)
    requires forall tg :: tg in found <==> tg in targets
    ensures Sort(found, Less) == targets
  {
    LessIsStrict();
    forall i, j | 0 <= i < j < |found| ensures Less(found[i], found[j]) || Less(found[j], found[i]) {
      LessTotal(found[i], found[j]);
    }
    SortStrict(found, Less);
    StrictlySortedUnique(Sort(found, Less), targets, Less);
  }

  lemma RecordsDiffer(obj: (Endpoint, string) -> RecordObject, eps: seq<Endpoint>, records: seq<RecordObject>)
    requires Listable(obj, eps) && Enumerates(obj, eps, records)
    ensures forall i, j :: 0 <= i < j < |records| ==>
      GroupKey(records[i]) != GroupKey(records[j]) || TargetOf(records[i]) != TargetOf(records[j])
  {
    forall i, j | 0 <= i < j < |records|
      ensures GroupKey(records[i]) != GroupKey(records[j]) || TargetOf(records[i]) != TargetOf(records[j])
    {
      var q, r := records[i], records[j];
      assert q in records && r in records;
      var ep, tg :| ep in eps && tg in ep.targets && q == obj(ep, tg);
      assert Shows(obj(ep, tg), ep, tg);
      if GroupKey(q) == GroupKey(r) {
        OwnerOf(obj, eps, records, ep, r);
      }
    }
  }

  /** Every group is one of the endpoints. */
  lemma GroupHasOwner(obj: (Endpoint, string) -> RecordObject, eps: seq<Endpoint>, records: seq<RecordObject>, k: Key) returns (ep: Endpoint)
    requires Listable(obj, eps) && Enumerates(obj, eps, records) && k in GroupKeys(records)
    ensures ep in eps && Own(ep) == k && Finished(records, k) == ep
  {
    GroupKeysMeans(records, k);
    var i :| 0 <= i < |records| && GroupKey(records[i]) == k;
    assert records[i] in records;
    var tg: string;
    ep, tg :| ep in eps && tg in ep.targets && records[i] == obj(ep, tg);
    assert Shows(obj(ep, tg), ep, tg);
    GroupIsEndpoint(obj, eps, records, ep);
  }

  /** Listing the Records of some endpoints, in any order, gives back those endpoints sorted by key. */
  lemma RoundTrip(obj: (Endpoint, string) -> RecordObject, eps: seq<Endpoint>, records: seq<RecordObject>)
    requires Listable(obj, eps) && Enumerates(obj, eps, records)
    ensures EndpointsOf(records) == Sort(eps, KeyLess)
    ensures StrictlySorted(EndpointsOf(records), KeyLess)
    ensures forall ep :: ep in EndpointsOf(records) <==> ep in eps
  {
    var keys := GroupKeys(records);
    var groups := GroupsFor(records, keys);
    GroupKeysDistinct(records);
    forall i | 0 <= i < |keys| ensures groups[i] in eps && Own(groups[i]) == keys[i] {
      var ep := GroupHasOwner(obj, eps, records, keys[i]);
    }
    forall ep ensures ep in groups <==> ep in eps {
      if ep in eps {
        GroupIsEndpoint(obj, eps, records, ep);
        var i :| 0 <= i < |keys| && keys[i] == Own(ep);
        assert groups[i] == ep;
      }
    }
    forall i, j | 0 <= i < j < |groups| ensures KeyLess(groups[i], groups[j]) || KeyLess(groups[j], groups[i]) {
      KeyLessTotal(groups[i], groups[j]);
    }
    forall i, j | 0 <= i < j < |eps| ensures KeyLess(eps[i], eps[j]) || KeyLess(eps[j], eps[i]) {
      KeyLessTotal(eps[i], eps[j]);
    }
    KeyLessIsStrict();
    SortStrict(groups, KeyLess);
    SortStrict(eps, KeyLess);
    StrictlySortedUnique(Sort(groups, KeyLess), Sort(eps, KeyLess), KeyLess);
  }

  // ---------- any Records at all ----------

  /** The positions of the Records with this key and target. */
  function Positions(records: seq<RecordObject>, k: Key, tg: string): set<nat> {
    Where(records, r => GroupKey(r) == k && TargetOf(r) == tg)
  }

  function Where<T>(s: seq<T>, hit: T -> bool): set<nat> {
    set i: nat | i < |s| && hit(s[i])
  }

  lemma WhereNext<T>(front: seq<T>, last: T, hit: T -> bool)
    ensures |Where(front + [last], hit)| == |Where(front, hit)| + if hit(last) then 1 else 0
  {
    var s := front + [last];
    var all, before, m := Where(s, hit), Where(front, hit), |front|;
    forall i: nat ensures i in all <==> i in before || (i == m && hit(last)) {
      if i < m {
        assert s[i] == front[i];
      }
    }
    assert all == before + (if hit(last) then {m} else {});
  }

  lemma {:induction false} GroupTargetsCount(records: seq<RecordObject>, k: Key, tg: string)
    ensures multiset(GroupTargets(records, k))[tg] == |Positions(records, k, tg)|
    decreases |records|
  {
    if records != [] {
      var front, last := records[..|records| - 1], records[|records| - 1];
      GroupTargetsCount(front, k, tg);
      PositionsNext(front, last, k, tg);
      assert records == front + [last];
      var more := if GroupKey(last) == k then [TargetOf(last)] else [];
      assert multiset(GroupTargets(front, k) + more) == multiset(GroupTargets(front, k)) + multiset(more);
    } else {
      assert Positions(records, k, tg) == {};
    }
  }

  lemma PositionsNext(front: seq<RecordObject>, last: RecordObject, k: Key, tg: string)
    ensures |Positions(front + [last], k, tg)| ==
      |Positions(front, k, tg)| + if GroupKey(last) == k && TargetOf(last) == tg then 1 else 0
  {
    WhereNext(front, last, r => GroupKey(r) == k && TargetOf(r) == tg);
  }

  /** The TTL of a group is that of its first Record, 0 if that has none. */
  lemma {:induction false} GroupTtlFirst(records: seq<RecordObject>, k: Key, i: nat)
    requires i < |records| && GroupKey(records[i]) == k && forall j :: 0 <= j < i ==> GroupKey(records[j]) != k
    ensures GroupTtl(records, k) == if records[i].spec.ttl.Some? then records[i].spec.ttl.value else 0
    decreases i
  {
    if i > 0 {
      assert records[1..][i - 1] == records[i];
      GroupTtlFirst(records[1..], k, i - 1);
    }
  }

  /** An endpoint sums up the Records of its key: their targets in order, as often as they occur, and the first one's TTL. */
  ghost predicate SumsUp(ep: Endpoint, records: seq<RecordObject>) {
    && InOrder(ep.targets, Less)
    && (forall tg :: multiset(ep.targets)[tg] == |Positions(records, Own(ep), tg)|)
    && (forall i :: 0 <= i < |records| && FirstOf(records, Own(ep), i) ==>
          ep.ttl == if records[i].spec.ttl.Some? then records[i].spec.ttl.value else 0)
  }

  predicate FirstOf(records: seq<RecordObject>, k: Key, i: nat)
    requires i < |records|
  {
    GroupKey(records[i]) == k && forall j :: 0 <= j < i ==> GroupKey(records[j]) != k
  }

  lemma FinishedSumsUp(records: seq<RecordObject>, k: Key)
    ensures Own(Finished(records, k)) == k && SumsUp(Finished(records, k), records)
  {
    LessIsWeak();
    SortPermutes(GroupTargets(records, k), Less);
    forall tg ensures multiset(GroupTargets(records, k))[tg] == |Positions(records, k, tg)| {
      GroupTargetsCount(records, k, tg);
    }
    forall i | 0 <= i < |records| && FirstOf(records, k, i)
      ensures GroupTtl(records, k) == if records[i].spec.ttl.Some? then records[i].spec.ttl.value else 0
    {
      GroupTtlFirst(records, k, i);
    }
  }

  /** Whatever the Records, the listing has one endpoint for each key among them, sorted by key, that sums them up. */
  lemma ListingMeans(records: seq<RecordObject>)
    ensures StrictlySorted(EndpointsOf(records), KeyLess)
    ensures forall ep :: ep in EndpointsOf(records) ==> SumsUp(ep, records) && exists r :: r in records && GroupKey(r) == Own(ep)
    ensures forall r :: r in records ==> exists ep :: ep in EndpointsOf(records) && Own(ep) == GroupKey(r)
  {
    var keys := GroupKeys(records);
    var groups := GroupsFor(records, keys);
    GroupKeysDistinct(records);
    forall i | 0 <= i < |keys| ensures Own(groups[i]) == keys[i] && SumsUp(groups[i], records) {
      FinishedSumsUp(records, keys[i]);
    }
    forall i, j | 0 <= i < j < |groups| ensures KeyLess(groups[i], groups[j]) || KeyLess(groups[j], groups[i]) {
      KeyLessTotal(groups[i], groups[j]);
    }
    KeyLessIsStrict();
    SortStrict(groups, KeyLess);
    forall ep | ep in groups ensures SumsUp(ep, records) && exists r :: r in records && GroupKey(r) == Own(ep) {
      var i :| 0 <= i < |groups| && groups[i] == ep;
      GroupKeysMeans(records, keys[i]);
      var j :| 0 <= j < |records| && GroupKey(records[j]) == keys[i];
      assert records[j] in records;
    }
    forall r | r in records ensures exists ep :: ep in groups && Own(ep) == GroupKey(r) {
      GroupKeysMeans(records, GroupKey(r));
      var i :| 0 <= i < |keys| && keys[i] == GroupKey(r);
      assert groups[i] in groups;
    }
  }

  // ---------- the translator's Records ----------

  /** An endpoint the webhook can represent as it is. */
  ghost predicate Canonical(t: Translator, ep: Endpoint) {
    && Normalize(ep.dnsName) == ep.dnsName && ZoneOf(t, ep.dnsName) != ""
    && ToUpper(ep.recordType) == ep.recordType && ep.recordType in SUPPORTED
    && 1 <= ep.ttl <= MAX_INT32
    && ep.targets != [] && StrictlySorted(ep.targets, Less)
    && (ep.recordType == "MX" ==> forall tg :: tg in ep.targets ==> CanonicalMX(tg))
  }

  ghost predicate CanonicalMX(tg: string) {
    exists mx: Mx :: mx.preference <= MAX_UINT16 && Solid(mx.host) && tg == PrintMX(mx)
  }

  lemma DesiredShows(t: Translator, ep: Endpoint, tg: string)
    requires Canonical(t, ep) && tg in ep.targets
    ensures Desired(t, ep, tg).Ok? && Shows(Stored(Desired(t, ep, tg).record), ep, tg)
  {
    if ep.recordType == "MX" {
      assert CanonicalMX(tg);
      var mx: Mx :| mx.preference <= MAX_UINT16 && Solid(mx.host) && tg == PrintMX(mx);
      ParsePrintedMX(mx);
    }
  }

  /** The stored object of a target, for endpoints that can be built. */
  function StoredFor(t: Translator, ep: Endpoint, tg: string): RecordObject {
    var built := Desired(t, ep, tg);
    if built.Ok? then Stored(built.record) else RecordObject(NameOf(t, ep, tg), t.owner, None, RecordSpec("", "", "", "", "", None, None))
  }

  /** Creating canonical endpoints and listing the Records, in any order, returns the endpoints. */
  lemma EndpointRoundTrip(t: Translator, eps: seq<Endpoint>, records: seq<RecordObject>)
    requires DistinctKeys(eps) && forall ep :: ep in eps ==> Canonical(t, ep)
    requires Enumerates((ep, tg) => StoredFor(t, ep, tg), eps, records)
    ensures forall ep, tg :: ep in eps && tg in ep.targets ==> Desired(t, ep, tg).Ok?
    ensures EndpointsOf(records) == Sort(eps, KeyLess)
  {
    var obj := (ep, tg) => StoredFor(t, ep, tg);
    forall ep, tg | ep in eps && tg in ep.targets ensures Desired(t, ep, tg).Ok? && Shows(obj(ep, tg), ep, tg) {
      DesiredShows(t, ep, tg);
    }
    RoundTrip(obj, eps, records);
  }
}
