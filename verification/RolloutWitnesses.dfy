/**
 The limits of release on fresh evidence, as runs: for which pods a release can
 rest on an entry left by an earlier pod, or on a heartbeat from before the pod
 became Ready. Both happen because ready times are stored in whole seconds.
 */
module RolloutWitnesses {
  import opened Calls
  import opened Members
  import opened Options
  import opened Rollout
  import opened RolloutLaws
  import opened RolloutPaths
  import opened RolloutSystem
  import opened StatefulSets
  import opened Versions

  // ---------- the scene ----------

  function OldPods(c: Setup, t: int): map<nat, Pod> {
    map i: nat | i < c.n :: Pod(i, c.oldRev, IP, t, Some(t))
  }

  /** A settled, clustered set of n nodes on the old template at time t. */
  function AtRest(c: Setup, t: int): World {
    var sts := Sts(c.n, c.oldT, Some(0), c.hash(c.oldT), 1, StsStatus(1, c.oldRev, c.oldRev));
    World(c.oldT, sts, c.oldT, 0, 1, OldPods(c, t), true, map[], Status(false, None), t, c.n, Resting)
  }

  /** The new template is observed, parked or with the last ordinal released. */
  function Upgrading(c: Setup, t: int, partition: nat, generation: nat): World {
    var sts := Sts(c.n, c.newT, Some(partition), c.hash(c.newT), generation, StsStatus(generation, c.oldRev, c.newRev));
    World(c.newT, sts, c.newT, partition, generation, OldPods(c, t), true, map[], Status(false, None), t, c.n, Resting)
  }

  /** The world at the start of every run below. */
  lemma AtRestIsInitial(c: Setup, t: int)
    requires Sound(c)
    ensures Initial(c, AtRest(c, t))
  {
  }

  lemma ReachParked(c: Setup, t: int)
    requires Sound(c)
    ensures Leads(c, AtRest(c, t), Upgrading(c, t, c.n, 2))
  {
    var v0 := AtRest(c, t);
    Stays(c, v0);
    var v1 := Follow(c, v0, v0, ChangeSpec);
    var v2 := Follow(c, v0, v1, PassWrites);
    var v3 := Follow(c, v0, v2, PassStops);
    LeadsToCaughtUp(c, v0, v3);
    assert CaughtUp(c, v3) == Upgrading(c, t, c.n, 2);
  }

  /** A pass that finds nothing released yet. */
  function FirstWalk(c: Setup, v: World): WalkInput {
    WalkInput(v.sts, false, false, None, true, c.cluster, Infos(c, v), map[], None, Succeeds, 0, 0, 0)
  }

  lemma FirstWalkLowers(c: Setup, v: World)
    requires v.sts.partition == Some(c.n) && v.sts.replicas == c.n > 0 && Observed(v.sts)
    ensures Patched(v.sts, FirstWalk(c, v)) == Lowered(v.sts, c.n - 1)
  {
    assert FirstFailing(GateOf(FirstWalk(c, v)), c.n, c.n).None?;
  }

  lemma ReachReleased(c: Setup, t: int)
    requires Sound(c)
    ensures Leads(c, AtRest(c, t), Upgrading(c, t, c.n - 1, 3))
  {
    ReachParked(c, t);
    var start, v0 := AtRest(c, t), Upgrading(c, t, c.n, 2);
    LeadsToWrote(c, start, v0);
    var v1 := v0.(pass := Wrote(StsOutcome(v0.sts, false)));
    var w := FirstWalk(c, v1);
    FirstWalkLowers(c, v1);
    LeadsToRelease(c, start, v1, w, [], [], false);
    var v2 := v1.(sts := Lowered(v1.sts, c.n - 1), pass := Resting);
    assert NextStatus(v1.status, Pass(w, false)) == v1.status;
    LeadsToCaughtUp(c, start, v2);
    assert CaughtUp(c, v2) == Upgrading(c, t, c.n - 1, 3);
  }

  /** The last ordinal replaced by a pod born at born and Ready at ready, with the Primary's record of it. */
  function Renewed(c: Setup, born: int, ready: int, h: Heard): World
    requires c.n >= 1
  {
    var m := c.n - 1;
    var v := Upgrading(c, born, m, 3);
    v.(pods := v.pods[m := Pod(c.n, c.newRev, IP, born, Some(ready))], view := map[m := h], now := ready, nextId := c.n + 1)
  }

  function Reading(v: World): World {
    v.(pass := Wrote(StsOutcome(v.sts, false)))
  }

  lemma ReachReading(c: Setup, born: int, ready: int, h: Heard)
    requires Sound(c) && Leads(c, AtRest(c, born), Renewed(c, born, ready, h))
    ensures Reachable(c, Reading(Renewed(c, born, ready, h)))
  {
    AtRestIsInitial(c, born);
    LeadsToWrote(c, AtRest(c, born), Renewed(c, born, ready, h));
  }

  /** The Primary last hears the old pod in the moment it is replaced. */
  lemma ReachStale(c: Setup, born: int, ready: int)
    requires Sound(c) && born <= ready
    ensures Leads(c, AtRest(c, born), Renewed(c, born, ready, Heard(true, [IP], Some(born), c.n - 1)))
  {
    var start, m, v0 := AtRest(c, born), c.n - 1, Upgrading(c, born, c.n - 1, 3);
    ReachReleased(c, born);
    LeadsToHeard(c, start, v0, m, [IP]);
    var v1 := HeardFrom(v0, m, [IP]);
    LeadsToReplaced(c, start, v1, m, IP, ready);
    var v2 := Replaced(c, v1, m, IP, ready);
    LeadsToReadied(c, start, v2, m);
    StaleScene(c, born, ready);
  }

  lemma Overwritten(pods: map<nat, Pod>, i: nat, a: Pod, b: Pod)
    ensures pods[i := a][i := b] == pods[i := b]
  {
  }

  lemma StaleScene(c: Setup, born: int, ready: int)
    requires Sound(c)
    ensures var m := c.n - 1;
      Readied(Replaced(c, HeardFrom(Upgrading(c, born, m, 3), m, [IP]), m, IP, ready), m) ==
      Renewed(c, born, ready, Heard(true, [IP], Some(born), m))
  {
    var pod := Pod(c.n, c.newRev, IP, born, None);
    Overwritten(OldPods(c, born), c.n - 1, pod, pod.(readyAt := Some(ready)));
  }

  /** The Primary hears the new pod in the moment before it becomes Ready. */
  lemma ReachEarly(c: Setup, born: int, ready: int)
    requires Sound(c) && born <= ready
    ensures Leads(c, AtRest(c, born), Renewed(c, born, ready, Heard(true, [IP], Some(ready), c.n)))
  {
    var start, m, v0 := AtRest(c, born), c.n - 1, Upgrading(c, born, c.n - 1, 3);
    ReachReleased(c, born);
    LeadsToReplaced(c, start, v0, m, IP, ready);
    var v1 := Replaced(c, v0, m, IP, ready);
    LeadsToHeard(c, start, v1, m, [IP]);
    LeadsToReadied(c, start, HeardFrom(v1, m, [IP]), m);
    EarlyScene(c, born, ready);
  }

  lemma EarlyScene(c: Setup, born: int, ready: int)
    requires Sound(c)
    ensures var m := c.n - 1;
      Readied(HeardFrom(Replaced(c, Upgrading(c, born, m, 3), m, IP, ready), m, [IP]), m) ==
      Renewed(c, born, ready, Heard(true, [IP], Some(ready), c.n))
  {
    var pod := Pod(c.n, c.newRev, IP, born, None);
    Overwritten(OldPods(c, born), c.n - 1, pod, pod.(readyAt := Some(ready)));
  }

  // ---------- releases on that evidence ----------

  /** A reachable pass releases a node on the evidence about ordinal i, whose pod has these times. */
  ghost predicate ReleasesOn(
    c: Setup, v: World, w: WalkInput, ordinals: seq<nat>, domains: seq<string>, i: nat, born: int, ready: int) {
    && Reachable(c, v) && Enabled(c, v, PassReads(w, ordinals, domains))
    && Lowers(w) && StartOf(w) <= i < c.n && v.initialized
    && i in v.pods && v.pods[i].born == born && v.pods[i].readyAt == Some(ready)
    && i in v.view && v.view[i].lastSeen.Some?
  }

  /** Every answer of every node is as the gate wants it, given the Primary's record of the last ordinal. */
  function LastWalk(c: Setup, v: World, h: Heard, domain: string): WalkInput
    requires c.n >= 1
  {
    WalkInput(v.sts, false, false, None, true, c.cluster, Infos(c, v), map[c.n - 1 := ClusterState(TargetVersion(c), true, domain, [])],
              Some(Shown(c.cluster, c.n - 1, h, domain)), Succeeds, 0, 0, 0)
  }

  lemma LastWalkReads(c: Setup, born: int, ready: int, h: Heard, domain: string)
    requires Sound(c) && h.connected
    ensures var v := Reading(Renewed(c, born, ready, h));
      Enabled(c, v, PassReads(LastWalk(c, v, h, domain), [c.n - 1], [domain]))
  {
    var v := Reading(Renewed(c, born, ready, h));
    assert Renders(c, v, Shown(c.cluster, c.n - 1, h, domain).nodes, [c.n - 1], [domain]);
  }

  lemma LastWalkLowers(c: Setup, born: int, ready: int, h: Heard, domain: string)
    requires Sound(c) && h.connected && IP in h.ips && h.lastSeen.Some? && h.lastSeen.value > Truncate(ready)
    ensures var v := Reading(Renewed(c, born, ready, h)); Lowers(LastWalk(c, v, h, domain))
  {
    var m, v := c.n - 1, Reading(Renewed(c, born, ready, h));
    var w := LastWalk(c, v, h, domain);
    TargetParses(c);
    assert m in v.pods && m < c.n;
    assert w.pods[m] == Info(v.pods[m]);
    EntryPasses(GateOf(w), m, v.pods[m], h, domain);
    Passes(GateOf(w), m);
    LastReleases(w, m);
  }

  lemma Passes(g: GateInput, i: nat)
    requires i in g.pods && g.pods[i].revision == g.revision && g.pods[i].ready && g.primary.Some?
    requires g.target.Some? ==> i in g.answers && Parsed(g.answers[i].version) == g.target
    requires MemberVerdict(g, g.primary.value, i, g.pods[i]).None?
    ensures Verdict(g, i).None?
  {
  }

  /** With only the last ordinal released and passing, the next one down is released. */
  lemma LastReleases(w: WalkInput, m: nat)
    requires w.sts.replicas == m + 1 && w.sts.partition == Some(m) && m > 0 && Verdict(GateOf(w), m).None?
    requires !w.templateChanged && Observed(w.sts) && w.readable && w.patch.Succeeds?
    ensures Lowers(w)
  {
    assert FirstFailing(GateOf(w), m, m + 1).None?;
  }

  lemma EvidenceOf(c: Setup, v: World, w: WalkInput, ordinals: seq<nat>, domains: seq<string>, i: nat, born: int, ready: int)
    requires Sound(c)
    ensures ReleasesOn(c, v, w, ordinals, domains, i, born, ready) ==> FreshEvidence(c, v, i)
  {
    if ReleasesOn(c, v, w, ordinals, domains, i, born, ready) {
      ReachableMeans(c, v);
      ReleaseIsFresh(c, v, w, ordinals, domains);
    }
  }

  /** The entry a release rests on was left by an earlier pod. */
  ghost predicate StaleRelease(
    c: Setup, v: World, w: WalkInput, ordinals: seq<nat>, domains: seq<string>, i: nat, born: int, ready: int) {
    ReleasesOn(c, v, w, ordinals, domains, i, born, ready) && v.view[i].heardFrom != v.pods[i].id
  }

  /** The entry comes from the pod itself, but from before it became Ready. */
  ghost predicate EarlyRelease(
    c: Setup, v: World, w: WalkInput, ordinals: seq<nat>, domains: seq<string>, i: nat, born: int, ready: int) {
    && ReleasesOn(c, v, w, ordinals, domains, i, born, ready)
    && v.view[i].heardFrom == v.pods[i].id && v.view[i].lastSeen.value <= ready
  }

  lemma StaleReleaseHappens(c: Setup, born: int, ready: int) returns (v: World, w: WalkInput)
    requires Sound(c) && Truncate(ready) < born <= ready
    ensures StaleRelease(c, v, w, [c.n - 1], [""], c.n - 1, born, ready)
  {
    var h := Heard(true, [IP], Some(born), c.n - 1);
    ReachStale(c, born, ready);
    ReachReading(c, born, ready, h);
    LastWalkReads(c, born, ready, h, "");
    LastWalkLowers(c, born, ready, h, "");
    v := Reading(Renewed(c, born, ready, h));
    w := LastWalk(c, v, h, "");
  }

  lemma EarlyReleaseHappens(c: Setup, born: int, ready: int) returns (v: World, w: WalkInput)
    requires Sound(c) && born <= ready && Truncate(ready) < ready
    ensures EarlyRelease(c, v, w, [c.n - 1], [""], c.n - 1, born, ready)
  {
    var h := Heard(true, [IP], Some(ready), c.n);
    ReachEarly(c, born, ready);
    ReachReading(c, born, ready, h);
    LastWalkReads(c, born, ready, h, "");
    LastWalkLowers(c, born, ready, h, "");
    v := Reading(Renewed(c, born, ready, h));
    w := LastWalk(c, v, h, "");
  }

  /**
   For every upgrade, and all times of a pod: some run releases a node on an
   entry an earlier pod left, exactly if the pod was created after the whole
   second its ready time is stored as.
   */
  lemma StaleReleaseExactly(c: Setup, born: int, ready: int)
    requires Sound(c) && born <= ready
    ensures Truncate(ready) < born <==>
      exists v, w, ordinals, domains, i :: StaleRelease(c, v, w, ordinals, domains, i, born, ready)
  {
    if Truncate(ready) < born {
      var v, w := StaleReleaseHappens(c, born, ready);
    }
    if v, w, ordinals, domains, i :| StaleRelease(c, v, w, ordinals, domains, i, born, ready) {
      EvidenceOf(c, v, w, ordinals, domains, i, born, ready);
    }
  }

  /** Some run releases a node on a heartbeat from before its pod became Ready, exactly if that was not on a whole second. */
  lemma EarlyReleaseExactly(c: Setup, born: int, ready: int)
    requires Sound(c) && born <= ready
    ensures Truncate(ready) != ready <==>
      exists v, w, ordinals, domains, i :: EarlyRelease(c, v, w, ordinals, domains, i, born, ready)
  {
    if Truncate(ready) != ready {
      var v, w := EarlyReleaseHappens(c, born, ready);
    }
    if v, w, ordinals, domains, i :| EarlyRelease(c, v, w, ordinals, domains, i, born, ready) {
      EvidenceOf(c, v, w, ordinals, domains, i, born, ready);
    }
  }
}
