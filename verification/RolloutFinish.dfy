/**
 The upgrade can always be finished: from every reachable world some steps lead
 to one in which every pod is on the new revision and a pass finds every node
 finished, whatever failed, crashed or got lost before.
 */
module RolloutFinish {
  import opened Calls
  import opened Members
  import opened Options
  import opened Rollout
  import opened RolloutLaws
  import opened RolloutPaths
  import opened RolloutSystem
  import opened StatefulSets

  /** The controller has caught up with the new template. */
  predicate Ripe(c: Setup, v: World) {
    && v.want == c.newT && v.sts.template == c.newT
    && v.seenTemplate == c.newT && v.seenPartition == PartitionOf(v.sts)
    && v.sts.status.observedGeneration == v.seenGeneration == v.sts.generation && v.sts.status.updateRevision == c.newRev
  }

  /** The start is a world of the system, and some steps have led to a ripe one with no pass running. */
  ghost predicate At(c: Setup, start: World, v: World) {
    Sound(c) && Invariant(c, start) && Timely(start) && Leads(c, start, v) && Ripe(c, v) && v.pass.Resting?
  }

  /** From any world the new template gets written and observed. */
  lemma Ripens(c: Setup, start: World) returns (v: World)
    requires Sound(c) && Invariant(c, start) && Timely(start)
    ensures At(c, start, v)
  {
    Stays(c, start);
    var v1 := Follow(c, start, start, PassStops);
    var v2 := Follow(c, start, v1, ChangeSpec);
    LeadsKeep(c, start, v2);
    ReconcileKeeps(c, v2);
    var v3 := Follow(c, start, v2, PassWrites);
    var v4 := Follow(c, start, v3, PassStops);
    assert v4.sts.template == c.newT;
    LeadsToCaughtUp(c, start, v4);
    v := CaughtUp(c, v4);
  }

  // ---------- one node at a time ----------

  /** Ordinal i runs a Ready pod on the new revision which the Primary has heard from since. */
  predicate Good(c: Setup, v: World, i: nat) {
    && i in v.pods && v.pods[i].revision == c.newRev && v.pods[i].readyAt.Some? && v.pods[i].ip == IP
    && i in v.view && v.view[i].connected && v.view[i].ips == [IP]
    && v.view[i].lastSeen.Some? && v.view[i].lastSeen.value > Truncate(v.pods[i].readyAt.value)
  }

  /** Nothing about the StatefulSet, the pass, or other ordinals has changed. */
  predicate Only(v: World, u: World, i: nat) {
    && u.sts == v.sts && u.want == v.want && u.pass == v.pass && u.status == v.status && u.initialized == v.initialized
    && u.seenTemplate == v.seenTemplate && u.seenPartition == v.seenPartition && u.seenGeneration == v.seenGeneration
    && (forall k :: k != i && k in v.pods ==> k in u.pods && u.pods[k] == v.pods[k])
    && (forall k :: k != i && k in v.view ==> k in u.view && u.view[k] == v.view[k])
  }

  /** Replace the pod, let it become Ready, and a second later hear from it. */
  function Renew(c: Setup, v: World, i: nat): World {
    var ready := Readied(Replaced(c, v, i, IP, v.now), i);
    HeardFrom(ready.(now := v.now + SECOND), i, [IP])
  }

  lemma RenewLeads(c: Setup, start: World, v: World, i: nat)
    requires Leads(c, start, v) && v.seenPartition <= i < c.n
    ensures Leads(c, start, Renew(c, v, i))
  {
    var v1 := Replaced(c, v, i, IP, v.now);
    LeadsToReplaced(c, start, v, i, IP, v.now);
    LeadsToReadied(c, start, v1, i);
    LeadsLater(c, start, Readied(v1, i), v.now + SECOND);
    LeadsToHeard(c, start, Readied(v1, i).(now := v.now + SECOND), i, [IP]);
  }

  lemma RenewIsGood(c: Setup, v: World, i: nat)
    requires v.seenTemplate == c.newT
    ensures Good(c, Renew(c, v, i), i) && Only(v, Renew(c, v, i), i)
  {
  }

  lemma {:induction false} RenewFrom(c: Setup, start: World, v: World, i: nat) returns (u: World)
    requires At(c, start, v) && PartitionOf(v.sts) <= i <= c.n
    ensures At(c, start, u) && u.sts == v.sts && u.status == v.status && u.initialized == v.initialized
    ensures forall k :: i <= k < c.n ==> Good(c, u, k)
    decreases c.n - i
  {
    u := v;
    if i < c.n {
      var mid := RenewFrom(c, start, v, i + 1);
      RenewLeads(c, start, mid, i);
      RenewIsGood(c, mid, i);
      u := Renew(c, mid, i);
      forall k | i < k < c.n ensures Good(c, u, k) {
        assert Good(c, mid, k);
      }
    }
  }

  // ---------- a pass over good nodes ----------

  function EntryOf(c: Setup, v: World, i: nat): ClusterNode {
    var h := if i in v.view then v.view[i] else Heard(false, [], None, 0);
    ClusterNode(MemberName(c.cluster, i, ""), h.ips, CONNECTED, h.lastSeen)
  }

  /** The Primary's list of the ordinals from p up. */
  function Listed(c: Setup, v: World, p: nat): seq<ClusterNode>
    requires p <= c.n
  {
    seq(c.n - p, k requires 0 <= k < c.n - p => EntryOf(c, v, p + k))
  }

  function Ordinals(c: Setup, p: nat): seq<nat>
    requires p <= c.n
  {
    seq(c.n - p, k requires 0 <= k < c.n - p => p + k)
  }

  function Domains(c: Setup, p: nat): seq<string>
    requires p <= c.n
  {
    seq(c.n - p, k requires 0 <= k < c.n - p => "")
  }

  /** What a pass reads when every node answers with the target version. */
  function FullWalk(c: Setup, v: World, p: nat): WalkInput
    requires p <= c.n
  {
    WalkInput(v.sts, false, v.status.upgrading, v.status.bookmark, true, c.cluster, Infos(c, v),
              map i | i in v.pods && i < c.n :: ClusterState(TargetVersion(c), true, "", []),
              Some(ClusterState("", v.initialized, "", Listed(c, v, p))), Succeeds, 0, 0, 0)
  }

  ghost predicate AllGood(c: Setup, v: World, p: nat) {
    p <= c.n && forall k :: p <= k < c.n ==> Good(c, v, k)
  }

  lemma FullWalkReads(c: Setup, v: World, p: nat)
    requires AllGood(c, v, p)
    ensures ReadsWorld(c, v, StsOutcome(v.sts, false), FullWalk(c, v, p), Ordinals(c, p), Domains(c, p))
  {
    ListedLists(c, v, p);
    var nodes, ordinals := Listed(c, v, p), Ordinals(c, p);
    forall k | 0 <= k < |nodes| ensures ordinals[k] in v.view && v.view[ordinals[k]].connected && nodes[k] == EntryOf(c, v, ordinals[k]) {
      assert Good(c, v, p + k);
    }
  }

  lemma GoodStays(c: Setup, v: World, u: World, p: nat)
    requires AllGood(c, v, p) && u.pods == v.pods && u.view == v.view
    ensures AllGood(c, u, p)
  {
    forall k | p <= k < c.n ensures Good(c, u, k) {
      assert Good(c, v, k);
    }
  }

  lemma ListedLists(c: Setup, v: World, p: nat)
    requires p <= c.n
    ensures Lists(Listed(c, v, p), c.cluster, Ordinals(c, p), Domains(c, p))
  {
    var nodes, ordinals, domains := Listed(c, v, p), Ordinals(c, p), Domains(c, p);
    forall k | 0 <= k < |nodes| ensures nodes[k].name == MemberName(c.cluster, ordinals[k], domains[k]) {
      assert nodes[k] == EntryOf(c, v, p + k) && ordinals[k] == p + k && domains[k] == "";
    }
  }

  lemma ListedFinds(c: Setup, v: World, p: nat, i: nat)
    requires p <= i < c.n
    ensures FindMember(Listed(c, v, p), PodName(c.cluster, i)) == Some(EntryOf(c, v, i))
  {
    ListedLists(c, v, p);
    var k := FindMemberExact(Listed(c, v, p), c.cluster, Ordinals(c, p), Domains(c, p), i);
    assert Ordinals(c, p)[i - p] == i;
  }

  lemma GoodIsConnected(c: Setup, v: World, p: nat, i: nat)
    requires p <= i < c.n && Good(c, v, i)
    ensures FreshlyConnected(ClusterState("", v.initialized, "", Listed(c, v, p)), c.cluster, i, Info(v.pods[i]))
  {
    ListedFinds(c, v, p, i);
  }

  lemma GoodIsFinished(c: Setup, v: World, p: nat, i: nat)
    requires p <= i < c.n && Good(c, v, i) && v.sts.template == c.newT && v.sts.status.updateRevision == c.newRev
    ensures Finished(FullWalk(c, v, p), i)
  {
    var w := FullWalk(c, v, p);
    TargetParses(c);
    GoodIsConnected(c, v, p, i);
    assert i in w.pods && w.pods[i] == Info(v.pods[i]) && i in w.answers && w.answers[i].version == TargetVersion(c);
  }

  lemma FullWalkPasses(c: Setup, v: World, p: nat)
    requires Sound(c) && AllGood(c, v, p) && Ripe(c, v) && v.sts.replicas == c.n && v.sts.partition == Some(p)
    ensures forall i :: p <= i < c.n ==> Finished(FullWalk(c, v, p), i)
    ensures var w := FullWalk(c, v, p);
      if p == 0 then Walk(w) == Walked(v.sts, IDLE) else Patched(v.sts, w) == Lowered(v.sts, p - 1)
  {
    var w := FullWalk(c, v, p);
    forall i | p <= i < c.n ensures Finished(w, i) && Verdict(GateOf(w), i).None? {
      GoodIsFinished(c, v, p, i);
      GateMeaning(w, i);
    }
    assert FirstFailing(GateOf(w), p, c.n).None?;
  }

  // ---------- to the end ----------

  lemma RipeOutcome(c: Setup, v: World)
    requires Sound(c) && Ordered(c, v) && Ripe(c, v)
    ensures PassOutcome(c, v) == StsOutcome(v.sts, false) && v.sts.replicas == c.n && v.sts.partition == Some(PartitionOf(v.sts))
  {
  }

  /** A pass starts and may read what it takes to go on. */
  lemma Begins(c: Setup, start: World, v: World)
    requires At(c, start, v) && AllGood(c, v, PartitionOf(v.sts))
    ensures var p, v1 := PartitionOf(v.sts), v.(pass := Wrote(StsOutcome(v.sts, false)));
      && p <= c.n && v.sts.replicas == c.n && v.sts.partition == Some(p)
      && Leads(c, start, v1) && AllGood(c, v1, p)
      && Enabled(c, v1, PassReads(FullWalk(c, v1, p), Ordinals(c, p), Domains(c, p)))
  {
    var p, v1 := PartitionOf(v.sts), v.(pass := Wrote(StsOutcome(v.sts, false)));
    LeadsKeep(c, start, v);
    RipeOutcome(c, v);
    LeadsToWrote(c, start, v);
    GoodStays(c, v, v1, p);
    FullWalkReads(c, v1, p);
  }

  /** The next ordinal gets released. */
  lemma Releases(c: Setup, start: World, v: World) returns (u: World)
    requires At(c, start, v) && PartitionOf(v.sts) > 0 && AllGood(c, v, PartitionOf(v.sts))
    ensures At(c, start, u) && PartitionOf(u.sts) == PartitionOf(v.sts) - 1
  {
    var p, v1 := PartitionOf(v.sts), v.(pass := Wrote(StsOutcome(v.sts, false)));
    Begins(c, start, v);
    FullWalkPasses(c, v1, p);
    var w := FullWalk(c, v1, p);
    LeadsToRelease(c, start, v1, w, Ordinals(c, p), Domains(c, p), true);
    var v2 := v1.(sts := Lowered(v.sts, p - 1), status := NextStatus(v1.status, Pass(w, true)), pass := Resting);
    LeadsToCaughtUp(c, start, v2);
    u := CaughtUp(c, v2);
  }

  /** Every pod on the new revision, and a pass that has found every node finished and reports so. */
  ghost predicate Complete(c: Setup, v: World) {
    && PartitionOf(v.sts) == 0 && v.pass.Judged?
    && (forall i :: 0 <= i < c.n ==> i in v.pods && v.pods[i].revision == c.newRev && Finished(v.pass.w, i))
    && Walk(v.pass.w) == Walked(v.sts, IDLE)
  }

  lemma {:induction false} RunsDown(c: Setup, start: World, v: World) returns (u: World)
    requires At(c, start, v)
    ensures Leads(c, start, u) && Complete(c, u)
    decreases PartitionOf(v.sts)
  {
    LeadsKeep(c, start, v);
    RipeOutcome(c, v);
    var good := RenewFrom(c, start, v, PartitionOf(v.sts));
    if PartitionOf(v.sts) > 0 {
      var next := Releases(c, start, good);
      u := RunsDown(c, start, next);
    } else {
      u := Reports(c, start, good);
    }
  }

  lemma Reports(c: Setup, start: World, v: World) returns (u: World)
    requires At(c, start, v) && PartitionOf(v.sts) == 0 && AllGood(c, v, 0)
    ensures Leads(c, start, u) && Complete(c, u)
  {
    var v1 := v.(pass := Wrote(StsOutcome(v.sts, false)));
    Begins(c, start, v);
    FullWalkPasses(c, v1, 0);
    u := Follow(c, start, v1, PassReads(FullWalk(c, v1, 0), Ordinals(c, 0), Domains(c, 0)));
    forall i | 0 <= i < c.n ensures i in u.pods && u.pods[i].revision == c.newRev {
      assert Good(c, v, i);
    }
  }

  /** From every reachable world the upgrade can be finished. */
  lemma AlwaysFinishable(c: Setup, v: World)
    requires Sound(c)
    ensures Reachable(c, v) ==> exists u :: Leads(c, v, u) && Complete(c, u)
  {
    if Reachable(c, v) {
      ReachableMeans(c, v);
      var ripe := Ripens(c, v);
      var u := RunsDown(c, v, ripe);
    }
  }
}
