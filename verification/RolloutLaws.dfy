/**
 What every call of walkRollout guarantees, and what sequences of passes
 guarantee: release on evidence, honest finish, an honest stall clock, progress.
 */
module RolloutLaws {
  import opened Calls
  import opened Members
  import opened Options
  import opened Rollout
  import opened StatefulSets
  import opened Versions

  // ---------- what a pass reports, in terms of finished nodes ----------

  /** The Primary's record of ordinal i: connected, on the pod's IP, and heard from since it became Ready. */
  predicate FreshlyConnected(primary: ClusterState, cluster: string, i: nat, pod: PodInfo) {
    var m := FindMember(primary.nodes, PodName(cluster, i));
    && m.Some?
    && m.value.state == CONNECTED
    && pod.ip in m.value.ips
    && (pod.readySince.Some? ==> m.value.lastSeen.Some? && m.value.lastSeen.value > pod.readySince.value)
  }

  /** What is known of a node that has finished upgrading, all of it read in this pass. */
  predicate Finished(w: WalkInput, i: nat) {
    var target := ParsedImage(w.sts.template.image);
    && i in w.pods
    && w.pods[i].revision == w.sts.status.updateRevision
    && w.pods[i].ready
    && (target.Some? ==> i in w.answers && Parsed(w.answers[i].version) == target)
    && (i != PRIMARY && w.sts.replicas > 1 ==>
          && w.primary.Some?
          && (w.primary.value.initialized ==> FreshlyConnected(w.primary.value, w.cluster, i, w.pods[i])))
  }

  lemma MemberMeaning(g: GateInput, primary: ClusterState, i: nat, pod: PodInfo)
    ensures MemberVerdict(g, primary, i, pod).None? <==> (primary.initialized ==> FreshlyConnected(primary, g.cluster, i, pod))
  {
  }

  lemma GateMeaning(w: WalkInput, i: nat)
    ensures Verdict(GateOf(w), i).None? <==> Finished(w, i)
  {
    if i in w.pods && w.primary.Some? {
      MemberMeaning(GateOf(w), w.primary.value, i, w.pods[i]);
    }
  }

  /** The lowest released ordinal that has not finished. */
  predicate LowestUnfinished(w: WalkInput, i: nat) {
    StartOf(w) <= i < w.sts.replicas && !Finished(w, i) && forall k :: StartOf(w) <= k < i ==> Finished(w, k)
  }

  predicate AllFinished(w: WalkInput) {
    forall k :: StartOf(w) <= k < w.sts.replicas ==> Finished(w, k)
  }

  /** Nothing is going on: no new template, nothing held back, no upgrade reported, no two revisions in the status. */
  predicate NothingOn(w: WalkInput) {
    var status := w.sts.status;
    && !w.templateChanged && !w.wasUpgrading
    && (w.sts.partition.None? || w.sts.partition.value == 0)
    && (status.currentRevision == "" || status.updateRevision == "" || status.currentRevision == status.updateRevision)
  }

  /** The status is about the spec as it is now. */
  predicate StatusIsCurrent(w: WalkInput) {
    !w.templateChanged && w.sts.generation <= w.sts.status.observedGeneration && w.sts.status.updateRevision != ""
  }

  /** The pass gets to look at its nodes. */
  predicate Looks(w: WalkInput) {
    !NothingOn(w) && StatusIsCurrent(w) && w.readable
  }

  /** The stored start time if it is this node that was waited on, else the current whole second. */
  function WaitingSince(w: WalkInput, i: nat): int {
    if w.bookmark.Some? && w.bookmark.value.node == PodName(w.cluster, i) then w.bookmark.value.started
    else Truncate(w.startClock)
  }

  predicate Overdue(w: WalkInput, started: int) {
    w.stallClock - started > (if w.timeout > 0 then w.timeout else 600 * SECOND)
  }

  ghost function Passers(g: GateInput, p: nat, n: nat): (r: set<nat>)
    ensures |r| == Passing(g, p, n) && forall k :: k in r ==> p <= k < n
    decreases n - p
  {
    if p >= n then {}
    else
      var rest := Passers(g, p + 1, n);
      if Verdict(g, p).None? then assert p !in rest; rest + {p} else rest
  }

  lemma {:induction false} PassersMeans(g: GateInput, p: nat, n: nat, k: nat)
    ensures k in Passers(g, p, n) <==> p <= k < n && Verdict(g, k).None?
    decreases n - p
  {
    if p < n {
      PassersMeans(g, p + 1, n, k);
    }
  }

  function FinishedNodes(w: WalkInput): set<nat> {
    set k | StartOf(w) <= k < w.sts.replicas && Finished(w, k)
  }

  lemma PassingCounts(w: WalkInput)
    ensures Passing(GateOf(w), StartOf(w), w.sts.replicas) == |FinishedNodes(w)|
  {
    var p, n := StartOf(w), w.sts.replicas;
    forall k ensures k in Passers(GateOf(w), p, n) <==> k in FinishedNodes(w) {
      if k >= 0 {
        PassersMeans(GateOf(w), p, n, k);
        GateMeaning(w, k);
      }
    }
    assert Passers(GateOf(w), p, n) == FinishedNodes(w);
  }

  /**
   A pass that waits changes nothing, names the lowest unfinished node with the
   time it has been waited on since, and reports it stalled, and the cluster
   degraded for it, exactly if that is longer than the timeout.
   */
  lemma WaitingReport(w: WalkInput, i: nat)
    requires Looks(w) && LowestUnfinished(w, i)
    ensures Walk(w).Walked? && Walk(w).sts == w.sts
    ensures var state, since := Walk(w).state, WaitingSince(w, i);
      && state.upgrading && state.bookmark == Some(Bookmark(PodName(w.cluster, i), since))
      && state.updated == |FinishedNodes(w)|
      && state.reason == (if Overdue(w, since) then Stalled else RollingOut)
      && state.degraded == (if Overdue(w, since) then Some(Stalled) else None)
      && state.stalledBy == (if Overdue(w, since) then Verdict(GateOf(w), i) else None)
  {
    FirstFailingIsLowest(w, i);
    PassingCounts(w);
  }

  lemma FirstFailingIsLowest(w: WalkInput, i: nat)
    requires LowestUnfinished(w, i)
    ensures FirstFailing(GateOf(w), StartOf(w), w.sts.replicas) == Some(i)
  {
    forall k | StartOf(w) <= k <= i ensures Verdict(GateOf(w), k).None? <==> Finished(w, k) {
      GateMeaning(w, k);
    }
    FirstFailingUnique(GateOf(w), StartOf(w), w.sts.replicas, Some(i));
  }

  /** With every released node finished a pass releases the next one, or reports the end of the upgrade. */
  lemma FinishedReport(w: WalkInput)
    requires Looks(w) && AllFinished(w)
    ensures var p, n := StartOf(w), w.sts.replicas;
      if p == 0 then Walk(w) == Walked(w.sts, IDLE)
      else
        && Walk(w).sts == (if w.patch.FailsBefore? then w.sts else Lowered(w.sts, p - 1))
        && (Walk(w).Walked? <==> w.patch.Succeeds?)
        && (w.patch.Succeeds? ==>
              var state := Walk(w).state;
              && state.upgrading && state.updated == n - p
              && state.bookmark == Some(Bookmark(PodName(w.cluster, p - 1), Truncate(w.startClock))))
  {
    var g, p, n := GateOf(w), StartOf(w), w.sts.replicas;
    forall k | p <= k < n ensures Verdict(g, k).None? {
      GateMeaning(w, k);
    }
    FirstFailingUnique(g, p, n, None);
    AllPass(g, p, n);
  }

  lemma {:induction false} AllPass(g: GateInput, p: nat, n: nat)
    requires p <= n && forall k :: p <= k < n ==> Verdict(g, k).None?
    ensures Passing(g, p, n) == n - p
    decreases n - p
  {
    if p < n {
      AllPass(g, p + 1, n);
    }
  }

  /**
   A pass that does not look: it reports UpToDate if nothing is or was going on,
   and otherwise keeps the bookmark, or fails if it cannot read.
   */
  lemma UnlookedReport(w: WalkInput)
    requires !Looks(w)
    ensures Walk(w).sts == w.sts
    ensures NothingOn(w) ==>
      Walk(w).Walked? && !Walk(w).state.upgrading && Walk(w).state.reason == UpToDate && Walk(w).state.bookmark.None? &&
      Walk(w).state.degraded.None?
    ensures !NothingOn(w) && !StatusIsCurrent(w) ==>
      && Walk(w).Walked? && Walk(w).state.upgrading && Walk(w).state.reason == RollingOut
      && Walk(w).state.bookmark == w.bookmark && Walk(w).state.degraded.None?
    ensures !NothingOn(w) && StatusIsCurrent(w) ==> Walk(w).WalkFailed?
  {
  }

  /** What a reason says about the Primary's record of ordinal i. */
  predicate MemberReason(primary: ClusterState, cluster: string, i: nat, pod: PodInfo, why: Why) {
    var m := FindMember(primary.nodes, PodName(cluster, i));
    && (why == NotConnected ==> m.None? || m.value.state != CONNECTED)
    && (why == OldIp ==> m.Some? && pod.ip !in m.value.ips)
    && (why == NotSeen ==>
          m.Some? && pod.readySince.Some? && (m.value.lastSeen.Some? ==> m.value.lastSeen.value <= pod.readySince.value))
  }

  lemma MemberReasonIsTrue(g: GateInput, primary: ClusterState, i: nat, pod: PodInfo)
    ensures var why := MemberVerdict(g, primary, i, pod);
      why.Some? ==> why.value in {NotConnected, OldIp, NotSeen} && MemberReason(primary, g.cluster, i, pod, why.value)
  {
  }

  /** The reason given for a node that has not finished is true of it. */
  lemma ReasonIsTrue(g: GateInput, i: nat)
    ensures var why := Verdict(g, i);
      why.Some? ==>
        match why.value
        case NoPod => i !in g.pods
        case OldRevision => i in g.pods && g.pods[i].revision != g.revision
        case NotReady => i in g.pods && !g.pods[i].ready
        case Unreachable => i !in g.answers
        case OtherVersion => i in g.answers && g.target.Some? && Parsed(g.answers[i].version) != g.target
        case PrimaryUnreadable => g.primary.None?
        case _ => i in g.pods && g.primary.Some? && MemberReason(g.primary.value, g.cluster, i, g.pods[i], why.value)
  {
    if i in g.pods && g.primary.Some? {
      MemberReasonIsTrue(g, g.primary.value, i, g.pods[i]);
    }
  }

  // ---------- releasing ----------

  predicate Lowers(w: WalkInput) {
    PartitionOf(Walk(w).sts) < StartOf(w)
  }

  /**
   The partition drops by exactly one, in a pass whose status is up to date and
   in which every ordinal above the new partition has finished; the Primary is
   therefore released only after every Secondary. Nothing else of the
   StatefulSet changes, and a pass that does not release changes nothing.
   */
  lemma ReleaseOnEvidence(w: WalkInput)
    requires w.sts.partition.Some? && w.sts.partition.value <= w.sts.replicas
    ensures var p := w.sts.partition.value;
      if Lowers(w) then
        && p > 0 && Walk(w).sts == Lowered(w.sts, p - 1)
        && Observed(w.sts) && !w.templateChanged
        && forall i :: p - 1 < i < w.sts.replicas ==> Finished(w, i)
      else Walk(w).sts == w.sts
  {
    forall i | 0 <= i < w.sts.replicas ensures Verdict(GateOf(w), i).None? <==> Finished(w, i) {
      GateMeaning(w, i);
    }
  }

  // ---------- finishing ----------

  /** Upgrading goes from True to False only when every ordinal passes in that very pass. */
  lemma FinishIsHonest(w: WalkInput)
    requires w.wasUpgrading && Walk(w).Walked? && !Walk(w).state.upgrading
    ensures forall i :: 0 <= i < w.sts.replicas ==> Finished(w, i)
    ensures StartOf(w) == 0 && Walk(w).state == IDLE
  {
    forall i | 0 <= i < w.sts.replicas ensures Finished(w, i) {
      GateMeaning(w, i);
    }
  }

  // ---------- stalling ----------

  /**
   A pass both releases a node and reports Stalled exactly when its second clock
   reading is more than the timeout past the whole second of the first.
   */
  lemma StalledReleaseExactly(w: WalkInput)
    requires Lowers(w) && Walk(w).Walked?
    ensures Walk(w).state.reason == Stalled <==> w.stallClock - Truncate(w.startClock) > StallTimeout(w.timeout)
  {
  }

  /** With one clock reading and a timeout of a second, less a nanosecond, or more, a Stalled pass releases nothing. */
  lemma StalledReleasesNothing(w: WalkInput)
    requires w.stallClock == w.startClock && StallTimeout(w.timeout) >= SECOND - 1
    requires Walk(w).Walked? && Walk(w).state.reason == Stalled
    ensures Walk(w).sts == w.sts
  {
    if Lowers(w) {
      StalledReleaseExactly(w);
      assert false;
    }
  }

  /** A pass with this timeout and one clock reading releases a node and reports it stalled at once. */
  ghost predicate StalledRelease(w: WalkInput, timeout: int) {
    && w.timeout == timeout && w.stallClock == w.startClock
    && Lowers(w) && Walk(w).Walked? && Walk(w).state.reason == Stalled
  }

  /** Such a pass exists exactly for timeouts shorter than a second less a nanosecond. */
  lemma StalledReleaseTimeouts(timeout: int)
    ensures (exists w :: StalledRelease(w, timeout)) <==> StallTimeout(timeout) < SECOND - 1
  {
    if StallTimeout(timeout) < SECOND - 1 {
      var sts := Sts(2, Template("", ""), Some(2), "h", 1, StsStatus(1, "a", "b"));
      var t := SECOND - 1;
      var w := WalkInput(sts, false, true, None, true, "dns", map[], map[], None, Succeeds, t, t, timeout);
      assert FirstFailing(GateOf(w), 2, 2).None?;
      assert StalledRelease(w, timeout);
    }
    if w :| StalledRelease(w, timeout) {
      StalledReleaseExactly(w);
    }
  }

  // ---------- the persisted clock ----------

  /** The rollout part of the TechnitiumCluster status. */
  datatype Status = Status(upgrading: bool, bookmark: Option<Bookmark>)

  /** A Kubernetes timestamp keeps whole seconds only. */
  function Persisted(b: Option<Bookmark>): Option<Bookmark> {
    match b case None => None case Some(m) => Some(m.(started := Truncate(m.started)))
  }

  /** updateStatus, after a walk that returned without error. */
  function UpdatedStatus(status: Status, r: WalkResult): Status {
    match r
    case Walked(_, state) => Status(state.upgrading, Persisted(state.bookmark))
    case WalkFailed(_) => status
  }

  /** One pass and whether its status write went through; a restart is simply the next pass. */
  datatype Pass = Pass(w: WalkInput, written: bool)

  function NextStatus(status: Status, p: Pass): Status {
    if p.written then UpdatedStatus(status, Walk(p.w)) else status
  }

  predicate Reads(w: WalkInput, status: Status) {
    w.wasUpgrading == status.upgrading && w.bookmark == status.bookmark
  }

  /** The pass waits: on ordinal i, on the StatefulSet controller, or because it could not read. */
  predicate StillPending(w: WalkInput, i: nat) {
    && !Quiet(w)
    && (w.templateChanged || !Observed(w.sts) || !w.readable || FirstFailing(GateOf(w), StartOf(w), w.sts.replicas) == Some(i))
  }

  predicate Chained(statuses: seq<Status>, passes: seq<Pass>) {
    && |statuses| == |passes| + 1
    && forall k :: 0 <= k < |passes| ==>
         Reads(passes[k].w, statuses[k]) && statuses[k + 1] == NextStatus(statuses[k], passes[k])
  }

  lemma PendingKeepsBookmark(status: Status, p: Pass, i: nat, cluster: string)
    requires Reads(p.w, status) && p.w.cluster == cluster && StillPending(p.w, i)
    requires status.bookmark.Some? && status.bookmark.value.node == PodName(cluster, i)
    requires status.bookmark.value.started % SECOND == 0
    ensures NextStatus(status, p).bookmark == status.bookmark
  {
    assert Persisted(status.bookmark) == status.bookmark;
  }

  /** While the same node stays pending, its start time never moves, over any number of passes and restarts. */
  lemma {:induction false} StartTimeConstant(statuses: seq<Status>, passes: seq<Pass>, i: nat, cluster: string)
    requires Chained(statuses, passes)
    requires forall p :: p in passes ==> p.w.cluster == cluster && StillPending(p.w, i)
    requires statuses[0].bookmark.Some? && statuses[0].bookmark.value.node == PodName(cluster, i)
    requires statuses[0].bookmark.value.started % SECOND == 0
    ensures forall k :: 0 <= k < |statuses| ==> statuses[k].bookmark == statuses[0].bookmark
    decreases |passes|
  {
    if passes != [] {
      var m := |passes| - 1;
      StartTimeConstant(statuses[..m + 1], passes[..m], i, cluster);
      assert statuses[..m + 1][m].bookmark == statuses[0].bookmark;
      assert passes[m] in passes;
      PendingKeepsBookmark(statuses[m], passes[m], i, cluster);
    }
  }

  /** Once the clock is past its start time by more than the timeout, every pass on a pending node reports it stalled. */
  lemma StallIsReported(statuses: seq<Status>, passes: seq<Pass>, i: nat, cluster: string, k: nat)
    requires Chained(statuses, passes) && k < |passes|
    requires forall p :: p in passes ==> p.w.cluster == cluster && StillPending(p.w, i)
    requires statuses[0].bookmark.Some? && statuses[0].bookmark.value.node == PodName(cluster, i)
    requires statuses[0].bookmark.value.started % SECOND == 0
    requires Looks(passes[k].w) && Overdue(passes[k].w, statuses[0].bookmark.value.started)
    ensures Walk(passes[k].w).Walked?
    ensures Walk(passes[k].w).state.reason == Stalled && Walk(passes[k].w).state.degraded == Some(Stalled)
    ensures Walk(passes[k].w).state.bookmark == statuses[0].bookmark
  {
    StartTimeConstant(statuses, passes, i, cluster);
    var w := passes[k].w;
    assert passes[k] in passes;
    assert statuses[k].bookmark == statuses[0].bookmark && Reads(w, statuses[k]);
    forall j | StartOf(w) <= j <= i ensures Verdict(GateOf(w), j).None? <==> Finished(w, j) {
      GateMeaning(w, j);
    }
    WaitingReport(w, i);
  }

  predicate Whole(b: Option<Bookmark>) {
    b.Some? ==> b.value.started % SECOND == 0
  }

  lemma WalkKeepsWhole(w: WalkInput)
    requires Whole(w.bookmark)
    ensures Walk(w).Walked? ==> Whole(Walk(w).state.bookmark)
  {
  }

  /** Persisting a whole second loses nothing. */
  lemma PersistedWhole(status: Status, r: WalkResult, written: bool)
    requires Whole(status.bookmark) && (r.Walked? ==> Whole(r.state.bookmark))
    ensures (if written then UpdatedStatus(status, r) else status) ==
      if written && r.Walked? then Status(r.state.upgrading, r.state.bookmark) else status
  {
  }

  /** Every start time the walk writes is a whole second, so the status is what the last written pass reported. */
  lemma StartTimeWhole(status: Status, p: Pass)
    requires Reads(p.w, status)
    requires Whole(status.bookmark)
    ensures Whole(NextStatus(status, p).bookmark)
    ensures var r := Walk(p.w);
      NextStatus(status, p) == if p.written && r.Walked? then Status(r.state.upgrading, r.state.bookmark) else status
  {
    WalkKeepsWhole(p.w);
    PersistedWhole(status, Walk(p.w), p.written);
  }

  // ---------- progress ----------

  /** A pass in which the status is current, everything is readable and every released ordinal passes. */
  predicate Clear(w: WalkInput) {
    && !w.templateChanged && Observed(w.sts) && w.readable && w.patch.Succeeds?
    && forall i :: StartOf(w) <= i < w.sts.replicas ==> Verdict(GateOf(w), i).None?
  }

  /** Consecutive passes over one StatefulSet: between them only its status changes. */
  predicate Follows(before: WalkInput, after: WalkInput) {
    && after.sts.partition == Walk(before).sts.partition
    && after.sts.replicas == before.sts.replicas
    && (Walk(before).Walked? ==> after.wasUpgrading == Walk(before).state.upgrading)
  }

  /** The partition never rises and drops by at most one per pass. */
  lemma PartitionSteps(w: WalkInput)
    requires w.sts.partition.Some? && w.sts.partition.value <= w.sts.replicas
    ensures var p, q := w.sts.partition.value, PartitionOf(Walk(w).sts); q == p || (p > 0 && q == p - 1)
  {
    ReleaseOnEvidence(w);
  }

  /** n clear passes walk the partition from n to 0, and the next one reports UpToDate. */
  lemma Progress(passes: seq<WalkInput>, n: nat)
    requires |passes| == n + 1
    requires passes[0].sts.replicas == n && passes[0].sts.partition == Some(n) && passes[0].wasUpgrading
    requires forall k :: 0 <= k < |passes| ==> Clear(passes[k])
    requires forall k :: 0 <= k < n ==> Follows(passes[k], passes[k + 1])
    ensures forall k :: 0 <= k <= n ==> passes[k].sts.partition == Some(n - k)
    ensures Walk(passes[n]) == Walked(passes[n].sts, IDLE)
  {
    var k := 0;
    while k < n
      invariant 0 <= k <= n
      invariant forall j :: 0 <= j <= k ==> passes[j].sts.partition == Some(n - j)
      invariant passes[k].sts.replicas == n && passes[k].wasUpgrading
    {
      ClearPass(passes[k], n - k);
      assert Follows(passes[k], passes[k + 1]);
      k := k + 1;
    }
    ClearPass(passes[n], 0);
  }

  /** A clear pass releases the next ordinal, or finishes when there is none left. */
  lemma ClearPass(w: WalkInput, p: nat)
    requires Clear(w) && w.wasUpgrading && w.sts.partition == Some(p) && p <= w.sts.replicas
    ensures if p == 0 then Walk(w) == Walked(w.sts, IDLE)
      else Walk(w).Walked? && Walk(w).state.upgrading && Walk(w).sts == Lowered(w.sts, p - 1)
  {
    assert FirstFailing(GateOf(w), p, w.sts.replicas).None?;
  }
}
