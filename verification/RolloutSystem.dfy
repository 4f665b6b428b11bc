/**
 The rolling upgrade as a transition system: operator passes (which write the
 StatefulSet, then read, then patch the partition and write status, and may stop
 in between), the StatefulSet controller acting on the last spec it saw and
 reporting that later, pods coming, going and becoming Ready, the Primary hearing from Secondaries, and
 time. Everything else may happen between the stages of a pass.
 */
module RolloutSystem {
  import opened Members
  import opened Options
  import opened Rollout
  import opened RolloutLaws
  import opened StatefulSets

  /** One incarnation of an ordinal's pod; id tells incarnations apart. */
  datatype Pod = Pod(id: nat, revision: string, ip: string, born: int, readyAt: Option<int>)

  /** The Primary's record of a Secondary; heardFrom is the incarnation last heard. */
  datatype Heard = Heard(connected: bool, ips: seq<string>, lastSeen: Option<int>, heardFrom: nat)

  /** The constants of a run: one template change, from old to new. */
  datatype Setup = Setup(
    cluster: string, n: nat, oldT: Template, newT: Template, oldRev: string, newRev: string, hash: Template -> string)

  /** Where the operator's pass is: it has written the StatefulSet, or also read and decided. */
  datatype Phase = Resting | Wrote(out: StsOutcome) | Judged(w: WalkInput)

  datatype World = World(
    want: Template,                               // the template the spec asks for
    sts: Sts,
    seenTemplate: Template, seenPartition: nat, seenGeneration: nat,   // the spec the controller acts on
    pods: map<nat, Pod>,
    initialized: bool, view: map<nat, Heard>,     // the Primary's cluster state
    status: Status,
    now: int, nextId: nat,
    pass: Phase)

  predicate Sound(c: Setup) {
    && c.n >= 2
    && c.oldRev != "" && c.newRev != "" && c.oldRev != c.newRev
    && c.hash(c.oldT) != "" && c.hash(c.oldT) != c.hash(c.newT)
  }

  // ---------- steps ----------

  function RevisionOf(c: Setup, t: Template): string {
    if t == c.newT then c.newRev else c.oldRev
  }

  /** What resolveClusterPods reports; the ready time is stored in whole seconds. */
  function Info(pod: Pod): PodInfo {
    PodInfo(pod.ip, pod.readyAt.Some? && pod.ip != "", pod.revision,
            if pod.readyAt.Some? then Some(Truncate(pod.readyAt.value)) else None)
  }

  function Infos(c: Setup, v: World): map<nat, PodInfo> {
    map i | i in v.pods && i < c.n :: Info(v.pods[i])
  }

  /** The member list the Primary answers with: its records, one entry each, in some order. */
  ghost predicate Renders(c: Setup, v: World, nodes: seq<ClusterNode>, ordinals: seq<nat>, domains: seq<string>) {
    && Lists(nodes, c.cluster, ordinals, domains)
    && forall k :: 0 <= k < |nodes| && ordinals[k] != PRIMARY ==>
         && ordinals[k] in v.view
         && nodes[k].ips == v.view[ordinals[k]].ips
         && nodes[k].lastSeen == v.view[ordinals[k]].lastSeen
         && (nodes[k].state == CONNECTED ==> v.view[ordinals[k]].connected)
  }

  /** The walk of a pass reads this world and the StatefulSet as written; versions and reachability are arbitrary. */
  ghost predicate ReadsWorld(
    c: Setup, v: World, out: StsOutcome, w: WalkInput, ordinals: seq<nat>, domains: seq<string>) {
    && w.sts == out.sts && w.templateChanged == out.templateChanged
    && Reads(w, v.status)
    && w.cluster == c.cluster
    && w.pods == Infos(c, v)
    && (w.primary.Some? ==>
          && w.primary.value.initialized == v.initialized
          && (v.initialized ==> Renders(c, v, w.primary.value.nodes, ordinals, domains)))
  }

  datatype Step =
    | ChangeSpec
    | PassWrites
    | PassReads(w: WalkInput, ordinals: seq<nat>, domains: seq<string>)
    | PassEnds(written: bool)                     // the partition patch, if any, and the status write
    | PassStops                                   // a crash, or a failure between the stages
    | See                                         // the controller picks up the spec
    | Report                                      // and says so in the status, some time later
    | CompleteRevision
    | CreatePod(i: nat, ip: string)
    | RemovePod(i: nat)
    | PodReady(i: nat)
    | PodUnready(i: nat)
    | Heartbeat(i: nat, ips: seq<string>)
    | LoseContact(i: nat)
    | InitCluster
    | Tick(t: int)

  function PassOutcome(c: Setup, v: World): StsOutcome {
    Reconciled(Some(v.sts), v.want, c.n, c.hash)
  }

  /** The merge patch of a walk that releases sets the partition and nothing else. */
  function Patched(sts: Sts, w: WalkInput): Sts {
    if Lowers(w) then Lowered(sts, StartOf(w) - 1) else sts
  }

  ghost predicate Enabled(c: Setup, v: World, s: Step) {
    match s
    case ChangeSpec => true
    case PassWrites => v.pass.Resting?
    case PassReads(w, ordinals, domains) => v.pass.Wrote? && ReadsWorld(c, v, v.pass.out, w, ordinals, domains)
    case PassEnds(_) => v.pass.Judged?
    case PassStops => true
    case See => true
    case Report => true
    case CompleteRevision =>
      forall i :: 0 <= i < c.n ==> i in v.pods && v.pods[i].revision == v.sts.status.updateRevision
    case CreatePod(i, _) => i < c.n && i !in v.pods
    case RemovePod(i) => i in v.pods
    case PodReady(i) => i in v.pods && v.pods[i].readyAt.None?
    case PodUnready(i) => i in v.pods
    case Heartbeat(i, _) => i in v.pods
    case LoseContact(i) => i in v.view
    case InitCluster => true
    case Tick(t) => t >= v.now
  }

  ghost function Next(c: Setup, v: World, s: Step): World
    requires Enabled(c, v, s)
  {
    match s
    case ChangeSpec => v.(want := c.newT)
    case PassWrites => v.(sts := PassOutcome(c, v).sts, pass := Wrote(PassOutcome(c, v)))
    case PassReads(w, _, _) => v.(pass := Judged(w))
    case PassEnds(written) =>
      v.(sts := Patched(v.sts, v.pass.w), status := NextStatus(v.status, Pass(v.pass.w, written)), pass := Resting)
    case PassStops => v.(pass := Resting)
    case See => v.(seenTemplate := v.sts.template, seenPartition := PartitionOf(v.sts), seenGeneration := v.sts.generation)
    case Report =>
      v.(sts := v.sts.(status := v.sts.status.(
           observedGeneration := v.seenGeneration, updateRevision := RevisionOf(c, v.seenTemplate))))
    case CompleteRevision =>
      v.(sts := v.sts.(status := v.sts.status.(currentRevision := v.sts.status.updateRevision)))
    case CreatePod(i, ip) =>
      var revision := if i >= v.seenPartition then RevisionOf(c, v.seenTemplate) else v.sts.status.currentRevision;
      v.(pods := v.pods[i := Pod(v.nextId, revision, ip, v.now, None)], nextId := v.nextId + 1)
    case RemovePod(i) => v.(pods := v.pods - {i})
    case PodReady(i) => v.(pods := v.pods[i := v.pods[i].(readyAt := Some(v.now))])
    case PodUnready(i) => v.(pods := v.pods[i := v.pods[i].(readyAt := None)])
    case Heartbeat(i, ips) => v.(view := v.view[i := Heard(true, ips, Some(v.now), v.pods[i].id)])
    case LoseContact(i) => v.(view := v.view[i := v.view[i].(connected := false)])
    case InitCluster => v.(initialized := true)
    case Tick(t) => v.(now := t)
  }

  // ---------- the revision invariant ----------

  /** Before the operator has written the new template. */
  predicate Before(c: Setup, v: World) {
    && v.sts.template == c.oldT && PartitionOf(v.sts) == 0
    && v.seenTemplate == c.oldT
    && v.sts.status.updateRevision == v.sts.status.currentRevision == c.oldRev
    && forall i :: i in v.pods ==> v.pods[i].revision == c.oldRev
  }

  /** The new template is written and parked; the controller still acts on the old spec. */
  predicate Parked(c: Setup, v: World) {
    && v.sts.template == c.newT && PartitionOf(v.sts) == c.n
    && v.seenTemplate == c.oldT && v.seenGeneration < v.sts.generation
    && v.sts.status.updateRevision == v.sts.status.currentRevision == c.oldRev
    && forall i :: i in v.pods ==> v.pods[i].revision == c.oldRev
  }

  /** The controller acts on the new template, at most one release behind. */
  predicate Walking(c: Setup, v: World) {
    var p := PartitionOf(v.sts);
    && v.sts.template == c.newT && v.seenTemplate == c.newT
    && (v.sts.status.updateRevision == c.newRev
        || (v.sts.status.updateRevision == c.oldRev && v.sts.status.observedGeneration < v.sts.generation))
    && (v.sts.status.currentRevision == c.oldRev || (v.sts.status.currentRevision == c.newRev && p == 0))
    && (v.seenPartition == p || (v.seenPartition == p + 1 && v.seenGeneration < v.sts.generation))
    && SplitAt(c, v, p)
  }

  /** Above the partition the new revision, below it the old one. */
  predicate SplitAt(c: Setup, v: World, p: nat) {
    && (forall i :: i in v.pods && i > p ==> v.pods[i].revision == c.newRev)
    && (forall i :: i in v.pods && i < p ==> v.pods[i].revision == c.oldRev)
    && (forall i :: i in v.pods ==> v.pods[i].revision == c.newRev || v.pods[i].revision == c.oldRev)
  }

  predicate Ordered(c: Setup, v: World) {
    && v.sts.replicas == c.n && v.sts.partition.Some? && v.sts.partition.value <= c.n
    && v.sts.hash == c.hash(v.sts.template)
    && v.sts.status.observedGeneration <= v.seenGeneration <= v.sts.generation
    && (v.want == c.newT || (v.want == c.oldT && v.sts.template == c.oldT))
    && (forall i :: i in v.pods ==> i < c.n)
    && (Before(c, v) || Parked(c, v) || Walking(c, v))
  }

  /** A settled cluster on the old template: every pod, and the status, on its revision. */
  predicate Initial(c: Setup, v: World) {
    && v.want == c.oldT
    && v.sts.replicas == c.n && v.sts.partition == Some(0) && v.sts.template == c.oldT && v.sts.hash == c.hash(c.oldT)
    && v.sts.status == StsStatus(v.sts.generation, c.oldRev, c.oldRev)
    && v.seenTemplate == c.oldT && v.seenPartition == 0 && v.seenGeneration == v.sts.generation
    && (forall i :: i in v.pods ==> i < c.n && v.pods[i].revision == c.oldRev)
    && v.pass.Resting?
    && Timely(v)
  }

  /** The StatefulSet as a pass remembers it: the current spec, under a status that may be older. */
  predicate Remembered(c: Setup, v: World, sts: Sts) {
    && sts == v.sts.(status := sts.status)
    && sts.status.observedGeneration <= v.sts.status.observedGeneration
    && (Observed(sts) ==> sts.status.updateRevision == RevisionOf(c, sts.template))
  }

  /** A pass that is about to release did so on pods that are still on the new revision above the partition. */
  predicate InPass(c: Setup, v: World) {
    match v.pass
    case Resting => true
    case Wrote(out) => Remembered(c, v, out.sts)
    case Judged(w) =>
      && Remembered(c, v, w.sts)
      && (Lowers(w) ==>
            && Observed(w.sts) && 0 < StartOf(w) && PartitionOf(v.sts) == StartOf(w)
            && forall i :: i in v.pods && i >= StartOf(w) ==> v.pods[i].revision == c.newRev)
  }

  predicate Invariant(c: Setup, v: World) {
    Ordered(c, v) && InPass(c, v)
  }

  /** Between observing a release and the next one the controller acts on the current partition. */
  lemma ReleasingMeans(c: Setup, v: World, sts: Sts)
    requires Sound(c) && Ordered(c, v) && Remembered(c, v, sts) && Observed(sts) && PartitionOf(v.sts) > 0
    ensures Walking(c, v) && v.seenPartition == PartitionOf(v.sts) && sts.status.updateRevision == c.newRev
  {
  }

  lemma ReconcileKeeps(c: Setup, v: World)
    requires Sound(c) && Ordered(c, v)
    ensures var out := PassOutcome(c, v); Ordered(c, v.(sts := out.sts))
    ensures var out := PassOutcome(c, v);
      if out.templateChanged then Parked(c, v.(sts := out.sts)) else out.sts == v.sts
  {
  }

  lemma WritesKeep(c: Setup, v: World)
    requires Sound(c) && Invariant(c, v) && Enabled(c, v, PassWrites)
    ensures Invariant(c, Next(c, v, PassWrites))
  {
    ReconcileKeeps(c, v);
    var u := Next(c, v, PassWrites);
    PhaseKeeps(c, v.(sts := PassOutcome(c, v).sts), u.pass);
    assert Remembered(c, u, u.pass.out.sts);
  }

  lemma ReadsKeep(c: Setup, v: World, s: Step)
    requires Sound(c) && Invariant(c, v) && s.PassReads? && Enabled(c, v, s)
    ensures Invariant(c, Next(c, v, s))
  {
    var w, u := s.w, Next(c, v, s);
    PhaseKeeps(c, v, u.pass);
    ReleaseOnEvidence(w);
    if Lowers(w) {
      ReleasingMeans(c, v, w.sts);
      forall i | i in v.pods && i >= StartOf(w) ensures v.pods[i].revision == c.newRev {
        assert Finished(w, i);
        assert w.pods[i] == Info(v.pods[i]);
      }
    }
  }

  lemma EndsKeep(c: Setup, v: World, s: Step)
    requires Sound(c) && Invariant(c, v) && s.PassEnds? && Enabled(c, v, s)
    ensures Invariant(c, Next(c, v, s))
  {
    var w := v.pass.w;
    if Lowers(w) {
      LoweringKeeps(c, v, w.sts, StartOf(w));
    }
    var mid := v.(sts := Patched(v.sts, w));
    StatusKeeps(c, mid, NextStatus(v.status, Pass(w, s.written)));
    PhaseKeeps(c, mid.(status := NextStatus(v.status, Pass(w, s.written))), Resting);
  }

  /** Releasing the next ordinal keeps the order if everything above is on the new revision. */
  lemma LoweringKeeps(c: Setup, v: World, sts: Sts, p: nat)
    requires Sound(c) && Ordered(c, v) && PartitionOf(v.sts) == p && p > 0
    requires Remembered(c, v, sts) && Observed(sts)
    requires forall i :: i in v.pods && i >= p ==> v.pods[i].revision == c.newRev
    ensures Ordered(c, v.(sts := Lowered(v.sts, p - 1)))
  {
    ReleasingMeans(c, v, sts);
    var u := v.(sts := Lowered(v.sts, p - 1));
    assert SplitAt(c, u, p - 1);
    assert Walking(c, u);
  }

  /** The revision the controller gives a new pod. */
  lemma CreatedRevision(c: Setup, v: World, i: nat, ip: string)
    requires Sound(c) && Ordered(c, v) && Enabled(c, v, CreatePod(i, ip))
    ensures var r := Next(c, v, CreatePod(i, ip)).pods[i].revision;
      && (Before(c, v) || Parked(c, v) ==> r == c.oldRev)
      && (Walking(c, v) ==>
            && (r == c.newRev || r == c.oldRev)
            && (i > PartitionOf(v.sts) ==> r == c.newRev) && (i < PartitionOf(v.sts) ==> r == c.oldRev)
            && (i >= v.seenPartition ==> r == c.newRev))
  {
  }

  lemma CreateOrders(c: Setup, v: World, i: nat, ip: string)
    requires Sound(c) && Ordered(c, v) && Enabled(c, v, CreatePod(i, ip))
    ensures Ordered(c, Next(c, v, CreatePod(i, ip)))
  {
    var u := Next(c, v, CreatePod(i, ip));
    CreatedRevision(c, v, i, ip);
    assert forall k :: k in u.pods && k != i ==> k in v.pods && u.pods[k] == v.pods[k];
    if Walking(c, v) {
      assert SplitAt(c, u, PartitionOf(v.sts));
      assert Walking(c, u);
    } else if Parked(c, v) {
      assert Parked(c, u);
    } else {
      assert Before(c, u);
    }
  }

  lemma CreateKeeps(c: Setup, v: World, i: nat, ip: string)
    requires Sound(c) && Invariant(c, v) && Enabled(c, v, CreatePod(i, ip))
    ensures Invariant(c, Next(c, v, CreatePod(i, ip)))
  {
    CreateOrders(c, v, i, ip);
    CreatedRevision(c, v, i, ip);
    if v.pass.Judged? && Lowers(v.pass.w) {
      ReleasingMeans(c, v, v.pass.w.sts);
    }
  }

  lemma SeeKeeps(c: Setup, v: World)
    requires Sound(c) && Invariant(c, v)
    ensures Invariant(c, Next(c, v, See))
  {
    var u := Next(c, v, See);
    assert Before(c, v) ==> Before(c, u);
    assert Parked(c, v) || Walking(c, v) ==> Walking(c, u);
  }

  lemma ReportKeeps(c: Setup, v: World)
    requires Sound(c) && Invariant(c, v)
    ensures Invariant(c, Next(c, v, Report))
  {
    var u := Next(c, v, Report);
    assert Before(c, v) ==> Before(c, u);
    assert Parked(c, v) ==> Parked(c, u);
    assert Walking(c, v) ==> Walking(c, u);
  }

  lemma CompleteKeeps(c: Setup, v: World)
    requires Sound(c) && Invariant(c, v) && Enabled(c, v, CompleteRevision)
    ensures Invariant(c, Next(c, v, CompleteRevision))
  {
    var u := Next(c, v, CompleteRevision);
    assert 0 in v.pods && v.pods[0].revision == v.sts.status.updateRevision;
    assert Before(c, v) ==> Before(c, u);
    assert Parked(c, v) ==> Parked(c, u);
    assert Walking(c, v) ==> Walking(c, u);
  }

  /** Steps that leave revisions and the StatefulSet alone, or only remove a pod. */
  lemma QuietStepsKeep(c: Setup, v: World, s: Step)
    requires Sound(c) && Invariant(c, v) && Enabled(c, v, s)
    requires s.ChangeSpec? || s.RemovePod? || s.PodReady? || s.PodUnready? || s.Heartbeat? || s.LoseContact?
             || s.InitCluster? || s.Tick?
    ensures Invariant(c, Next(c, v, s))
  {
    SameRevisions(c, v, Next(c, v, s));
  }

  lemma SameRevisions(c: Setup, v: World, u: World)
    requires Invariant(c, v)
    requires u.sts == v.sts && u.pass == v.pass
    requires u.seenTemplate == v.seenTemplate && u.seenPartition == v.seenPartition && u.seenGeneration == v.seenGeneration
    requires u.want == v.want || u.want == c.newT
    requires forall i :: i in u.pods ==> i in v.pods && u.pods[i].revision == v.pods[i].revision
    ensures Invariant(c, u)
  {
    assert Before(c, v) ==> Before(c, u);
    assert Parked(c, v) ==> Parked(c, u);
    assert Walking(c, v) ==> Walking(c, u);
  }

  /** Neither the operator's own status nor where its pass is play a part in the order. */
  lemma StatusKeeps(c: Setup, v: World, status: Status)
    requires Ordered(c, v)
    ensures Ordered(c, v.(status := status))
  {
    var u := v.(status := status);
    assert Before(c, v) ==> Before(c, u);
    assert Parked(c, v) ==> Parked(c, u);
    assert Walking(c, v) ==> Walking(c, u);
  }

  lemma PhaseKeeps(c: Setup, v: World, pass: Phase)
    requires Ordered(c, v)
    ensures Ordered(c, v.(pass := pass))
  {
    var u := v.(pass := pass);
    assert Before(c, v) ==> Before(c, u);
    assert Parked(c, v) ==> Parked(c, u);
    assert Walking(c, v) ==> Walking(c, u);
  }

  lemma StepKeepsOrder(c: Setup, v: World, s: Step)
    requires Sound(c) && Invariant(c, v) && Enabled(c, v, s)
    ensures Invariant(c, Next(c, v, s))
  {
    match s
    case PassWrites => WritesKeep(c, v);
    case PassReads(_, _, _) => ReadsKeep(c, v, s);
    case PassEnds(_) => EndsKeep(c, v, s);
    case PassStops => PhaseKeeps(c, v, Resting);
    case See => SeeKeeps(c, v);
    case Report => ReportKeeps(c, v);
    case CompleteRevision => CompleteKeeps(c, v);
    case CreatePod(i, ip) => CreateKeeps(c, v, i, ip);
    case _ => QuietStepsKeep(c, v, s);
  }

  // ---------- the freshness invariant ----------

  /** What the Primary last heard from an earlier incarnation predates the pod now running. */
  predicate Timely(v: World) {
    && (forall i :: i in v.pods ==>
          && v.pods[i].born <= v.now
          && v.pods[i].id < v.nextId
          && (v.pods[i].readyAt.Some? ==> v.pods[i].born <= v.pods[i].readyAt.value <= v.now))
    && (forall i :: i in v.view && v.view[i].lastSeen.Some? ==>
          && v.view[i].lastSeen.value <= v.now
          && (i in v.pods && v.view[i].heardFrom != v.pods[i].id ==> v.view[i].lastSeen.value <= v.pods[i].born))
  }

  lemma StepKeepsTime(c: Setup, v: World, s: Step)
    requires Timely(v) && Enabled(c, v, s)
    ensures Timely(Next(c, v, s))
  {
  }

  /** The pod was created after the whole second its ready time is stored as. */
  predicate SameSecond(pod: Pod) {
    pod.readyAt.Some? && Truncate(pod.readyAt.value) < pod.born
  }

  /** The pod became Ready on a whole second, so that its stored ready time is the real one. */
  predicate OnTheSecond(pod: Pod) {
    pod.readyAt.Some? && Truncate(pod.readyAt.value) == pod.readyAt.value
  }

  /** Ordinal i is done: Ready on the new revision and, once clustered, heard from by the Primary as itself. */
  predicate FreshEvidence(c: Setup, v: World, i: nat) {
    && i in v.pods && v.pods[i].revision == c.newRev && v.pods[i].readyAt.Some?
    && (v.initialized ==>
          && i in v.view && v.view[i].connected && v.pods[i].ip in v.view[i].ips
          && v.view[i].lastSeen.Some? && v.view[i].lastSeen.value > Truncate(v.pods[i].readyAt.value)
          && (v.view[i].lastSeen.value > v.pods[i].readyAt.value || !OnTheSecond(v.pods[i]))
          && (v.view[i].heardFrom == v.pods[i].id || SameSecond(v.pods[i])))
  }

  /**
   A pass that goes on to lower the partition to q does so on fresh evidence, read
   in that pass: every ordinal above q runs a Ready pod on the new revision which,
   once a cluster exists, the Primary reports connected at that pod's address. It
   heard from that very pod, unless the pod was created after the second in which
   it became Ready began; and it heard from it since it became Ready, unless that
   was not on a whole second.
   */
  lemma ReleaseIsFresh(c: Setup, v: World, w: WalkInput, ordinals: seq<nat>, domains: seq<string>)
    requires Sound(c) && Invariant(c, v) && Timely(v)
    requires Enabled(c, v, PassReads(w, ordinals, domains)) && Lowers(w)
    ensures forall i :: StartOf(w) - 1 < i < c.n ==> FreshEvidence(c, v, i)
  {
    ReleaseOnEvidence(w);
    ReleasingMeans(c, v, w.sts);
    forall i | StartOf(w) - 1 < i < c.n ensures FreshEvidence(c, v, i) {
      assert Finished(w, i);
      assert w.pods[i] == Info(v.pods[i]);
      if v.initialized {
        var k := FindMemberExact(w.primary.value.nodes, c.cluster, ordinals, domains, i);
        assert FreshlyConnected(w.primary.value, c.cluster, i, w.pods[i]);
      }
    }
  }

  // ---------- which entries pass ----------

  /** The Primary's answer when it lists ordinal i alone. */
  function Shown(cluster: string, i: nat, h: Heard, domain: string): ClusterState {
    ClusterState("", true, domain,
                 [ClusterNode(MemberName(cluster, i, domain), h.ips, if h.connected then CONNECTED else "Unreachable", h.lastSeen)])
  }

  /** An entry passes the gate exactly if it is connected at the pod's address and seen after the stored ready time. */
  lemma EntryPasses(g: GateInput, i: nat, pod: Pod, h: Heard, domain: string)
    requires pod.readyAt.Some?
    ensures MemberVerdict(g, Shown(g.cluster, i, h, domain), i, Info(pod)).None? <==>
      h.connected && pod.ip in h.ips && h.lastSeen.Some? && h.lastSeen.value > Truncate(pod.readyAt.value)
  {
    var k := FindMemberExact(Shown(g.cluster, i, h, domain).nodes, g.cluster, [i], [domain], i);
  }

  /** The Primary may hold this entry for ordinal i, and it passes the gate. */
  ghost predicate CanPass(v: World, g: GateInput, i: nat, h: Heard, domain: string)
    requires i in v.pods
  {
    Timely(v.(view := v.view[i := h])) && MemberVerdict(g, Shown(g.cluster, i, h, domain), i, Info(v.pods[i])).None?
  }

  lemma TimelyEntry(v: World, i: nat, h: Heard)
    requires Timely(v) && i in v.pods && h.lastSeen.Some?
    ensures Timely(v.(view := v.view[i := h])) <==>
      h.lastSeen.value <= v.now && (h.heardFrom != v.pods[i].id ==> h.lastSeen.value <= v.pods[i].born)
  {
    var u := v.(view := v.view[i := h]);
    assert u.view[i] == h && u.pods == v.pods;
  }

  /** An entry left by an earlier pod can pass for a Ready pod exactly if that pod is a same-second one. */
  lemma StaleEntryExactly(v: World, g: GateInput, i: nat, domain: string)
    requires Timely(v) && i in v.pods && v.pods[i].readyAt.Some?
    ensures SameSecond(v.pods[i]) <==> exists h: Heard :: h.heardFrom != v.pods[i].id && CanPass(v, g, i, h, domain)
  {
    var pod := v.pods[i];
    if SameSecond(pod) {
      var h := Heard(true, [pod.ip], Some(pod.born), pod.id + 1);
      TimelyEntry(v, i, h);
      EntryPasses(g, i, pod, h, domain);
      assert CanPass(v, g, i, h, domain);
    } else {
      forall h | CanPass(v, g, i, h, domain) ensures h.heardFrom == pod.id {
        EntryPasses(g, i, pod, h, domain);
        TimelyEntry(v, i, h);
      }
    }
  }

  /** Passing means having been heard from since readiness, for every entry, exactly if the pod became Ready on a whole second. */
  lemma EarlyEntryExactly(v: World, g: GateInput, i: nat, domain: string)
    requires Timely(v) && i in v.pods && v.pods[i].readyAt.Some?
    ensures OnTheSecond(v.pods[i]) <==>
      forall h :: CanPass(v, g, i, h, domain) ==> h.lastSeen.Some? && h.lastSeen.value > v.pods[i].readyAt.value
  {
    var pod := v.pods[i];
    forall h | CanPass(v, g, i, h, domain) ensures h.lastSeen.Some? && h.lastSeen.value > Truncate(pod.readyAt.value) {
      EntryPasses(g, i, pod, h, domain);
    }
    if !OnTheSecond(pod) {
      var h := Heard(true, [pod.ip], pod.readyAt, pod.id);
      TimelyEntry(v, i, h);
      EntryPasses(g, i, pod, h, domain);
      assert CanPass(v, g, i, h, domain);
    }
  }

  // ---------- whole runs ----------

  /** Worlds and the steps between them. */
  ghost predicate IsPath(c: Setup, worlds: seq<World>, steps: seq<Step>) {
    && |worlds| == |steps| + 1
    && forall k {:trigger steps[k]} :: 0 <= k < |steps| ==>
         Enabled(c, worlds[k], steps[k]) && worlds[k + 1] == Next(c, worlds[k], steps[k])
  }

  ghost predicate IsRun(c: Setup, worlds: seq<World>, steps: seq<Step>) {
    IsPath(c, worlds, steps) && Initial(c, worlds[0])
  }

  lemma {:induction false} PathInvariant(c: Setup, worlds: seq<World>, steps: seq<Step>, k: nat)
    requires Sound(c) && IsPath(c, worlds, steps) && k < |worlds| && Invariant(c, worlds[0]) && Timely(worlds[0])
    ensures Invariant(c, worlds[k]) && Timely(worlds[k])
    decreases k
  {
    if k > 0 {
      PathInvariant(c, worlds, steps, k - 1);
      assert worlds[k - 1 + 1] == Next(c, worlds[k - 1], steps[k - 1]);
      StepKeepsOrder(c, worlds[k - 1], steps[k - 1]);
      StepKeepsTime(c, worlds[k - 1], steps[k - 1]);
    }
  }

  lemma RunInvariant(c: Setup, worlds: seq<World>, steps: seq<Step>, k: nat)
    requires Sound(c) && IsRun(c, worlds, steps) && k < |worlds|
    ensures Invariant(c, worlds[k]) && Timely(worlds[k])
  {
    PathInvariant(c, worlds, steps, k);
  }

  /**
   In every reachable world, once the new template is written, each pod above
   the partition is on the new revision and each pod below it on the old one;
   only the pod at the partition may be on either.
   */
  lemma RolloutOrder(c: Setup, worlds: seq<World>, steps: seq<Step>, k: nat)
    requires Sound(c) && IsRun(c, worlds, steps) && k < |worlds|
    ensures worlds[k].sts.template == c.newT ==> SplitAt(c, worlds[k], PartitionOf(worlds[k].sts))
    ensures worlds[k].sts.template != c.newT ==> forall i :: i in worlds[k].pods ==> worlds[k].pods[i].revision == c.oldRev
  {
    RunInvariant(c, worlds, steps, k);
  }

  /** A decision stems from an earlier reading step. */
  lemma {:induction false} DecisionStems(c: Setup, worlds: seq<World>, steps: seq<Step>, k: nat) returns (j: nat)
    requires IsRun(c, worlds, steps) && k < |worlds| && worlds[k].pass.Judged?
    ensures j < k && steps[j].PassReads? && worlds[k].pass == Judged(steps[j].w)
    decreases k
  {
    assert worlds[k - 1 + 1] == Next(c, worlds[k - 1], steps[k - 1]);
    if steps[k - 1].PassReads? {
      j := k - 1;
    } else {
      j := DecisionStems(c, worlds, steps, k - 1);
    }
  }

  /** Every release of every run rests on fresh evidence, read earlier in the same pass. */
  lemma EveryReleaseIsFresh(c: Setup, worlds: seq<World>, steps: seq<Step>, k: nat) returns (j: nat)
    requires Sound(c) && IsRun(c, worlds, steps) && k < |steps|
    requires worlds[k].sts.template == c.newT && PartitionOf(worlds[k + 1].sts) < PartitionOf(worlds[k].sts)
    ensures j < k && steps[j].PassReads? && steps[k].PassEnds? && worlds[k].pass == Judged(steps[j].w)
    ensures PartitionOf(worlds[k + 1].sts) == PartitionOf(worlds[k].sts) - 1
    ensures forall i :: PartitionOf(worlds[k + 1].sts) < i < c.n ==> FreshEvidence(c, worlds[j], i)
  {
    RunInvariant(c, worlds, steps, k);
    assert worlds[k + 1] == Next(c, worlds[k], steps[k]) && Enabled(c, worlds[k], steps[k]);
    ReconcileKeeps(c, worlds[k]);
    assert steps[k].PassEnds? && Lowers(worlds[k].pass.w);
    j := DecisionStems(c, worlds, steps, k);
    RunInvariant(c, worlds, steps, j);
    assert Enabled(c, worlds[j], steps[j]);
    ReleaseIsFresh(c, worlds[j], steps[j].w, steps[j].ordinals, steps[j].domains);
  }

  lemma StepLowersByOne(c: Setup, v: World, s: Step)
    requires Sound(c) && Invariant(c, v) && Enabled(c, v, s) && v.sts.template == c.newT
    ensures var u := Next(c, v, s);
      && u.sts.template == c.newT
      && (PartitionOf(u.sts) == PartitionOf(v.sts) || PartitionOf(u.sts) + 1 == PartitionOf(v.sts))
  {
    ReconcileKeeps(c, v);
  }

  /** After the template change the partition only ever falls, at most one per step. */
  lemma {:induction false} PartitionFalls(c: Setup, worlds: seq<World>, steps: seq<Step>, j: nat, k: nat)
    requires Sound(c) && IsRun(c, worlds, steps) && j <= k < |worlds|
    requires worlds[j].sts.template == c.newT
    ensures worlds[k].sts.template == c.newT
    ensures PartitionOf(worlds[k].sts) <= PartitionOf(worlds[j].sts) <= PartitionOf(worlds[k].sts) + (k - j)
    decreases k
  {
    if j < k {
      PartitionFalls(c, worlds, steps, j, k - 1);
      RunInvariant(c, worlds, steps, k - 1);
      assert worlds[k - 1 + 1] == Next(c, worlds[k - 1], steps[k - 1]);
      StepLowersByOne(c, worlds[k - 1], steps[k - 1]);
    }
  }
}
