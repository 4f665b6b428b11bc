/**
 The StatefulSet as the operator writes it (reconcileStatefulSet): the pod
 template, the operator-managed partition and the template hash that tells a
 spec change from API server defaulting.
 */
module StatefulSets {
  import opened Options
  import opened Versions

  /** The pod template: the Technitium image ("" when there is none) and everything else, opaque. */
  datatype Template = Template(image: string, rest: string)

  datatype StsStatus = StsStatus(observedGeneration: nat, currentRevision: string, updateRevision: string)

  /** partition is None when the object has no RollingUpdate partition; hash is "" when not annotated. */
  datatype Sts = Sts(
    replicas: nat, template: Template, partition: Option<nat>, hash: string, generation: nat, status: StsStatus)

  datatype StsOutcome = StsOutcome(sts: Sts, templateChanged: bool)

  function Min(a: nat, b: nat): nat {
    if a <= b then a else b
  }

  function PartitionOf(sts: Sts): nat {
    match sts.partition case None => 0 case Some(p) => p
  }

  /** The API server bumps the generation exactly when the spec changes. */
  function WriteSpec(sts: Sts, replicas: nat, template: Template, partition: nat, hash: string): Sts {
    var same := sts.replicas == replicas && sts.template == template && sts.partition == Some(partition);
    sts.(replicas := replicas, template := template, partition := Some(partition), hash := hash,
         generation := if same then sts.generation else sts.generation + 1)
  }

  /** What reconcileStatefulSet leaves behind, for the template it decided to run. */
  function Reconciled(existing: Option<Sts>, template: Template, replicas: nat, hash: Template -> string): StsOutcome {
    match existing
    case None =>
      StsOutcome(Sts(replicas, template, Some(0), hash(template), 1, StsStatus(0, "", "")), false)
    case Some(sts) =>
      var changed := sts.hash != "" && sts.hash != hash(template);
      var partition :=
        if replicas <= 1 then 0
        else if changed then replicas
        else if sts.partition.Some? then Min(sts.partition.value, replicas)
        else 0;
      StsOutcome(WriteSpec(sts, replicas, template, partition, hash(template)), changed)
  }

  /** An object the operator has written: annotated with its own hash, partition within the replicas. */
  predicate Settled(sts: Sts, hash: Template -> string) {
    && sts.hash == hash(sts.template)
    && sts.partition.Some?
    && sts.partition.value <= sts.replicas
    && (sts.replicas <= 1 ==> sts.partition.value == 0)
  }

  // ---------- the downgrade guard ----------

  datatype DowngradeBlock = DowngradeBlock(image: string, deployed: Version, requested: Version)

  /** The version checkDowngrade takes as deployed: the template's, else status.version. */
  function DeployedVersion(image: string, statusVersion: string): Option<Version> {
    if ParsedImage(image).Some? then ParsedImage(image) else Parsed(statusVersion)
  }

  /** checkDowngrade. */
  function Guard(image: string, allowed: bool, statusVersion: string, existing: Sts): (r: Option<DowngradeBlock>)
    ensures r.Some? ==> r.value.image == existing.template.image
  {
    var requested := ParsedImage(image);
    var deployed := DeployedVersion(existing.template.image, statusVersion);
    if allowed || requested.None? || existing.template.image == "" || deployed.None? then None
    else if CompareSign(requested.value, deployed.value) >= 0 then None
    else Some(DowngradeBlock(existing.template.image, deployed.value, requested.value))
  }

  /** The parts of a TechnitiumCluster reconcileStatefulSet reads. */
  datatype ClusterSpec = ClusterSpec(image: string, rest: string, replicas: nat, allowDowngrade: bool)

  function EffectiveTemplate(spec: ClusterSpec, statusVersion: string, existing: Option<Sts>): Template {
    if existing.Some? && Guard(spec.image, spec.allowDowngrade, statusVersion, existing.value).Some?
    then Template(existing.value.template.image, spec.rest)
    else Template(spec.image, spec.rest)
  }

  /** The StatefulSet object on the API server. */
  class Workload {
    var sts: Option<Sts>

    constructor (sts: Option<Sts>)
      ensures this.sts == sts
    {
      this.sts := sts;
    }

    /** reconcileStatefulSet: guard against a downgrade, then create or update the object. */
    method ReconcileStatefulSet(spec: ClusterSpec, statusVersion: string, hash: Template -> string)
      returns (templateChanged: bool, downgrade: Option<DowngradeBlock>)
      modifies this
      ensures sts == Some(Reconciled(old(sts), EffectiveTemplate(spec, statusVersion, old(sts)), spec.replicas, hash).sts)
      ensures templateChanged ==
        Reconciled(old(sts), EffectiveTemplate(spec, statusVersion, old(sts)), spec.replicas, hash).templateChanged
      ensures downgrade ==
        if old(sts).None? then None else Guard(spec.image, spec.allowDowngrade, statusVersion, old(sts).value)
    {
      var effective := spec.image;
      downgrade := None;
      if sts.Some? {
        downgrade := Guard(spec.image, spec.allowDowngrade, statusVersion, sts.value);
        if downgrade.Some? {
          effective := downgrade.value.image;
        }
      }
      var template := Template(effective, spec.rest);
      if sts.None? {
        templateChanged := false;
        sts := Some(Sts(spec.replicas, template, Some(0), hash(template), 1, StsStatus(0, "", "")));
      } else {
        var current := sts.value;
        templateChanged := current.hash != "" && current.hash != hash(template);
        var partition := 0;
        if spec.replicas <= 1 {
        } else if templateChanged {
          partition := spec.replicas;
        } else if current.partition.Some? {
          partition := Min(current.partition.value, spec.replicas);
        }
        sts := Some(WriteSpec(current, spec.replicas, template, partition, hash(template)));
      }
    }
  }

  // ---------- what is written ----------

  /** The image asked for is kept out exactly if it is older than what is deployed, both are known, and nobody opted in. */
  lemma RefusedExactly(spec: ClusterSpec, statusVersion: string, sts: Sts)
    ensures var image, deployed, requested := EffectiveTemplate(spec, statusVersion, Some(sts)).image,
        (if ParsedImage(sts.template.image).Some? then ParsedImage(sts.template.image) else Parsed(statusVersion)),
        ParsedImage(spec.image);
      && (image == spec.image || image == sts.template.image)
      && (image != spec.image <==>
            && !spec.allowDowngrade && sts.template.image != "" && sts.template.image != spec.image
            && requested.Some? && deployed.Some? && Older(requested.value, deployed.value))
    ensures EffectiveTemplate(spec, statusVersion, Some(sts)).rest == spec.rest
    ensures EffectiveTemplate(spec, statusVersion, None) == Template(spec.image, spec.rest)
  {
  }

  /**
   A write puts template and replicas in place. A changed template releases no
   ordinal; otherwise the released ordinals stay the ones they were. A first
   write, and one for a single replica, releases all.
   */
  lemma WriteMeans(existing: Option<Sts>, template: Template, replicas: nat, hash: Template -> string)
    ensures var out := Reconciled(existing, template, replicas, hash);
      && out.sts.template == template && out.sts.replicas == replicas && out.sts.hash == hash(template)
      && (out.templateChanged <==> existing.Some? && existing.value.hash != "" && existing.value.hash != hash(template))
      && out.sts.partition.Some?
      && forall i: nat :: i < replicas ==>
           (Unheld(out.sts, i) <==>
              || existing.None? || replicas <= 1
              || (!out.templateChanged && Unheld(existing.value, i)))
  {
  }

  /** The controller may run ordinal i on the written template. */
  predicate Unheld(sts: Sts, i: nat) {
    i >= PartitionOf(sts)
  }

  // ---------- no silent downgrade ----------

  /** One reconcile of the StatefulSet: the spec at that moment and the reported status.version. */
  datatype Reconcile = Reconcile(spec: ClusterSpec, statusVersion: string)

  function After(sts: Sts, r: Reconcile, hash: Template -> string): Sts {
    Reconciled(Some(sts), EffectiveTemplate(r.spec, r.statusVersion, Some(sts)), r.spec.replicas, hash).sts
  }

  function Run(sts: Sts, run: seq<Reconcile>, hash: Template -> string): Sts
    decreases |run|
  {
    if run == [] then sts else Run(After(sts, run[0], hash), run[1..], hash)
  }

  predicate Guarded(r: Reconcile) {
    !r.spec.allowDowngrade && r.spec.image != "" && ParsedImage(r.spec.image).Some?
  }

  predicate Versioned(sts: Sts) {
    sts.template.image != "" && ParsedImage(sts.template.image).Some?
  }

  lemma NotOlderTransitive(c: Version, b: Version, a: Version)
    requires !Older(c, b) && !Older(b, a)
    ensures !Older(c, a)
  {
  }

  lemma OneStepKeepsVersion(sts: Sts, r: Reconcile, hash: Template -> string)
    requires Versioned(sts) && Guarded(r)
    ensures var next := After(sts, r, hash);
      Versioned(next) && !Older(ParsedImage(next.template.image).value, ParsedImage(sts.template.image).value)
  {
    var next := After(sts, r, hash);
    assert next.template == EffectiveTemplate(r.spec, r.statusVersion, Some(sts));
    assert next.template.image == sts.template.image || next.template.image == r.spec.image;
  }

  /** Whatever images are asked for, the deployed version never moves backwards. */
  lemma {:induction false} NoSilentDowngrade(sts: Sts, run: seq<Reconcile>, hash: Template -> string)
    requires Versioned(sts)
    requires forall r :: r in run ==> Guarded(r)
    ensures var last := Run(sts, run, hash);
      && Versioned(last)
      && !Older(ParsedImage(last.template.image).value, ParsedImage(sts.template.image).value)
    decreases |run|
  {
    if run != [] {
      assert run[0] in run;
      var next := After(sts, run[0], hash);
      OneStepKeepsVersion(sts, run[0], hash);
      NoSilentDowngrade(next, run[1..], hash);
      NotOlderTransitive(ParsedImage(Run(sts, run, hash).template.image).value,
                         ParsedImage(next.template.image).value, ParsedImage(sts.template.image).value);
    }
  }

  /** Every write leaves the object settled, so the next claim applies to it. */
  lemma WriteSettles(existing: Option<Sts>, template: Template, replicas: nat, hash: Template -> string)
    ensures Settled(Reconciled(existing, template, replicas, hash).sts, hash)
  {
  }

  /**
   A refused image change touches nothing when nothing else changed: template,
   hash, partition and generation stay, so no rollout starts.
   */
  lemma RefusalIsInert(sts: Sts, r: Reconcile, hash: Template -> string)
    requires Settled(sts, hash) && r.spec.rest == sts.template.rest && r.spec.replicas == sts.replicas
    ensures Guard(r.spec.image, r.spec.allowDowngrade, r.statusVersion, sts).Some? ==>
      && After(sts, r, hash) == sts
      && !Reconciled(Some(sts), EffectiveTemplate(r.spec, r.statusVersion, Some(sts)), r.spec.replicas, hash).templateChanged
  {
    if Guard(r.spec.image, r.spec.allowDowngrade, r.statusVersion, sts).Some? {
      assert EffectiveTemplate(r.spec, r.statusVersion, Some(sts)) == sts.template;
    }
  }
}

/**
 The gate a node passes when it has finished upgrading (rolloutGate), and the
 walk that lowers the partition one ordinal at a time (walkRollout).
 */
module Rollout {
  import opened Calls
  import opened Members
  import opened Options
  import opened StatefulSets
  import opened Versions

  // ---------- the gate ----------

  /** Why a node does not pass. */
  datatype Why =
    | NoPod | OldRevision | NotReady
    | Unreachable | OtherVersion
    | PrimaryUnreadable | NotConnected | OldIp | NotSeen

  /**
   All a gate reads in one pass: answers holds the state of every node whose
   version read is answered, primary what the separate read of the Primary's view
   returns.
   */
  datatype GateInput = GateInput(
    cluster: string, pods: map<nat, PodInfo>, revision: string, target: Option<Version>, replicas: nat,
    answers: map<nat, ClusterState>, primary: Option<ClusterState>)

  /** The Primary's entry must carry the new pod's IP and postdate its readiness. */
  function MemberVerdict(g: GateInput, primary: ClusterState, i: nat, pod: PodInfo): Option<Why> {
    if !primary.initialized then None
    else
      match FindMember(primary.nodes, PodName(g.cluster, i))
      case None => Some(NotConnected)
      case Some(m) =>
        if m.state != CONNECTED then Some(NotConnected)
        else if pod.ip !in m.ips then Some(OldIp)
        else if pod.readySince.Some? && (m.lastSeen.None? || m.lastSeen.value <= pod.readySince.value) then Some(NotSeen)
        else None
  }

  /** None when ordinal i passes the gate. */
  function Verdict(g: GateInput, i: nat): Option<Why> {
    if i !in g.pods then Some(NoPod)
    else
      var pod := g.pods[i];
      if pod.revision != g.revision then Some(OldRevision)
      else if !pod.ready then Some(NotReady)
      else if g.target.Some? && i !in g.answers then Some(Unreachable)
      else if g.target.Some? && Parsed(g.answers[i].version) != g.target then Some(OtherVersion)
      else if i == PRIMARY || g.replicas <= 1 then None
      else if g.primary.None? then Some(PrimaryUnreadable)
      else MemberVerdict(g, g.primary.value, i, pod)
  }

  /** rolloutGate: the Primary's view is fetched at most once per pass. */
  class Gate {
    const g: GateInput
    var primaryRead: bool
    var primaryState: Option<ClusterState>
    ghost var fetches: nat

    constructor (g: GateInput)
      ensures this.g == g && Valid() && fetches == 0
    {
      this.g := g;
      primaryRead, primaryState, fetches := false, None, 0;
    }

    ghost predicate Valid()
      reads this
    {
      && fetches == (if primaryRead then 1 else 0)
      && (primaryRead ==> primaryState == g.primary)
    }

    method Primary() returns (s: Option<ClusterState>)
      requires Valid()
      modifies this
      ensures Valid() && fetches <= 1
      ensures s == g.primary
    {
      if primaryRead {
        return primaryState;
      }
      primaryRead := true;
      fetches := fetches + 1;
      primaryState := g.primary;
      return primaryState;
    }

    method Check(i: nat) returns (why: Option<Why>)
      requires Valid()
      modifies this
      ensures Valid() && fetches <= 1
      ensures why == Verdict(g, i)
    {
      if i !in g.pods {
        return Some(NoPod);
      }
      var pod := g.pods[i];
      if pod.revision != g.revision {
        return Some(OldRevision);
      }
      if !pod.ready {
        return Some(NotReady);
      }
      if g.target.Some? {
        if i !in g.answers {
          return Some(Unreachable);
        }
        var version := ParseVersion(g.answers[i].version);
        if version != g.target {
          return Some(OtherVersion);
        }
      }
      if i != PRIMARY && g.replicas > 1 {
        var ps := Primary();
        if ps.None? {
          return Some(PrimaryUnreadable);
        }
        if ps.value.initialized {
          var member := FindMember(ps.value.nodes, PodName(g.cluster, i));
          if member.None? || member.value.state != CONNECTED {
            return Some(NotConnected);
          }
          if pod.ip !in member.value.ips {
            return Some(OldIp);
          }
          if pod.readySince.Some? &&
             (member.value.lastSeen.None? || member.value.lastSeen.value <= pod.readySince.value) {
            return Some(NotSeen);
          }
        }
      }
      return None;
    }
  }

  // ---------- the walk ----------

  /** Times are integers in nanoseconds. */
  const SECOND: int := 1_000_000_000
  const DEFAULT_STALL_TIMEOUT: int := 600 * SECOND

  /** time.Truncate(time.Second), which is also the resolution a Kubernetes timestamp is stored with. */
  function Truncate(t: int): (r: int)
    ensures r <= t < r + SECOND && r % SECOND == 0
  {
    t - t % SECOND
  }

  function StallTimeout(configured: int): int {
    if configured > 0 then configured else DEFAULT_STALL_TIMEOUT
  }

  /** status.rollout: the node being waited on and since when. */
  datatype Bookmark = Bookmark(node: string, started: int)

  datatype Reason = UpToDate | RollingOut | Stalled

  /** rolloutState: the Upgrading condition, the bookmark, and the progress the message reports. */
  datatype RolloutState = RolloutState(
    upgrading: bool, reason: Reason, bookmark: Option<Bookmark>, updated: nat, stalledBy: Option<Why>,
    degraded: Option<Reason>)

  const IDLE := RolloutState(false, UpToDate, None, 0, None, None)

  /** One call of walkRollout: what it is given, what it reads, and how its calls end. */
  datatype WalkInput = WalkInput(
    sts: Sts, templateChanged: bool,
    wasUpgrading: bool, bookmark: Option<Bookmark>,
    readable: bool,                                  // credentials and the pod list could be read
    cluster: string, pods: map<nat, PodInfo>, answers: map<nat, ClusterState>, primary: Option<ClusterState>,
    patch: Call,
    startClock: int, stallClock: int, timeout: int)

  datatype WalkResult = Walked(sts: Sts, state: RolloutState) | WalkFailed(sts: Sts)

  function GateOf(w: WalkInput): GateInput {
    GateInput(w.cluster, w.pods, w.sts.status.updateRevision, ParsedImage(w.sts.template.image), w.sts.replicas, w.answers, w.primary)
  }

  predicate RevisionsDiffer(status: StsStatus) {
    status.currentRevision != "" && status.updateRevision != "" && status.currentRevision != status.updateRevision
  }

  /** Nothing to do: no change, nothing parked, no rollout reported or visible. */
  predicate Quiet(w: WalkInput) {
    !w.templateChanged && PartitionOf(w.sts) == 0 && !w.wasUpgrading && !RevisionsDiffer(w.sts.status)
  }

  /** The status describes the current spec. */
  predicate Observed(sts: Sts) {
    sts.status.observedGeneration >= sts.generation && sts.status.updateRevision != ""
  }

  function StartOf(w: WalkInput): nat {
    Min(PartitionOf(w.sts), w.sts.replicas)
  }

  /** The first ordinal from i up that fails the gate. */
  function FirstFailing(g: GateInput, i: nat, n: nat): (r: Option<nat>)
    ensures r.Some? ==> i <= r.value < n && Verdict(g, r.value).Some?
    ensures r.Some? ==> forall k :: i <= k < r.value ==> Verdict(g, k).None?
    ensures r.None? ==> forall k :: i <= k < n ==> Verdict(g, k).None?
    decreases n - i
  {
    if i >= n then None else if Verdict(g, i).Some? then Some(i) else FirstFailing(g, i + 1, n)
  }

  function Passing(g: GateInput, i: nat, n: nat): nat
    decreases n - i
  {
    if i >= n then 0 else (if Verdict(g, i).None? then 1 else 0) + Passing(g, i + 1, n)
  }

  function Lowered(sts: Sts, to: nat): Sts {
    sts.(partition := Some(to), generation := sts.generation + 1)
  }

  /** The state reported while node is pending since started. */
  function Waiting(w: WalkInput, node: nat, started: int, updated: nat, why: Why): RolloutState {
    var stalled := w.stallClock - started > StallTimeout(w.timeout);
    RolloutState(
      true, if stalled then Stalled else RollingOut, Some(Bookmark(PodName(w.cluster, node), started)), updated,
      if stalled then Some(why) else None, if stalled then Some(Stalled) else None)
  }

  /** walkRollout as a function: the new StatefulSet and the reported state. */
  function Walk(w: WalkInput): WalkResult {
    if Quiet(w) then Walked(w.sts, IDLE)
    else if w.templateChanged || !Observed(w.sts) then
      Walked(w.sts, RolloutState(true, RollingOut, w.bookmark, 0, None, None))
    else if !w.readable then WalkFailed(w.sts)
    else
      var g, p, n := GateOf(w), StartOf(w), w.sts.replicas;
      match FirstFailing(g, p, n)
      case None =>
        if p == 0 then Walked(w.sts, IDLE)
        else
          var sts := if w.patch.TakesEffect() then Lowered(w.sts, p - 1) else w.sts;
          if !w.patch.Succeeds? then WalkFailed(sts)
          else Walked(sts, Waiting(w, p - 1, Truncate(w.startClock), Passing(g, p, n), OldRevision))
      case Some(i) =>
        var kept := w.bookmark.Some? && w.bookmark.value.node == PodName(w.cluster, i);
        var started := if kept then w.bookmark.value.started else Truncate(w.startClock);
        Walked(w.sts, Waiting(w, i, started, Passing(g, p, n), Verdict(g, i).value))
  }

  lemma {:induction false} PassingExtend(g: GateInput, i: nat, k: nat)
    requires i <= k
    ensures Passing(g, i, k + 1) == Passing(g, i, k) + if Verdict(g, k).None? then 1 else 0
    decreases k - i
  {
    if i < k {
      PassingExtend(g, i + 1, k);
    }
  }

  /** The loop over released ordinals: who passes, why not, and how many. */
  method CheckReleased(gate: Gate, partition: nat, n: nat)
    returns (gated: array<bool>, reasons: array<Option<Why>>, updated: nat)
    requires gate.Valid() && partition <= n
    modifies gate
    ensures gate.Valid() && gate.fetches <= 1
    ensures fresh(gated) && fresh(reasons) && gated.Length == reasons.Length == n
    ensures forall k :: partition <= k < n ==> reasons[k] == Verdict(gate.g, k) && gated[k] == Verdict(gate.g, k).None?
    ensures updated == Passing(gate.g, partition, n)
  {
    gated := new bool[n](_ => false);
    reasons := new Option<Why>[n](_ => None);
    updated := 0;
    for i := partition to n
      invariant gate.Valid()
      invariant forall k :: partition <= k < i ==> reasons[k] == Verdict(gate.g, k) && gated[k] == Verdict(gate.g, k).None?
      invariant updated == Passing(gate.g, partition, i)
    {
      var why := gate.Check(i);
      gated[i], reasons[i] := why.None?, why;
      PassingExtend(gate.g, partition, i);
      if gated[i] {
        updated := updated + 1;
      }
    }
  }

  /** The loop that stops at the first ordinal not gated. */
  method FirstUngated(gated: array<bool>, partition: nat) returns (pending: Option<nat>)
    requires partition <= gated.Length
    ensures pending.Some? ==> partition <= pending.value < gated.Length && !gated[pending.value]
    ensures pending.Some? ==> forall k :: partition <= k < pending.value ==> gated[k]
    ensures pending.None? ==> forall k :: partition <= k < gated.Length ==> gated[k]
  {
    for i := partition to gated.Length
      invariant forall k :: partition <= k < i ==> gated[k]
    {
      if !gated[i] {
        return Some(i);
      }
    }
    return None;
  }

  /** walkRollout: gate every released ordinal, find the first pending one, release the next or wait. */
  method WalkRollout(workload: Workload, w: WalkInput) returns (r: WalkResult)
    requires workload.sts == Some(w.sts)
    modifies workload
    ensures r == Walk(w)
    ensures workload.sts == Some(Walk(w).sts)
  {
    if Quiet(w) {
      return Walked(w.sts, IDLE);
    }
    if w.templateChanged || !Observed(w.sts) {
      return Walked(w.sts, RolloutState(true, RollingOut, w.bookmark, 0, None, None));
    }
    if !w.readable {
      return WalkFailed(w.sts);
    }
    var n := w.sts.replicas;
    var gate := new Gate(GateOf(w));
    var partition := Min(PartitionOf(w.sts), n);
    var gated, reasons, updated := CheckReleased(gate, partition, n);
    var pending := FirstUngated(gated, partition);
    FirstFailingUnique(gate.g, partition, n, pending);

    var started := Truncate(w.startClock);
    if pending.None? && partition > 0 {
      var next := partition - 1;
      if w.patch.TakesEffect() {
        workload.sts := Some(Lowered(w.sts, next));
      }
      if !w.patch.Succeeds? {
        return WalkFailed(workload.sts.value);
      }
      pending := Some(next);
      reasons[next] := Some(OldRevision);
    } else if pending.None? {
      return Walked(w.sts, IDLE);
    } else if w.bookmark.Some? && w.bookmark.value.node == PodName(w.cluster, pending.value) {
      started := w.bookmark.value.started;
    }
    var node := PodName(w.cluster, pending.value);
    var state := RolloutState(true, RollingOut, Some(Bookmark(node, started)), updated, None, None);
    if w.stallClock - started > StallTimeout(w.timeout) {
      state := state.(reason := Stalled, stalledBy := reasons[pending.value], degraded := Some(Stalled));
    }
    return Walked(workload.sts.value, state);
  }

  lemma FirstFailingUnique(g: GateInput, i: nat, n: nat, r: Option<nat>)
    requires r.Some? ==> i <= r.value < n && Verdict(g, r.value).Some?
    requires r.Some? ==> forall k :: i <= k < r.value ==> Verdict(g, k).None?
    requires r.None? ==> forall k :: i <= k < n ==> Verdict(g, k).None?
    ensures r == FirstFailing(g, i, n)
  {
  }
}
