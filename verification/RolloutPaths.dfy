/** Which worlds of the upgrade lead to which, and which are reachable. */
module RolloutPaths {
  import opened Options
  import opened Rollout
  import opened RolloutLaws
  import opened RolloutSystem
  import opened StatefulSets
  import opened Versions

  ghost predicate Leads(c: Setup, start: World, v: World) {
    exists worlds, steps :: IsPath(c, worlds, steps) && worlds[0] == start && worlds[|steps|] == v
  }

  lemma Stays(c: Setup, v: World)
    ensures Leads(c, v, v)
  {
    assert IsPath(c, [v], []);
    assert [v][0] == v;
  }

  lemma PathExtends(c: Setup, worlds: seq<World>, steps: seq<Step>, s: Step)
    requires IsPath(c, worlds, steps) && Enabled(c, worlds[|steps|], s)
    ensures IsPath(c, worlds + [Next(c, worlds[|steps|], s)], steps + [s])
  {
    var worlds', steps' := worlds + [Next(c, worlds[|steps|], s)], steps + [s];
    forall k | 0 <= k < |steps'|
      ensures Enabled(c, worlds'[k], steps'[k]) && worlds'[k + 1] == Next(c, worlds'[k], steps'[k])
    {
      if k < |steps| {
        assert steps'[k] == steps[k] && worlds'[k] == worlds[k] && worlds'[k + 1] == worlds[k + 1];
      }
    }
  }

  lemma Follow(c: Setup, start: World, v: World, s: Step) returns (u: World)
    requires Leads(c, start, v) && Enabled(c, v, s)
    ensures u == Next(c, v, s) && Leads(c, start, u)
  {
    u := Next(c, v, s);
    var worlds, steps :| IsPath(c, worlds, steps) && worlds[0] == start && worlds[|steps|] == v;
    PathExtends(c, worlds, steps, s);
    var worlds' := worlds + [u];
    assert worlds'[0] == start && worlds'[|steps + [s]|] == u;
  }

  lemma LeadsKeep(c: Setup, start: World, v: World)
    requires Sound(c) && Invariant(c, start) && Timely(start) && Leads(c, start, v)
    ensures Invariant(c, v) && Timely(v)
  {
    var worlds, steps :| IsPath(c, worlds, steps) && worlds[0] == start && worlds[|steps|] == v;
    PathInvariant(c, worlds, steps, |steps|);
  }

  ghost predicate Reachable(c: Setup, v: World) {
    exists start :: Initial(c, start) && Leads(c, start, v)
  }

  /** Reachable worlds are those at the end of runs. */
  lemma ReachableByRun(c: Setup, v: World)
    ensures Reachable(c, v) <==> exists worlds, steps :: IsRun(c, worlds, steps) && worlds[|steps|] == v
  {
    if Reachable(c, v) {
      var start :| Initial(c, start) && Leads(c, start, v);
      var worlds, steps :| IsPath(c, worlds, steps) && worlds[0] == start && worlds[|steps|] == v;
      assert IsRun(c, worlds, steps);
    }
    if worlds, steps :| IsRun(c, worlds, steps) && worlds[|steps|] == v {
      assert Leads(c, worlds[0], v);
    }
  }

  lemma ReachableMeans(c: Setup, v: World)
    requires Sound(c) && Reachable(c, v)
    ensures Invariant(c, v) && Timely(v)
  {
    var start :| Initial(c, start) && Leads(c, start, v);
    LeadsKeep(c, start, v);
  }

  // ---------- a few steps at a time ----------

  /** Ordinal i with a new pod of the revision the controller acts on, not Ready yet, some time later. */
  function Replaced(c: Setup, v: World, i: nat, ip: string, now: int): World {
    v.(pods := v.pods[i := Pod(v.nextId, RevisionOf(c, v.seenTemplate), ip, v.now, None)], nextId := v.nextId + 1, now := now)
  }

  function HeardFrom(v: World, i: nat, ips: seq<string>): World
    requires i in v.pods
  {
    v.(view := v.view[i := Heard(true, ips, Some(v.now), v.pods[i].id)])
  }

  function Readied(v: World, i: nat): World
    requires i in v.pods
  {
    v.(pods := v.pods[i := v.pods[i].(readyAt := Some(v.now))])
  }

  /** The controller acts on the spec and has reported so. */
  function CaughtUp(c: Setup, v: World): World {
    var status := v.sts.status.(observedGeneration := v.sts.generation, updateRevision := RevisionOf(c, v.sts.template));
    v.(sts := v.sts.(status := status), seenTemplate := v.sts.template, seenPartition := PartitionOf(v.sts),
       seenGeneration := v.sts.generation)
  }

  lemma LeadsToReplaced(c: Setup, start: World, v: World, i: nat, ip: string, now: int)
    requires Leads(c, start, v) && v.seenPartition <= i < c.n && v.now <= now
    ensures Leads(c, start, Replaced(c, v, i, ip, now))
  {
    var v1 := v;
    if i in v.pods {
      v1 := Follow(c, start, v, RemovePod(i));
    }
    var v2 := Follow(c, start, v1, CreatePod(i, ip));
    assert v2.pods == Replaced(c, v, i, ip, now).pods;
    var v3 := Follow(c, start, v2, Tick(now));
    assert v3 == Replaced(c, v, i, ip, now);
  }

  lemma LeadsToHeard(c: Setup, start: World, v: World, i: nat, ips: seq<string>)
    requires Leads(c, start, v) && i in v.pods
    ensures Leads(c, start, HeardFrom(v, i, ips))
  {
    var u := Follow(c, start, v, Heartbeat(i, ips));
  }

  lemma LeadsToReadied(c: Setup, start: World, v: World, i: nat)
    requires Leads(c, start, v) && i in v.pods && v.pods[i].readyAt.None?
    ensures Leads(c, start, Readied(v, i))
  {
    var u := Follow(c, start, v, PodReady(i));
  }

  lemma LeadsLater(c: Setup, start: World, v: World, now: int)
    requires Leads(c, start, v) && v.now <= now
    ensures Leads(c, start, v.(now := now))
  {
    var u := Follow(c, start, v, Tick(now));
  }

  lemma LeadsToCaughtUp(c: Setup, start: World, v: World)
    requires Leads(c, start, v)
    ensures Leads(c, start, CaughtUp(c, v))
  {
    var v1 := Follow(c, start, v, See);
    var v2 := Follow(c, start, v1, Report);
    assert v2 == CaughtUp(c, v);
  }

  /** A pass that finds the StatefulSet as it wants it. */
  lemma LeadsToWrote(c: Setup, start: World, v: World)
    requires Leads(c, start, v) && v.pass.Resting? && PassOutcome(c, v) == StsOutcome(v.sts, false)
    ensures Leads(c, start, v.(pass := Wrote(StsOutcome(v.sts, false))))
  {
    var u := Follow(c, start, v, PassWrites);
  }

  lemma LeadsToRelease(c: Setup, start: World, v: World, w: WalkInput, ordinals: seq<nat>, domains: seq<string>, written: bool)
    requires Leads(c, start, v) && Enabled(c, v, PassReads(w, ordinals, domains))
    ensures Leads(c, start, v.(
      sts := Patched(v.sts, w), status := NextStatus(v.status, Pass(w, written)), pass := Resting))
  {
    var v1 := Follow(c, start, v, PassReads(w, ordinals, domains));
    var v2 := Follow(c, start, v1, PassEnds(written));
  }

  // ---------- what nodes answer ----------

  const IP := "10.0.0.1"

  /** The version a node on the new template reports. */
  function TargetVersion(c: Setup): string {
    var target := ParsedImage(c.newT.image);
    if target.Some? then Printed(target.value) else ""
  }

  lemma TargetParses(c: Setup)
    ensures var target := ParsedImage(c.newT.image); target.Some? ==> Parsed(TargetVersion(c)) == target
  {
    var target := ParsedImage(c.newT.image);
    if target.Some? {
      PrintedParses(target.value);
    }
  }
}
