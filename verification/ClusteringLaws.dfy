/** What runs of clustering passes guarantee: init before join, and an honest report of convergence. */
module ClusteringLaws {
  import opened Clustering
  import opened Members
  import opened Options

  // ---------- init before join ----------

  /** No Secondary is a member while the Primary has no cluster. */
  predicate InitFirst(states: seq<ClusterState>) {
    forall i :: 0 < i < |states| && states[i].initialized ==> states[0].initialized
  }

  /** A call that was right to send, sent while InitFirst held. */
  predicate Proper(e: Event) {
    && InitFirst(e.before)
    && match e.call
       case InitCall(_) => !e.reported.initialized
       case JoinCall(_, _, _, _) => !e.reported.initialized && |e.before| > 0 && e.before[0].initialized
       case UpdateIpCall(_, _) => e.reported.initialized
  }

  predicate AllProper(log: seq<Event>) {
    forall e :: e in log ==> Proper(e)
  }

  predicate Safe(s: Servers) {
    |s.states| > 0 && InitFirst(s.states) && AllProper(s.log)
  }

  lemma SecondarySafe(s: Servers, env: PassEnv, c: Context, i: nat)
    requires Safe(s) && s.states[0].initialized && 0 < i < |s.states|
    ensures var p := Secondary(s, env, c, i); Safe(p.s) && p.s.states[0].initialized && |p.s.states| == |s.states|
  {
  }

  lemma {:induction false} SecondariesSafe(s: Servers, env: PassEnv, c: Context, i: nat, soFar: Outcome)
    requires Safe(s) && s.states[0].initialized && 0 < i && |s.states| == c.n
    ensures var p := Secondaries(s, env, c, i, soFar); Safe(p.s) && p.s.states[0].initialized
    decreases c.n - i
  {
    if i < c.n {
      SecondarySafe(s, env, c, i);
      var p := Secondary(s, env, c, i);
      if !p.outcome.Broken? {
        SecondariesSafe(p.s, env, c, i + 1, if p.outcome.Deferred? then Deferred else soFar);
      }
    }
  }

  lemma AfterInitSafe(s: Servers, env: PassEnv, cluster: string, domain: string)
    requires Safe(s) && s.states[0].initialized && PodReady(env, 0)
    ensures Safe(AfterInit(s, env, cluster, domain).0) && |AfterInit(s, env, cluster, domain).0.states| == |s.states|
  {
    var p := Refresh(s, env, 0, cluster, s.states[0], None, env.pods[0].ip);
    assert Safe(p.s) && p.s.states[0].initialized;
    SecondariesSafe(p.s, env, ContextOf(s, env, cluster, domain), 1, Fine);
  }

  lemma PassSafe(s: Servers, env: PassEnv, cluster: string, domain: string)
    requires Safe(s)
    ensures Safe(ClusterPass(s, env, cluster, domain).0)
    ensures |ClusterPass(s, env, cluster, domain).0.states| == |s.states|
  {
    if PodReady(env, 0) && env.client(0) && env.firstRead {
      if s.states[0].initialized {
        AfterInitSafe(s, env, cluster, domain);
      } else {
        var p := InitPrimary(s, env, cluster, domain);
        assert Safe(p.s);
        if !p.outcome.Broken? {
          AfterInitSafe(p.s, env, cluster, domain);
        }
      }
    }
  }

  /** Between passes anything may happen to the nodes, except a Secondary joining or the Primary leaving. */
  predicate Drift(a: seq<ClusterState>, b: seq<ClusterState>) {
    && |a| == |b| > 0
    && (a[0].initialized ==> b[0].initialized)
    && forall i :: 0 < i < |a| && b[i].initialized ==> a[i].initialized
  }

  /** Servers at the start of each pass and after the last; envs[k] is what pass k meets. */
  predicate ClusterRun(servers: seq<Servers>, envs: seq<PassEnv>, cluster: string, domain: string) {
    && |servers| == |envs| + 1
    && |servers[0].states| > 0
    && forall k {:trigger envs[k]} :: 0 <= k < |envs| ==>
         && |servers[k].states| > 0
         && var after := ClusterPass(servers[k], envs[k], cluster, domain).0;
            servers[k + 1].log == after.log && Drift(after.states, servers[k + 1].states)
  }

  /**
   Over any run from uninitialized nodes, whatever fails when: no Secondary is a
   member before the Primary is initialized, not even between two calls, and
   init and join go only to nodes that had reported no cluster, a join only once
   the Primary has one.
   */
  lemma {:induction false} InitBeforeJoin(servers: seq<Servers>, envs: seq<PassEnv>, cluster: string, domain: string, k: nat)
    requires ClusterRun(servers, envs, cluster, domain) && k < |servers|
    requires servers[0].log == [] && forall i :: 0 <= i < |servers[0].states| ==> !servers[0].states[i].initialized
    ensures InitFirst(servers[k].states) && AllProper(servers[k].log)
    decreases k
  {
    if k > 0 {
      InitBeforeJoin(servers, envs, cluster, domain, k - 1);
      var env := envs[k - 1];
      PassSafe(servers[k - 1], env, cluster, domain);
      var after := ClusterPass(servers[k - 1], env, cluster, domain).0;
      assert Drift(after.states, servers[k].states);
    }
  }

  /** A pass reports the cluster converged only if the Primary's final view lists every Secondary as joined. */
  lemma ConvergedMeansListed(s: Servers, env: PassEnv, cluster: string, domain: string)
    requires |s.states| > 0
    requires ClusterPass(s, env, cluster, domain).1 == Clustered(true)
    ensures var s' := ClusterPass(s, env, cluster, domain).0;
      && |s'.states| == |s.states|
      && s'.states[0].initialized
      && forall i :: 1 <= i < |s.states| ==>
           var m := FindMember(s'.states[0].nodes, PodName(cluster, i));
           m.Some? && m.value.state in {"Connected", "Self", "Ready"}
  {
    var start := if s.states[0].initialized then s else InitPrimary(s, env, cluster, domain).s;
    var p := Refresh(start, env, 0, cluster, start.states[0], None, env.pods[0].ip);
    PrimaryStays(p.s, env, ContextOf(start, env, cluster, domain), 1, Fine);
  }

  /** The loop over Secondaries never takes the Primary's cluster away. */
  lemma {:induction false} PrimaryStays(s: Servers, env: PassEnv, c: Context, i: nat, soFar: Outcome)
    requires 0 < i && |s.states| == c.n && s.states != [] && s.states[0].initialized
    ensures Secondaries(s, env, c, i, soFar).s.states[0].initialized
    decreases c.n - i
  {
    if i < c.n {
      var p := Secondary(s, env, c, i);
      assert p.s.states[0].initialized;
      if !p.outcome.Broken? {
        PrimaryStays(p.s, env, c, i + 1, if p.outcome.Deferred? then Deferred else soFar);
      }
    }
  }
}
