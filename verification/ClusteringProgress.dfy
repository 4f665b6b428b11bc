/**
 What a clustering pass gets done: which calls it sends and in which order, that
 every node is a member afterwards, when it reports success and when failure.
 */
module ClusteringProgress {
  import opened Calls
  import opened Clustering
  import opened IpRepair
  import opened Members
  import opened Options
  import opened Text

  // ---------- undisturbed passes ----------

  /** Ordinal i is Ready and reachable, nobody else touches it, and calls to it succeed. */
  predicate Reachable(env: PassEnv, i: nat) {
    && PodReady(env, i) && env.client(i) && env.answers(i) && !env.raced(i)
    && env.join(i).Succeeds? && env.update(i).Succeeds?
  }

  predicate Undisturbed(env: PassEnv, n: nat) {
    && env.firstRead && env.rereads && env.finalRead && env.init.Succeeds?
    && AllReachable(env, 0, n)
  }

  predicate AllReachable(env: PassEnv, i: nat, n: nat) {
    forall k :: i <= k < n ==> Reachable(env, k)
  }

  function IpOf(env: PassEnv, i: nat): string {
    if i in env.pods then env.pods[i].ip else ""
  }

  /** The call ordinal i is due, if any: a join for a node without a cluster, an address update where one is missing. */
  function Due(st: seq<ClusterState>, env: PassEnv, c: Context, i: nat): seq<ApiCall>
    requires 0 < i < |st|
  {
    var ip := IpOf(env, i);
    if !st[i].initialized then [JoinCall(i, ip, c.primaryName, c.primaryIp)]
    else if NeedsUpdate(st[i], FindMember(c.primaryNodes, PodName(c.cluster, i)), ip) then [UpdateIpCall(i, ip)]
    else []
  }

  function DueFrom(st: seq<ClusterState>, env: PassEnv, c: Context, i: nat): seq<ApiCall>
    requires 0 < i
    decreases |st| - i
  {
    if i >= |st| then [] else Due(st, env, c, i) + DueFrom(st, env, c, i + 1)
  }

  /** Some entry carries this name and these addresses. */
  predicate Carries(nodes: seq<ClusterNode>, name: string, ips: seq<string>) {
    exists m :: m in nodes && m.name == name && m.ips == ips
  }

  lemma {:induction false} SetMemberKeeps(nodes: seq<ClusterNode>, podName: string, ips: seq<string>, m: ClusterNode)
    requires m in nodes && !HasPrefix(m.name, podName + ".")
    ensures m in SetMemberIps(nodes, podName, ips)
  {
    if !HasPrefix(nodes[0].name, podName + ".") && m != nodes[0] {
      assert m in nodes[1..];
      SetMemberKeeps(nodes[1..], podName, ips, m);
    }
  }

  lemma {:induction false} BeatCarries(nodes: seq<ClusterNode>, beat: string -> string, name: string, ips: seq<string>)
    requires Carries(nodes, name, ips)
    ensures Carries(Beat(nodes, beat), name, ips)
  {
    var m :| m in nodes && m.name == name && m.ips == ips;
    var after := Beat(nodes, beat);
    if m == nodes[0] {
      assert after[0] in after && after[0].name == name && after[0].ips == ips;
    } else {
      assert m in nodes[1..];
      BeatCarries(nodes[1..], beat, name, ips);
      var m' :| m' in Beat(nodes[1..], beat) && m'.name == name && m'.ips == ips;
      assert m' in after;
    }
  }

  /** What one turn of the loop leaves. */
  predicate TurnDone(s: Servers, s': Servers, c: Context, i: nat)
    requires 0 < i < |s.states|
  {
    && |s'.states| == |s.states|
    && s'.states[i].initialized
    && (s.states[0].initialized ==> s'.states[0].initialized)
    && forall k :: 0 < k < |s.states| && k != i ==> s'.states[k] == s.states[k]
  }

  lemma TurnCalls(s: Servers, env: PassEnv, c: Context, i: nat)
    requires 0 < i < |s.states| && Reachable(env, i)
    ensures var p := Secondary(s, env, c, i);
      && p.outcome == Fine && TurnDone(s, p.s, c, i)
      && CallsOf(p.s.log) == CallsOf(s.log) + Due(s.states, env, c, i)
  {
    var p := Secondary(s, env, c, i);
    if Due(s.states, env, c, i) == [] {
      assert p.s == s && CallsOf(s.log) + [] == CallsOf(s.log);
    } else {
      CallsAppend(s.log, p.s.log[|s.log|]);
      assert p.s.log == s.log + [p.s.log[|s.log|]];
    }
  }

  /** A node that joins is listed by the Primary under its address. */
  lemma TurnLists(s: Servers, env: PassEnv, c: Context, i: nat)
    requires 0 < i < |s.states| && Reachable(env, i) && !s.states[i].initialized
    ensures Carries(Secondary(s, env, c, i).s.states[0].nodes, MemberName(c.cluster, i, c.domain), [env.pods[i].ip])
  {
    var nodes := Secondary(s, env, c, i).s.states[0].nodes;
    var entry := ClusterNode(MemberName(c.cluster, i, c.domain), [env.pods[i].ip], UNKNOWN, None);
    assert nodes == s.states[0].nodes + [entry];
    assert nodes[|s.states[0].nodes|] == entry;
  }

  /** And stays so through the turns of others. */
  lemma TurnKeepsListed(s: Servers, env: PassEnv, c: Context, i: nat, k: nat, ips: seq<string>)
    requires 0 < i < |s.states| && Reachable(env, i) && k != i
    requires Carries(s.states[0].nodes, MemberName(c.cluster, k, c.domain), ips)
    ensures Carries(Secondary(s, env, c, i).s.states[0].nodes, MemberName(c.cluster, k, c.domain), ips)
  {
    var name := MemberName(c.cluster, k, c.domain);
    var m :| m in s.states[0].nodes && m.name == name && m.ips == ips;
    MemberMatch(c.cluster, i, k, c.domain);
    SetMemberKeeps(s.states[0].nodes, PodName(c.cluster, i), [env.pods[i].ip], m);
    assert m in Secondary(s, env, c, i).s.states[0].nodes;
  }

  // ---------- the loop ----------

  lemma {:induction false} DueDepends(a: seq<ClusterState>, b: seq<ClusterState>, env: PassEnv, c: Context, i: nat)
    requires 0 < i && |a| == |b|
    requires forall k :: i <= k < |a| ==> a[k] == b[k]
    ensures DueFrom(a, env, c, i) == DueFrom(b, env, c, i)
    decreases |a| - i
  {
    if i < |a| {
      DueDepends(a, b, env, c, i + 1);
    }
  }

  lemma {:induction false} LoopCalls(s: Servers, env: PassEnv, c: Context, i: nat)
    requires 0 < i && |s.states| == c.n
    requires AllReachable(env, i, c.n)
    ensures var q := Secondaries(s, env, c, i, Fine);
      && q.outcome == Fine
      && CallsOf(q.s.log) == CallsOf(s.log) + DueFrom(s.states, env, c, i)
      && (forall k :: i <= k < c.n ==> q.s.states[k].initialized)
      && (forall k :: 0 < k < i && k < c.n ==> q.s.states[k] == s.states[k])
      && (c.n > 0 && s.states[0].initialized ==> q.s.states[0].initialized)
    decreases c.n - i
  {
    if i < c.n {
      TurnCalls(s, env, c, i);
      var mid := Secondary(s, env, c, i).s;
      LoopCalls(mid, env, c, i + 1);
      DueDepends(s.states, mid.states, env, c, i + 1);
      Regroup(CallsOf(s.log), Due(s.states, env, c, i), DueFrom(s.states, env, c, i + 1));
    } else {
      assert CallsOf(s.log) + [] == CallsOf(s.log);
    }
  }

  lemma {:induction false} LoopKeepsListed(s: Servers, env: PassEnv, c: Context, i: nat, k: nat, ips: seq<string>)
    requires 0 < i && |s.states| == c.n && k < i && c.n > 0
    requires AllReachable(env, i, c.n)
    requires Carries(s.states[0].nodes, MemberName(c.cluster, k, c.domain), ips)
    ensures Carries(Secondaries(s, env, c, i, Fine).s.states[0].nodes, MemberName(c.cluster, k, c.domain), ips)
    decreases c.n - i
  {
    if i < c.n {
      TurnCalls(s, env, c, i);
      TurnKeepsListed(s, env, c, i, k, ips);
      LoopKeepsListed(Secondary(s, env, c, i).s, env, c, i + 1, k, ips);
    }
  }

  lemma {:induction false} LoopLists(s: Servers, env: PassEnv, c: Context, i: nat, k: nat)
    requires 0 < i && |s.states| == c.n && i <= k < c.n && !s.states[k].initialized
    requires AllReachable(env, i, c.n)
    ensures k in env.pods
    ensures Carries(Secondaries(s, env, c, i, Fine).s.states[0].nodes, MemberName(c.cluster, k, c.domain), [env.pods[k].ip])
    decreases c.n - i
  {
    TurnCalls(s, env, c, i);
    var mid := Secondary(s, env, c, i).s;
    assert Reachable(env, k);
    if i == k {
      TurnLists(s, env, c, i);
      LoopKeepsListed(mid, env, c, i + 1, k, [env.pods[k].ip]);
    } else {
      LoopLists(mid, env, c, i + 1, k);
    }
  }

  // ---------- the pass ----------

  /** What the Primary goes by when joins are sent: what it reports, or its name in the new cluster. */
  function PrimaryName(s: Servers, cluster: string, domain: string): string
    requires |s.states| > 0
  {
    if s.states[0].initialized && s.states[0].domain != "" then s.states[0].domain else MemberName(cluster, 0, domain)
  }

  /** The Primary once it has a cluster. */
  function Founded(s: Servers, env: PassEnv, cluster: string, domain: string): Servers
    requires |s.states| > 0 && PodReady(env, 0)
  {
    if s.states[0].initialized then s else InitPrimary(s, env, cluster, domain).s
  }

  function Began(s: Servers, env: PassEnv): seq<ApiCall>
    requires |s.states| > 0 && PodReady(env, 0)
  {
    if s.states[0].initialized then [] else [InitCall(env.pods[0].ip)]
  }

  /** The Primary's own address update, if its Self entry lacks the pod's IP; a Primary just founded has it. */
  function PrimaryDue(s: Servers, env: PassEnv): seq<ApiCall>
    requires |s.states| > 0 && PodReady(env, 0)
  {
    if NeedsUpdate(s.states[0], None, env.pods[0].ip) then [UpdateIpCall(0, env.pods[0].ip)] else []
  }

  lemma FoundedMeans(s: Servers, env: PassEnv, cluster: string, domain: string)
    requires |s.states| > 0 && Undisturbed(env, |s.states|)
    ensures PodReady(env, 0)
    ensures var f := Founded(s, env, cluster, domain);
      && |f.states| == |s.states| && f.states[0].initialized && f.states[1..] == s.states[1..]
      && CallsOf(f.log) == CallsOf(s.log) + Began(s, env)
      && ContextOf(f, env, cluster, domain).primaryName == PrimaryName(s, cluster, domain)
      && PrimaryDue(f, env) == PrimaryDue(s, env)
  {
    assert Reachable(env, 0);
    if s.states[0].initialized {
      assert CallsOf(s.log) + [] == CallsOf(s.log);
    } else {
      CallsAppend(s.log, Event(InitCall(env.pods[0].ip), s.states[0], s.states));
      MemberNameNotEmpty(cluster, domain);
    }
  }

  lemma MemberNameNotEmpty(cluster: string, domain: string)
    ensures MemberName(cluster, 0, domain) != ""
  {
    assert |MemberName(cluster, 0, domain)| >= 1;
  }

  /** The Primary's repair. */
  function Repaired0(s: Servers, env: PassEnv, cluster: string): Servers
    requires |s.states| > 0 && PodReady(env, 0)
  {
    Refresh(s, env, 0, cluster, s.states[0], None, env.pods[0].ip).s
  }

  lemma PrimaryTurn(s: Servers, env: PassEnv, cluster: string)
    requires |s.states| > 0 && PodReady(env, 0) && env.update(0).Succeeds?
    ensures Refresh(s, env, 0, cluster, s.states[0], None, env.pods[0].ip).outcome == Fine
    ensures var r := Repaired0(s, env, cluster);
      && |r.states| == |s.states| && (s.states[0].initialized ==> r.states[0].initialized) && r.states[1..] == s.states[1..]
      && CallsOf(r.log) == CallsOf(s.log) + PrimaryDue(s, env)
  {
    if NeedsUpdate(s.states[0], None, env.pods[0].ip) {
      CallsAppend(s.log, Event(UpdateIpCall(0, env.pods[0].ip), s.states[0], s.states));
    } else {
      assert CallsOf(s.log) + [] == CallsOf(s.log);
    }
  }

  /** The whole of an undisturbed pass, in stages. */
  lemma PassStages(s: Servers, env: PassEnv, cluster: string, domain: string)
    requires |s.states| > 0 && Undisturbed(env, |s.states|)
    ensures PodReady(env, 0)
    ensures var f := Founded(s, env, cluster, domain);
      var q := Secondaries(Repaired0(f, env, cluster), env, ContextOf(f, env, cluster, domain), 1, Fine);
      q.outcome == Fine ==>
        ClusterPass(s, env, cluster, domain) ==
        (Beaten(q.s, env), Clustered(AllListed(Beaten(q.s, env).states[0].nodes, cluster, 1, |s.states|)))
  {
    assert Reachable(env, 0);
    FoundedMeans(s, env, cluster, domain);
    PrimaryTurn(Founded(s, env, cluster, domain), env, cluster);
  }

  /** The calls of an undisturbed pass. */
  function PassCalls(s: Servers, env: PassEnv, cluster: string, domain: string): seq<ApiCall>
    requires |s.states| > 0 && Undisturbed(env, |s.states|)
  {
    assert Reachable(env, 0);
    var c := Context(cluster, domain, |s.states|, Founded(s, env, cluster, domain).states[0].nodes,
                     PrimaryName(s, cluster, domain), env.pods[0].ip);
    Began(s, env) + PrimaryDue(s, env) + DueFrom(s.states, env, c, 1)
  }

  /**
   An undisturbed pass founds the cluster if there is none, corrects the Primary's
   address, and then goes through the Secondaries in order: those without a
   cluster are told to join under their own address, with the Primary's reported
   name and address; the others get the address update they are owed. Afterwards
   every node is a member, and those that joined are listed by the Primary.
   */
  lemma PassJoins(s: Servers, env: PassEnv, cluster: string, domain: string)
    requires |s.states| > 0 && Undisturbed(env, |s.states|)
    ensures var (s', r) := ClusterPass(s, env, cluster, domain);
      && CallsOf(s'.log) == CallsOf(s.log) + PassCalls(s, env, cluster, domain)
      && |s'.states| == |s.states|
      && (forall i :: 0 <= i < |s.states| ==> s'.states[i].initialized)
      && (forall i :: 0 < i < |s.states| && !s.states[i].initialized ==>
            i in env.pods && Carries(s'.states[0].nodes, MemberName(cluster, i, domain), [env.pods[i].ip]))
      && r == Clustered(AllListed(s'.states[0].nodes, cluster, 1, |s.states|))
  {
    FoundedMeans(s, env, cluster, domain);
    var f := Founded(s, env, cluster, domain);
    assert Reachable(env, 0);
    PrimaryTurn(f, env, cluster);
    var g, c := Repaired0(f, env, cluster), ContextOf(f, env, cluster, domain);
    assert forall k :: 0 < k < |s.states| ==> g.states[k] == s.states[k] by {
      forall k | 0 < k < |s.states| ensures g.states[k] == s.states[k] {
        assert g.states[k] == g.states[1..][k - 1] && s.states[k] == s.states[1..][k - 1] && f.states[k] == f.states[1..][k - 1];
      }
    }
    LoopCalls(g, env, c, 1);
    PassStages(s, env, cluster, domain);
    var q := Secondaries(g, env, c, 1, Fine).s;
    CallsInAll(s, env, cluster, domain, f, g, q);
    forall i | 0 < i < |s.states| && !s.states[i].initialized
      ensures i in env.pods && Carries(Beaten(q, env).states[0].nodes, MemberName(cluster, i, domain), [env.pods[i].ip])
    {
      LoopLists(g, env, c, 1, i);
      BeatCarries(q.states[0].nodes, env.beat, MemberName(cluster, i, domain), [env.pods[i].ip]);
    }
  }

  lemma CallsInAll(s: Servers, env: PassEnv, cluster: string, domain: string, f: Servers, g: Servers, q: Servers)
    requires |s.states| > 0 && Undisturbed(env, |s.states|) && PodReady(env, 0)
    requires f == Founded(s, env, cluster, domain) && |f.states| == |g.states| == |s.states|
    requires CallsOf(f.log) == CallsOf(s.log) + Began(s, env)
    requires CallsOf(g.log) == CallsOf(f.log) + PrimaryDue(s, env)
    requires ContextOf(f, env, cluster, domain).primaryName == PrimaryName(s, cluster, domain)
    requires forall k :: 0 < k < |s.states| ==> g.states[k] == s.states[k]
    requires CallsOf(q.log) == CallsOf(g.log) + DueFrom(g.states, env, ContextOf(f, env, cluster, domain), 1)
    ensures CallsOf(q.log) == CallsOf(s.log) + PassCalls(s, env, cluster, domain)
  {
    var c := ContextOf(f, env, cluster, domain);
    DueDepends(g.states, s.states, env, c, 1);
    var d := Context(cluster, domain, |s.states|, f.states[0].nodes, PrimaryName(s, cluster, domain), env.pods[0].ip);
    assert c == d;
    RegroupAll(CallsOf(s.log), Began(s, env), PrimaryDue(s, env), DueFrom(s.states, env, d, 1));
  }

  lemma RegroupAll(a: seq<ApiCall>, x: seq<ApiCall>, y: seq<ApiCall>, z: seq<ApiCall>)
    ensures ((a + x) + y) + z == a + (x + y + z)
  {
  }

  // ---------- convergence ----------

  /** The Primary lists an entry for ordinal k. */
  predicate Enlists(nodes: seq<ClusterNode>, cluster: string, k: nat) {
    FindMember(nodes, PodName(cluster, k)).Some?
  }

  lemma {:induction false} SetSelfLists(nodes: seq<ClusterNode>, ips: seq<string>, cluster: string, k: nat)
    requires Enlists(nodes, cluster, k)
    ensures Enlists(SetSelfIps(nodes, ips), cluster, k)
  {
    if nodes[0].state != SELF && !HasPrefix(nodes[0].name, PodName(cluster, k) + ".") {
      SetSelfLists(nodes[1..], ips, cluster, k);
    }
  }

  lemma {:induction false} AppendLists(nodes: seq<ClusterNode>, m: ClusterNode, cluster: string, k: nat)
    requires Enlists(nodes, cluster, k)
    ensures Enlists(nodes + [m], cluster, k)
  {
    assert (nodes + [m])[1..] == nodes[1..] + [m];
    if !HasPrefix(nodes[0].name, PodName(cluster, k) + ".") {
      AppendLists(nodes[1..], m, cluster, k);
    }
  }

  lemma SetMemberLists(nodes: seq<ClusterNode>, ips: seq<string>, cluster: string, i: nat, k: nat)
    requires Enlists(nodes, cluster, k)
    ensures Enlists(SetMemberIps(nodes, PodName(cluster, i), ips), cluster, k)
  {
    if i == k {
      SetMemberLaws(nodes, PodName(cluster, i), ips);
    } else {
      SetMemberOthers(nodes, cluster, i, ips, k);
    }
  }

  lemma TurnKeepsLists(s: Servers, env: PassEnv, c: Context, i: nat, k: nat)
    requires 0 < i < |s.states| && Enlists(s.states[0].nodes, c.cluster, k)
    ensures Enlists(Secondary(s, env, c, i).s.states[0].nodes, c.cluster, k)
  {
    var ip := IpOf(env, i);
    SetMemberLists(s.states[0].nodes, [ip], c.cluster, i, k);
    AppendLists(s.states[0].nodes, ClusterNode(MemberName(c.cluster, i, c.domain), [ip], UNKNOWN, None), c.cluster, k);
  }

  lemma {:induction false} LoopKeepsLists(s: Servers, env: PassEnv, c: Context, i: nat, soFar: Outcome, k: nat)
    requires 0 < i && |s.states| == c.n && c.n > 0 && Enlists(s.states[0].nodes, c.cluster, k)
    ensures Enlists(Secondaries(s, env, c, i, soFar).s.states[0].nodes, c.cluster, k)
    decreases c.n - i
  {
    if i < c.n {
      TurnKeepsLists(s, env, c, i, k);
      var p := Secondary(s, env, c, i);
      if !p.outcome.Broken? {
        LoopKeepsLists(p.s, env, c, i + 1, if p.outcome.Deferred? then Deferred else soFar, k);
      }
    }
  }

  lemma CarriesLists(nodes: seq<ClusterNode>, cluster: string, k: nat, domain: string, ips: seq<string>)
    requires Carries(nodes, MemberName(cluster, k, domain), ips)
    ensures Enlists(nodes, cluster, k)
  {
    var m :| m in nodes && m.name == MemberName(cluster, k, domain) && m.ips == ips;
    MemberMatch(cluster, k, k, domain);
  }

  /** Members are members of the Primary's cluster, which lists them. */
  predicate Accounted(st: seq<ClusterState>, cluster: string) {
    forall i :: 0 < i < |st| && st[i].initialized ==> st[0].initialized && Enlists(st[0].nodes, cluster, i)
  }

  /** After an undisturbed pass every Secondary is listed. */
  lemma PassAccounts(s: Servers, env: PassEnv, cluster: string, domain: string)
    requires |s.states| > 0 && Undisturbed(env, |s.states|) && Accounted(s.states, cluster)
    ensures var s' := ClusterPass(s, env, cluster, domain).0;
      && |s'.states| == |s.states| && (forall i :: 0 <= i < |s.states| ==> s'.states[i].initialized)
      && forall i :: 0 < i < |s.states| ==> Enlists(s'.states[0].nodes, cluster, i)
  {
    PassJoins(s, env, cluster, domain);
    var s' := ClusterPass(s, env, cluster, domain).0;
    forall i | 0 < i < |s.states| ensures Enlists(s'.states[0].nodes, cluster, i) {
      if s.states[i].initialized {
        PassKeepsLists(s, env, cluster, domain, i);
      } else {
        CarriesLists(s'.states[0].nodes, cluster, i, domain, [env.pods[i].ip]);
      }
    }
  }

  lemma PassKeepsLists(s: Servers, env: PassEnv, cluster: string, domain: string, k: nat)
    requires |s.states| > 0 && Undisturbed(env, |s.states|) && s.states[0].initialized && Enlists(s.states[0].nodes, cluster, k)
    ensures Enlists(ClusterPass(s, env, cluster, domain).0.states[0].nodes, cluster, k)
  {
    FoundedMeans(s, env, cluster, domain);
    assert Reachable(env, 0);
    PrimaryTurn(s, env, cluster);
    SetSelfLists(s.states[0].nodes, [env.pods[0].ip], cluster, k);
    var g, c := Repaired0(s, env, cluster), ContextOf(s, env, cluster, domain);
    LoopCalls(g, env, c, 1);
    LoopKeepsLists(g, env, c, 1, Fine, k);
    PassStages(s, env, cluster, domain);
    BeatLaws(Secondaries(g, env, c, 1, Fine).s.states[0].nodes, env.beat, PodName(cluster, k));
  }

  lemma {:induction false} BeatJoins(nodes: seq<ClusterNode>, beat: string -> string, m: ClusterNode)
    requires (forall name :: beat(name) == CONNECTED) && m in Beat(nodes, beat)
    ensures NodeJoined(m.state)
  {
    if m in Beat(nodes[1..], beat) {
      BeatJoins(nodes[1..], beat, m);
    }
  }

  /** Once everyone is listed, an undisturbed pass by whose end the Primary is connected to all reports success. */
  lemma ListedConverges(s: Servers, env: PassEnv, cluster: string, domain: string)
    requires |s.states| > 0 && Undisturbed(env, |s.states|) && s.states[0].initialized
    requires forall i :: 0 < i < |s.states| ==> Enlists(s.states[0].nodes, cluster, i)
    requires forall name :: env.beat(name) == CONNECTED
    ensures ClusterPass(s, env, cluster, domain).1 == Clustered(true)
  {
    PassJoins(s, env, cluster, domain);
    var nodes := ClusterPass(s, env, cluster, domain).0.states[0].nodes;
    FinalIsBeaten(s, env, cluster, domain);
    forall k | 1 <= k < |s.states|
      ensures FindMember(nodes, PodName(cluster, k)).Some? && NodeJoined(FindMember(nodes, PodName(cluster, k)).value.state)
    {
      PassKeepsLists(s, env, cluster, domain, k);
      var m := FindMember(nodes, PodName(cluster, k)).value;
      var before :| nodes == Beat(before, env.beat);
      BeatJoins(before, env.beat, m);
    }
  }

  lemma FinalIsBeaten(s: Servers, env: PassEnv, cluster: string, domain: string)
    requires |s.states| > 0 && Undisturbed(env, |s.states|)
    ensures |ClusterPass(s, env, cluster, domain).0.states| > 0
    ensures exists before :: ClusterPass(s, env, cluster, domain).0.states[0].nodes == Beat(before, env.beat)
  {
    FoundedMeans(s, env, cluster, domain);
    assert Reachable(env, 0);
    var f := Founded(s, env, cluster, domain);
    PrimaryTurn(f, env, cluster);
    var c := ContextOf(f, env, cluster, domain);
    LoopCalls(Repaired0(f, env, cluster), env, c, 1);
    PassStages(s, env, cluster, domain);
    var q := Secondaries(Repaired0(f, env, cluster), env, c, 1, Fine).s;
    assert Beaten(q, env).states[0].nodes == Beat(q.states[0].nodes, env.beat);
  }

  /** From nodes without a cluster, one undisturbed pass and one by whose end the Primary is connected to all suffice. */
  lemma TwoPassesConverge(s: Servers, first: PassEnv, second: PassEnv, cluster: string, domain: string)
    requires |s.states| > 0 && Accounted(s.states, cluster)
    requires Undisturbed(first, |s.states|) && Undisturbed(second, |s.states|)
    requires forall name :: second.beat(name) == CONNECTED
    ensures var s' := ClusterPass(s, first, cluster, domain).0;
      |s'.states| == |s.states| && ClusterPass(s', second, cluster, domain).1 == Clustered(true)
  {
    PassAccounts(s, first, cluster, domain);
    ListedConverges(ClusterPass(s, first, cluster, domain).0, second, cluster, domain);
  }

  // ---------- failures ----------

  /** How a call of this pass ends. */
  function EndOf(env: PassEnv, call: ApiCall): Call {
    match call
    case InitCall(_) => env.init
    case JoinCall(i, _, _, _) => env.join(i)
    case UpdateIpCall(i, _) => env.update(i)
  }

  predicate Failed(env: PassEnv, e: Event) {
    !EndOf(env, e.call).Succeeds?
  }

  /** Only the last of the calls may have failed. */
  predicate StopsAtFailure(env: PassEnv, events: seq<Event>) {
    forall k :: 0 <= k < |events| - 1 ==> !Failed(env, events[k])
  }

  predicate LastFailed(env: PassEnv, events: seq<Event>) {
    events != [] && Failed(env, events[|events| - 1])
  }

  /** A client that was needed could not be built. */
  predicate NoClient(env: PassEnv, i: nat, n: nat) {
    exists j :: i <= j < n && PodReady(env, j) && !env.client(j)
  }

  /** Everyone from i up was Ready and answered. */
  predicate AllAsked(env: PassEnv, i: nat, n: nat) {
    forall j :: i <= j < n ==> PodReady(env, j) && env.client(j) && env.answers(j)
  }

  lemma RefreshEnds(
    s: Servers, env: PassEnv, i: nat, cluster: string, state: ClusterState, view: Option<ClusterNode>, ip: string)
    returns (events: seq<Event>)
    requires i < |s.states|
    ensures var p := Refresh(s, env, i, cluster, state, view, ip);
      && p.s.log == s.log + events && |events| <= 1 && |p.s.states| == |s.states|
      && p.outcome == if LastFailed(env, events) then Broken else Fine
  {
    events := if NeedsUpdate(state, view, ip) then [Event(UpdateIpCall(i, ip), state, s.states)] else [];
  }

  lemma TurnEnds(s: Servers, env: PassEnv, c: Context, i: nat) returns (events: seq<Event>)
    requires 0 < i < |s.states|
    ensures var p := Secondary(s, env, c, i);
      && p.s.log == s.log + events && |events| <= 1 && |p.s.states| == |s.states|
      && (LastFailed(env, events) ==> p.outcome == Broken)
      && (p.outcome == Broken ==> LastFailed(env, events) || (PodReady(env, i) && !env.client(i)))
      && (p.outcome == Fine ==> PodReady(env, i) && env.client(i) && env.answers(i))
  {
    events := [];
    if PodReady(env, i) && env.client(i) && env.answers(i) {
      var state, ip := s.states[i], env.pods[i].ip;
      if state.initialized {
        events := RefreshEnds(s, env, i, c.cluster, state, FindMember(c.primaryNodes, PodName(c.cluster, i)), ip);
      } else {
        events := [Event(JoinCall(i, ip, c.primaryName, c.primaryIp), state, Race(s, i, env.raced(i)).states)];
      }
    }
  }

  lemma {:induction false} LoopEnds(s: Servers, env: PassEnv, c: Context, i: nat, soFar: Outcome) returns (events: seq<Event>)
    requires 0 < i && |s.states| == c.n && !soFar.Broken?
    ensures var q := Secondaries(s, env, c, i, soFar);
      && q.s.log == s.log + events && StopsAtFailure(env, events)
      && (LastFailed(env, events) ==> q.outcome == Broken)
      && (q.outcome == Broken ==> LastFailed(env, events) || NoClient(env, i, c.n))
      && (q.outcome == Fine ==> soFar == Fine && AllAsked(env, i, c.n))
    decreases c.n - i
  {
    events := [];
    if i < c.n {
      var first := TurnEnds(s, env, c, i);
      var p := Secondary(s, env, c, i);
      events := first;
      if !p.outcome.Broken? {
        var rest := LoopEnds(p.s, env, c, i + 1, if p.outcome.Deferred? then Deferred else soFar);
        events := first + rest;
      }
    }
  }

  /**
   A pass stops at the first call that fails, and reports failure then. Otherwise
   it reports failure only if a client it needed could not be built, or the
   Primary could not be read again after init. It reports success only if every
   pod was Ready and every node answered.
   */
  lemma PassEndsAs(s: Servers, env: PassEnv, cluster: string, domain: string) returns (events: seq<Event>)
    requires |s.states| > 0
    ensures var (s', r) := ClusterPass(s, env, cluster, domain);
      && s'.log == s.log + events && StopsAtFailure(env, events)
      && (LastFailed(env, events) ==> r == ClusterFailed)
      && (r == ClusterFailed ==>
            LastFailed(env, events) || NoClient(env, 0, |s.states|) || (!s.states[0].initialized && !env.rereads))
      && (r == Clustered(true) ==> env.firstRead && env.finalRead && AllAsked(env, 1, |s.states|) && PodReady(env, 0) && env.client(0))
  {
    events := [];
    if PodReady(env, 0) && env.client(0) && env.firstRead {
      if s.states[0].initialized {
        events := AfterInitEnds(s, env, cluster, domain);
      } else {
        var first := [Event(InitCall(env.pods[0].ip), s.states[0], Race(s, 0, env.raced(0)).states)];
        var p := InitPrimary(s, env, cluster, domain);
        assert p.s.log == s.log + first;
        events := first;
        if !p.outcome.Broken? {
          var rest := AfterInitEnds(p.s, env, cluster, domain);
          events := first + rest;
        }
      }
    }
  }

  lemma AfterInitEnds(s: Servers, env: PassEnv, cluster: string, domain: string) returns (events: seq<Event>)
    requires |s.states| > 0 && PodReady(env, 0)
    ensures var (s', r) := AfterInit(s, env, cluster, domain);
      && s'.log == s.log + events && StopsAtFailure(env, events)
      && (LastFailed(env, events) ==> r == ClusterFailed)
      && (r == ClusterFailed ==> LastFailed(env, events) || NoClient(env, 1, |s.states|))
      && (r == Clustered(true) ==> env.finalRead && AllAsked(env, 1, |s.states|))
  {
    var first := RefreshEnds(s, env, 0, cluster, s.states[0], None, env.pods[0].ip);
    var p := Refresh(s, env, 0, cluster, s.states[0], None, env.pods[0].ip);
    events := first;
    if !p.outcome.Broken? {
      var rest := LoopEnds(p.s, env, ContextOf(s, env, cluster, domain), 1, Fine);
      events := first + rest;
    }
  }
}
