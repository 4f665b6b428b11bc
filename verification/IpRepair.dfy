/**
 Address repair converges: with every node joined and reachable, each pass
 re-sends exactly for the nodes whose own or Primary-held record lacks the pod
 IP, and once every push has been delivered no pass sends anything.
 */
module IpRepair {
  import opened Clustering
  import opened Members
  import opened Options
  import opened Text

  // ---------- member lists under address updates ----------

  /** No node name can be taken for two ordinals. */
  lemma NoDoubleMatch(name: string, cluster: string, i: nat, j: nat)
    requires HasPrefix(name, PodName(cluster, i) + ".") && HasPrefix(name, PodName(cluster, j) + ".")
    ensures i == j
  {
    var stem := cluster + "-";
    var a, b := Decimal(i), Decimal(j);
    var rest := name[|stem|..];
    assert PodName(cluster, i) + "." == stem + (a + ".");
    assert PodName(cluster, j) + "." == stem + (b + ".");
    assert rest[..|a| + 1] == name[..|stem| + |a| + 1][|stem|..] == a + ".";
    assert rest[..|b| + 1] == name[..|stem| + |b| + 1][|stem|..] == b + ".";
    assert rest == (b + ".") + rest[|b| + 1..];
    assert rest == b + "." + rest[|b| + 1..];
    DigitsBeforeDot(a, b, rest[|b| + 1..]);
    DecimalInjective(i, j);
  }

  lemma {:induction false} SetSelfLaws(nodes: seq<ClusterNode>, ips: seq<string>, podName: string)
    ensures FirstSelf(SetSelfIps(nodes, ips)) ==
      if FirstSelf(nodes).None? then None else Some(FirstSelf(nodes).value.(ips := ips))
    ensures FirstSelf(nodes).Some? && !HasPrefix(FirstSelf(nodes).value.name, podName + ".") ==>
      FindMember(SetSelfIps(nodes, ips), podName) == FindMember(nodes, podName)
  {
    if nodes != [] && nodes[0].state != SELF {
      SetSelfLaws(nodes[1..], ips, podName);
    }
  }

  lemma {:induction false} SetMemberLaws(nodes: seq<ClusterNode>, podName: string, ips: seq<string>)
    ensures FindMember(SetMemberIps(nodes, podName, ips), podName) ==
      if FindMember(nodes, podName).None? then None else Some(FindMember(nodes, podName).value.(ips := ips))
    ensures FirstSelf(nodes).Some? && !HasPrefix(FirstSelf(nodes).value.name, podName + ".") ==>
      FirstSelf(SetMemberIps(nodes, podName, ips)) == FirstSelf(nodes)
  {
    if nodes != [] && !HasPrefix(nodes[0].name, podName + ".") {
      SetMemberLaws(nodes[1..], podName, ips);
    }
  }

  lemma {:induction false} SetMemberOthers(nodes: seq<ClusterNode>, cluster: string, i: nat, ips: seq<string>, j: nat)
    requires i != j
    ensures FindMember(SetMemberIps(nodes, PodName(cluster, i), ips), PodName(cluster, j)) ==
            FindMember(nodes, PodName(cluster, j))
  {
    if nodes != [] {
      if HasPrefix(nodes[0].name, PodName(cluster, i) + ".") {
        if HasPrefix(nodes[0].name, PodName(cluster, j) + ".") {
          NoDoubleMatch(nodes[0].name, cluster, i, j);
        }
      } else {
        SetMemberOthers(nodes[1..], cluster, i, ips, j);
      }
    }
  }

  lemma {:induction false} BeatLaws(nodes: seq<ClusterNode>, beat: string -> string, podName: string)
    ensures FirstSelf(Beat(nodes, beat)) == FirstSelf(nodes)
    ensures FindMember(Beat(nodes, beat), podName).Some? <==> FindMember(nodes, podName).Some?
    ensures FindMember(nodes, podName).Some? ==>
      FindMember(Beat(nodes, beat), podName).value.ips == FindMember(nodes, podName).value.ips
  {
    if nodes != [] {
      BeatLaws(nodes[1..], beat, podName);
    }
  }

  // ---------- what is recorded ----------

  predicate Joined(st: seq<ClusterState>, i: nat) {
    i < |st| && st[i].initialized && FirstSelf(st[i].nodes).Some?
  }

  /** The addresses ordinal i records for itself. */
  function OwnIps(st: seq<ClusterState>, i: nat): seq<string>
    requires Joined(st, i)
  {
    FirstSelf(st[i].nodes).value.ips
  }

  /** The Primary's record of ordinal i. */
  function Entry(st: seq<ClusterState>, cluster: string, i: nat): Option<ClusterNode> {
    if st == [] then None else FindMember(st[0].nodes, PodName(cluster, i))
  }

  /** Every node joined, every Secondary listed, and the Primary's Self entry its own. */
  predicate Assembled(st: seq<ClusterState>, cluster: string) {
    && |st| > 0
    && Joined(st, 0) && HasPrefix(FirstSelf(st[0].nodes).value.name, PodName(cluster, 0) + ".")
    && forall i {:trigger st[i]} :: 0 < i < |st| ==> Joined(st, i) && Entry(st, cluster, i).Some?
  }

  /** Every pod ready at its IP, every node reachable, every update call succeeding. */
  predicate Calm(env: PassEnv, ips: seq<string>) {
    && env.firstRead
    && forall i {:trigger ips[i]} :: 0 <= i < |ips| ==>
         && i in env.pods && env.pods[i].ready && env.pods[i].ip == ips[i]
         && env.client(i) && env.answers(i) && env.update(i).Succeeds?
  }

  predicate OwnLacks(st: seq<ClusterState>, ip: string, i: nat) {
    Joined(st, i) && ip !in OwnIps(st, i)
  }

  predicate PrimaryLacks(st: seq<ClusterState>, cluster: string, ip: string, i: nat) {
    i != 0 && Entry(st, cluster, i).Some? && ip !in Entry(st, cluster, i).value.ips
  }

  predicate Lacks(st: seq<ClusterState>, cluster: string, ip: string, i: nat) {
    OwnLacks(st, ip, i) || PrimaryLacks(st, cluster, ip, i)
  }

  /** The update ordinal i is owed, if any. */
  function OwedTo(st: seq<ClusterState>, cluster: string, ips: seq<string>, i: nat): seq<ApiCall>
    requires i < |ips|
  {
    if Lacks(st, cluster, ips[i], i) then [UpdateIpCall(i, ips[i])] else []
  }

  /** The updates owed from ordinal i up, in order. */
  function Owed(st: seq<ClusterState>, cluster: string, ips: seq<string>, i: nat): seq<ApiCall>
    requires i <= |ips|
    decreases |ips| - i
  {
    if i == |ips| then [] else OwedTo(st, cluster, ips, i) + Owed(st, cluster, ips, i + 1)
  }

  function CallsOf(log: seq<Event>): seq<ApiCall> {
    seq(|log|, k requires 0 <= k < |log| => log[k].call)
  }

  /** Records of ordinal k are the same in both. */
  predicate SameRecords(a: seq<ClusterState>, b: seq<ClusterState>, cluster: string, k: nat) {
    && Joined(a, k) && Joined(b, k) && OwnIps(a, k) == OwnIps(b, k)
    && (k != 0 ==>
          && Entry(a, cluster, k).Some? && Entry(b, cluster, k).Some?
          && Entry(a, cluster, k).value.ips == Entry(b, cluster, k).value.ips)
  }

  predicate SameExcept(a: seq<ClusterState>, b: seq<ClusterState>, cluster: string, i: nat) {
    |a| == |b| && forall k {:trigger a[k]} {:trigger b[k]} :: 0 <= k < |a| && k != i ==> SameRecords(a, b, cluster, k)
  }

  /** Ordinal k's own record is right, and the Primary's unless its push was lost. */
  predicate Repaired(a: seq<ClusterState>, b: seq<ClusterState>, cluster: string, ip: string, k: nat, delivered: bool) {
    && Joined(b, k) && !OwnLacks(b, ip, k)
    && (PrimaryLacks(b, cluster, ip, k) <==> PrimaryLacks(a, cluster, ip, k) && !delivered)
  }

  lemma RepairedVia(a: seq<ClusterState>, m: seq<ClusterState>, b: seq<ClusterState>, cluster: string, ip: string, k: nat, d: bool)
    requires
      || (SameRecords(a, m, cluster, k) && Repaired(m, b, cluster, ip, k, d))
      || (Repaired(a, m, cluster, ip, k, d) && SameRecords(m, b, cluster, k))
    ensures Repaired(a, b, cluster, ip, k, d)
  {
  }

  lemma StaysAssembled(a: seq<ClusterState>, b: seq<ClusterState>, cluster: string, i: nat)
    requires Assembled(a, cluster) && SameExcept(a, b, cluster, i) && i < |a|
    requires Joined(b, i) && (i != 0 ==> Entry(b, cluster, i).Some?)
    requires FirstSelf(b[0].nodes).Some? && FirstSelf(b[0].nodes).value.name == FirstSelf(a[0].nodes).value.name
    ensures Assembled(b, cluster)
  {
    assert Joined(b, 0) by { var _ := a[0]; }
    forall k | 0 < k < |b| ensures Joined(b, k) && Entry(b, cluster, k).Some? {
      if k != i {
        assert SameRecords(a, b, cluster, k) by { var _ := a[k]; }
      }
    }
  }

  // ---------- one update ----------

  /** What a delivered push does to the Primary's list. */
  lemma PushLaws(nodes: seq<ClusterNode>, cluster: string, i: nat, ip: string)
    requires FirstSelf(nodes).Some? && HasPrefix(FirstSelf(nodes).value.name, PodName(cluster, 0) + ".")
    requires i != 0 && FindMember(nodes, PodName(cluster, i)).Some?
    ensures var nodes' := SetMemberIps(nodes, PodName(cluster, i), [ip]);
      && FirstSelf(nodes') == FirstSelf(nodes)
      && FindMember(nodes', PodName(cluster, i)).Some? && FindMember(nodes', PodName(cluster, i)).value.ips == [ip]
      && forall k :: k != i ==> FindMember(nodes', PodName(cluster, k)) == FindMember(nodes, PodName(cluster, k))
  {
    SetMemberLaws(nodes, PodName(cluster, i), [ip]);
    var self := FirstSelf(nodes).value;
    if HasPrefix(self.name, PodName(cluster, i) + ".") {
      NoDoubleMatch(self.name, cluster, 0, i);
    }
    forall k | k != i
      ensures FindMember(SetMemberIps(nodes, PodName(cluster, i), [ip]), PodName(cluster, k)) == FindMember(nodes, PodName(cluster, k))
    {
      SetMemberOthers(nodes, cluster, i, [ip], k);
    }
  }

  lemma UpdateSecondary(s: Servers, cluster: string, i: nat, ip: string, delivered: bool)
    requires Assembled(s.states, cluster) && 0 < i < |s.states|
    ensures var s' := UpdateEffect(s, i, cluster, ip, delivered);
      && Assembled(s'.states, cluster) && s'.log == s.log
      && OwnIps(s'.states, i) == [ip]
      && Entry(s'.states, cluster, i).value.ips == (if delivered then [ip] else Entry(s.states, cluster, i).value.ips)
      && SameExcept(s.states, s'.states, cluster, i)
      && (forall k :: k > 0 && k != i ==> Entry(s'.states, cluster, k) == Entry(s.states, cluster, k))
  {
    var st, st' := s.states, UpdateEffect(s, i, cluster, ip, delivered).states;
    assert Joined(st, i) && Entry(st, cluster, i).Some? by { var _ := st[i]; }
    SetSelfLaws(st[i].nodes, [ip], "");
    PushLaws(st[0].nodes, cluster, i, ip);
    assert st'[i].nodes == SetSelfIps(st[i].nodes, [ip]);
    assert st'[0].nodes == if delivered then SetMemberIps(st[0].nodes, PodName(cluster, i), [ip]) else st[0].nodes;
    forall k | 0 <= k < |st| && k != i ensures SameRecords(st, st', cluster, k) {
      assert Joined(st, k) by { var _ := st[k]; }
      assert k > 0 ==> st'[k] == st[k];
    }
    StaysAssembled(st, st', cluster, i);
  }

  lemma UpdatePrimary(s: Servers, cluster: string, ip: string, delivered: bool)
    requires Assembled(s.states, cluster)
    ensures var s' := UpdateEffect(s, 0, cluster, ip, delivered);
      && Assembled(s'.states, cluster) && s'.log == s.log
      && OwnIps(s'.states, 0) == [ip]
      && SameExcept(s.states, s'.states, cluster, 0)
      && (forall k :: k > 0 ==> Entry(s'.states, cluster, k) == Entry(s.states, cluster, k))
  {
    var st, st' := s.states, UpdateEffect(s, 0, cluster, ip, delivered).states;
    var primary := st[0].nodes;
    var self := FirstSelf(primary).value;
    SetSelfLaws(primary, [ip], "");
    forall k | k > 0 ensures Entry(st', cluster, k) == Entry(st, cluster, k) {
      if HasPrefix(self.name, PodName(cluster, k) + ".") {
        NoDoubleMatch(self.name, cluster, 0, k);
      }
      SetSelfLaws(primary, [ip], PodName(cluster, k));
    }
    forall k | 0 < k < |st| ensures SameRecords(st, st', cluster, k) {
      assert Joined(st, k) by { var _ := st[k]; }
      assert st'[k] == st[k];
    }
    StaysAssembled(st, st', cluster, 0);
  }

  // ---------- one pass ----------

  /** The Primary's list was read before the loop; it still says the same about Secondaries from i up. */
  ghost predicate Current(st: seq<ClusterState>, c: Context, i: nat) {
    forall k {:trigger Entry(st, c.cluster, k)} :: i <= k ==>
      FindMember(c.primaryNodes, PodName(c.cluster, k)) == Entry(st, c.cluster, k)
  }

  lemma CallsAppend(log: seq<Event>, e: Event)
    ensures CallsOf(log + [e]) == CallsOf(log) + [e.call]
  {
  }

  lemma SecondaryRepair(s: Servers, env: PassEnv, c: Context, ips: seq<string>, i: nat)
    requires Assembled(s.states, c.cluster) && |s.states| == c.n == |ips| && 0 < i < c.n
    requires Calm(env, ips) && Current(s.states, c, i)
    ensures var p := Secondary(s, env, c, i);
      && p.outcome == Fine && Assembled(p.s.states, c.cluster) && Current(p.s.states, c, i + 1)
      && CallsOf(p.s.log) == CallsOf(s.log) + OwedTo(s.states, c.cluster, ips, i)
      && Repaired(s.states, p.s.states, c.cluster, ips[i], i, env.delivered(i))
      && SameExcept(s.states, p.s.states, c.cluster, i)
  {
    var state, ip := s.states[i], ips[i];
    assert Joined(s.states, i) && Entry(s.states, c.cluster, i).Some?;
    assert NeedsUpdate(state, Entry(s.states, c.cluster, i), ip) <==> Lacks(s.states, c.cluster, ip, i);
    if Lacks(s.states, c.cluster, ip, i) {
      CallsAppend(s.log, Event(UpdateIpCall(i, ip), state, s.states));
      UpdateSecondary(Send(s, UpdateIpCall(i, ip), state), c.cluster, i, ip, env.delivered(i));
    } else {
      assert CallsOf(s.log) + [] == CallsOf(s.log);
      forall k | 0 <= k < |s.states| ensures SameRecords(s.states, s.states, c.cluster, k) {
        var _ := s.states[k];
      }
    }
  }

  lemma SameOwed(a: seq<ClusterState>, b: seq<ClusterState>, cluster: string, ips: seq<string>, i: nat)
    requires i < |ips| && SameRecords(a, b, cluster, i)
    ensures OwedTo(a, cluster, ips, i) == OwedTo(b, cluster, ips, i)
  {
  }

  lemma {:induction false} OwedDepends(a: seq<ClusterState>, b: seq<ClusterState>, cluster: string, ips: seq<string>, i: nat, except: nat)
    requires |a| == |ips| && except < i <= |ips| && SameExcept(a, b, cluster, except)
    ensures Owed(a, cluster, ips, i) == Owed(b, cluster, ips, i)
    decreases |ips| - i
  {
    if i < |ips| {
      assert SameRecords(a, b, cluster, i) by { var _ := a[i]; }
      SameOwed(a, b, cluster, ips, i);
      OwedDepends(a, b, cluster, ips, i + 1, except);
    }
  }

  /** The loop from ordinal i: what it sent, whom it repaired, whom it left alone. */
  ghost predicate LoopRepairs(s: Servers, s': Servers, env: PassEnv, cluster: string, ips: seq<string>, i: nat)
    requires i <= |ips|
  {
    && Assembled(s'.states, cluster) && |s'.states| == |s.states| == |ips|
    && CallsOf(s'.log) == CallsOf(s.log) + Owed(s.states, cluster, ips, i)
    && (forall k {:trigger ips[k]} :: i <= k < |ips| ==> Repaired(s.states, s'.states, cluster, ips[k], k, env.delivered(k)))
    && (forall k {:trigger ips[k]} :: 0 <= k < i ==> SameRecords(s.states, s'.states, cluster, k))
  }

  lemma CallsCompose(s: Servers, mid: Servers, s': Servers, cluster: string, ips: seq<string>, i: nat)
    requires i < |ips| == |s.states| && SameExcept(s.states, mid.states, cluster, i)
    requires CallsOf(mid.log) == CallsOf(s.log) + OwedTo(s.states, cluster, ips, i)
    requires CallsOf(s'.log) == CallsOf(mid.log) + Owed(mid.states, cluster, ips, i + 1)
    ensures CallsOf(s'.log) == CallsOf(s.log) + Owed(s.states, cluster, ips, i)
  {
    OwedDepends(s.states, mid.states, cluster, ips, i + 1, i);
    Regroup(CallsOf(s.log), OwedTo(s.states, cluster, ips, i), Owed(s.states, cluster, ips, i + 1));
  }

  lemma Regroup(a: seq<ApiCall>, x: seq<ApiCall>, y: seq<ApiCall>)
    ensures (a + x) + y == a + (x + y)
  {
  }

  lemma LoopStep(s: Servers, mid: Servers, s': Servers, env: PassEnv, cluster: string, ips: seq<string>, i: nat)
    requires i < |ips| == |s.states|
    requires SameExcept(s.states, mid.states, cluster, i)
    requires CallsOf(mid.log) == CallsOf(s.log) + OwedTo(s.states, cluster, ips, i)
    requires Repaired(s.states, mid.states, cluster, ips[i], i, env.delivered(i))
    requires LoopRepairs(mid, s', env, cluster, ips, i + 1)
    ensures LoopRepairs(s, s', env, cluster, ips, i)
  {
    var a, m, b := s.states, mid.states, s'.states;
    CallsCompose(s, mid, s', cluster, ips, i);
    forall k | 0 <= k < |ips|
      ensures k >= i ==> Repaired(a, b, cluster, ips[k], k, env.delivered(k))
      ensures k < i ==> SameRecords(a, b, cluster, k)
    {
      var ip, d := ips[k], env.delivered(k);
      assert k != i ==> SameRecords(a, m, cluster, k) by { var _ := a[k]; }
      assert if k > i then Repaired(m, b, cluster, ip, k, d) else SameRecords(m, b, cluster, k);
      if k >= i {
        RepairedVia(a, m, b, cluster, ip, k, d);
      }
    }
  }

  lemma {:induction false} SecondariesRepair(s: Servers, env: PassEnv, c: Context, ips: seq<string>, i: nat)
    requires Assembled(s.states, c.cluster) && |s.states| == c.n == |ips| && 0 < i <= c.n
    requires Calm(env, ips) && Current(s.states, c, i)
    ensures Secondaries(s, env, c, i, Fine).outcome == Fine
    ensures LoopRepairs(s, Secondaries(s, env, c, i, Fine).s, env, c.cluster, ips, i)
    decreases c.n - i
  {
    if i == c.n {
      assert CallsOf(s.log) + [] == CallsOf(s.log);
      forall k | 0 <= k < i ensures SameRecords(s.states, s.states, c.cluster, k) {
        var _ := s.states[k];
      }
    } else {
      SecondaryRepair(s, env, c, ips, i);
      var mid := Secondary(s, env, c, i).s;
      SecondariesRepair(mid, env, c, ips, i + 1);
      LoopStep(s, mid, Secondaries(mid, env, c, i + 1, Fine).s, env, c.cluster, ips, i);
    }
  }

  lemma PrimaryRepair(s: Servers, env: PassEnv, cluster: string, ips: seq<string>)
    requires Assembled(s.states, cluster) && |s.states| == |ips| && Calm(env, ips)
    ensures var p := Refresh(s, env, 0, cluster, s.states[0], None, ips[0]);
      && p.outcome == Fine && Assembled(p.s.states, cluster)
      && CallsOf(p.s.log) == CallsOf(s.log) + OwedTo(s.states, cluster, ips, 0)
      && Repaired(s.states, p.s.states, cluster, ips[0], 0, env.delivered(0))
      && SameExcept(s.states, p.s.states, cluster, 0)
      && (forall k :: k > 0 ==> Entry(p.s.states, cluster, k) == Entry(s.states, cluster, k))
  {
    if Lacks(s.states, cluster, ips[0], 0) {
      CallsAppend(s.log, Event(UpdateIpCall(0, ips[0]), s.states[0], s.states));
      UpdatePrimary(Send(s, UpdateIpCall(0, ips[0]), s.states[0]), cluster, ips[0], env.delivered(0));
    } else {
      assert CallsOf(s.log) + [] == CallsOf(s.log);
      forall k | 0 <= k < |s.states| ensures SameRecords(s.states, s.states, cluster, k) {
        var _ := s.states[k];
      }
    }
  }

  lemma BeatKeeps(st: seq<ClusterState>, beat: string -> string, cluster: string)
    requires Assembled(st, cluster)
    ensures var st' := st[0 := st[0].(nodes := Beat(st[0].nodes, beat))];
      Assembled(st', cluster) && forall k :: 0 <= k < |st| ==> SameRecords(st, st', cluster, k)
  {
    var st' := st[0 := st[0].(nodes := Beat(st[0].nodes, beat))];
    BeatLaws(st[0].nodes, beat, "");
    forall k | 0 <= k < |st| ensures SameRecords(st, st', cluster, k) {
      var _ := st[k];
      BeatLaws(st[0].nodes, beat, PodName(cluster, k));
    }
    StaysAssembled(st, st', cluster, 0);
  }

  /**
   A pass over an assembled, reachable cluster sends exactly the updates owed, in
   ordinal order; afterwards every node's own record is right and the Primary's
   record of a Secondary is wrong only if it was wrong and the push was lost.
   */
  lemma PassRepairs(s: Servers, env: PassEnv, cluster: string, domain: string, ips: seq<string>)
    requires Assembled(s.states, cluster) && |s.states| == |ips| && Calm(env, ips)
    ensures LoopRepairs(s, ClusterPass(s, env, cluster, domain).0, env, cluster, ips, 0)
  {
    CalmPrimary(env, ips);
    RepairBoth(s, env, ContextOf(s, env, cluster, domain), ips);
    var p := Refresh(s, env, 0, cluster, s.states[0], None, ips[0]).s;
    BeatRepairs(s, Secondaries(p, env, ContextOf(s, env, cluster, domain), 1, Fine).s, env, cluster, ips);
    PassEnds(s, env, cluster, domain);
  }

  lemma CalmPrimary(env: PassEnv, ips: seq<string>)
    requires Calm(env, ips) && |ips| > 0
    ensures PodReady(env, 0) && env.pods[0].ip == ips[0] && env.client(0)
  {
    var _ := ips[0];
  }

  /** The Primary's own repair, then the loop over Secondaries. */
  lemma RepairBoth(s: Servers, env: PassEnv, c: Context, ips: seq<string>)
    requires Assembled(s.states, c.cluster) && |s.states| == c.n == |ips| && Calm(env, ips)
    requires c.primaryNodes == s.states[0].nodes
    ensures var p := Refresh(s, env, 0, c.cluster, s.states[0], None, ips[0]);
      var q := Secondaries(p.s, env, c, 1, Fine);
      p.outcome == Fine && q.outcome == Fine && LoopRepairs(s, q.s, env, c.cluster, ips, 0)
  {
    PrimaryRepair(s, env, c.cluster, ips);
    var p := Refresh(s, env, 0, c.cluster, s.states[0], None, ips[0]).s;
    assert Current(p.states, c, 1);
    SecondariesRepair(p, env, c, ips, 1);
    LoopStep(s, p, Secondaries(p, env, c, 1, Fine).s, env, c.cluster, ips, 0);
  }

  /** The state part of a pass that meets no failure. */
  lemma PassEnds(s: Servers, env: PassEnv, cluster: string, domain: string)
    requires |s.states| > 0 && s.states[0].initialized && env.firstRead && PodReady(env, 0) && env.client(0)
    requires var p := Refresh(s, env, 0, cluster, s.states[0], None, env.pods[0].ip);
      p.outcome == Fine && Secondaries(p.s, env, ContextOf(s, env, cluster, domain), 1, Fine).outcome == Fine
    ensures var p := Refresh(s, env, 0, cluster, s.states[0], None, env.pods[0].ip);
      var q := Secondaries(p.s, env, ContextOf(s, env, cluster, domain), 1, Fine).s;
      ClusterPass(s, env, cluster, domain).0 == if env.finalRead then Beaten(q, env) else q
  {
  }

  function Beaten(q: Servers, env: PassEnv): Servers
    requires |q.states| > 0
  {
    q.(states := q.states[0 := q.states[0].(nodes := Beat(q.states[0].nodes, env.beat))])
  }

  lemma BeatRepairs(s: Servers, q: Servers, env: PassEnv, cluster: string, ips: seq<string>)
    requires LoopRepairs(s, q, env, cluster, ips, 0)
    ensures LoopRepairs(s, Beaten(q, env), env, cluster, ips, 0)
  {
    BeatKeeps(q.states, env.beat, cluster);
    var st := Beaten(q, env).states;
    forall k | 0 <= k < |ips| ensures Repaired(s.states, st, cluster, ips[k], k, env.delivered(k)) {
      RepairedVia(s.states, q.states, st, cluster, ips[k], k, env.delivered(k));
    }
  }

  // ---------- runs ----------

  /** Consecutive passes; between them nothing changes the records. */
  predicate RepairRun(servers: seq<Servers>, envs: seq<PassEnv>, cluster: string, domain: string, ips: seq<string>) {
    && |servers| == |envs| + 1
    && Assembled(servers[0].states, cluster) && |servers[0].states| == |ips|
    && forall k {:trigger envs[k]} :: 0 <= k < |envs| ==>
         && |servers[k].states| > 0 && Calm(envs[k], ips)
         && servers[k + 1] == ClusterPass(servers[k], envs[k], cluster, domain).0
  }

  /** Some pass before m delivered ordinal i's push. */
  predicate DeliveredBefore(envs: seq<PassEnv>, m: nat, i: nat)
    requires m <= |envs|
  {
    exists k :: 0 <= k < m && envs[k].delivered(i)
  }

  lemma {:induction false} RepairProgress(
    servers: seq<Servers>, envs: seq<PassEnv>, cluster: string, domain: string, ips: seq<string>, m: nat)
    requires RepairRun(servers, envs, cluster, domain, ips) && m <= |envs|
    ensures Assembled(servers[m].states, cluster) && |servers[m].states| == |ips|
    ensures forall i :: 0 <= i < |ips| ==>
      && (m > 0 ==> !OwnLacks(servers[m].states, ips[i], i))
      && (PrimaryLacks(servers[m].states, cluster, ips[i], i) <==>
            PrimaryLacks(servers[0].states, cluster, ips[i], i) && !DeliveredBefore(envs, m, i))
    decreases m
  {
    if m > 0 {
      RepairProgress(servers, envs, cluster, domain, ips, m - 1);
      var env := envs[m - 1];
      PassRepairs(servers[m - 1], env, cluster, domain, ips);
      forall i | 0 <= i < |ips|
        ensures DeliveredBefore(envs, m, i) <==> DeliveredBefore(envs, m - 1, i) || env.delivered(i)
      {
      }
      forall i | 0 <= i < |ips|
        ensures !OwnLacks(servers[m].states, ips[i], i)
        ensures PrimaryLacks(servers[m].states, cluster, ips[i], i) <==>
          PrimaryLacks(servers[0].states, cluster, ips[i], i) && !DeliveredBefore(envs, m, i)
      {
        assert Repaired(servers[m - 1].states, servers[m].states, cluster, ips[i], i, env.delivered(i));
      }
    }
  }

  lemma {:induction false} NothingOwed(st: seq<ClusterState>, cluster: string, ips: seq<string>, i: nat)
    requires i <= |ips| && forall k :: i <= k < |ips| ==> !Lacks(st, cluster, ips[k], k)
    ensures Owed(st, cluster, ips, i) == []
    decreases |ips| - i
  {
    if i < |ips| {
      NothingOwed(st, cluster, ips, i + 1);
    }
  }

  /**
   Once at least one pass has run and every Secondary the Primary had wrong has
   had one push delivered, all records carry the pod IPs and the next pass, hence
   every later one, sends nothing.
   */
  lemma RepairConverges(
    servers: seq<Servers>, envs: seq<PassEnv>, cluster: string, domain: string, ips: seq<string>, m: nat)
    requires RepairRun(servers, envs, cluster, domain, ips) && 0 < m < |envs|
    requires forall i :: 0 <= i < |ips| && PrimaryLacks(servers[0].states, cluster, ips[i], i) ==> DeliveredBefore(envs, m, i)
    ensures forall i :: 0 <= i < |ips| ==> !Lacks(servers[m].states, cluster, ips[i], i)
    ensures CallsOf(servers[m + 1].log) == CallsOf(servers[m].log)
  {
    RepairProgress(servers, envs, cluster, domain, ips, m);
    var env := envs[m];
    NothingOwed(servers[m].states, cluster, ips, 0);
    PassRepairs(servers[m], env, cluster, domain, ips);
    assert CallsOf(servers[m].log) + [] == CallsOf(servers[m].log);
  }
}
