/** How an API call ends; a failed call may or may not have taken effect. */
module Calls {
  datatype Call = Succeeds | FailsBefore | FailsAfter {
    predicate TakesEffect() {
      !FailsBefore?
    }
  }
}

/**
 What the operator reads about pods and Technitium nodes, and how it finds one
 node's entry in another node's member list.
 */
module Members {
  import opened Options
  import opened Text

  const PRIMARY: nat := 0
  const SELF := "Self"
  const CONNECTED := "Connected"
  const READY := "Ready"

  /** One entry of /api/admin/cluster/state. */
  datatype ClusterNode = ClusterNode(name: string, ips: seq<string>, state: string, lastSeen: Option<int>)

  datatype ClusterState = ClusterState(version: string, initialized: bool, domain: string, nodes: seq<ClusterNode>)

  /** clusterPodInfo: readySince is None when the ready time is unknown (Go's zero time). */
  datatype PodInfo = PodInfo(ip: string, ready: bool, revision: string, readySince: Option<int>)

  /** The StatefulSet pod name "<cluster>-<ordinal>". */
  function PodName(cluster: string, ordinal: nat): string {
    cluster + "-" + Decimal(ordinal)
  }

  /** A member's node name "<pod>.<cluster domain>". */
  function MemberName(cluster: string, ordinal: nat, domain: string): string {
    PodName(cluster, ordinal) + "." + domain
  }

  /** findClusterMember: the first entry whose name starts with the pod name and a dot. */
  function FindMember(nodes: seq<ClusterNode>, podName: string): (r: Option<ClusterNode>)
    ensures r.Some? ==> r.value in nodes && HasPrefix(r.value.name, podName + ".")
    ensures r.None? ==> forall m :: m in nodes ==> !HasPrefix(m.name, podName + ".")
  {
    if nodes == [] then None
    else if HasPrefix(nodes[0].name, podName + ".") then Some(nodes[0])
    else FindMember(nodes[1..], podName)
  }

  /** nodeJoined. */
  predicate NodeJoined(state: string) {
    state == READY || state == SELF || state == CONNECTED
  }

  lemma DigitsBeforeDot(a: string, b: string, rest: string)
    requires AllDigits(a) && AllDigits(b)
    requires HasPrefix(b + "." + rest, a + ".")
    ensures a == b
  {
    var s := b + "." + rest;
    assert s[|a|] == (a + ".")[|a|] == '.';
    assert s[|b|] == '.';
    assert forall i :: 0 <= i < |b| ==> s[i] == b[i];
    assert forall i :: 0 <= i < |a| ==> s[i] == (a + ".")[i] == a[i];
    assert |a| == |b|;
  }

  /** An entry is taken for ordinal i exactly when it is ordinal i's own: "dns-1" never claims "dns-10". */
  lemma MemberMatch(cluster: string, i: nat, j: nat, domain: string)
    ensures HasPrefix(MemberName(cluster, j, domain), PodName(cluster, i) + ".") <==> i == j
  {
    var stem := cluster + "-";
    var name := MemberName(cluster, j, domain);
    var prefix := PodName(cluster, i) + ".";
    assert name == stem + (Decimal(j) + "." + domain);
    assert prefix == stem + (Decimal(i) + ".");
    if i == j {
      assert name[..|prefix|] == prefix;
    }
    if HasPrefix(name, prefix) {
      assert Decimal(j) + "." + domain == name[|stem|..];
      assert (Decimal(j) + "." + domain)[..|Decimal(i)| + 1] == name[..|prefix|][|stem|..] == Decimal(i) + ".";
      DigitsBeforeDot(Decimal(i), Decimal(j), domain);
      DecimalInjective(i, j);
    }
  }

  /** A member list of this cluster's own nodes: each entry is some ordinal's, under some domain. */
  ghost predicate Lists(nodes: seq<ClusterNode>, cluster: string, ordinals: seq<nat>, domains: seq<string>) {
    && |nodes| == |ordinals| == |domains|
    && forall k :: 0 <= k < |nodes| ==> nodes[k].name == MemberName(cluster, ordinals[k], domains[k])
  }

  /** The search finds an entry of ordinal i itself, and none only when i is not listed. */
  lemma FindMemberExact(nodes: seq<ClusterNode>, cluster: string, ordinals: seq<nat>, domains: seq<string>, i: nat)
    returns (k: nat)
    requires Lists(nodes, cluster, ordinals, domains)
    ensures FindMember(nodes, PodName(cluster, i)).None? <==> i !in ordinals
    ensures i in ordinals ==>
      k < |nodes| && ordinals[k] == i && FindMember(nodes, PodName(cluster, i)) == Some(nodes[k])
  {
    var r := FindMember(nodes, PodName(cluster, i));
    k := 0;
    if r.Some? {
      k :| 0 <= k < |nodes| && nodes[k] == r.value;
      MemberMatch(cluster, i, ordinals[k], domains[k]);
    } else {
      forall j | 0 <= j < |nodes| ensures ordinals[j] != i {
        assert nodes[j] in nodes;
        MemberMatch(cluster, i, ordinals[j], domains[j]);
      }
    }
  }
}
