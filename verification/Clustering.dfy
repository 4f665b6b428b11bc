/**
 Cluster init, join and IP repair (reconcileClustering, refreshNodeIP): the
 Technitium nodes as the operator drives them, one API call at a time.
 */
module Clustering {
  import opened Calls
  import opened Members
  import opened Options
  import opened Text

  const UNKNOWN := "Unknown"

  datatype ApiCall =
    | InitCall(ip: string)
    | JoinCall(i: nat, ip: string, primaryName: string, primaryIp: string)
    | UpdateIpCall(i: nat, ip: string)

  /** A call that was sent: what its node had reported in this pass, and every node's state when it arrived. */
  datatype Event = Event(call: ApiCall, reported: ClusterState, before: seq<ClusterState>)

  /** Every ordinal's own cluster state, and the calls sent so far. */
  datatype Servers = Servers(states: seq<ClusterState>, log: seq<Event>)

  /** What one pass meets: pods, which clients and reads work, and how calls end. */
  datatype PassEnv = PassEnv(
    pods: map<nat, PodInfo>,
    client: nat -> bool,          // building a client for the ordinal works
    firstRead: bool, rereads: bool, finalRead: bool,   // the three reads of the Primary
    answers: nat -> bool,         // reading a Secondary's state works
    init: Call, join: nat -> Call, update: nat -> Call,
    raced: nat -> bool,           // someone else initializes the node between the read and the call
    delivered: nat -> bool,       // a Secondary's address push reaches the Primary
    beat: string -> string)       // the state the Primary gives a member by the time of the final read

  datatype ClusterResult = Clustered(converged: bool) | ClusterFailed

  /** What the loop over Secondaries is given. */
  datatype Context = Context(
    cluster: string, domain: string, n: nat, primaryNodes: seq<ClusterNode>, primaryName: string, primaryIp: string)

  predicate PodReady(env: PassEnv, i: nat) {
    i in env.pods && env.pods[i].ready
  }

  // ---------- the nodes ----------

  function FirstSelf(nodes: seq<ClusterNode>): (r: Option<ClusterNode>)
    ensures r.Some? ==> r.value.state == SELF && r.value in nodes
  {
    if nodes == [] then None else if nodes[0].state == SELF then Some(nodes[0]) else FirstSelf(nodes[1..])
  }

  function SetSelfIps(nodes: seq<ClusterNode>, ips: seq<string>): seq<ClusterNode> {
    if nodes == [] then []
    else if nodes[0].state == SELF then [nodes[0].(ips := ips)] + nodes[1..]
    else [nodes[0]] + SetSelfIps(nodes[1..], ips)
  }

  function SetMemberIps(nodes: seq<ClusterNode>, podName: string, ips: seq<string>): seq<ClusterNode> {
    if nodes == [] then []
    else if HasPrefix(nodes[0].name, podName + ".") then [nodes[0].(ips := ips)] + nodes[1..]
    else [nodes[0]] + SetMemberIps(nodes[1..], podName, ips)
  }

  /** Heartbeats change the states of the other members, never who is listed under which addresses. */
  function Beat(nodes: seq<ClusterNode>, beat: string -> string): seq<ClusterNode> {
    if nodes == [] then []
    else
      var m := nodes[0];
      var m' := if m.state == SELF || beat(m.name) == SELF then m else m.(state := beat(m.name));
      [m'] + Beat(nodes[1..], beat)
  }

  /** Someone else got there first: the node is initialized before our call arrives. */
  function Race(s: Servers, i: nat, raced: bool): Servers
    requires i < |s.states|
  {
    if raced then s.(states := s.states[i := s.states[i].(initialized := true)]) else s
  }

  function Send(s: Servers, call: ApiCall, reported: ClusterState): Servers {
    s.(log := s.log + [Event(call, reported, s.states)])
  }

  /** What the operator gets back: a call that fails has no answer, an initialized node answers that it is. */
  datatype Answer = Done | AlreadyInitialized | NoAnswer

  function AnswerOf(node: ClusterState, call: Call): Answer {
    if !call.Succeeds? then NoAnswer else if node.initialized then AlreadyInitialized else Done
  }

  /** cluster/init on the Primary; an initialized node refuses and changes nothing. */
  function InitEffect(s: Servers, cluster: string, domain: string, ip: string): Servers
    requires |s.states| > 0
  {
    if s.states[0].initialized then s
    else
      var self := ClusterNode(MemberName(cluster, 0, domain), [ip], SELF, None);
      s.(states := s.states[0 := s.states[0].(initialized := true, domain := self.name, nodes := [self])])
  }

  /** cluster/initJoin on ordinal i: it becomes a member and the Primary lists it, not yet connected. */
  function JoinEffect(s: Servers, i: nat, cluster: string, domain: string, ip: string): Servers
    requires 0 < i < |s.states|
  {
    if s.states[i].initialized then s
    else
      var name := MemberName(cluster, i, domain);
      var joined := s.states[i].(initialized := true, nodes := [ClusterNode(name, [ip], SELF, None)]);
      var primary := s.states[0].(nodes := s.states[0].nodes + [ClusterNode(name, [ip], UNKNOWN, None)]);
      s.(states := s.states[i := joined][0 := primary])
  }

  /** cluster/updateIpAddress on ordinal i; a Secondary pushes the address to the Primary once. */
  function UpdateEffect(s: Servers, i: nat, cluster: string, ip: string, delivered: bool): Servers
    requires i < |s.states|
  {
    var own := s.(states := s.states[i := s.states[i].(nodes := SetSelfIps(s.states[i].nodes, [ip]))]);
    if i == 0 || !delivered then own
    else
      var listed := SetMemberIps(own.states[0].nodes, PodName(cluster, i), [ip]);
      own.(states := own.states[0 := own.states[0].(nodes := listed)])
  }

  // ---------- one pass, as a function ----------

  datatype Outcome = Fine | Deferred | Broken
  datatype Progress = Progress(s: Servers, outcome: Outcome)

  /** refreshNodeIP's test: the node's own record, or the Primary's, lacks the pod IP. */
  predicate NeedsUpdate(state: ClusterState, primaryView: Option<ClusterNode>, ip: string) {
    var self := FirstSelf(state.nodes);
    && state.initialized && self.Some?
    && (ip !in self.value.ips || (primaryView.Some? && ip !in primaryView.value.ips))
  }

  function Refresh(
    s: Servers, env: PassEnv, i: nat, cluster: string, state: ClusterState, primaryView: Option<ClusterNode>, ip: string)
    : Progress
    requires i < |s.states|
  {
    if !NeedsUpdate(state, primaryView, ip) then Progress(s, Fine)
    else
      var sent := Send(s, UpdateIpCall(i, ip), state);
      var s' := if env.update(i).TakesEffect() then UpdateEffect(sent, i, cluster, ip, env.delivered(i)) else sent;
      Progress(s', if env.update(i).Succeeds? then Fine else Broken)
  }

  /** The body of the loop over Secondaries. */
  function Secondary(s: Servers, env: PassEnv, c: Context, i: nat): Progress
    requires 0 < i < |s.states|
  {
    if !PodReady(env, i) then Progress(s, Deferred)
    else if !env.client(i) then Progress(s, Broken)
    else if !env.answers(i) then Progress(s, Deferred)
    else
      var state, ip := s.states[i], env.pods[i].ip;
      if state.initialized then
        Refresh(s, env, i, c.cluster, state, FindMember(c.primaryNodes, PodName(c.cluster, i)), ip)
      else
        var sent := Send(Race(s, i, env.raced(i)), JoinCall(i, ip, c.primaryName, c.primaryIp), state);
        var answer := AnswerOf(sent.states[i], env.join(i));
        var s' := if env.join(i).TakesEffect() then JoinEffect(sent, i, c.cluster, c.domain, ip) else sent;
        Progress(s', if answer.NoAnswer? then Broken else Fine)
  }

  /** The loop over Secondaries from ordinal i: Broken stops it, Deferred is remembered. */
  function Secondaries(s: Servers, env: PassEnv, c: Context, i: nat, soFar: Outcome): (p: Progress)
    requires 0 < i && |s.states| == c.n
    ensures |p.s.states| == c.n
    decreases c.n - i
  {
    if i >= c.n then Progress(s, soFar)
    else
      var p := Secondary(s, env, c, i);
      if p.outcome.Broken? then p
      else Secondaries(p.s, env, c, i + 1, if p.outcome.Deferred? then Deferred else soFar)
  }

  /** Every ordinal from i up is listed in a joined state. */
  predicate AllListed(nodes: seq<ClusterNode>, cluster: string, i: nat, n: nat) {
    forall k :: i <= k < n ==>
      var m := FindMember(nodes, PodName(cluster, k)); m.Some? && NodeJoined(m.value.state)
  }

  /** The Primary's init, when it reports no cluster. */
  function InitPrimary(s: Servers, env: PassEnv, cluster: string, domain: string): Progress
    requires |s.states| > 0 && PodReady(env, 0)
  {
    var sent := Send(Race(s, 0, env.raced(0)), InitCall(env.pods[0].ip), s.states[0]);
    var answer := AnswerOf(sent.states[0], env.init);
    var s' := if env.init.TakesEffect() then InitEffect(sent, cluster, domain, env.pods[0].ip) else sent;
    Progress(s', if answer.NoAnswer? || !env.rereads then Broken else Fine)
  }

  function ContextOf(s: Servers, env: PassEnv, cluster: string, domain: string): Context
    requires |s.states| > 0 && PodReady(env, 0)
  {
    var reported := s.states[0].domain;
    Context(cluster, domain, |s.states|, s.states[0].nodes,
            if reported == "" then MemberName(cluster, 0, domain) else reported, env.pods[0].ip)
  }

  /** From the Primary's address repair on, once the Primary is initialized; primary is what it reported. */
  function AfterInit(s: Servers, env: PassEnv, cluster: string, domain: string): (Servers, ClusterResult)
    requires |s.states| > 0 && PodReady(env, 0)
  {
    var c := ContextOf(s, env, cluster, domain);
    var p := Refresh(s, env, 0, cluster, s.states[0], None, env.pods[0].ip);
    if p.outcome.Broken? then (p.s, ClusterFailed)
    else
      var q := Secondaries(p.s, env, c, 1, Fine);
      if q.outcome.Broken? then (q.s, ClusterFailed)
      else if q.outcome.Deferred? || !env.finalRead then (q.s, Clustered(false))
      else
        var finalNodes := Beat(q.s.states[0].nodes, env.beat);
        (q.s.(states := q.s.states[0 := q.s.states[0].(nodes := finalNodes)]),
         Clustered(AllListed(finalNodes, cluster, 1, c.n)))
  }

  /** reconcileClustering. */
  function ClusterPass(s: Servers, env: PassEnv, cluster: string, domain: string): (Servers, ClusterResult)
    requires |s.states| > 0
  {
    if !PodReady(env, 0) then (s, Clustered(false))
    else if !env.client(0) then (s, ClusterFailed)
    else if !env.firstRead then (s, Clustered(false))
    else if s.states[0].initialized then AfterInit(s, env, cluster, domain)
    else
      var p := InitPrimary(s, env, cluster, domain);
      if p.outcome.Broken? then (p.s, ClusterFailed) else AfterInit(p.s, env, cluster, domain)
  }

  // ---------- one pass, as the operator runs it ----------

  class Operator {
    const cluster: string
    const domain: string
    var s: Servers

    constructor (cluster: string, domain: string, s: Servers)
      ensures this.cluster == cluster && this.domain == domain && this.s == s
    {
      this.cluster, this.domain, this.s := cluster, domain, s;
    }

    method RefreshNodeIp(
      env: PassEnv, i: nat, state: ClusterState, primaryView: Option<ClusterNode>, ip: string) returns (ok: bool)
      requires i < |s.states|
      modifies this
      ensures var p := Refresh(old(s), env, i, cluster, state, primaryView, ip); s == p.s && ok == p.outcome.Fine?
    {
      if !state.initialized {
        return true;
      }
      var self := FirstSelf(state.nodes);
      if self.None? {
        return true;
      }
      if ip in self.value.ips && (primaryView.None? || ip in primaryView.value.ips) {
        return true;
      }
      s := Send(s, UpdateIpCall(i, ip), state);
      if env.update(i).TakesEffect() {
        s := UpdateEffect(s, i, cluster, ip, env.delivered(i));
      }
      return env.update(i).Succeeds?;
    }

    method JoinSecondary(env: PassEnv, c: Context, i: nat) returns (outcome: Outcome)
      requires 0 < i < |s.states| && c.cluster == cluster && c.domain == domain
      modifies this
      ensures Progress(s, outcome) == Secondary(old(s), env, c, i)
    {
      if !PodReady(env, i) {
        return Deferred;
      }
      if !env.client(i) {
        return Broken;
      }
      if !env.answers(i) {
        return Deferred;
      }
      var state, ip := s.states[i], env.pods[i].ip;
      if state.initialized {
        var ok := RefreshNodeIp(env, i, state, FindMember(c.primaryNodes, PodName(cluster, i)), ip);
        return if ok then Fine else Broken;
      }
      s := Send(Race(s, i, env.raced(i)), JoinCall(i, ip, c.primaryName, c.primaryIp), state);
      var answer := AnswerOf(s.states[i], env.join(i));
      if env.join(i).TakesEffect() {
        s := JoinEffect(s, i, cluster, domain, ip);
      }
      match answer
      case Done => return Fine;
      case AlreadyInitialized => return Fine;
      case NoAnswer => return Broken;
    }

    /** reconcileClustering. */
    method ReconcileClustering(env: PassEnv) returns (r: ClusterResult)
      requires |s.states| > 0
      modifies this
      ensures (s, r) == ClusterPass(old(s), env, cluster, domain)
    {
      if !PodReady(env, 0) {
        return Clustered(false);
      }
      if !env.client(0) {
        return ClusterFailed;
      }
      if !env.firstRead {
        return Clustered(false);
      }
      if !s.states[0].initialized {
        var reported := s.states[0];
        s := Send(Race(s, 0, env.raced(0)), InitCall(env.pods[0].ip), reported);
        var answer := AnswerOf(s.states[0], env.init);
        if env.init.TakesEffect() {
          s := InitEffect(s, cluster, domain, env.pods[0].ip);
        }
        if answer.NoAnswer? || !env.rereads {
          return ClusterFailed;
        }
      }
      r := RepairAndJoin(env);
    }

    method RepairAndJoin(env: PassEnv) returns (r: ClusterResult)
      requires |s.states| > 0 && PodReady(env, 0)
      modifies this
      ensures (s, r) == AfterInit(old(s), env, cluster, domain)
    {
      var c := ContextOf(s, env, cluster, domain);
      var ok := RefreshNodeIp(env, 0, s.states[0], None, env.pods[0].ip);
      if !ok {
        return ClusterFailed;
      }
      ghost var start := s;
      var allJoined := Fine;
      var i := 1;
      while i < c.n
        invariant 1 <= i && |s.states| == c.n && !allJoined.Broken?
        invariant Secondaries(start, env, c, 1, Fine) == Secondaries(s, env, c, i, allJoined)
        decreases c.n - i
      {
        var outcome := JoinSecondary(env, c, i);
        if outcome.Broken? {
          return ClusterFailed;
        }
        if outcome.Deferred? {
          allJoined := Deferred;
        }
        i := i + 1;
      }
      if allJoined.Deferred? || !env.finalRead {
        return Clustered(false);
      }
      var finalNodes := Beat(s.states[0].nodes, env.beat);
      s := s.(states := s.states[0 := s.states[0].(nodes := finalNodes)]);
      r := Clustered(true);
      i := 1;
      while i < c.n && r.converged
        invariant 1 <= i && (r == Clustered(true) || r == Clustered(false))
        invariant r == Clustered(true) ==> forall k :: 1 <= k < i && k < c.n ==>
          var m := FindMember(finalNodes, PodName(cluster, k)); m.Some? && NodeJoined(m.value.state)
        invariant r == Clustered(false) ==> !AllListed(finalNodes, cluster, 1, c.n)
        decreases c.n - i
      {
        var member := FindMember(finalNodes, PodName(cluster, i));
        if member.None? || !NodeJoined(member.value.state) {
          r := Clustered(false);
        }
        i := i + 1;
      }
    }
  }
}
