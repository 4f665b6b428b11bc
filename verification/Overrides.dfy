/**
 Manual override sets of a Blocklist (allowed and blocked domains): the
 reconcile that adds and deletes against the list remembered in status, and
 what any history of failed and successful attempts leaves on the server.
 */
module Overrides {
  import opened Calls
  import opened Text

  /**
   The server's set once the first adds entries of desired and the first deletes
   entries of applied have been dealt with.
   */
  function After(server: set<string>, applied: seq<string>, desired: seq<string>, adds: nat, deletes: nat): set<string>
    requires adds <= |desired| && deletes <= |applied|
  {
    (server + (SetOf(desired[..adds]) - SetOf(applied))) - (SetOf(applied[..deletes]) - SetOf(desired))
  }

  /** An attempt got this far: deletes start only when every add is done. */
  predicate Reach(server: set<string>, applied: seq<string>, desired: seq<string>, adds: nat, deletes: nat, server': set<string>) {
    && adds <= |desired| && deletes <= |applied|
    && (deletes > 0 ==> adds == |desired|)
    && server' == After(server, applied, desired, adds, deletes)
  }

  /** How many entries an attempt has to make a call for. */
  function Outside(domains: seq<string>, skip: seq<string>): nat {
    if domains == [] then 0
    else Outside(domains[..|domains| - 1], skip) + if domains[|domains| - 1] in skip then 0 else 1
  }

  /** The failed call number k was the add of entry i. */
  predicate FailedAdd(applied: seq<string>, desired: seq<string>, call: nat -> Call, first: nat, k: nat, adds: nat, i: nat) {
    && i < |desired| && desired[i] !in applied
    && k == first + Outside(desired[..i], applied)
    && adds == if call(k).TakesEffect() then i + 1 else i
  }

  /** The failed call number k was the delete of entry j, after all the adds. */
  predicate FailedDelete(applied: seq<string>, desired: seq<string>, call: nat -> Call, first: nat, k: nat, deletes: nat, j: nat) {
    && j < |applied| && applied[j] !in desired
    && k == first + Outside(desired, applied) + Outside(applied[..j], desired)
    && deletes == if call(k).TakesEffect() then j + 1 else j
  }

  /** Every call before number k succeeded, k failed and was the last: it was this add or this delete. */
  predicate StoppedBy(applied: seq<string>, desired: seq<string>, call: nat -> Call, first: nat, k: nat, adds: nat, deletes: nat) {
    && k >= first && AllSucceed(call, first, k) && !call(k).Succeeds?
    && ( || (deletes == 0 && exists i :: 0 <= i < |desired| && FailedAdd(applied, desired, call, first, k, adds, i))
         || (adds == |desired| && exists j :: 0 <= j < |applied| && FailedDelete(applied, desired, call, first, k, deletes, j)))
  }

  predicate AllSucceed(call: nat -> Call, from: nat, to: nat) {
    forall k :: from <= k < to ==> call(k).Succeeds?
  }

  /** One override zone on the server. Add and delete are idempotent there. */
  class OverrideZone {
    var domains: set<string>

    method Add(domain: string, call: Call) returns (ok: bool)
      modifies this
      ensures domains == (if call.TakesEffect() then old(domains) + {domain} else old(domains)) && ok == call.Succeeds?
    {
      if call.TakesEffect() {
        domains := domains + {domain};
      }
      return call.Succeeds?;
    }

    method Delete(domain: string, call: Call) returns (ok: bool)
      modifies this
      ensures domains == (if call.TakesEffect() then old(domains) - {domain} else old(domains)) && ok == call.Succeeds?
    {
      if call.TakesEffect() {
        domains := domains - {domain};
      }
      return call.Succeeds?;
    }

    /**
     reconcileDomainSet: the calls of this attempt are numbered from first on, and
     it stops at the first that fails; next is one past the last call made.
     */
    method ReconcileDomainSet(applied: seq<string>, desired: seq<string>, call: nat -> Call, first: nat)
      returns (ok: bool, next: nat, adds: nat, deletes: nat)
      modifies this
      ensures Reach(old(domains), applied, desired, adds, deletes, domains)
      ensures next >= first && (ok <==> AllSucceed(call, first, next))
      ensures ok ==>
        && adds == |desired| && deletes == |applied|
        && next == first + Outside(desired, applied) + Outside(applied, desired)
      ensures !ok ==> next > first && StoppedBy(applied, desired, call, first, next - 1, adds, deletes)
    {
      var appliedSet, desiredSet := SetOf(applied), SetOf(desired);
      next := first;
      for i := 0 to |desired|
        invariant domains == After(old(domains), applied, desired, i, 0)
        invariant next == first + Outside(desired[..i], applied) && AllSucceed(call, first, next)
      {
        AddNext(old(domains), applied, desired, i);
        assert desired[..i + 1][..i] == desired[..i];
        if desired[i] !in appliedSet {
          var done := Add(desired[i], call(next));
          next := next + 1;
          if !done {
            adds := if call(next - 1).TakesEffect() then i + 1 else i;
            assert FailedAdd(applied, desired, call, first, next - 1, adds, i);
            return false, next, adds, 0;
          }
        }
      }
      assert desired[..|desired|] == desired;
      for j := 0 to |applied|
        invariant domains == After(old(domains), applied, desired, |desired|, j)
        invariant next == first + Outside(desired, applied) + Outside(applied[..j], desired) && AllSucceed(call, first, next)
      {
        DeleteNext(old(domains), applied, desired, j);
        assert applied[..j + 1][..j] == applied[..j];
        if applied[j] !in desiredSet {
          var done := Delete(applied[j], call(next));
          next := next + 1;
          if !done {
            deletes := if call(next - 1).TakesEffect() then j + 1 else j;
            assert FailedDelete(applied, desired, call, first, next - 1, deletes, j);
            return false, next, |desired|, deletes;
          }
        }
      }
      assert applied[..|applied|] == applied;
      return true, next, |desired|, |applied|;
    }
  }

  lemma SetOfNext(domains: seq<string>, i: nat)
    requires i < |domains|
    ensures SetOf(domains[..i + 1]) == SetOf(domains[..i]) + {domains[i]}
  {
    assert domains[..i + 1] == domains[..i] + [domains[i]];
  }

  lemma AddNext(server: set<string>, applied: seq<string>, desired: seq<string>, i: nat)
    requires i < |desired|
    ensures After(server, applied, desired, i + 1, 0) ==
      if desired[i] in applied then After(server, applied, desired, i, 0) else After(server, applied, desired, i, 0) + {desired[i]}
  {
    SetOfNext(desired, i);
    assert SetOf(applied[..0]) == {};
  }

  lemma DeleteNext(server: set<string>, applied: seq<string>, desired: seq<string>, j: nat)
    requires j < |applied|
    ensures After(server, applied, desired, |desired|, j + 1) ==
      if applied[j] in desired then After(server, applied, desired, |desired|, j)
      else After(server, applied, desired, |desired|, j) - {applied[j]}
  {
    SetOfNext(applied, j);
  }

  // ---------- the resource ----------

  /** A zone and the list status remembers for it. */
  datatype Zone = Zone(server: set<string>, applied: seq<string>)

  datatype World = World(allowed: Zone, blocked: Zone)

  datatype Spec = Spec(allowed: seq<string>, blocked: seq<string>)

  /** How far an attempt got with one zone. */
  datatype Reached = Reached(adds: nat, deletes: nat)

  predicate Complete(r: Reached, applied: seq<string>, desired: seq<string>) {
    r.adds == |desired| && r.deletes == |applied|
  }

  predicate ZoneStep(z: Zone, z': Zone, desired: seq<string>, r: Reached, committed: bool) {
    && Reach(z.server, z.applied, desired, r.adds, r.deletes, z'.server)
    && z'.applied == (if committed then desired else z.applied)
    && (committed ==> Complete(r, z.applied, desired))
  }

  /** One reconcile attempt: the blocked set is reached only past the allowed one, status only past both. */
  predicate AttemptAt(w: World, w': World, spec: Spec, committed: bool, a: Reached, b: Reached) {
    && ZoneStep(w.allowed, w'.allowed, spec.allowed, a, committed)
    && ZoneStep(w.blocked, w'.blocked, spec.blocked, b, committed)
    && (b != Reached(0, 0) ==> Complete(a, w.allowed.applied, spec.allowed))
  }

  ghost predicate Attempt(w: World, w': World, spec: Spec, committed: bool) {
    exists a, b :: AttemptAt(w, w', spec, committed, a, b)
  }

  class Blocklist {
    const allowed: OverrideZone
    const blocked: OverrideZone
    var appliedAllowed: seq<string>
    var appliedBlocked: seq<string>

    constructor (allowed: OverrideZone, blocked: OverrideZone)
      ensures this.allowed == allowed && this.blocked == blocked && appliedAllowed == [] && appliedBlocked == []
    {
      this.allowed, this.blocked, appliedAllowed, appliedBlocked := allowed, blocked, [], [];
    }

    function Snapshot(): World
      reads this, allowed, blocked
    {
      World(Zone(allowed.domains, appliedAllowed), Zone(blocked.domains, appliedBlocked))
    }

    /**
     The override half of reconcileBlocklist and the status write of markReady,
     whose own outcome is write. Status advances only after both sets are done;
     made counts the server calls, of which only the last can have failed.
     */
    method Reconcile(spec: Spec, call: nat -> Call, write: Call) returns (ok: bool, committed: bool, made: nat)
      requires allowed != blocked
      modifies this, allowed, blocked
      ensures Attempt(old(Snapshot()), Snapshot(), spec, committed)
      ensures ok <==> AllSucceed(call, 0, made) && write.Succeeds?
      ensures committed <==> AllSucceed(call, 0, made) && write.TakesEffect()
      ensures !AllSucceed(call, 0, made) ==> made > 0 && AllSucceed(call, 0, made - 1) && !call(made - 1).Succeeds?
    {
      var done, next, i, j := allowed.ReconcileDomainSet(appliedAllowed, spec.allowed, call, 0);
      ghost var a := Reached(i, j);
      if !done {
        assert Reach(blocked.domains, appliedBlocked, spec.blocked, 0, 0, blocked.domains) by {
          NothingDone(blocked.domains, appliedBlocked, spec.blocked);
        }
        assert AttemptAt(old(Snapshot()), Snapshot(), spec, false, a, Reached(0, 0));
        return false, false, next;
      }
      var more, last, k, l := blocked.ReconcileDomainSet(appliedBlocked, spec.blocked, call, next);
      ghost var b := Reached(k, l);
      if !more {
        assert AttemptAt(old(Snapshot()), Snapshot(), spec, false, a, b);
        return false, false, last;
      }
      if write.TakesEffect() {
        appliedAllowed, appliedBlocked := spec.allowed, spec.blocked;
      }
      assert AttemptAt(old(Snapshot()), Snapshot(), spec, write.TakesEffect(), a, b);
      return write.Succeeds?, write.TakesEffect(), last;
    }
  }

  lemma NothingDone(server: set<string>, applied: seq<string>, desired: seq<string>)
    ensures After(server, applied, desired, 0, 0) == server
  {
    assert SetOf(desired[..0]) == {} && SetOf(applied[..0]) == {};
  }

  // ---------- one zone over a history of attempts ----------

  /** What a completed attempt leaves, and when that is the previous list replaced by the desired one. */
  lemma CommitExactly(z: Zone, z': Zone, desired: seq<string>, r: Reached, start: set<string>)
    requires ZoneStep(z, z', desired, r, true)
    ensures z'.server == (start - SetOf(z.applied)) + SetOf(desired) <==>
      && SetOf(z.applied) * SetOf(desired) <= z.server
      && z.server - SetOf(z.applied) - SetOf(desired) == start - SetOf(z.applied) - SetOf(desired)
  {
    var a, d := SetOf(z.applied), SetOf(desired);
    assert desired[..|desired|] == desired && z.applied[..|z.applied|] == z.applied;
    assert z'.server == (z.server + (d - a)) - (a - d);
    var goal := (start - a) + d;
    if z'.server == goal {
      forall x | x in a * d ensures x in z.server {
        assert x in goal;
      }
      forall x ensures x in z.server - a - d <==> x in start - a - d {
        assert x in z'.server <==> x in goal;
      }
    } else if a * d <= z.server && z.server - a - d == start - a - d {
      forall x ensures x in z'.server <==> x in goal {
        assert x in z.server - a - d <==> x in start - a - d;
      }
    }
  }

  /** Half way through applying desired; mine are the domains on the server that no list ever held. */
  predicate Pending(z: Zone, desired: seq<string>, mine: set<string>) {
    var a, d := SetOf(z.applied), SetOf(desired);
    a * d <= z.server && z.server - a - d == mine - d
  }

  /** Status tells the truth, and everything else on the server is mine. */
  predicate Settled(z: Zone, mine: set<string>) {
    SetOf(z.applied) <= z.server && z.server - SetOf(z.applied) == mine
  }

  lemma SettledIsPending(z: Zone, desired: seq<string>, mine: set<string>)
    requires Settled(z, mine)
    ensures Pending(z, desired, mine)
  {
  }

  lemma AbortedStep(z: Zone, z': Zone, desired: seq<string>, r: Reached, mine: set<string>)
    requires ZoneStep(z, z', desired, r, false) && Pending(z, desired, mine)
    ensures Pending(z', desired, mine)
  {
    assert SetOf(desired[..r.adds]) <= SetOf(desired) && SetOf(z.applied[..r.deletes]) <= SetOf(z.applied);
  }

  lemma CommittedStep(z: Zone, z': Zone, desired: seq<string>, r: Reached, mine: set<string>)
    requires ZoneStep(z, z', desired, r, true) && Pending(z, desired, mine)
    ensures Settled(z', mine - SetOf(desired))
    ensures z'.server == (mine - SetOf(desired)) + SetOf(desired)
  {
    var d := SetOf(desired);
    assert desired[..|desired|] == desired && z.applied[..|z.applied|] == z.applied;
    assert z.server - SetOf(z.applied) - d == mine - d;
    assert z'.server - d == mine - d;
    assert d <= z'.server;
    assert z'.server == (z'.server - d) + d;
  }

  /** One attempt on a zone: the list it worked towards and whether status was written. */
  datatype ZoneTry = ZoneTry(desired: seq<string>, committed: bool)

  ghost predicate ZoneNext(z: Zone, z': Zone, t: ZoneTry) {
    exists r :: ZoneStep(z, z', t.desired, r, t.committed)
  }

  /** The list changes only between a committed attempt and the next one. */
  ghost predicate ZoneHistory(zones: seq<Zone>, tries: seq<ZoneTry>) {
    && |zones| == |tries| + 1
    && (forall k {:trigger tries[k]} :: 0 <= k < |tries| ==> ZoneNext(zones[k], zones[k + 1], tries[k]))
    && (forall k :: 0 < k < |tries| ==> Continues(tries, k))
  }

  predicate Continues(tries: seq<ZoneTry>, k: nat)
    requires 0 < k < |tries|
  {
    tries[k - 1].committed || tries[k].desired == tries[k - 1].desired
  }

  /** Every domain a committed list has held so far. */
  function Ever(tries: seq<ZoneTry>): set<string> {
    if tries == [] then {}
    else
      var t := tries[|tries| - 1];
      Ever(tries[..|tries| - 1]) + (if t.committed then SetOf(t.desired) else {})
  }

  function Others(z: Zone): set<string> {
    z.server - SetOf(z.applied)
  }

  predicate Truthful(z: Zone) {
    SetOf(z.applied) <= z.server
  }

  /** Between attempts a zone is settled, or pending towards the list last tried. */
  predicate Stands(z: Zone, tries: seq<ZoneTry>, mine: set<string>) {
    if tries == [] || tries[|tries| - 1].committed then Settled(z, mine) else Pending(z, tries[|tries| - 1].desired, mine)
  }

  lemma StandsNext(z: Zone, z': Zone, tries: seq<ZoneTry>, t: ZoneTry, mine: set<string>)
    requires Stands(z, tries, mine) && ZoneNext(z, z', t)
    requires tries != [] && !tries[|tries| - 1].committed ==> t.desired == tries[|tries| - 1].desired
    ensures Stands(z', tries + [t], if t.committed then mine - SetOf(t.desired) else mine)
    ensures t.committed ==> z'.server == (mine - SetOf(t.desired)) + SetOf(t.desired) && z'.applied == t.desired
    ensures !t.committed ==> z'.applied == z.applied
  {
    var r :| ZoneStep(z, z', t.desired, r, t.committed);
    assert Pending(z, t.desired, mine) by {
      if tries == [] || tries[|tries| - 1].committed {
        SettledIsPending(z, t.desired, mine);
      }
    }
    if t.committed {
      CommittedStep(z, z', t.desired, r, mine);
    } else {
      AbortedStep(z, z', t.desired, r, mine);
    }
  }

  /** In every state of every history the zone stands as it should. */
  lemma {:induction false} ZoneInvariant(zones: seq<Zone>, tries: seq<ZoneTry>)
    requires ZoneHistory(zones, tries) && Truthful(zones[0])
    ensures Stands(zones[|tries|], tries, Others(zones[0]) - Ever(tries))
    ensures tries != [] && tries[|tries| - 1].committed ==>
      var d := tries[|tries| - 1].desired;
      zones[|tries|].server == (Others(zones[0]) - Ever(tries)) + SetOf(d) && zones[|tries|].applied == d
    decreases |tries|
  {
    if tries == [] {
      assert Others(zones[0]) - Ever(tries) == Others(zones[0]);
    } else {
      var m := |tries| - 1;
      ZoneHistoryFront(zones, tries);
      ZoneInvariant(zones[..m + 1], tries[..m]);
      EverNext(Others(zones[0]), tries);
      StandsNext(zones[m], zones[m + 1], tries[..m], tries[m], Others(zones[0]) - Ever(tries[..m]));
    }
  }

  lemma ZoneHistoryFront(zones: seq<Zone>, tries: seq<ZoneTry>)
    requires ZoneHistory(zones, tries) && tries != []
    ensures var m := |tries| - 1;
      && ZoneHistory(zones[..m + 1], tries[..m]) && tries == tries[..m] + [tries[m]]
      && ZoneNext(zones[m], zones[m + 1], tries[m])
      && (m > 0 && !tries[m - 1].committed ==> tries[m].desired == tries[m - 1].desired)
  {
    var m := |tries| - 1;
    ZoneHistoryPrefix(zones, tries, m);
    assert m > 0 ==> Continues(tries, m);
  }

  lemma ZoneHistoryPrefix(zones: seq<Zone>, tries: seq<ZoneTry>, k: nat)
    requires ZoneHistory(zones, tries) && k <= |tries|
    ensures ZoneHistory(zones[..k + 1], tries[..k])
  {
    forall i | 0 < i < k ensures Continues(tries[..k], i) {
      assert Continues(tries, i);
    }
  }

  lemma EverNext(others: set<string>, tries: seq<ZoneTry>)
    requires tries != []
    ensures var m := |tries| - 1;
      var mine := others - Ever(tries[..m]);
      others - Ever(tries) == if tries[m].committed then mine - SetOf(tries[m].desired) else mine
  {
  }

  /** The status list stays put until an attempt commits. */
  lemma {:induction false} AppliedUntilCommit(zones: seq<Zone>, tries: seq<ZoneTry>)
    requires ZoneHistory(zones, tries)
    requires forall k :: 0 <= k < |tries| ==> !tries[k].committed
    ensures zones[|tries|].applied == zones[0].applied && Ever(tries) == {}
    decreases |tries|
  {
    if tries != [] {
      var m := |tries| - 1;
      ZoneHistoryFront(zones, tries);
      AppliedUntilCommit(zones[..m + 1], tries[..m]);
    }
  }

  // ---------- both zones over whole histories of the resource ----------

  datatype Try = Try(spec: Spec, committed: bool)

  /** Any attempts, failed or not, with the spec edited only after a committed one. */
  ghost predicate History(worlds: seq<World>, tries: seq<Try>) {
    && |worlds| == |tries| + 1
    && (forall k {:trigger tries[k]} :: 0 <= k < |tries| ==> Attempt(worlds[k], worlds[k + 1], tries[k].spec, tries[k].committed))
    && (forall k :: 0 < k < |tries| ==> SpecKept(tries, k))
  }

  predicate SpecKept(tries: seq<Try>, k: nat)
    requires 0 < k < |tries|
  {
    tries[k - 1].committed || tries[k].spec == tries[k - 1].spec
  }

  function ZoneOf(w: World, blocked: bool): Zone {
    if blocked then w.blocked else w.allowed
  }

  function ListOf(spec: Spec, blocked: bool): seq<string> {
    if blocked then spec.blocked else spec.allowed
  }

  function Zones(worlds: seq<World>, blocked: bool): seq<Zone> {
    seq(|worlds|, k requires 0 <= k < |worlds| => ZoneOf(worlds[k], blocked))
  }

  function ZoneTries(tries: seq<Try>, blocked: bool): seq<ZoneTry> {
    seq(|tries|, k requires 0 <= k < |tries| => ZoneTry(ListOf(tries[k].spec, blocked), tries[k].committed))
  }

  lemma ZoneFollows(w: World, w': World, t: Try, blocked: bool)
    requires Attempt(w, w', t.spec, t.committed)
    ensures ZoneNext(ZoneOf(w, blocked), ZoneOf(w', blocked), ZoneTry(ListOf(t.spec, blocked), t.committed))
  {
    var a, b :| AttemptAt(w, w', t.spec, t.committed, a, b);
    assert ZoneStep(ZoneOf(w, blocked), ZoneOf(w', blocked), ListOf(t.spec, blocked), if blocked then b else a, t.committed);
  }

  lemma ZonesFollow(worlds: seq<World>, tries: seq<Try>, blocked: bool)
    requires History(worlds, tries)
    ensures ZoneHistory(Zones(worlds, blocked), ZoneTries(tries, blocked))
  {
    var zones, ts := Zones(worlds, blocked), ZoneTries(tries, blocked);
    forall k | 0 <= k < |ts| ensures ZoneNext(zones[k], zones[k + 1], ts[k]) {
      ZoneFollows(worlds[k], worlds[k + 1], tries[k], blocked);
    }
    forall k | 0 < k < |ts| ensures Continues(ts, k) {
      assert SpecKept(tries, k);
    }
  }

  /**
   After any history of specs, each retried through any failures until it
   commits: either zone holds exactly the latest desired domains and those of
   its original other domains that no spec ever listed.
   */
  lemma OverridesConverge(worlds: seq<World>, tries: seq<Try>, blocked: bool)
    requires History(worlds, tries) && Truthful(ZoneOf(worlds[0], blocked))
    requires tries != [] && tries[|tries| - 1].committed
    ensures var z, d := ZoneOf(worlds[|tries|], blocked), ListOf(tries[|tries| - 1].spec, blocked);
      && z.server == (Others(ZoneOf(worlds[0], blocked)) - Ever(ZoneTries(tries, blocked))) + SetOf(d)
      && z.applied == d
  {
    ZonesFollow(worlds, tries, blocked);
    ZoneInvariant(Zones(worlds, blocked), ZoneTries(tries, blocked));
  }

  /** For one spec: any number of aborted attempts, then a success; status advances with that success only. */
  lemma OneSpecConverges(worlds: seq<World>, tries: seq<Try>, spec: Spec, blocked: bool)
    requires History(worlds, tries) && Truthful(ZoneOf(worlds[0], blocked)) && tries != []
    requires forall k :: 0 <= k < |tries| ==> tries[k] == Try(spec, k == |tries| - 1)
    ensures var z, w := ZoneOf(worlds[0], blocked), ZoneOf(worlds[|tries|], blocked);
      w.server == (z.server - SetOf(z.applied)) + SetOf(ListOf(spec, blocked)) && w.applied == ListOf(spec, blocked)
    ensures forall k :: 0 <= k < |tries| ==> ZoneOf(worlds[k], blocked).applied == ZoneOf(worlds[0], blocked).applied
  {
    OverridesConverge(worlds, tries, blocked);
    ZonesFollow(worlds, tries, blocked);
    var zones, ts := Zones(worlds, blocked), ZoneTries(tries, blocked);
    forall k | 0 <= k < |ts| ensures zones[k].applied == zones[0].applied && Ever(ts[..k]) == {} {
      ZoneHistoryPrefix(zones, ts, k);
      AppliedUntilCommit(zones[..k + 1], ts[..k]);
    }
    assert Ever(ts) == SetOf(ListOf(spec, blocked));
    forall k | 0 <= k < |tries| ensures ZoneOf(worlds[k], blocked).applied == ZoneOf(worlds[0], blocked).applied {
      assert zones[k].applied == zones[0].applied;
    }
  }

  // ---------- editing in mid-attempt ----------

  /** The zone after an attempt towards a list that got this far and did not commit. */
  function Aborted(z: Zone, desired: seq<string>, r: Reached): Zone
    requires r.adds <= |desired| && r.deletes <= |z.applied|
  {
    z.(server := After(z.server, z.applied, desired, r.adds, r.deletes))
  }

  function Committed(z: Zone, desired: seq<string>): Zone {
    Zone(After(z.server, z.applied, desired, |desired|, |z.applied|), desired)
  }

  function Goal(z: Zone, desired: seq<string>): set<string> {
    (z.server - SetOf(z.applied)) + SetOf(desired)
  }

  /**
   An attempt towards one list gets as far as r, the spec is edited, and an attempt
   towards the new list commits. The server ends up as intended exactly if the
   first attempt deleted nothing the new list wants, and added nothing the new
   list does not want and that was not there before.
   */
  lemma EditMidwayExactly(z: Zone, first: seq<string>, second: seq<string>, r: Reached)
    requires Truthful(z) && r.adds <= |first| && r.deletes <= |z.applied|
    ensures Committed(Aborted(z, first, r), second).server == Goal(z, second) <==>
      && (SetOf(z.applied[..r.deletes]) - SetOf(first)) !! SetOf(second)
      && SetOf(first[..r.adds]) - SetOf(z.applied) - SetOf(second) <= z.server
  {
    var m := Aborted(z, first, r);
    CommitExactly(m, Committed(m, second), second, Reached(|second|, |z.applied|), z.server);
    var a, d, gone, come := SetOf(z.applied), SetOf(second), SetOf(z.applied[..r.deletes]) - SetOf(first), SetOf(first[..r.adds]) - SetOf(z.applied);
    SetOfPrefix(z.applied, r.deletes);
    SetOfPrefix(first, r.adds);
    MidwaySets(z.server, a, d, gone, come);
  }

  lemma SetOfPrefix(s: seq<string>, k: nat)
    requires k <= |s|
    ensures SetOf(s[..k]) <= SetOf(s)
  {
  }

  lemma MidwaySets(server: set<string>, a: set<string>, d: set<string>, gone: set<string>, come: set<string>)
    requires a <= server && gone <= a && come !! a
    ensures var m := (server + come) - gone;
      (a * d <= m && m - a - d == server - a - d) <==> (gone !! d && come - d <= server)
  {
    var m := (server + come) - gone;
    if a * d <= m && m - a - d == server - a - d {
      forall x | x in come - d ensures x in server {
        assert x in m - a - d;
      }
    }
    if gone !! d && come - d <= server {
      forall x ensures x in m - a - d <==> x in server - a - d {
      }
    }
  }

  /** Wherever an attempt towards the first list stops, an edit to the second ends well. */
  ghost predicate SafeEdit(z: Zone, first: seq<string>, second: seq<string>) {
    forall r :: Possible(z, first, r) ==> Committed(Aborted(z, first, r), second).server == Goal(z, second)
  }

  predicate Possible(z: Zone, desired: seq<string>, r: Reached) {
    r.adds <= |desired| && r.deletes <= |z.applied| && (r.deletes > 0 ==> r.adds == |desired|)
  }

  /**
   An edit is safe whatever was done before it exactly if it puts back nothing
   the first list dropped, and drops nothing new that the first list added.
   */
  lemma SafeEditExactly(z: Zone, first: seq<string>, second: seq<string>)
    requires Truthful(z)
    ensures SafeEdit(z, first, second) <==>
      && (SetOf(z.applied) - SetOf(first)) !! SetOf(second)
      && SetOf(first) - SetOf(z.applied) - SetOf(second) <= z.server
  {
    var all := Reached(|first|, |z.applied|);
    assert Possible(z, first, all);
    assert first[..|first|] == first && z.applied[..|z.applied|] == z.applied;
    EditMidwayExactly(z, first, second, all);
    forall r | Possible(z, first, r)
      ensures SetOf(z.applied[..r.deletes]) <= SetOf(z.applied) && SetOf(first[..r.adds]) <= SetOf(first)
      ensures Committed(Aborted(z, first, r), second).server == Goal(z, second) <==>
        && (SetOf(z.applied[..r.deletes]) - SetOf(first)) !! SetOf(second)
        && SetOf(first[..r.adds]) - SetOf(z.applied) - SetOf(second) <= z.server
    {
      EditMidwayExactly(z, first, second, r);
      SetOfPrefix(z.applied, r.deletes);
      SetOfPrefix(first, r.adds);
    }
  }

  /** What Aborted and Committed describe are the attempts of a history. */
  lemma EditIsSteps(z: Zone, first: seq<string>, second: seq<string>, r: Reached)
    requires Possible(z, first, r)
    ensures ZoneStep(z, Aborted(z, first, r), first, r, false)
    ensures var m := Aborted(z, first, r); ZoneStep(m, Committed(m, second), second, Reached(|second|, |m.applied|), true)
  {
  }

  /**
   The two ways it goes wrong: a domain dropped and put back is deleted and never
   added again, because status still lists it; a domain added and dropped stays,
   because status never listed it.
   */
  lemma EditMidwayFails()
    ensures Committed(Aborted(Zone({"a"}, ["a"]), [], Reached(0, 1)), ["a"]).server == {}
    ensures Committed(Aborted(Zone({}, []), ["a"], Reached(1, 0)), []).server == {"a"}
  {
    assert ["a"][..1] == ["a"] && SetOf(["a"]) == {"a"} && SetOf([]) == {};
  }
}
