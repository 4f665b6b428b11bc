/**
 Runs of record reconciliation: several Records share one name on the server,
 their attempts interleave call by call, any call may fail before or after taking
 effect and any attempt may stop anywhere.
 */
module RecordRuns {
  import opened Calls
  import opened Options
  import opened Records

  // ---------- requests hit exactly the record they mean ----------

  /** MX records carry a non-zero preference, so that a delete names it. */
  predicate Definite(spec: Spec) {
    spec.data != "" && (spec.typ.MX? ==> spec.priority.Some? && spec.priority.value != 0)
  }

  predicate Manageable(rec: Record) {
    !rec.spec.typ.CNAME? && Definite(rec.spec) && (rec.appliedData != "" ==> Definite(AppliedSpec(rec)))
  }

  lemma SpecRequest(spec: Spec, r: SrvRecord)
    requires Definite(spec)
    ensures var p := ParamsOf(spec.typ, ValueFromSpec(spec));
      && p.Some?
      && (Identifies(p.value, r) <==> KeyOf(r) == Wanted(spec))
      && KeyOf(NewRecord(p.value, spec.ttl)) == Wanted(spec)
  {
  }

  lemma CurrentRequest(victim: SrvRecord, r: SrvRecord)
    requires KeyOf(victim).data != "" && (victim.typ.MX? ==> victim.rdata.preference != 0)
    ensures var p := ParamsOf(victim.typ, ValueFromCurrent(victim));
      p.Some? && (Identifies(p.value, r) <==> KeyOf(r) == KeyOf(victim))
  {
  }

  lemma MatchMeans(spec: Spec, r: SrvRecord)
    requires Definite(spec) && r.typ == spec.typ
    ensures DataMatches(spec, r) <==> KeyOf(r) == Wanted(spec)
  {
  }

  lemma FindMeans(records: seq<SrvRecord>, spec: Spec)
    requires Definite(spec) && !spec.typ.CNAME?
    ensures Find(records, spec).Some? <==> Wanted(spec) in Values(records)
    ensures Find(records, spec).Some? ==> KeyOf(records[Find(records, spec).value]) == Wanted(spec)
  {
    var f := Find(records, spec);
    if f.Some? {
      MatchMeans(spec, records[f.value]);
      assert records[f.value] in records;
    } else {
      forall r | r in records ensures KeyOf(r) != Wanted(spec) {
        var k :| 0 <= k < |records| && records[k] == r;
        if r.typ == spec.typ {
          MatchMeans(spec, r);
        }
      }
    }
  }

  lemma {:induction false} FindSame(records: seq<SrvRecord>, a: Spec, b: Spec)
    requires Definite(a) && Definite(b) && !a.typ.CNAME? && Wanted(a) == Wanted(b)
    ensures Find(records, a) == Find(records, b)
  {
    if records != [] {
      if records[0].typ == a.typ {
        MatchMeans(a, records[0]);
        MatchMeans(b, records[0]);
      }
      FindSame(records[1..], a, b);
    }
  }

  lemma {:induction false} DeletedMeans(records: seq<SrvRecord>, p: Params, r: SrvRecord)
    ensures r in Deleted(records, p) <==> r in records && !Identifies(p, r)
  {
    if records != [] {
      DeletedMeans(records[1..], p, r);
    }
  }

  lemma {:induction false} RetimedMeans(records: seq<SrvRecord>, p: Params, ttl: int, r: SrvRecord)
    ensures !Identifies(p, r) ==> (r in Retimed(records, p, ttl) <==> r in records)
    ensures Identifies(p, r) ==> (r in Retimed(records, p, ttl) <==> exists q :: q in records && Identifies(p, q) && r == q.(ttl := ttl))
  {
    if records != [] {
      RetimedMeans(records[1..], p, ttl, r);
    }
  }

  // ---------- effects on values ----------

  /** Records whose value is not in own are the same in both. */
  ghost predicate SameElsewhere(a: seq<SrvRecord>, b: seq<SrvRecord>, own: set<RR>) {
    forall r :: KeyOf(r) !in own ==> (r in a <==> r in b)
  }

  lemma ValuesElsewhere(a: seq<SrvRecord>, b: seq<SrvRecord>, own: set<RR>, k: RR)
    requires SameElsewhere(a, b, own) && k !in own
    ensures k in Values(a) <==> k in Values(b)
  {
    if k in Values(a) {
      var r :| r in a && KeyOf(r) == k;
      assert r in b;
    }
    if k in Values(b) {
      var r :| r in b && KeyOf(r) == k;
      assert r in a;
    }
  }

  lemma AddEffect(rec: Record, records: seq<SrvRecord>, call: Call, goal: PC)
    requires Definite(rec.spec)
    ensures var n, d := AddStep(rec, records, call, goal), Wanted(rec.spec);
      && SameElsewhere(records, n.records, {d})
      && (d in Values(records) ==> d in Values(n.records))
      && (n.pc == (if call.Succeeds? then goal else Start))
      && (call.Succeeds? ==> d in Values(n.records))
  {
    var p := ParamsOf(rec.spec.typ, ValueFromSpec(rec.spec)).value;
    var r := NewRecord(p, rec.spec.ttl);
    SpecRequest(rec.spec, r);
    var n := AddStep(rec, records, call, goal);
    assert r in records + [r];
    assert forall q :: q in records + [r] <==> q in records || q == r;
  }

  lemma UpdateEffect(rec: Record, records: seq<SrvRecord>, call: Call, goal: PC)
    requires Definite(rec.spec)
    ensures var n, d := UpdateStep(rec, records, call, goal), Wanted(rec.spec);
      && SameElsewhere(records, n.records, {d})
      && (d in Values(records) ==> d in Values(n.records))
      && (n.pc == (if d in Values(records) && call.Succeeds? then goal else Start))
  {
    var p := ParamsOf(rec.spec.typ, ValueFromSpec(rec.spec)).value;
    var d, ttl := Wanted(rec.spec), DesiredTtl(rec.spec);
    forall r ensures Identifies(p, r) <==> KeyOf(r) == d {
      SpecRequest(rec.spec, r);
    }
    if d in Values(records) {
      var q :| q in records && KeyOf(q) == d;
      var k :| 0 <= k < |records| && records[k] == q;
      assert Identifies(p, records[k]);
      forall r ensures KeyOf(r) != d ==> (r in Retimed(records, p, ttl) <==> r in records) {
        RetimedMeans(records, p, ttl, r);
      }
      RetimedMeans(records, p, ttl, q.(ttl := ttl));
      assert KeyOf(q.(ttl := ttl)) == d;
    } else {
      assert forall r :: r in records ==> KeyOf(r) in Values(records);
      assert !exists k :: 0 <= k < |records| && Identifies(p, records[k]);
    }
  }

  lemma DeleteEffect(victim: SrvRecord, records: seq<SrvRecord>, call: Call, goal: PC)
    requires KeyOf(victim).data != "" && (victim.typ.MX? ==> victim.rdata.preference != 0)
    ensures var n, a := DeleteStep(victim.typ, victim, records, call, goal), KeyOf(victim);
      && SameElsewhere(records, n.records, {a})
      && (a in Values(n.records) ==> a in Values(records))
      && (n.pc == (if call.Succeeds? then goal else Start))
      && (call.Succeeds? ==> a !in Values(n.records))
  {
    CurrentRequest(victim, victim);
    var p := ParamsOf(victim.typ, ValueFromCurrent(victim)).value;
    forall r ensures r in Deleted(records, p) <==> r in records && KeyOf(r) != KeyOf(victim) {
      CurrentRequest(victim, r);
      DeletedMeans(records, p, r);
    }
  }

  // ---------- the system ----------

  /** A Record and its attempt; done once its status has recorded a success. */
  datatype Proc = Proc(rec: Record, pc: PC, done: bool)

  datatype Sys = Sys(records: seq<SrvRecord>, procs: seq<Proc>)

  /** Record i makes its next call, or its attempt is cut short. */
  datatype Action = Act(i: nat, call: Call) | Crash(i: nat)

  function NextProc(p: Proc, records: seq<SrvRecord>, call: Call): (Proc, seq<SrvRecord>) {
    if p.pc.Reconciled? then
      // markReady
      (if call.TakesEffect() then Proc(MarkedReady(p.rec), Start, true) else p.(pc := Start), records)
    else
      var n := Step(p.rec, p.pc, records, call);
      (p.(pc := n.pc), n.records)
  }

  function NextSys(s: Sys, a: Action): Sys
    requires a.i < |s.procs|
  {
    match a
    case Crash(i) => s.(procs := s.procs[i := s.procs[i].(pc := Start)])
    case Act(i, call) =>
      var (p, records) := NextProc(s.procs[i], s.records, call);
      Sys(records, s.procs[i := p])
  }

  // ---------- what one step can do ----------

  function Desired(rec: Record): RR {
    Wanted(rec.spec)
  }

  function Applied(rec: Record): Option<RR> {
    if rec.appliedData == "" then None else Some(Wanted(AppliedSpec(rec)))
  }

  /** The applied value a success has to remove. */
  function Leftover(rec: Record): Option<RR> {
    if Applied(rec) == Some(Desired(rec)) then None else Applied(rec)
  }

  /** The values a Record may write or delete. */
  function Own(rec: Record): set<RR> {
    {Desired(rec)} + (if Applied(rec).Some? then {Applied(rec).value} else {})
  }

  /** What holds of an attempt whatever happens on the server; rec is the Record as it started out. */
  predicate Local(p: Proc, rec: Record) {
    && p.rec == (if p.done then MarkedReady(rec) else rec)
    && !p.pc.Recreate?
    && (p.pc.Cleanup? ==> p.pc.current == Find(p.pc.snapshot, rec.spec))
  }

  /** A step adds at most the desired value and takes away at most the leftover one, the latter in cleanup. */
  ghost predicate Moves(pc: PC, rec: Record, records: seq<SrvRecord>, records': seq<SrvRecord>) {
    && SameElsewhere(records, records', Own(rec))
    && (forall k :: k in Values(records') && k !in Values(records) ==> k == Desired(rec))
    && (forall k :: k in Values(records) && k !in Values(records') ==> pc.Cleanup? && Leftover(rec) == Some(k))
  }

  lemma MovesOne(pc: PC, rec: Record, records: seq<SrvRecord>, records': seq<SrvRecord>, k: RR)
    requires SameElsewhere(records, records', {k}) && k in Own(rec)
    requires k in Values(records') && k !in Values(records) ==> k == Desired(rec)
    requires k in Values(records) && k !in Values(records') ==> pc.Cleanup? && Leftover(rec) == Some(k)
    ensures Moves(pc, rec, records, records')
  {
    forall j | j != k ensures j in Values(records) <==> j in Values(records') {
      ValuesElsewhere(records, records', {k}, j);
    }
  }

  lemma FetchedMoves(p: Proc, rec: Record, records: seq<SrvRecord>, call: Call)
    requires Manageable(rec) && p.pc.Fetched? && Local(p, rec)
    ensures var (p', records') := NextProc(p, records, call);
      && Local(p', rec) && Moves(p.pc, rec, records, records')
      && (Desired(rec) in Values(records) ==> Desired(rec) in Values(records'))
      && (p'.pc.Cleanup? ==> p'.pc.snapshot == p.pc.snapshot)
      && (p'.pc.Cleanup? || p'.pc.Start?)
      && (p'.pc.Cleanup? ==> Desired(rec) in Values(p.pc.snapshot) || Desired(rec) in Values(records'))
      && (call.Succeeds? && (Desired(rec) in Values(p.pc.snapshot) ==> Desired(rec) in Values(records)) ==> p'.pc.Cleanup?)
  {
    var snapshot := p.pc.snapshot;
    FindMeans(snapshot, rec.spec);
    var f := Find(snapshot, rec.spec);
    assert p.rec.spec == rec.spec;
    if f.None? {
      AddEffect(p.rec, records, call, Cleanup(snapshot, None));
    } else {
      MatchMeans(rec.spec, snapshot[f.value]);
      UpdateEffect(p.rec, records, call, Cleanup(snapshot, f));
    }
    var (p', records') := NextProc(p, records, call);
    MovesOne(p.pc, rec, records, records', Desired(rec));
  }

  lemma CleanupMoves(p: Proc, rec: Record, records: seq<SrvRecord>, call: Call)
    requires Manageable(rec) && p.pc.Cleanup? && Local(p, rec)
    ensures var (p', records') := NextProc(p, records, call);
      && Local(p', rec) && Moves(p.pc, rec, records, records')
      && (p'.pc.Reconciled? || p'.pc.Start?)
      && (call.Succeeds? ==> p'.pc.Reconciled?)
      && (p'.pc.Reconciled? && !p.done && Leftover(rec).Some? && Leftover(rec).value in Values(p.pc.snapshot) ==>
            Leftover(rec).value !in Values(records'))
  {
    var snapshot, current := p.pc.snapshot, p.pc.current;
    var stale := Stale(p.rec, snapshot, current);
    if !p.done && rec.appliedData != "" {
      var a := Applied(rec).value;
      FindMeans(snapshot, AppliedSpec(rec));
      if a == Desired(rec) {
        FindSame(snapshot, rec.spec, AppliedSpec(rec));
      } else {
        FindMeans(snapshot, rec.spec);
        if stale.Some? {
          DeleteEffect(snapshot[stale.value], records, call, Reconciled);
          var (p', records') := NextProc(p, records, call);
          MovesOne(p.pc, rec, records, records', a);
        }
      }
    }
  }

  lemma OwnStep(p: Proc, rec: Record, records: seq<SrvRecord>, call: Call)
    requires Manageable(rec) && Local(p, rec)
    ensures var (p', records') := NextProc(p, records, call); Local(p', rec) && Moves(p.pc, rec, records, records')
  {
    match p.pc
    case Fetched(_) => FetchedMoves(p, rec, records, call);
    case Cleanup(_, _) => CleanupMoves(p, rec, records, call);
    case _ =>
  }

  // ---------- invariants of one Record ----------

  /** From the write on the desired value is there. */
  predicate KeepInv(p: Proc, rec: Record, records: seq<SrvRecord>) {
    var d := Desired(rec);
    && (p.done || p.pc.Cleanup? || p.pc.Reconciled? ==> d in Values(records))
    && (p.pc.Fetched? && d in Values(p.pc.snapshot) ==> d in Values(records))
  }

  /** The snapshot misses no leftover value, and after the cleanup there is none. */
  predicate GoneInv(p: Proc, rec: Record, records: seq<SrvRecord>) {
    Leftover(rec).Some? && Leftover(rec).value in Values(records) ==>
      && !p.done && !p.pc.Reconciled?
      && (p.pc.Fetched? || p.pc.Cleanup? ==> Leftover(rec).value in Values(p.pc.snapshot))
  }

  lemma OwnKeeps(p: Proc, rec: Record, records: seq<SrvRecord>, call: Call)
    requires Manageable(rec) && Local(p, rec) && KeepInv(p, rec, records)
    ensures var (p', records') := NextProc(p, records, call); KeepInv(p', rec, records')
  {
    OwnStep(p, rec, records, call);
    if p.pc.Fetched? {
      FetchedMoves(p, rec, records, call);
    } else if p.pc.Cleanup? {
      CleanupMoves(p, rec, records, call);
    }
  }

  lemma OwnClears(p: Proc, rec: Record, records: seq<SrvRecord>, call: Call)
    requires Manageable(rec) && Local(p, rec) && GoneInv(p, rec, records)
    ensures var (p', records') := NextProc(p, records, call); GoneInv(p', rec, records')
  {
    OwnStep(p, rec, records, call);
    if p.pc.Fetched? {
      FetchedMoves(p, rec, records, call);
    } else if p.pc.Cleanup? {
      CleanupMoves(p, rec, records, call);
    }
  }

  // ---------- which Records get along ----------

  predicate AllManageable(recs: seq<Record>) {
    forall i :: 0 <= i < |recs| ==> Manageable(recs[i])
  }

  /** No other Record has to remove the value this one desires. */
  predicate Unthreatened(recs: seq<Record>, i: nat)
    requires i < |recs|
  {
    forall j :: 0 <= j < |recs| && j != i ==> Leftover(recs[j]) != Some(Desired(recs[i]))
  }

  /** No other Record desires the value this one has to remove. */
  predicate Undesired(recs: seq<Record>, i: nat)
    requires i < |recs|
  {
    forall j :: 0 <= j < |recs| && j != i ==> Leftover(recs[i]) != Some(Desired(recs[j]))
  }

  /** Nor does another Record that desires something else have to remove the value this one is served by. */
  predicate Sheltered(recs: seq<Record>, i: nat)
    requires i < |recs|
  {
    && Unthreatened(recs, i)
    && forall j :: 0 <= j < |recs| && j != i && Leftover(recs[j]).Some? && Leftover(recs[j]) == Applied(recs[i]) ==>
         Desired(recs[j]) == Desired(recs[i])
  }

  /** No Record has to remove what another desires. Records may share desired values, or leftover ones. */
  predicate Compatible(recs: seq<Record>) {
    forall i :: 0 <= i < |recs| ==> Unthreatened(recs, i)
  }

  // ---------- one step of the system ----------

  predicate AllLocal(s: Sys, recs: seq<Record>) {
    |s.procs| == |recs| && forall i :: 0 <= i < |recs| ==> Local(s.procs[i], recs[i])
  }

  lemma NextLocal(s: Sys, a: Action, recs: seq<Record>)
    requires AllManageable(recs) && AllLocal(s, recs) && a.i < |recs|
    ensures AllLocal(NextSys(s, a), recs)
    ensures Moves(s.procs[a.i].pc, recs[a.i], s.records, NextSys(s, a).records)
  {
    if a.Act? {
      OwnStep(s.procs[a.i], recs[a.i], s.records, a.call);
    }
  }

  lemma NextKeeps(s: Sys, a: Action, recs: seq<Record>, i: nat)
    requires AllManageable(recs) && AllLocal(s, recs) && a.i < |recs| && i < |recs|
    requires Unthreatened(recs, i) && KeepInv(s.procs[i], recs[i], s.records)
    ensures KeepInv(NextSys(s, a).procs[i], recs[i], NextSys(s, a).records)
  {
    NextLocal(s, a, recs);
    if a.Act? && a.i == i {
      OwnKeeps(s.procs[i], recs[i], s.records, a.call);
    }
  }

  lemma NextClears(s: Sys, a: Action, recs: seq<Record>, i: nat)
    requires AllManageable(recs) && AllLocal(s, recs) && a.i < |recs| && i < |recs|
    requires Undesired(recs, i) && GoneInv(s.procs[i], recs[i], s.records)
    ensures GoneInv(NextSys(s, a).procs[i], recs[i], NextSys(s, a).records)
  {
    NextLocal(s, a, recs);
    if a.Act? && a.i == i {
      OwnClears(s.procs[i], recs[i], s.records, a.call);
    }
  }

  /** One of the Record's two values is there; once it has succeeded, the desired one. */
  predicate Serving(p: Proc, rec: Record, records: seq<SrvRecord>) {
    Desired(rec) in Values(records) || (!p.done && Applied(rec).Some? && Applied(rec).value in Values(records))
  }

  predicate Served(rec: Record, records: seq<SrvRecord>) {
    Desired(rec) in Values(records) || (Applied(rec).Some? && Applied(rec).value in Values(records))
  }

  /** The Record is served, and so is everyone who desires the same value once past the write. */
  ghost predicate ServedInv(s: Sys, recs: seq<Record>, i: nat)
    requires i < |recs| == |s.procs|
  {
    && Served(recs[i], s.records)
    && forall j :: 0 <= j < |recs| && Desired(recs[j]) == Desired(recs[i]) ==> KeepInv(s.procs[j], recs[j], s.records)
  }

  lemma NextServes(s: Sys, a: Action, recs: seq<Record>, i: nat)
    requires AllManageable(recs) && AllLocal(s, recs) && a.i < |recs| && i < |recs|
    requires Sheltered(recs, i) && ServedInv(s, recs, i)
    ensures ServedInv(NextSys(s, a), recs, i)
  {
    var s' := NextSys(s, a);
    NextLocal(s, a, recs);
    forall k | 0 <= k < |recs| && Desired(recs[k]) == Desired(recs[i]) ensures KeepInv(s'.procs[k], recs[k], s'.records) {
      assert Unthreatened(recs, k);
      NextKeeps(s, a, recs, k);
    }
    // a value that served i and is taken away goes in the cleanup of a Record whose desired value, there already, is i's
    assert Served(recs[i], s'.records);
  }

  // ---------- whole runs ----------

  function StartOf(recs: seq<Record>, initial: seq<SrvRecord>): Sys {
    Sys(initial, seq(|recs|, i requires 0 <= i < |recs| => Proc(recs[i], Start, false)))
  }

  predicate Names(run: seq<Action>, n: nat) {
    forall k :: 0 <= k < |run| ==> run[k].i < n
  }

  function RunSys(s: Sys, run: seq<Action>): (s': Sys)
    requires Names(run, |s.procs|)
    ensures |s'.procs| == |s.procs|
    decreases |run|
  {
    if run == [] then s else RunSys(NextSys(s, run[0]), run[1..])
  }

  /** Outside all the Records' own values the records are as they were. */
  ghost predicate ForeignSame(a: seq<SrvRecord>, b: seq<SrvRecord>, recs: seq<Record>) {
    forall r :: (forall i :: 0 <= i < |recs| ==> KeyOf(r) !in Own(recs[i])) ==> (r in a <==> r in b)
  }

  lemma {:induction false} RunLocal(s: Sys, recs: seq<Record>, run: seq<Action>)
    requires AllManageable(recs) && AllLocal(s, recs) && Names(run, |recs|)
    ensures AllLocal(RunSys(s, run), recs) && ForeignSame(s.records, RunSys(s, run).records, recs)
    decreases |run|
  {
    if run != [] {
      NextLocal(s, run[0], recs);
      RunLocal(NextSys(s, run[0]), recs, run[1..]);
    }
  }

  lemma {:induction false} RunKeeps(s: Sys, recs: seq<Record>, run: seq<Action>, i: nat)
    requires AllManageable(recs) && AllLocal(s, recs) && Names(run, |recs|) && i < |recs|
    requires Unthreatened(recs, i) && KeepInv(s.procs[i], recs[i], s.records)
    ensures KeepInv(RunSys(s, run).procs[i], recs[i], RunSys(s, run).records)
    decreases |run|
  {
    if run != [] {
      NextLocal(s, run[0], recs);
      NextKeeps(s, run[0], recs, i);
      RunKeeps(NextSys(s, run[0]), recs, run[1..], i);
    }
  }

  lemma {:induction false} RunClears(s: Sys, recs: seq<Record>, run: seq<Action>, i: nat)
    requires AllManageable(recs) && AllLocal(s, recs) && Names(run, |recs|) && i < |recs|
    requires Undesired(recs, i) && GoneInv(s.procs[i], recs[i], s.records)
    ensures GoneInv(RunSys(s, run).procs[i], recs[i], RunSys(s, run).records)
    decreases |run|
  {
    if run != [] {
      NextLocal(s, run[0], recs);
      NextClears(s, run[0], recs, i);
      RunClears(NextSys(s, run[0]), recs, run[1..], i);
    }
  }

  lemma {:induction false} RunServes(s: Sys, recs: seq<Record>, run: seq<Action>, i: nat)
    requires AllManageable(recs) && AllLocal(s, recs) && Names(run, |recs|) && i < |recs|
    requires Sheltered(recs, i) && ServedInv(s, recs, i)
    ensures ServedInv(RunSys(s, run), recs, i)
    decreases |run|
  {
    if run != [] {
      NextLocal(s, run[0], recs);
      NextServes(s, run[0], recs, i);
      RunServes(NextSys(s, run[0]), recs, run[1..], i);
    }
  }

  /**
   In every interleaving, a sheltered Record that started out with a value served
   always has its old or its new value there, and the new one once it has succeeded.
   */
  lemma AlwaysServed(recs: seq<Record>, initial: seq<SrvRecord>, run: seq<Action>, i: nat)
    requires AllManageable(recs) && Names(run, |recs|) && i < |recs|
    requires Sheltered(recs, i) && Served(recs[i], initial)
    ensures var s := RunSys(StartOf(recs, initial), run); Serving(s.procs[i], recs[i], s.records)
  {
    RunServes(StartOf(recs, initial), recs, run, i);
  }

  /** The values of foreign records: those no Record manages. */
  function Foreign(records: seq<SrvRecord>, recs: seq<Record>): set<RR> {
    set k | k in Values(records) && forall i :: 0 <= i < |recs| ==> k !in Own(recs[i])
  }

  function AllDesired(recs: seq<Record>): set<RR> {
    set i | 0 <= i < |recs| :: Desired(recs[i])
  }

  predicate AllDone(s: Sys) {
    forall i :: 0 <= i < |s.procs| ==> s.procs[i].done
  }

  /**
   Once every one of a set of compatible Records has succeeded, the records of
   the name are exactly the foreign ones, untouched, plus every desired value.
   */
  lemma AllConverge(recs: seq<Record>, initial: seq<SrvRecord>, run: seq<Action>)
    requires AllManageable(recs) && Compatible(recs) && Names(run, |recs|)
    requires AllDone(RunSys(StartOf(recs, initial), run))
    ensures var final := RunSys(StartOf(recs, initial), run).records;
      Values(final) == Foreign(initial, recs) + AllDesired(recs) && ForeignSame(initial, final, recs)
  {
    var start := StartOf(recs, initial);
    var s := RunSys(start, run);
    RunLocal(start, recs, run);
    forall i | 0 <= i < |recs|
      ensures Desired(recs[i]) in Values(s.records)
      ensures Leftover(recs[i]).Some? ==> Leftover(recs[i]).value !in Values(s.records)
    {
      RunKeeps(start, recs, run, i);
      assert Undesired(recs, i) by {
        forall j | 0 <= j < |recs| && j != i ensures Leftover(recs[i]) != Some(Desired(recs[j])) {
          assert Unthreatened(recs, j);
        }
      }
      RunClears(start, recs, run, i);
    }
    forall k ensures k in Values(s.records) <==> k in Foreign(initial, recs) + AllDesired(recs) {
      if i :| 0 <= i < |recs| && k in Own(recs[i]) {
        if k != Desired(recs[i]) {
          assert Leftover(recs[i]) == Some(k);
          assert forall j :: 0 <= j < |recs| ==> Desired(recs[j]) in Values(s.records);
        }
      } else {
        ForeignKept(s.records, initial, recs, k);
        assert forall j :: 0 <= j < |recs| ==> Desired(recs[j]) in Own(recs[j]);
      }
    }
  }

  lemma ForeignKept(records: seq<SrvRecord>, initial: seq<SrvRecord>, recs: seq<Record>, k: RR)
    requires ForeignSame(initial, records, recs)
    requires forall i :: 0 <= i < |recs| ==> k !in Own(recs[i])
    ensures k in Values(records) <==> k in Foreign(initial, recs)
  {
    if k in Values(records) {
      var r :| r in records && KeyOf(r) == k;
      assert r in initial;
    }
    if k in Values(initial) {
      var r :| r in initial && KeyOf(r) == k;
      assert r in records;
    }
  }

  /**
   One Record alone, whatever calls fail and wherever attempts are cut short: the
   first recorded success leaves the initial records without the previously
   applied value, plus the desired one; every other record is untouched.
   */
  lemma CrashSafeChange(rec: Record, initial: seq<SrvRecord>, run: seq<Action>)
    requires Manageable(rec) && Names(run, 1)
    requires RunSys(StartOf([rec], initial), run).procs[0].done
    ensures var final, a := RunSys(StartOf([rec], initial), run).records, Applied(rec);
      && Values(final) == Values(initial) - (if a.Some? then {a.value} else {}) + {Desired(rec)}
      && SameElsewhere(initial, final, Own(rec))
  {
    var recs := [rec];
    assert AllManageable(recs) && Compatible(recs);
    AllConverge(recs, initial, run);
    var final := RunSys(StartOf(recs, initial), run).records;
    assert AllDesired(recs) == {Desired(rec)} by {
      assert Desired(recs[0]) in AllDesired(recs);
    }
    assert Foreign(initial, recs) == Values(initial) - Own(rec);
    forall r | KeyOf(r) !in Own(rec) ensures r in initial <==> r in final {
      assert forall i :: 0 <= i < |recs| ==> KeyOf(r) !in Own(recs[i]);
    }
  }

  // ---------- attempts are runs ----------

  lemma RunCons(s: Sys, a: Action, run: seq<Action>)
    requires a.i < |s.procs| && Names(run, |s.procs|)
    ensures Names([a] + run, |s.procs|) && RunSys(s, [a] + run) == RunSys(NextSys(s, a), run)
  {
    assert ([a] + run)[1..] == run;
  }

  /** Whatever reconcileRecord does in one attempt is a run of this system, so the laws above speak about it. */
  lemma {:induction false} AttemptIsRun(s: Sys, i: nat, o: Outcomes) returns (run: seq<Action>)
    requires i < |s.procs| && !s.procs[i].pc.Reconciled?
    ensures Names(run, |s.procs|)
    ensures var p, (records, ok) := s.procs[i], Finish(s.procs[i].rec, s.procs[i].pc, s.records, o);
      RunSys(s, run) == Sys(records, s.procs[i := p.(pc := if ok then Reconciled else Start)])
    decreases Rank(s.procs[i].pc)
  {
    var p := s.procs[i];
    var call := CallAt(o, p.pc);
    var next := Step(p.rec, p.pc, s.records, call);
    var s' := NextSys(s, Act(i, call));
    assert s' == Sys(next.records, s.procs[i := p.(pc := next.pc)]);
    if next.pc.Start? || next.pc.Reconciled? {
      run := [Act(i, call)];
      RunCons(s, Act(i, call), []);
      assert [Act(i, call)] + [] == run;
      assert next.pc.Reconciled? ==> Finish(p.rec, next.pc, next.records, o) == (next.records, true);
    } else {
      var rest := AttemptIsRun(s', i, o);
      run := [Act(i, call)] + rest;
      RunCons(s, Act(i, call), rest);
    }
  }

  // ---------- repeating a success ----------

  /** Every record with the desired value carries the desired TTL. */
  predicate TtlRight(rec: Record, records: seq<SrvRecord>) {
    forall r :: r in records && KeyOf(r) == Desired(rec) ==> r.ttl == DesiredTtl(rec.spec)
  }

  /** With the desired value in place at the desired TTL and recorded as applied, a pass changes nothing. */
  lemma QuietPass(rec: Record, records: seq<SrvRecord>, o: Outcomes)
    requires Manageable(rec) && rec == MarkedReady(rec) && o.get.Succeeds?
    requires Desired(rec) in Values(records) && TtlRight(rec, records)
    ensures Finish(rec, Start, records, o) == (records, true)
  {
    FindMeans(records, rec.spec);
    var k := Find(records, rec.spec);
    MatchMeans(rec.spec, records[k.value]);
    assert records[k.value] in records;
    assert Step(rec, Start, records, o.get) == Next(Fetched(records), records);
    assert Step(rec, Fetched(records), records, o.write) == Next(Cleanup(records, k), records);
    assert Step(rec, Cleanup(records, k), records, o.clean) == Next(Reconciled, records);
    assert Finish(rec, Reconciled, records, o) == (records, true);
    assert Finish(rec, Cleanup(records, k), records, o) == (records, true);
    assert Finish(rec, Fetched(records), records, o) == (records, true);
  }

  /** No two records with the desired value. */
  predicate Unique(rec: Record, records: seq<SrvRecord>) {
    forall q, r :: q in records && r in records && KeyOf(q) == KeyOf(r) == Desired(rec) ==> q == r
  }

  lemma WriteSetsTtl(rec: Record, records: seq<SrvRecord>, call: Call)
    requires Manageable(rec) && rec.spec.ttl.Some? && Unique(rec, records)
    requires Step(rec, Fetched(records), records, call).pc.Cleanup?
    ensures TtlRight(rec, Step(rec, Fetched(records), records, call).records)
  {
    FindMeans(records, rec.spec);
    var f := Find(records, rec.spec);
    var p := ParamsOf(rec.spec.typ, ValueFromSpec(rec.spec)).value;
    forall r ensures Identifies(p, r) <==> KeyOf(r) == Desired(rec) {
      SpecRequest(rec.spec, r);
    }
    if f.None? {
      assert forall r :: r in records ==> KeyOf(r) in Values(records);
    } else {
      MatchMeans(rec.spec, records[f.value]);
      assert records[f.value] in records;
      forall r ensures Identifies(p, r) && r in Retimed(records, p, DesiredTtl(rec.spec)) ==> r.ttl == DesiredTtl(rec.spec) {
        RetimedMeans(records, p, DesiredTtl(rec.spec), r);
      }
    }
  }

  lemma CleanupKeepsTtl(rec: Record, pc: PC, records: seq<SrvRecord>, call: Call)
    requires pc.Cleanup? && TtlRight(rec, records)
    ensures TtlRight(rec, Step(rec, pc, records, call).records)
  {
    var k := Stale(rec, pc.snapshot, pc.current);
    if k.Some? {
      var p := ParamsOf(rec.spec.typ, ValueFromCurrent(pc.snapshot[k.value]));
      if p.Some? {
        forall r ensures r in Deleted(records, p.value) ==> r in records {
          DeletedMeans(records, p.value, r);
        }
      }
    }
  }

  /** A success with an explicit TTL is stable: the next pass, whatever its calls do, changes nothing. */
  lemma SuccessIsStable(rec: Record, records: seq<SrvRecord>, o: Outcomes, o': Outcomes)
    requires Manageable(rec) && rec.spec.ttl.Some? && Unique(rec, records)
    requires Finish(rec, Start, records, o).1 && o'.get.Succeeds?
    ensures var final := Finish(rec, Start, records, o).0;
      Finish(MarkedReady(rec), Start, final, o') == (final, true)
  {
    var n1 := Step(rec, Fetched(records), records, o.write);
    SuccessPath(rec, records, o);
    WriteSetsTtl(rec, records, o.write);
    CleanupKeepsTtl(rec, n1.pc, n1.records, o.clean);
    QuietPass(MarkedReady(rec), Finish(rec, Start, records, o).0, o');
  }

  /** A success goes through the write and the cleanup, and leaves the desired value. */
  lemma SuccessPath(rec: Record, records: seq<SrvRecord>, o: Outcomes)
    requires Manageable(rec) && Finish(rec, Start, records, o).1
    ensures var n1 := Step(rec, Fetched(records), records, o.write);
      && n1.pc.Cleanup?
      && Finish(rec, Start, records, o).0 == Step(rec, n1.pc, n1.records, o.clean).records
      && Desired(rec) in Values(Finish(rec, Start, records, o).0)
  {
    var n1 := Step(rec, Fetched(records), records, o.write);
    var p := Proc(rec, Fetched(records), false);
    assert Step(rec, Start, records, o.get) == Next(Fetched(records), records);
    assert Finish(rec, Start, records, o) == Finish(rec, Fetched(records), records, o);
    FetchedMoves(p, rec, records, o.write);
    OwnKeeps(p, rec, records, o.write);
    assert n1.pc.Cleanup?;
    assert Finish(rec, Fetched(records), records, o) == Finish(rec, n1.pc, n1.records, o);
    CleanupMoves(p.(pc := n1.pc), rec, n1.records, o.clean);
    var n2 := Step(rec, n1.pc, n1.records, o.clean);
    assert n2.pc.Reconciled?;
    assert Finish(rec, n1.pc, n1.records, o) == (n2.records, true);
  }

  // ---------- incompatible Records ----------

  const ALL_WELL := Outcomes(Succeeds, Succeeds, Succeeds, Succeeds)

  function Remove(rec: Record): set<RR> {
    if Leftover(rec).Some? then {Leftover(rec).value} else {}
  }

  /** An attempt in which nothing fails trades the leftover value for the desired one. */
  lemma UndisturbedAttempt(rec: Record, records: seq<SrvRecord>)
    requires Manageable(rec)
    ensures var (final, ok) := Finish(rec, Start, records, ALL_WELL);
      ok && Values(final) == Values(records) - Remove(rec) + {Desired(rec)}
  {
    var n1 := Step(rec, Fetched(records), records, Succeeds);
    UndisturbedSteps(rec, records);
    var n2 := Step(rec, n1.pc, n1.records, Succeeds);
    assert Step(rec, Start, records, Succeeds) == Next(Fetched(records), records);
    assert Finish(rec, Start, records, ALL_WELL) == Finish(rec, Fetched(records), records, ALL_WELL);
    assert Finish(rec, Fetched(records), records, ALL_WELL) == Finish(rec, n1.pc, n1.records, ALL_WELL);
    assert Finish(rec, n1.pc, n1.records, ALL_WELL) == (n2.records, true);
  }

  lemma UndisturbedSteps(rec: Record, records: seq<SrvRecord>)
    requires Manageable(rec)
    ensures var n1 := Step(rec, Fetched(records), records, Succeeds);
      var n2 := Step(rec, n1.pc, n1.records, Succeeds);
      n1.pc.Cleanup? && n2.pc.Reconciled? && Values(n2.records) == Values(records) - Remove(rec) + {Desired(rec)}
  {
    var p := Proc(rec, Fetched(records), false);
    var (q, mid) := NextProc(p, records, Succeeds);
    FetchedMoves(p, rec, records, Succeeds);
    OwnKeeps(p, rec, records, Succeeds);
    OwnClears(p, rec, records, Succeeds);
    var (r, end) := NextProc(q, mid, Succeeds);
    CleanupMoves(q, rec, mid, Succeeds);
    OwnKeeps(q, rec, mid, Succeeds);
    OwnClears(q, rec, mid, Succeeds);
    TwoMoves(rec, records, mid, end);
  }

  lemma TwoMoves(rec: Record, a: seq<SrvRecord>, b: seq<SrvRecord>, c: seq<SrvRecord>)
    requires Moves(Fetched([]), rec, a, b) && Moves(Cleanup([], None), rec, b, c)
    requires Desired(rec) in Values(c) && (Leftover(rec).Some? ==> Leftover(rec).value !in Values(c))
    ensures Values(c) == Values(a) - Remove(rec) + {Desired(rec)}
  {
  }

  lemma {:induction false} RunAppend(s: Sys, a: seq<Action>, b: seq<Action>)
    requires Names(a, |s.procs|) && Names(b, |s.procs|)
    ensures Names(a + b, |s.procs|) && RunSys(s, a + b) == RunSys(RunSys(s, a), b)
    decreases |a|
  {
    if a == [] {
      assert a + b == b;
    } else {
      RunAppend(NextSys(s, a[0]), a[1..], b);
      assert (a + b)[1..] == a[1..] + b;
    }
  }

  /** Any Record can be run to a recorded success. */
  lemma RunToDone(s: Sys, i: nat) returns (run: seq<Action>)
    requires i < |s.procs| && s.procs[i].pc.Start? && Manageable(s.procs[i].rec)
    ensures Names(run, |s.procs|)
    ensures var rec, s' := s.procs[i].rec, RunSys(s, run);
      && s'.procs == s.procs[i := Proc(MarkedReady(rec), Start, true)]
      && Values(s'.records) == Values(s.records) - Remove(rec) + {Desired(rec)}
  {
    var p := s.procs[i];
    UndisturbedAttempt(p.rec, s.records);
    var attempt := AttemptIsRun(s, i, ALL_WELL);
    var mid := RunSys(s, attempt);
    assert mid.procs[i] == p.(pc := Reconciled);
    RunCons(mid, Act(i, Succeeds), []);
    assert [Act(i, Succeeds)] + [] == [Act(i, Succeeds)];
    RunAppend(s, attempt, [Act(i, Succeeds)]);
    run := attempt + [Act(i, Succeeds)];
  }

  /** All Records before n except one are run to success, the others left alone. */
  lemma {:induction false} RunOthers(recs: seq<Record>, initial: seq<SrvRecord>, n: nat, j: nat) returns (run: seq<Action>)
    requires AllManageable(recs) && j < |recs| && n <= |recs|
    ensures Names(run, |recs|)
    ensures var s := RunSys(StartOf(recs, initial), run);
      forall k :: 0 <= k < |recs| ==>
        s.procs[k] == if k < n && k != j then Proc(MarkedReady(recs[k]), Start, true) else Proc(recs[k], Start, false)
    decreases n
  {
    if n == 0 {
      run := [];
    } else {
      run := RunOthers(recs, initial, n - 1, j);
      if n - 1 != j {
        var s := RunSys(StartOf(recs, initial), run);
        var more := RunToDone(s, n - 1);
        RunAppend(StartOf(recs, initial), run, more);
        run := run + more;
      }
    }
  }

  /**
   Where one Record has to remove what another desires, a run without any failure
   ends with every Record done and that value gone, whatever was there at first.
   */
  lemma ConflictLosesValue(recs: seq<Record>, i: nat, j: nat, initial: seq<SrvRecord>) returns (run: seq<Action>)
    requires AllManageable(recs) && i < |recs| && j < |recs| && i != j
    requires Leftover(recs[j]) == Some(Desired(recs[i]))
    ensures Names(run, |recs|)
    ensures var s := RunSys(StartOf(recs, initial), run); AllDone(s) && Desired(recs[i]) !in Values(s.records)
  {
    var start := StartOf(recs, initial);
    var others := RunOthers(recs, initial, |recs|, j);
    var last := RunToDone(RunSys(start, others), j);
    RunAppend(start, others, last);
    run := others + last;
  }

  /** All runs of these Records, from all initial records, converge. */
  ghost predicate AlwaysConverge(recs: seq<Record>) {
    forall initial, run :: Names(run, |recs|) && AllDone(RunSys(StartOf(recs, initial), run)) ==>
      Values(RunSys(StartOf(recs, initial), run).records) == Foreign(initial, recs) + AllDesired(recs)
  }

  /** Records always converge exactly if none has to remove what another desires. */
  lemma ConvergeExactly(recs: seq<Record>)
    requires AllManageable(recs)
    ensures AlwaysConverge(recs) <==> Compatible(recs)
  {
    if Compatible(recs) {
      forall initial, run | Names(run, |recs|) && AllDone(RunSys(StartOf(recs, initial), run))
        ensures Values(RunSys(StartOf(recs, initial), run).records) == Foreign(initial, recs) + AllDesired(recs)
      {
        AllConverge(recs, initial, run);
      }
    } else {
      var i :| 0 <= i < |recs| && !Unthreatened(recs, i);
      var j :| 0 <= j < |recs| && j != i && Leftover(recs[j]) == Some(Desired(recs[i]));
      var run := ConflictLosesValue(recs, i, j, []);
      assert Desired(recs[i]) in AllDesired(recs);
    }
  }

  /** A record that carries the wanted value. */
  function RecordOf(spec: Spec): SrvRecord
    requires ParamsOf(spec.typ, ValueFromSpec(spec)).Some?
  {
    NewRecord(ParamsOf(spec.typ, ValueFromSpec(spec)).value, spec.ttl)
  }

  lemma OnlyRecord(spec: Spec) returns (records: seq<SrvRecord>)
    requires Definite(spec)
    ensures Values(records) == {Wanted(spec)}
  {
    var blank := SrvRecord(A, 0, RData("", "", "", "", "", "", 0));
    SpecRequest(spec, blank);
    records := [RecordOf(spec)];
    assert RecordOf(spec) in records;
  }

  /** A Record that is not sheltered can be left without a value, by runs in which nothing fails. */
  lemma UnshelteredIsDropped(recs: seq<Record>, i: nat) returns (initial: seq<SrvRecord>, run: seq<Action>)
    requires AllManageable(recs) && i < |recs| && !Sheltered(recs, i)
    ensures Served(recs[i], initial) && Names(run, |recs|)
    ensures var s := RunSys(StartOf(recs, initial), run); !Serving(s.procs[i], recs[i], s.records)
  {
    if !Unthreatened(recs, i) {
      var j :| 0 <= j < |recs| && j != i && Leftover(recs[j]) == Some(Desired(recs[i]));
      initial := OnlyRecord(recs[i].spec);
      run := ConflictLosesValue(recs, i, j, initial);
    } else {
      var j :| 0 <= j < |recs| && j != i && Leftover(recs[j]).Some? && Leftover(recs[j]) == Applied(recs[i]) &&
        Desired(recs[j]) != Desired(recs[i]);
      initial := OnlyRecord(AppliedSpec(recs[i]));
      run := RunToDone(StartOf(recs, initial), j);
      assert Applied(recs[i]).value in Values(initial);
    }
  }

  /** In all runs, from all initial records that serve it, the Record is served. */
  ghost predicate AlwaysServes(recs: seq<Record>, i: nat)
    requires i < |recs|
  {
    forall initial, run :: Names(run, |recs|) && Served(recs[i], initial) ==>
      Serving(RunSys(StartOf(recs, initial), run).procs[i], recs[i], RunSys(StartOf(recs, initial), run).records)
  }

  /** A Record is always served exactly if it is sheltered. */
  lemma ServedExactly(recs: seq<Record>, i: nat)
    requires AllManageable(recs) && i < |recs|
    ensures AlwaysServes(recs, i) <==> Sheltered(recs, i)
  {
    if Sheltered(recs, i) {
      forall initial, run | Names(run, |recs|) && Served(recs[i], initial)
        ensures Serving(RunSys(StartOf(recs, initial), run).procs[i], recs[i], RunSys(StartOf(recs, initial), run).records)
      {
        AlwaysServed(recs, initial, run, i);
      }
    } else {
      var initial, run := UnshelteredIsDropped(recs, i);
    }
  }

  /** The smallest case: two Records that swap their values. */
  lemma SwapLosesValue(x: string, y: string, initial: seq<SrvRecord>) returns (recs: seq<Record>, run: seq<Action>)
    requires x != "" && y != "" && x != y
    ensures AllManageable(recs) && Names(run, |recs|)
    ensures recs == [Record(Spec(A, y, None, None), x, None), Record(Spec(A, x, None, None), y, None)]
    ensures var s := RunSys(StartOf(recs, initial), run); AllDone(s) && Desired(recs[0]) !in Values(s.records)
  {
    recs := [Record(Spec(A, y, None, None), x, None), Record(Spec(A, x, None, None), y, None)];
    run := ConflictLosesValue(recs, 0, 1, initial);
  }

  // ---------- CNAME ----------

  /** A name holds at most one CNAME value, and it is not empty. */
  predicate OneCname(records: seq<SrvRecord>) {
    && (forall q, r :: q in records && r in records && q.typ.CNAME? && r.typ.CNAME? ==> KeyOf(q) == KeyOf(r))
    && (forall r :: r in records && r.typ.CNAME? ==> KeyOf(r).data != "")
  }

  ghost predicate CnameStep(before: seq<SrvRecord>, after: seq<SrvRecord>) {
    && OneCname(after)
    && forall r: SrvRecord :: !r.typ.CNAME? ==> (r in before <==> r in after)
  }

  lemma CnameAdd(rec: Record, records: seq<SrvRecord>, call: Call, goal: PC)
    requires rec.spec.typ.CNAME? && Definite(rec.spec)
    requires forall r :: r in records ==> !r.typ.CNAME?
    ensures var n := AddStep(rec, records, call, goal);
      && CnameStep(records, n.records)
      && n.pc == (if call.Succeeds? then goal else Start)
      && (call.Succeeds? ==> Desired(rec) in Values(n.records))
  {
    AddEffect(rec, records, call, goal);
    var n := AddStep(rec, records, call, goal);
    forall r | r in n.records && r.typ.CNAME? ensures KeyOf(r) == Desired(rec) {
      assert KeyOf(r) != Desired(rec) ==> (r in records <==> r in n.records);
    }
  }

  /**
   For a CNAME an attempt keeps every other type untouched and at most one CNAME
   on the name; a success leaves exactly the desired one.
   */
  lemma CnameConverges(rec: Record, records: seq<SrvRecord>, o: Outcomes)
    requires rec.spec.typ.CNAME? && Definite(rec.spec) && OneCname(records)
    ensures var (final, ok) := Finish(rec, Start, records, o);
      && CnameStep(records, final)
      && (ok ==> Desired(rec) in Values(final) && forall r :: r in final && r.typ.CNAME? ==> KeyOf(r) == Desired(rec))
  {
    if o.get.Succeeds? {
      assert Finish(rec, Start, records, o) == Finish(rec, Fetched(records), records, o);
      CnameFetched(rec, records, o);
    }
  }

  lemma CnameFetched(rec: Record, records: seq<SrvRecord>, o: Outcomes)
    requires rec.spec.typ.CNAME? && Definite(rec.spec) && OneCname(records)
    ensures var (final, ok) := Finish(rec, Fetched(records), records, o);
      && CnameStep(records, final)
      && (ok ==> Desired(rec) in Values(final))
  {
    var f := Find(records, rec.spec);
    var n := Step(rec, Fetched(records), records, o.write);
    if f.None? {
      CnameAdd(rec, records, o.write, Cleanup(records, None));
      if n.pc.Cleanup? {
        CnameCleanup(rec, n, o);
      }
    } else {
      var found := records[f.value];
      assert found in records;
      MatchMeans(rec.spec, found);
      if DataMatches(rec.spec, found) {
        assert Desired(rec) in Values(records);
        if found.ttl != DesiredTtl(rec.spec) {
          UpdateEffect(rec, records, o.write, Cleanup(records, f));
          CnameRetimed(rec, records, o.write, Cleanup(records, f));
        }
        if n.pc.Cleanup? {
          CnameCleanup(rec, n, o);
        }
      } else {
        DeleteEffect(found, records, o.write, Recreate);
        CnameDeleted(records, found, o.write);
        if n.pc.Recreate? {
          CnameAdd(rec, n.records, o.recreate, Reconciled);
          assert Finish(rec, Fetched(records), records, o) == Finish(rec, Recreate, n.records, o);
          var m := Step(rec, Recreate, n.records, o.recreate);
          assert m.pc.Reconciled? ==> Finish(rec, m.pc, m.records, o) == (m.records, true);
        }
      }
    }
  }

  lemma CnameCleanup(rec: Record, n: Next, o: Outcomes)
    requires rec.spec.typ.CNAME? && n.pc.Cleanup?
    ensures Finish(rec, n.pc, n.records, o) == (n.records, true)
  {
    assert Step(rec, n.pc, n.records, o.clean) == Next(Reconciled, n.records);
    assert Finish(rec, Reconciled, n.records, o) == (n.records, true);
  }

  lemma CnameRetimed(rec: Record, records: seq<SrvRecord>, call: Call, goal: PC)
    requires rec.spec.typ.CNAME? && Definite(rec.spec) && OneCname(records)
    ensures CnameStep(records, UpdateStep(rec, records, call, goal).records)
  {
    var p := ParamsOf(rec.spec.typ, ValueFromSpec(rec.spec)).value;
    var ttl := DesiredTtl(rec.spec);
    var after := Retimed(records, p, ttl);
    forall r: SrvRecord ensures !r.typ.CNAME? ==> (r in records <==> r in after)
      ensures r in after && r.typ.CNAME? ==> exists q :: q in records && q.typ.CNAME? && KeyOf(q) == KeyOf(r)
    {
      RetimedMeans(records, p, ttl, r);
      if r in after && r.typ.CNAME? {
        if Identifies(p, r) {
          var q :| q in records && Identifies(p, q) && r == q.(ttl := ttl);
          assert q.typ.CNAME? && KeyOf(q) == KeyOf(r);
        }
      }
    }
  }

  lemma CnameDeleted(records: seq<SrvRecord>, found: SrvRecord, call: Call)
    requires OneCname(records) && found in records && found.typ.CNAME?
    ensures var n := DeleteStep(CNAME, found, records, call, Recreate);
      && OneCname(n.records)
      && (forall r: SrvRecord :: !r.typ.CNAME? ==> (r in records <==> r in n.records))
      && (n.pc.Recreate? ==> forall r :: r in n.records ==> !r.typ.CNAME?)
  {
    var p := ParamsOf(CNAME, ValueFromCurrent(found)).value;
    forall r ensures r in Deleted(records, p) <==> r in records && KeyOf(r) != KeyOf(found) {
      CurrentRequest(found, r);
      DeletedMeans(records, p, r);
    }
  }

  /** What a CNAME attempt has left when it gets past the write. */
  predicate CnameDone(rec: Record, records: seq<SrvRecord>) {
    && Desired(rec) in Values(records)
    && forall r :: r in records && r.typ.CNAME? ==> KeyOf(r) == Desired(rec)
  }

  /** An attempt in which nothing fails gets there: by adding, correcting the TTL, or replacing what was there. */
  lemma CnameSucceeds(rec: Record, records: seq<SrvRecord>)
    requires rec.spec.typ.CNAME? && Definite(rec.spec) && OneCname(records)
    ensures var (final, ok) := Finish(rec, Start, records, ALL_WELL);
      ok && CnameStep(records, final) && CnameDone(rec, final)
  {
    CnameConverges(rec, records, ALL_WELL);
    CnameOk(rec, records);
  }

  lemma CnameOk(rec: Record, records: seq<SrvRecord>)
    requires rec.spec.typ.CNAME? && Definite(rec.spec) && OneCname(records)
    ensures Finish(rec, Start, records, ALL_WELL).1
  {
    assert Finish(rec, Start, records, ALL_WELL) == Finish(rec, Fetched(records), records, ALL_WELL);
    var f := Find(records, rec.spec);
    var n := Step(rec, Fetched(records), records, Succeeds);
    if f.Some? && !DataMatches(rec.spec, records[f.value]) {
      assert records[f.value] in records;
      DeleteEffect(records[f.value], records, Succeeds, Recreate);
      AddEffect(rec, n.records, Succeeds, Reconciled);
      assert Finish(rec, Fetched(records), records, ALL_WELL) == Finish(rec, Recreate, n.records, ALL_WELL);
      assert Step(rec, Recreate, n.records, Succeeds).pc.Reconciled?;
    } else {
      if f.None? {
        AddEffect(rec, records, Succeeds, Cleanup(records, None));
      } else {
        MatchMeans(rec.spec, records[f.value]);
        assert records[f.value] in records;
        UpdateEffect(rec, records, Succeeds, Cleanup(records, f));
      }
      assert n.pc.Cleanup?;
      CnameCleanup(rec, n, ALL_WELL);
      assert Finish(rec, Fetched(records), records, ALL_WELL) == Finish(rec, n.pc, n.records, ALL_WELL);
    }
  }

  /** At most one CNAME record on the name. */
  predicate SingleCname(records: seq<SrvRecord>) {
    forall q, r :: q in records && r in records && q.typ.CNAME? && r.typ.CNAME? ==> q == r
  }

  predicate CnameTtl(rec: Record, records: seq<SrvRecord>) {
    forall r :: r in records && r.typ.CNAME? ==> r.ttl == DesiredTtl(rec.spec)
  }

  lemma CnameAddTtl(rec: Record, records: seq<SrvRecord>, goal: PC)
    requires rec.spec.typ.CNAME? && Definite(rec.spec) && rec.spec.ttl.Some?
    requires forall r :: r in records ==> !r.typ.CNAME?
    ensures CnameTtl(rec, AddStep(rec, records, Succeeds, goal).records)
  {
    var p := ParamsOf(rec.spec.typ, ValueFromSpec(rec.spec)).value;
    assert forall q :: q in Added(records, p, rec.spec.ttl) ==> q in records || q == NewRecord(p, rec.spec.ttl);
  }

  lemma CnameUpdateTtl(rec: Record, records: seq<SrvRecord>, goal: PC)
    requires rec.spec.typ.CNAME? && Definite(rec.spec) && CnameDone(rec, records)
    ensures CnameTtl(rec, UpdateStep(rec, records, Succeeds, goal).records)
  {
    var p, ttl := ParamsOf(rec.spec.typ, ValueFromSpec(rec.spec)).value, DesiredTtl(rec.spec);
    var q :| q in records && KeyOf(q) == Desired(rec);
    var k :| 0 <= k < |records| && records[k] == q;
    SpecRequest(rec.spec, q);
    assert Identifies(p, records[k]);
    forall r | r in Retimed(records, p, ttl) && r.typ.CNAME? ensures r.ttl == ttl {
      RetimedMeans(records, p, ttl, r);
      SpecRequest(rec.spec, r);
    }
  }

  /** With an explicit TTL the one CNAME then carries it. */
  lemma CnameGetsTtl(rec: Record, records: seq<SrvRecord>)
    requires rec.spec.typ.CNAME? && Definite(rec.spec) && rec.spec.ttl.Some? && OneCname(records) && SingleCname(records)
    ensures CnameTtl(rec, Finish(rec, Start, records, ALL_WELL).0)
  {
    assert Finish(rec, Start, records, ALL_WELL) == Finish(rec, Fetched(records), records, ALL_WELL);
    var f := Find(records, rec.spec);
    var n := Step(rec, Fetched(records), records, Succeeds);
    if f.Some? && !DataMatches(rec.spec, records[f.value]) {
      var found := records[f.value];
      assert found in records;
      DeleteEffect(found, records, Succeeds, Recreate);
      CnameDeleted(records, found, Succeeds);
      AddEffect(rec, n.records, Succeeds, Reconciled);
      CnameAddTtl(rec, n.records, Reconciled);
      var m := Step(rec, Recreate, n.records, Succeeds);
      assert Finish(rec, Fetched(records), records, ALL_WELL) == Finish(rec, Recreate, n.records, ALL_WELL);
      assert Finish(rec, Recreate, n.records, ALL_WELL) == Finish(rec, m.pc, m.records, ALL_WELL) == (m.records, true);
    } else {
      CnameWriteTtl(rec, records);
      CnameCleanup(rec, n, ALL_WELL);
      assert Finish(rec, Fetched(records), records, ALL_WELL) == Finish(rec, n.pc, n.records, ALL_WELL);
    }
  }

  lemma CnameWriteTtl(rec: Record, records: seq<SrvRecord>)
    requires rec.spec.typ.CNAME? && Definite(rec.spec) && rec.spec.ttl.Some? && OneCname(records) && SingleCname(records)
    requires var f := Find(records, rec.spec); f.Some? ==> DataMatches(rec.spec, records[f.value])
    ensures var n := Step(rec, Fetched(records), records, Succeeds); n.pc.Cleanup? && CnameTtl(rec, n.records)
  {
    var f := Find(records, rec.spec);
    if f.None? {
      AddEffect(rec, records, Succeeds, Cleanup(records, None));
      CnameAddTtl(rec, records, Cleanup(records, None));
    } else {
      var found := records[f.value];
      MatchMeans(rec.spec, found);
      assert found in records;
      UpdateEffect(rec, records, Succeeds, Cleanup(records, f));
      CnameUpdateTtl(rec, records, Cleanup(records, f));
    }
  }

  /** And with data and TTL in place a pass over a CNAME changes nothing. */
  lemma CnameQuiet(rec: Record, records: seq<SrvRecord>, o: Outcomes)
    requires rec.spec.typ.CNAME? && Definite(rec.spec) && CnameDone(rec, records) && CnameTtl(rec, records) && o.get.Succeeds?
    ensures Finish(rec, Start, records, o) == (records, true)
  {
    var r :| r in records && KeyOf(r) == Desired(rec);
    var k := Find(records, rec.spec);
    assert k.Some? && records[k.value] in records;
    MatchMeans(rec.spec, records[k.value]);
    assert Finish(rec, Start, records, o) == Finish(rec, Fetched(records), records, o);
    var n := Next(Cleanup(records, k), records);
    assert Step(rec, Fetched(records), records, o.write) == n;
    CnameCleanup(rec, n, o);
    assert Finish(rec, Fetched(records), records, o) == Finish(rec, n.pc, n.records, o);
  }

  /** So a success on a CNAME is followed by passes that change nothing. */
  lemma CnameStable(rec: Record, records: seq<SrvRecord>, o: Outcomes)
    requires rec.spec.typ.CNAME? && Definite(rec.spec) && rec.spec.ttl.Some? && OneCname(records) && SingleCname(records)
    requires o.get.Succeeds?
    ensures var final := Finish(rec, Start, records, ALL_WELL).0; Finish(MarkedReady(rec), Start, final, o) == (final, true)
  {
    CnameSucceeds(rec, records);
    CnameGetsTtl(rec, records);
    CnameQuiet(MarkedReady(rec), Finish(rec, Start, records, ALL_WELL).0, o);
  }
}
