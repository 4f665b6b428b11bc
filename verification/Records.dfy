/**
 Record reconciliation (internal/controller/record_controller.go) against the
 records of one name on the server, one server call at a time. A step machine
 gives the meaning of an attempt that may stop anywhere; ReconcileRecord is the
 same attempt as the operator runs it.
 */
module Records {
  import opened Calls
  import opened Options

  datatype RecordType = A | AAAA | CNAME | TXT | NS | PTR | MX

  /** Record data as the server returns it; only the fields of the record's type mean anything. */
  datatype RData = RData(
    ipAddress: string, cname: string, text: string, nameServer: string, ptrName: string, exchange: string, preference: int)

  /** Record data as sent; the preference may be left out. */
  datatype RecordValue = RecordValue(
    ipAddress: string, cname: string, text: string, nameServer: string, ptrName: string, exchange: string,
    preference: Option<int>)

  datatype SrvRecord = SrvRecord(typ: RecordType, ttl: int, rdata: RData)

  datatype Spec = Spec(typ: RecordType, data: string, priority: Option<int>, ttl: Option<int>)

  /** A Record resource: its spec and the data last applied ("" before the first success). */
  datatype Record = Record(spec: Spec, appliedData: string, appliedPriority: Option<int>)

  const DEFAULT_TTL: int := 3600
  const NO_VALUE := RecordValue("", "", "", "", "", "", None)

  // ---------- what identifies a record ----------

  /** The value of a record: its type, its data and, for MX, its preference. */
  datatype RR = RR(typ: RecordType, data: string, preference: int)

  function KeyOf(r: SrvRecord): RR {
    match r.typ
    case A => RR(A, r.rdata.ipAddress, 0)
    case AAAA => RR(AAAA, r.rdata.ipAddress, 0)
    case CNAME => RR(CNAME, r.rdata.cname, 0)
    case TXT => RR(TXT, r.rdata.text, 0)
    case NS => RR(NS, r.rdata.nameServer, 0)
    case PTR => RR(PTR, r.rdata.ptrName, 0)
    case MX => RR(MX, r.rdata.exchange, r.rdata.preference)
  }

  /** The value a spec asks for. */
  function Wanted(spec: Spec): RR {
    RR(spec.typ, spec.data, if spec.typ.MX? && spec.priority.Some? then spec.priority.value else 0)
  }

  /** recordDataMatches. */
  predicate DataMatches(spec: Spec, r: SrvRecord) {
    match spec.typ
    case A => r.rdata.ipAddress == spec.data
    case AAAA => r.rdata.ipAddress == spec.data
    case CNAME => r.rdata.cname == spec.data
    case TXT => r.rdata.text == spec.data
    case NS => r.rdata.nameServer == spec.data
    case PTR => r.rdata.ptrName == spec.data
    case MX => r.rdata.exchange == spec.data && (spec.priority.None? || r.rdata.preference == spec.priority.value)
  }

  /** findRecord: the index of the first record of the type that matches; any CNAME matches. */
  function Find(records: seq<SrvRecord>, spec: Spec): (r: Option<nat>)
    ensures r.Some? ==> r.value < |records| && records[r.value].typ == spec.typ
    ensures r.Some? && !spec.typ.CNAME? ==> DataMatches(spec, records[r.value])
    ensures r.None? ==> forall k :: 0 <= k < |records| && records[k].typ == spec.typ ==>
      !spec.typ.CNAME? && !DataMatches(spec, records[k])
  {
    if records == [] then None
    else if records[0].typ == spec.typ && (spec.typ.CNAME? || DataMatches(spec, records[0])) then Some(0)
    else
      match Find(records[1..], spec)
      case None => None
      case Some(k) => Some(k + 1)
  }

  /** appliedSpec. */
  function AppliedSpec(rec: Record): Spec {
    if rec.appliedData == "" then rec.spec else rec.spec.(data := rec.appliedData, priority := rec.appliedPriority)
  }

  // ---------- requests ----------

  /** setRecordValue. */
  function ValueFromSpec(spec: Spec): RecordValue {
    match spec.typ
    case A => NO_VALUE.(ipAddress := spec.data)
    case AAAA => NO_VALUE.(ipAddress := spec.data)
    case CNAME => NO_VALUE.(cname := spec.data)
    case TXT => NO_VALUE.(text := spec.data)
    case NS => NO_VALUE.(nameServer := spec.data)
    case PTR => NO_VALUE.(ptrName := spec.data)
    case MX => NO_VALUE.(exchange := spec.data, preference := spec.priority)
  }

  /** deleteOptionsFromCurrent: a preference of 0 is left out. */
  function ValueFromCurrent(r: SrvRecord): RecordValue {
    RecordValue(r.rdata.ipAddress, r.rdata.cname, r.rdata.text, r.rdata.nameServer, r.rdata.ptrName, r.rdata.exchange,
                if r.rdata.preference != 0 then Some(r.rdata.preference) else None)
  }

  /** What goes over the wire: only the parameters of the record's type. */
  datatype Params = Params(typ: RecordType, data: string, preference: Option<int>)

  /** setRecordValueParams. None: the client refuses an empty value. */
  function ParamsOf(typ: RecordType, v: RecordValue): Option<Params> {
    var data := match typ
      case A => v.ipAddress
      case AAAA => v.ipAddress
      case CNAME => v.cname
      case TXT => v.text
      case NS => v.nameServer
      case PTR => v.ptrName
      case MX => v.exchange;
    if data == "" then None else Some(Params(typ, data, if typ.MX? then v.preference else None))
  }

  // ---------- the server ----------

  /** The server's defaults, and what it answers with. */
  const SERVER_TTL: int := 3600
  const SERVER_PREFERENCE: int := 1

  predicate Identifies(p: Params, r: SrvRecord) {
    && r.typ == p.typ && KeyOf(r).data == p.data
    && (p.preference.Some? ==> r.rdata.preference == p.preference.value)
  }

  function NewRecord(p: Params, ttl: Option<int>): SrvRecord {
    var blank := RData("", "", "", "", "", "", 0);
    var rdata := match p.typ
      case A => blank.(ipAddress := p.data)
      case AAAA => blank.(ipAddress := p.data)
      case CNAME => blank.(cname := p.data)
      case TXT => blank.(text := p.data)
      case NS => blank.(nameServer := p.data)
      case PTR => blank.(ptrName := p.data)
      case MX => blank.(exchange := p.data, preference := if p.preference.Some? then p.preference.value else SERVER_PREFERENCE);
    SrvRecord(p.typ, if ttl.Some? then ttl.value else SERVER_TTL, rdata)
  }

  function Values(records: seq<SrvRecord>): set<RR> {
    set r | r in records :: KeyOf(r)
  }

  /** Adding an existing value is refused and changes nothing. */
  function Added(records: seq<SrvRecord>, p: Params, ttl: Option<int>): seq<SrvRecord> {
    var r := NewRecord(p, ttl);
    if KeyOf(r) in Values(records) then records else records + [r]
  }

  function Deleted(records: seq<SrvRecord>, p: Params): seq<SrvRecord> {
    if records == [] then []
    else (if Identifies(p, records[0]) then [] else [records[0]]) + Deleted(records[1..], p)
  }

  function Retimed(records: seq<SrvRecord>, p: Params, ttl: int): seq<SrvRecord> {
    if records == [] then []
    else [if Identifies(p, records[0]) then records[0].(ttl := ttl) else records[0]] + Retimed(records[1..], p, ttl)
  }

  // ---------- one attempt, call by call ----------

  /** Where an attempt stands. Start also means: no attempt running. */
  datatype PC =
    | Start
    | Fetched(snapshot: seq<SrvRecord>)
    | Recreate                                                  // a drifted CNAME has been deleted
    | Cleanup(snapshot: seq<SrvRecord>, current: Option<nat>)   // the desired value is in place
    | Reconciled

  datatype Next = Next(pc: PC, records: seq<SrvRecord>)

  /** A call without parameters to send fails before reaching the server. */
  function Write(records: seq<SrvRecord>, written: seq<SrvRecord>, sent: bool, call: Call, goal: PC): Next {
    Next(if sent && call.Succeeds? then goal else Start, if sent && call.TakesEffect() then written else records)
  }

  function AddStep(rec: Record, records: seq<SrvRecord>, call: Call, goal: PC): Next {
    match ParamsOf(rec.spec.typ, ValueFromSpec(rec.spec))
    case None => Next(Start, records)
    case Some(p) => Write(records, Added(records, p, rec.spec.ttl), true, call, goal)
  }

  function DeleteStep(typ: RecordType, victim: SrvRecord, records: seq<SrvRecord>, call: Call, goal: PC): Next {
    match ParamsOf(typ, ValueFromCurrent(victim))
    case None => Next(Start, records)
    case Some(p) => Write(records, Deleted(records, p), true, call, goal)
  }

  function DesiredTtl(spec: Spec): int {
    if spec.ttl.Some? then spec.ttl.value else DEFAULT_TTL
  }

  function UpdateStep(rec: Record, records: seq<SrvRecord>, call: Call, goal: PC): Next {
    match ParamsOf(rec.spec.typ, ValueFromSpec(rec.spec))
    case None => Next(Start, records)
    case Some(p) =>
      var known := exists k :: 0 <= k < |records| && Identifies(p, records[k]);
      Write(records, Retimed(records, p, DesiredTtl(rec.spec)), known, call, goal)
  }

  /** deleteStaleRecord's choice: the record still carrying the applied data, never the current one. */
  function Stale(rec: Record, snapshot: seq<SrvRecord>, current: Option<nat>): (r: Option<nat>)
    ensures r.Some? ==> r.value < |snapshot|
  {
    if rec.spec.typ.CNAME? || rec.appliedData == "" then None
    else if rec.appliedData == rec.spec.data && rec.appliedPriority == rec.spec.priority then None
    else
      var stale := Find(snapshot, AppliedSpec(rec));
      if stale.None? || stale == current then None else stale
  }

  /** One step of reconcileRecord: at most one server call. */
  function Step(rec: Record, pc: PC, records: seq<SrvRecord>, call: Call): Next {
    match pc
    case Start => if call.Succeeds? then Next(Fetched(records), records) else Next(Start, records)
    case Fetched(snapshot) =>
      (match Find(snapshot, rec.spec)
       case None => AddStep(rec, records, call, Cleanup(snapshot, None))
       case Some(k) =>
         if !DataMatches(rec.spec, snapshot[k]) then DeleteStep(rec.spec.typ, snapshot[k], records, call, Recreate)
         else if snapshot[k].ttl != DesiredTtl(rec.spec) then UpdateStep(rec, records, call, Cleanup(snapshot, Some(k)))
         else Next(Cleanup(snapshot, Some(k)), records))
    case Recreate => AddStep(rec, records, call, Reconciled)
    case Cleanup(snapshot, current) =>
      (match Stale(rec, snapshot, current)
       case None => Next(Reconciled, records)
       case Some(k) => DeleteStep(rec.spec.typ, snapshot[k], records, call, Reconciled))
    case Reconciled => Next(Reconciled, records)
  }

  /** How the calls of one attempt end. */
  datatype Outcomes = Outcomes(get: Call, write: Call, recreate: Call, clean: Call)

  function CallAt(o: Outcomes, pc: PC): Call {
    match pc
    case Start => o.get
    case Fetched(_) => o.write
    case Recreate => o.recreate
    case Cleanup(_, _) => o.clean
    case Reconciled => Succeeds
  }

  function Rank(pc: PC): nat {
    match pc
    case Start => 4
    case Fetched(_) => 3
    case Recreate => 2
    case Cleanup(_, _) => 1
    case Reconciled => 0
  }

  /** Run the attempt from pc until it succeeds or stops: the records then, and whether it succeeded. */
  function Finish(rec: Record, pc: PC, records: seq<SrvRecord>, o: Outcomes): (seq<SrvRecord>, bool)
    decreases Rank(pc)
  {
    if pc.Reconciled? then (records, true)
    else
      var next := Step(rec, pc, records, CallAt(o, pc));
      if next.pc.Start? then (next.records, false) else Finish(rec, next.pc, next.records, o)
  }

  /** markReady, when its write takes effect. */
  function MarkedReady(rec: Record): Record {
    rec.(appliedData := rec.spec.data, appliedPriority := rec.spec.priority)
  }

  // ---------- the attempt as the operator runs it ----------

  /** The Technitium server, as far as one name is concerned. */
  class Server {
    var records: seq<SrvRecord>

    constructor (records: seq<SrvRecord>)
      ensures this.records == records
    {
      this.records := records;
    }

    method AddRecord(spec: Spec, call: Call) returns (ok: bool)
      modifies this
      ensures var n := AddStep(Record(spec, "", None), old(records), call, Reconciled); records == n.records && ok == n.pc.Reconciled?
    {
      var p := ParamsOf(spec.typ, ValueFromSpec(spec));
      if p.None? {
        return false;
      }
      if call.TakesEffect() {
        records := Added(records, p.value, spec.ttl);
      }
      return call.Succeeds?;
    }

    method DeleteRecord(typ: RecordType, victim: SrvRecord, call: Call) returns (ok: bool)
      modifies this
      ensures var n := DeleteStep(typ, victim, old(records), call, Reconciled); records == n.records && ok == n.pc.Reconciled?
    {
      var p := ParamsOf(typ, ValueFromCurrent(victim));
      if p.None? {
        return false;
      }
      if call.TakesEffect() {
        records := Deleted(records, p.value);
      }
      return call.Succeeds?;
    }

    method UpdateRecord(spec: Spec, call: Call) returns (ok: bool)
      modifies this
      ensures var n := UpdateStep(Record(spec, "", None), old(records), call, Reconciled); records == n.records && ok == n.pc.Reconciled?
    {
      var p := ParamsOf(spec.typ, ValueFromSpec(spec));
      if p.None? || !exists k :: 0 <= k < |records| && Identifies(p.value, records[k]) {
        return false;
      }
      if call.TakesEffect() {
        records := Retimed(records, p.value, DesiredTtl(spec));
      }
      return call.Succeeds?;
    }

    /** deleteStaleRecord. */
    method DeleteStaleRecord(rec: Record, snapshot: seq<SrvRecord>, current: Option<nat>, call: Call) returns (ok: bool)
      modifies this
      ensures var n := Step(rec, Cleanup(snapshot, current), old(records), call);
        records == n.records && ok == n.pc.Reconciled?
    {
      var spec := rec.spec;
      if spec.typ.CNAME? || rec.appliedData == "" {
        return true;
      }
      if rec.appliedData == spec.data && rec.appliedPriority == spec.priority {
        return true;
      }
      var stale := Find(snapshot, AppliedSpec(rec));
      if stale.None? || stale == current {
        return true;
      }
      ok := DeleteRecord(spec.typ, snapshot[stale.value], call);
    }

    /** reconcileRecord once the desired record is in place. */
    method FinishUp(rec: Record, snapshot: seq<SrvRecord>, current: Option<nat>, o: Outcomes) returns (ok: bool)
      modifies this
      ensures (records, ok) == Finish(rec, Cleanup(snapshot, current), old(records), o)
    {
      ok := DeleteStaleRecord(rec, snapshot, current, o.clean);
      var n := Step(rec, Cleanup(snapshot, current), old(records), o.clean);
      assert n.pc == Reconciled || n.pc == Start;
    }

    /** reconcileRecord for a CNAME that carries other data. */
    method RecreateRecord(rec: Record, o: Outcomes) returns (ok: bool)
      modifies this
      ensures (records, ok) == Finish(rec, Recreate, old(records), o)
    {
      ok := AddRecord(rec.spec, o.recreate);
      var n := Step(rec, Recreate, old(records), o.recreate);
      assert n == AddStep(rec, old(records), o.recreate, Reconciled);
      assert n.pc == Reconciled || n.pc == Start;
    }

    /** reconcileRecord. */
    method ReconcileRecord(rec: Record, o: Outcomes) returns (ok: bool)
      modifies this
      ensures (records, ok) == Finish(rec, Start, old(records), o)
    {
      if !o.get.Succeeds? {
        return false;
      }
      ok := ReconcileFetched(rec, records, o);
    }

    method ReconcileFetched(rec: Record, snapshot: seq<SrvRecord>, o: Outcomes) returns (ok: bool)
      modifies this
      ensures (records, ok) == Finish(rec, Fetched(snapshot), old(records), o)
    {
      var spec := rec.spec;
      var current := Find(snapshot, spec);
      ghost var n := Step(rec, Fetched(snapshot), old(records), o.write);
      if current.None? {
        ok := AddRecord(spec, o.write);
        if ok {
          assert n == Next(Cleanup(snapshot, None), records);
          ok := FinishUp(rec, snapshot, None, o);
        }
      } else if !DataMatches(spec, snapshot[current.value]) {
        ok := DeleteRecord(spec.typ, snapshot[current.value], o.write);
        if ok {
          assert n == Next(Recreate, records);
          ok := RecreateRecord(rec, o);
        }
      } else {
        ok := true;
        if snapshot[current.value].ttl != DesiredTtl(spec) {
          ok := UpdateRecord(spec, o.write);
        }
        if ok {
          assert n == Next(Cleanup(snapshot, current), records);
          ok := FinishUp(rec, snapshot, current, o);
        }
      }
    }
  }
}
