/**
 TCP reads' data phases on the host (bpf/nvme_tcp_host.bpf.c, bpf/host.bpf.h): within one nvme_tcp_recv_skb call the
 CPU's context, tagged with the thread, names the sampled read whose data is being copied; a copy of another read's
 data, the read's completion, or the call's end closes its period. All threads, CPUs, calls and reads together.
 */
module ReadPhase {
  import opened Records
  import opened StageModel
  import opened Periods
  import TargetSlots
  import HostObject

  type SlotNo = TargetSlots.SlotNo
  type Layout = HostObject.Layout
  type CidEntry = HostObject.CidEntry

  /** struct host_rx, of one CPU; dataRq 0 = no sampled read's data in this call */
  datatype Rx = Rx(tid: u64, queue: u64, skb: u64, enter: nat, dataRq: u64, busyFrom: nat)

  const NO_RX := Rx(0, 0, 0, 0, 0, 0)

  /** The fields of a record that its data phase has. */
  datatype ReadRec = ReadRec(proc: nat, done: nat, rspProc: nat, busyNs: int, skbs: nat)

  const NEW_READ := ReadRec(0, 0, 0, 0, 0)

  /** struct host_entry */
  datatype Slot = Slot(rq: u64, queue: u64, cid: u16, rec: ReadRec)

  /** A receive call: its number, when and on which CPU it began, and the reads that it was found copying. */
  datatype Call = Call(no: nat, at: nat, cpu: nat, copied: set<u64>)

  /**
   What the program does not have, and the properties are about: the time, the calls begun so far, which of them wrote
   each CPU's context, which one each thread is in, when the last call with a read's data was over, and the periods
   that each record's busyNs is the sum of.
   */
  datatype Past = Past(now: nat, calls: nat, wrote: seq<nat>, running: map<u64, Call>, left: map<u64, nat>,
                       periods: map<SlotNo, seq<Period>>)

  datatype State = State(rx: seq<Rx>, recs: map<SlotNo, Slot>, index: map<SlotNo, CidEntry>, past: Past)

  function Start(cpus: nat, index: map<SlotNo, CidEntry>): State {
    State(seq(cpus, _ => NO_RX), map[], index, Past(0, 0, seq(cpus, _ => 0), map[], map[], map[]))
  }

  datatype Event =
    /** nvme_setup_cmd opens a record and enters it in the index; block_rq_complete emits it */
    | Setup(at: nat, rq: u64, queue: u64, cid: u16)
    | Gone(at: nat, rq: u64)
    | RxEnter(at: nat, cpu: nat, tid: u64, queue: u64, skb: u64)
    /** a copy out of an skb; the PDU being received is C2H data or not, and has this cid */
    | Copy(at: nat, cpu: nat, tid: u64, skb: u64, data: bool, cid: u16)
    | Complete(at: nat, cpu: nat, tid: u64, rq: u64)
    | RxExit(at: nat, cpu: nat, tid: u64)
  {
    predicate OnCpu() {
      !Setup? && !Gone?
    }
  }

  /** The clock is monotone and never 0, as are thread ids and addresses. */
  predicate Timely(s: State, e: Event) {
    && s.past.now <= e.at && e.at > 0
    && (e.OnCpu() ==> e.cpu < |s.rx| == |s.past.wrote| && e.tid != 0)
    && (e.Setup? || e.Gone? || e.Complete? ==> e.rq != 0)
  }

  // ---- the hooks ----

  predicate SameShape(s: State, t: State) {
    |t.rx| == |s.rx| && |t.past.wrote| == |s.past.wrote|
  }

  /** host_entry(), for an address that is not 0 */
  predicate Has(s: State, rq: u64, lay: Layout) {
    lay.slot(rq) in s.recs && s.recs[lay.slot(rq)].rq == rq
  }

  function PeriodsAt(p: Past, i: SlotNo): seq<Period> {
    if i in p.periods then p.periods[i] else []
  }

  function Timed(r: ReadRec, from: nat, at: nat): ReadRec {
    r.(busyNs := r.busyNs + at - from, skbs := r.skbs + 1, done := at)
  }

  /** The context names a read that still has its record. */
  predicate Named(s: State, cpu: nat, lay: Layout)
    requires cpu < |s.rx|
  {
    s.rx[cpu].dataRq != 0 && Has(s, s.rx[cpu].dataRq, lay)
  }

  /** host_data_done(), on the record that the context names, if it is still there */
  function Close(s: State, at: nat, cpu: nat, lay: Layout): (t: State)
    requires cpu < |s.rx|
    ensures SameShape(s, t)
  {
    if !Named(s, cpu, lay) then s
    else
      var c := s.rx[cpu];
      var i := lay.slot(c.dataRq);
      var t := s.(rx := s.rx[cpu := c.(dataRq := 0, busyFrom := 0)]);
      if c.busyFrom == 0 || at < c.busyFrom then t
      else t.(recs := s.recs[i := s.recs[i].(rec := Timed(s.recs[i].rec, c.busyFrom, at))],
              past := s.past.(periods := s.past.periods[i := PeriodsAt(s.past, i) + [Period(c.busyFrom, at)]]))
  }

  /** The first guards of on_copy(): the copy of a C2H data PDU's data in the call whose context this is. */
  predicate InCall(s: State, e: Event, lay: Layout)
    requires e.Copy? && e.cpu < |s.rx|
  {
    var c := s.rx[e.cpu];
    && s.recs != map[] && c.tid == e.tid && c.skb == e.skb && e.data
    && var j := lay.cidSlot(c.queue, e.cid);
       j in s.index && s.index[j].queue == c.queue && s.index[j].cid == e.cid
  }

  /** The request that the index has for the PDU; 0 once it completed. */
  function Indexed(s: State, e: Event, lay: Layout): u64
    requires e.Copy? && e.cpu < |s.rx| && InCall(s, e, lay)
  {
    s.index[lay.cidSlot(s.rx[e.cpu].queue, e.cid)].rq
  }

  /** The copy is the first, in a row, of a recorded read's data. */
  predicate Names(s: State, e: Event, lay: Layout)
    requires e.OnCpu() && e.cpu < |s.rx|
  {
    e.Copy? && InCall(s, e, lay) && Indexed(s, e, lay) != 0 && Has(s, Indexed(s, e, lay), lay) &&
    s.rx[e.cpu].dataRq != Indexed(s, e, lay)
  }

  /** The index entry was cleared: host_entry(0) finds a free slot 0, and the context comes to name nothing. */
  predicate Clears(s: State, e: Event, lay: Layout)
    requires e.OnCpu() && e.cpu < |s.rx|
  {
    e.Copy? && InCall(s, e, lay) && Indexed(s, e, lay) == 0 && lay.slot(0) !in s.recs && s.rx[e.cpu].dataRq != 0
  }

  /** The rest of on_copy(), once a read before has been ended: the context names this one from here on. */
  function Name(s: State, at: nat, cpu: nat, tid: u64, rq: u64, switched: bool, lay: Layout): (t: State)
    requires cpu < |s.rx| && Has(s, rq, lay)
    ensures SameShape(s, t)
  {
    var i := lay.slot(rq);
    var e := s.recs[i];
    var start := if e.rec.proc == 0 || switched then at else s.rx[cpu].enter;
    s.(rx := s.rx[cpu := s.rx[cpu].(dataRq := rq, busyFrom := start)],
       recs := if e.rec.proc == 0 then s.recs[i := e.(rec := e.rec.(proc := at))] else s.recs,
       past := s.past.(running := if tid !in s.past.running then s.past.running
                                  else var c := s.past.running[tid];
                                       s.past.running[tid := c.(copied := c.copied + {rq})]))
  }

  function OnCopy(s: State, e: Event, lay: Layout): (t: State)
    requires e.Copy? && e.cpu < |s.rx|
    ensures SameShape(s, t)
  {
    if Names(s, e, lay) then
      var rq, t := Indexed(s, e, lay), Close(s, e.at, e.cpu, lay);
      if Has(t, rq, lay) then Name(t, e.at, e.cpu, e.tid, rq, s.rx[e.cpu].dataRq != 0, lay) else t
    else if Clears(s, e, lay) then
      var t := Close(s, e.at, e.cpu, lay);
      t.(rx := t.rx[e.cpu := t.rx[e.cpu].(dataRq := 0, busyFrom := e.at)])
    else s
  }

  /** A call of the thread is over, if it was in one. */
  function Leave(p: Past, tid: u64, at: nat): Past {
    if tid !in p.running then p
    else
      var gone := p.running[tid].copied;
      p.(running := p.running - {tid}, left := map rq | rq in p.left.Keys + gone :: if rq in gone then at else p.left[rq])
  }

  function OnEnter(s: State, e: Event): (t: State)
    requires e.RxEnter? && e.cpu < |s.rx| == |s.past.wrote|
    ensures SameShape(s, t)
  {
    Begin(s.(past := Leave(s.past, e.tid, e.at)), e)
  }

  /** on_recv_skb(): the context is written only if there is a record that could need it. */
  function Begin(s: State, e: Event): (t: State)
    requires e.RxEnter? && e.cpu < |s.rx| == |s.past.wrote|
    ensures SameShape(s, t)
  {
    var n := s.past.calls + 1;
    var p := s.past.(calls := n, running := s.past.running[e.tid := Call(n, e.at, e.cpu, {})]);
    if s.recs == map[] then s.(past := p)
    else s.(rx := s.rx[e.cpu := Rx(e.tid, e.queue, e.skb, e.at, 0, 0)], past := p.(wrote := p.wrote[e.cpu := n]))
  }

  /** host_complete() */
  function OnComplete(s: State, e: Event, lay: Layout): (t: State)
    requires e.Complete? && e.cpu < |s.rx|
    ensures SameShape(s, t)
  {
    if s.recs == map[] || s.rx[e.cpu].tid != e.tid || !Has(s, e.rq, lay) then s
    else
      var u := Answered(s, lay.slot(e.rq), e.at);
      if s.rx[e.cpu].dataRq == e.rq then Close(u, e.at, e.cpu, lay) else u
  }

  function Answered(s: State, i: SlotNo, at: nat): State
    requires i in s.recs
  {
    s.(recs := s.recs[i := s.recs[i].(rec := s.recs[i].rec.(rspProc := at))])
  }

  function OnExit(s: State, e: Event, lay: Layout): (t: State)
    requires e.RxExit? && e.cpu < |s.rx|
    ensures SameShape(s, t)
  {
    if s.rx[e.cpu].tid != e.tid then s.(past := Leave(s.past, e.tid, e.at))
    else
      var t := Close(s, e.at, e.cpu, lay);
      t.(rx := t.rx[e.cpu := t.rx[e.cpu].(tid := 0)], past := Leave(t.past, e.tid, e.at))
  }

  function OnSetup(s: State, e: Event, lay: Layout): (t: State)
    requires e.Setup?
    ensures SameShape(s, t)
  {
    s.(recs := s.recs[lay.slot(e.rq) := Slot(e.rq, e.queue, e.cid, NEW_READ)],
       index := s.index[lay.cidSlot(e.queue, e.cid) := HostObject.CidEntry(e.queue, e.cid, e.rq)],
       past := s.past.(periods := s.past.periods[lay.slot(e.rq) := []]))
  }

  function OnGone(s: State, e: Event, lay: Layout): (t: State)
    requires e.Gone?
    ensures SameShape(s, t)
  {
    if !Has(s, e.rq, lay) then s
    else
      var x := s.recs[lay.slot(e.rq)];
      var j := lay.cidSlot(x.queue, x.cid);
      s.(recs := s.recs - {lay.slot(e.rq)},
         index := if j in s.index && s.index[j].rq == e.rq then s.index[j := s.index[j].(rq := 0)] else s.index)
  }

  function Hook(s: State, e: Event, lay: Layout): (t: State)
    requires e.OnCpu() ==> e.cpu < |s.rx| == |s.past.wrote|
    ensures SameShape(s, t)
  {
    match e
    case Setup(_, _, _, _) => OnSetup(s, e, lay)
    case Gone(_, _) => OnGone(s, e, lay)
    case RxEnter(_, _, _, _, _) => OnEnter(s, e)
    case Copy(_, _, _, _, _, _) => OnCopy(s, e, lay)
    case Complete(_, _, _, _) => OnComplete(s, e, lay)
    case RxExit(_, _, _) => OnExit(s, e, lay)
  }

  function At(s: State, at: nat): State {
    s.(past := s.past.(now := at))
  }

  function Step(s: State, e: Event, lay: Layout): (t: State)
    requires e.OnCpu() ==> e.cpu < |s.rx| == |s.past.wrote|
    ensures SameShape(s, t)
  {
    Hook(At(s, e.at), e, lay)
  }

  // ---- one event ----

  /** The record's periods are disjoint, in [C2H_PROC, C2H_DONE], and what its fields say of them is so. */
  ghost predicate RecOk(r: ReadRec, ps: seq<Period>, now: nat) {
    && r.proc <= now && r.done <= now
    && r.skbs == |ps| && r.busyNs == Busy(ps) && r.done == End(0, ps)
    && (r.proc == 0 ==> ps == [])
    && Disjoint(r.proc, ps)
  }

  /** The property: every read's periods are in its data phase. */
  ghost predicate InPhase(s: State) {
    forall i :: i in s.recs ==> RecOk(s.recs[i].rec, PeriodsAt(s.past, i), s.past.now)
  }

  /** The event makes host_data_done() end the period of the read that the context names. */
  predicate Closes(s: State, e: Event, lay: Layout) {
    && e.OnCpu() && !e.RxEnter? && e.cpu < |s.rx| && Named(s, e.cpu, lay) && s.rx[e.cpu].tid == e.tid
    && (e.Copy? ==> Names(s, e, lay) || Clears(s, e, lay))
    && (e.Complete? ==> s.rx[e.cpu].dataRq == e.rq)
  }

  /**
   What host_data_done() would have to check before it adds to c2h_busy_ns: that the period in the context does not
   start before the read's first data or before the end of the last period counted.
   */
  predicate Harmless(s: State, e: Event, lay: Layout) {
    Closes(s, e, lay) && 0 < s.rx[e.cpu].busyFrom <= e.at ==>
      After(s.recs[lay.slot(s.rx[e.cpu].dataRq)].rec, s.rx[e.cpu].busyFrom)
  }

  predicate After(r: ReadRec, start: nat) {
    r.proc != 0 && r.proc <= start && r.done <= start
  }

  lemma TimedIff(r: ReadRec, ps: seq<Period>, start: nat, at: nat)
    requires RecOk(r, ps, at) && 0 < start <= at
    ensures RecOk(Timed(r, start, at), ps + [Period(start, at)], at) <==> After(r, start)
  {
    Append(r.proc, ps, Period(start, at));
    SpanIs(r.proc, ps);
  }

  lemma Later(s: State, at: nat)
    requires InPhase(s) && s.past.now <= at
    ensures InPhase(At(s, at))
  {
    forall i | i in s.recs ensures RecOk(s.recs[i].rec, PeriodsAt(s.past, i), at) {
      assert RecOk(s.recs[i].rec, PeriodsAt(s.past, i), s.past.now);
    }
  }

  /** Outside the slot, t has the records and periods of s. */
  ghost predicate SameBut(s: State, t: State, slot: SlotNo) {
    && t.past.now == s.past.now
    && forall i :: i != slot ==>
         (i in t.recs <==> i in s.recs) &&
         (i in t.recs ==> t.recs[i] == s.recs[i] && PeriodsAt(t.past, i) == PeriodsAt(s.past, i))
  }

  /** One record changes, and perhaps its periods: all are in phase exactly if that one is. */
  lemma OneChanges(s: State, t: State, slot: SlotNo)
    requires InPhase(s) && SameBut(s, t, slot) && slot in t.recs
    ensures InPhase(t) <==> RecOk(t.recs[slot].rec, PeriodsAt(t.past, slot), t.past.now)
  {
  }

  lemma SameRecords(s: State, t: State)
    requires t.recs == s.recs && t.past.periods == s.past.periods && t.past.now == s.past.now
    ensures InPhase(t) <==> InPhase(s)
  {
  }

  lemma CloseIff(s: State, at: nat, cpu: nat, lay: Layout)
    requires InPhase(s) && s.past.now == at && cpu < |s.rx|
    ensures InPhase(Close(s, at, cpu, lay)) <==>
            (Named(s, cpu, lay) && 0 < s.rx[cpu].busyFrom <= at ==>
               After(s.recs[lay.slot(s.rx[cpu].dataRq)].rec, s.rx[cpu].busyFrom))
  {
    if Named(s, cpu, lay) && 0 < s.rx[cpu].busyFrom <= at {
      var i, t := lay.slot(s.rx[cpu].dataRq), Close(s, at, cpu, lay);
      TimedIff(s.recs[i].rec, PeriodsAt(s.past, i), s.rx[cpu].busyFrom, at);
      OneChanges(s, t, i);
    }
  }

  /** Naming a read stamps its first data, at most. */
  lemma NameIff(s: State, at: nat, cpu: nat, tid: u64, rq: u64, switched: bool, lay: Layout)
    requires cpu < |s.rx| && Has(s, rq, lay) && s.past.now == at
    requires RecOk(s.recs[lay.slot(rq)].rec, PeriodsAt(s.past, lay.slot(rq)), at)
    ensures InPhase(Name(s, at, cpu, tid, rq, switched, lay)) <==> InPhase(s)
  {
    var t, i := Name(s, at, cpu, tid, rq, switched, lay), lay.slot(rq);
    assert RecOk(t.recs[i].rec, PeriodsAt(t.past, i), at);
    assert forall k :: k in s.recs && k != i ==> t.recs[k] == s.recs[k] && PeriodsAt(t.past, k) == PeriodsAt(s.past, k);
    assert s.recs.Keys == t.recs.Keys;
  }

  lemma CopyIff(s: State, e: Event, lay: Layout)
    requires InPhase(s) && s.past.now == e.at && e.Copy? && e.cpu < |s.rx|
    ensures InPhase(OnCopy(s, e, lay)) <==> Harmless(s, e, lay)
  {
    if Names(s, e, lay) {
      var rq, t := Indexed(s, e, lay), Close(s, e.at, e.cpu, lay);
      CloseIff(s, e.at, e.cpu, lay);
      assert Has(t, rq, lay) && t.recs[lay.slot(rq)] == s.recs[lay.slot(rq)];
      assert PeriodsAt(t.past, lay.slot(rq)) == PeriodsAt(s.past, lay.slot(rq));
      NameIff(t, e.at, e.cpu, e.tid, rq, s.rx[e.cpu].dataRq != 0, lay);
    } else if Clears(s, e, lay) {
      CloseIff(s, e.at, e.cpu, lay);
      SameRecords(Close(s, e.at, e.cpu, lay), OnCopy(s, e, lay));
    }
  }

  lemma CompleteHarmless(s: State, e: Event, lay: Layout)
    requires e.Complete? && e.rq != 0 && e.cpu < |s.rx|
    ensures Harmless(s, e, lay) <==>
            (s.rx[e.cpu].tid == e.tid && s.rx[e.cpu].dataRq == e.rq && Has(s, e.rq, lay) &&
             0 < s.rx[e.cpu].busyFrom <= e.at ==>
               After(s.recs[lay.slot(e.rq)].rec, s.rx[e.cpu].busyFrom))
  {
  }

  lemma CompleteIff(s: State, e: Event, lay: Layout)
    requires InPhase(s) && s.past.now == e.at && e.Complete? && e.rq != 0 && e.cpu < |s.rx|
    ensures InPhase(OnComplete(s, e, lay)) <==> Harmless(s, e, lay)
  {
    CompleteHarmless(s, e, lay);
    if s.recs != map[] && s.rx[e.cpu].tid == e.tid && Has(s, e.rq, lay) {
      var u := Answered(s, lay.slot(e.rq), e.at);
      AnsweredKeeps(s, lay.slot(e.rq), e.at);
      assert u.rx == s.rx && Has(u, e.rq, lay);
      assert After(u.recs[lay.slot(e.rq)].rec, s.rx[e.cpu].busyFrom) <==> After(s.recs[lay.slot(e.rq)].rec, s.rx[e.cpu].busyFrom);
      if s.rx[e.cpu].dataRq == e.rq { CloseIff(u, e.at, e.cpu, lay); }
    }
  }

  lemma AnsweredKeeps(s: State, i: SlotNo, at: nat)
    requires InPhase(s) && i in s.recs
    ensures InPhase(Answered(s, i, at))
  {
    assert RecOk(s.recs[i].rec, PeriodsAt(s.past, i), s.past.now);
    OneChanges(s, Answered(s, i, at), i);
  }

  lemma ExitHarmless(s: State, e: Event, lay: Layout)
    requires e.RxExit? && e.cpu < |s.rx|
    ensures Harmless(s, e, lay) <==>
            (s.rx[e.cpu].tid == e.tid && Named(s, e.cpu, lay) && 0 < s.rx[e.cpu].busyFrom <= e.at ==>
               After(s.recs[lay.slot(s.rx[e.cpu].dataRq)].rec, s.rx[e.cpu].busyFrom))
  {
  }

  lemma ExitIs(s: State, e: Event, lay: Layout)
    requires e.RxExit? && e.cpu < |s.rx|
    ensures var t := OnExit(s, e, lay);
            var u := if s.rx[e.cpu].tid == e.tid then Close(s, e.at, e.cpu, lay) else s;
            t.recs == u.recs && t.past.periods == u.past.periods && t.past.now == u.past.now
  {
  }

  lemma ExitIff(s: State, e: Event, lay: Layout)
    requires InPhase(s) && s.past.now == e.at && e.RxExit? && e.cpu < |s.rx|
    ensures InPhase(OnExit(s, e, lay)) <==> Harmless(s, e, lay)
  {
    ExitHarmless(s, e, lay);
    ExitIs(s, e, lay);
    CloseIff(s, e.at, e.cpu, lay);
    SameRecords(if s.rx[e.cpu].tid == e.tid then Close(s, e.at, e.cpu, lay) else s, OnExit(s, e, lay));
  }

  lemma SetupGoneKeep(s: State, e: Event, lay: Layout)
    requires InPhase(s) && (e.Setup? || e.Gone?)
    ensures InPhase(Hook(s, e, lay))
  {
    if e.Setup? { OneChanges(s, OnSetup(s, e, lay), lay.slot(e.rq)); }
  }

  lemma HarmlessLater(s: State, e: Event, lay: Layout)
    ensures Harmless(At(s, e.at), e, lay) <==> Harmless(s, e, lay)
  {
    var t := At(s, e.at);
    if e.OnCpu() && e.cpu < |s.rx| {
      assert Names(t, e, lay) <==> Names(s, e, lay);
      assert Clears(t, e, lay) <==> Clears(s, e, lay);
    }
  }

  /** An event leaves all reads in phase exactly if it is harmless. */
  lemma InPhaseIffHarmless(s: State, e: Event, lay: Layout)
    requires InPhase(s) && Timely(s, e)
    ensures InPhase(Step(s, e, lay)) <==> Harmless(s, e, lay)
  {
    Later(s, e.at);
    var t := At(s, e.at);
    HarmlessLater(s, e, lay);
    match e
    case Copy(_, _, _, _, _, _) => CopyIff(t, e, lay);
    case Complete(_, _, _, _) => CompleteIff(t, e, lay);
    case RxExit(_, _, _) => ExitIff(t, e, lay);
    case RxEnter(_, _, _, _, _) => SameRecords(t, OnEnter(t, e));
    case _ => SetupGoneKeep(t, e, lay);
  }

  // ---- whole runs ----

  /** The context that the thread finds under its tag, if any, is the one that its call wrote. */
  predicate OwnContext(s: State, cpu: nat, tid: u64)
    requires cpu < |s.rx| == |s.past.wrote|
  {
    s.rx[cpu].tid == tid ==> tid in s.past.running && s.past.wrote[cpu] == s.past.running[tid].no
  }

  /** Calls that copy one read's data do not overlap: they hold the lock of its queue's socket. */
  predicate Alone(s: State, tid: u64, rq: u64)
    requires tid in s.past.running
  {
    && (forall u :: u in s.past.running && u != tid ==> rq !in s.past.running[u].copied)
    && (rq in s.past.left ==> s.past.left[rq] <= s.past.running[tid].at)
  }

  /** The context of a call under way. */
  predicate Live(s: State, cpu: nat)
    requires cpu < |s.rx| == |s.past.wrote|
  {
    var t := s.rx[cpu].tid;
    t in s.past.running && s.past.wrote[cpu] == s.past.running[t].no
  }

  /**
   What the environment has to keep. A hook that ends or begins a read's period finds its own call's context; calls with one read's data do not
   overlap; within a call a read that was copied already is not copied again once the context was cleared (by the
   completion of the read that displaced it, or by a cleared index entry); and a request does not get a new record
   while a call under way names it.
   */
  predicate Orderly(s: State, e: Event, lay: Layout)
    requires e.OnCpu() ==> e.cpu < |s.rx| == |s.past.wrote|
  {
    match e
    case Setup(_, rq, _, _) =>
      forall cpu :: 0 <= cpu < |s.rx| == |s.past.wrote| && Live(s, cpu) ==> s.rx[cpu].dataRq != rq
    case Gone(_, _) => true
    case RxEnter(_, _, _, _, _) => true
    case Complete(_, cpu, tid, _) => Closes(s, e, lay) ==> OwnContext(s, cpu, tid)
    case RxExit(_, cpu, tid) => Closes(s, e, lay) ==> OwnContext(s, cpu, tid)
    case Copy(_, cpu, tid, _, _, _) =>
      && (Closes(s, e, lay) || Names(s, e, lay) ==> OwnContext(s, cpu, tid))
      && (Names(s, e, lay) && tid in s.past.running ==>
            var rq := Indexed(s, e, lay);
            && Alone(s, tid, rq)
            && (s.rx[cpu].dataRq == 0 && s.recs[lay.slot(rq)].rec.proc != 0 ==> rq !in s.past.running[tid].copied))
  }

  ghost predicate Linked(s: State, lay: Layout) {
    && |s.rx| == |s.past.wrote|
    && (forall cpu :: 0 <= cpu < |s.rx| ==> s.past.wrote[cpu] <= s.past.calls && ContextOk(s, cpu, lay))
    && (forall t :: t in s.past.running ==> CallOk(s, t))
    && Apart(s)
    && (forall rq :: rq in s.past.left ==> s.past.left[rq] <= s.past.now)
    && (forall i :: i in s.recs ==> RecKnown(s, i, lay))
  }

  ghost predicate CallOk(s: State, t: u64)
    requires t in s.past.running
  {
    t != 0 && s.past.running[t].no <= s.past.calls && 0 < s.past.running[t].at <= s.past.now
  }

  /** No read is being copied by two calls. */
  ghost predicate Apart(s: State) {
    forall t, u :: t in s.past.running && u in s.past.running && t != u ==>
      s.past.running[t].copied !! s.past.running[u].copied
  }

  ghost predicate ContextOk(s: State, cpu: nat, lay: Layout)
    requires cpu < |s.rx| == |s.past.wrote|
  {
    Live(s, cpu) ==>
      var c, call := s.rx[cpu], s.past.running[s.rx[cpu].tid];
      && call.cpu == cpu && c.enter == call.at
      && (c.dataRq != 0 ==>
            && c.dataRq in call.copied && 0 < c.busyFrom <= s.past.now
            && (Has(s, c.dataRq, lay) ==> After(s.recs[lay.slot(c.dataRq)].rec, c.busyFrom)))
  }

  ghost predicate InUse(s: State, rq: u64) {
    exists t :: t in s.past.running && rq in s.past.running[t].copied
  }

  /** A read with data is being copied, or its periods were over when the last call with its data was. */
  ghost predicate RecKnown(s: State, i: SlotNo, lay: Layout)
    requires i in s.recs
  {
    var rq, r := s.recs[i].rq, s.recs[i].rec;
    && rq != 0 && lay.slot(rq) == i
    && (r.proc != 0 ==> InUse(s, rq) || (rq in s.past.left && r.proc <= s.past.left[rq] && r.done <= s.past.left[rq]))
  }

  ghost predicate Inv(s: State, lay: Layout) {
    InPhase(s) && Linked(s, lay)
  }

  lemma LinkedLater(s: State, at: nat, lay: Layout)
    requires Linked(s, lay) && s.past.now <= at
    ensures Linked(At(s, at), lay)
  {
    var t := At(s, at);
    forall cpu | 0 <= cpu < |t.rx| ensures ContextOk(t, cpu, lay) {
      assert ContextOk(s, cpu, lay) && Live(t, cpu) == Live(s, cpu);
    }
    forall u | u in t.past.running ensures CallOk(t, u) {
      assert CallOk(s, u);
    }
    forall i | i in t.recs ensures RecKnown(t, i, lay) {
      assert RecKnown(s, i, lay) && (InUse(s, s.recs[i].rq) ==> InUse(t, s.recs[i].rq));
    }
  }

  lemma OrderlyIsHarmless(s: State, e: Event, lay: Layout)
    requires Inv(s, lay) && Timely(s, e) && Orderly(s, e, lay)
    ensures Harmless(s, e, lay)
  {
    if Closes(s, e, lay) {
      assert ContextOk(s, e.cpu, lay) && Live(s, e.cpu);
    }
  }

  /** Two contexts of calls under way are of two calls, and name two reads. */
  lemma LiveApart(s: State, a: nat, b: nat, lay: Layout)
    requires Linked(s, lay) && a < |s.rx| && b < |s.rx| && a != b && Live(s, a) && Live(s, b)
    ensures s.rx[a].tid != s.rx[b].tid
    ensures s.rx[a].dataRq != 0 ==> s.rx[a].dataRq !in s.past.running[s.rx[b].tid].copied
    ensures s.rx[a].dataRq != 0 ==> s.rx[a].dataRq != s.rx[b].dataRq
  {
    assert ContextOk(s, a, lay) && ContextOk(s, b, lay);
  }

  lemma CloseLinks(s: State, at: nat, cpu: nat, lay: Layout)
    requires Linked(s, lay) && s.past.now == at && cpu < |s.rx| && Live(s, cpu)
    ensures Linked(Close(s, at, cpu, lay), lay)
    ensures var t := Close(s, at, cpu, lay);
            && |t.rx| == |s.rx| && t.past.now == at && Live(t, cpu) && t.rx[cpu].tid == s.rx[cpu].tid
            && t.past.running == s.past.running && t.past.left == s.past.left && t.rx[cpu].enter == s.rx[cpu].enter
            && t.past.calls == s.past.calls && t.past.wrote == s.past.wrote
  {
    var t := Close(s, at, cpu, lay);
    if Named(s, cpu, lay) {
      var rq := s.rx[cpu].dataRq;
      assert ContextOk(s, cpu, lay);
      forall k | 0 <= k < |t.rx| ensures ContextOk(t, k, lay) {
        assert ContextOk(s, k, lay);
        if k != cpu && Live(s, k) { LiveApart(s, k, cpu, lay); }
      }
      forall u | u in t.past.running ensures CallOk(t, u) {
        assert CallOk(s, u);
      }
      forall i | i in t.recs ensures RecKnown(t, i, lay) {
        assert RecKnown(s, i, lay) && t.recs[i].rq == s.recs[i].rq;
        assert InUse(s, s.recs[i].rq) ==> InUse(t, s.recs[i].rq);
        if i == lay.slot(rq) { assert rq in t.past.running[t.rx[cpu].tid].copied; }
      }
    }
  }

  /** The read was idle: nothing of it is later than the call's entry. */
  lemma Idle(s: State, cpu: nat, tid: u64, rq: u64, lay: Layout)
    requires Linked(s, lay) && tid in s.past.running && Alone(s, tid, rq) && rq !in s.past.running[tid].copied
    requires Has(s, rq, lay) && s.recs[lay.slot(rq)].rec.proc != 0
    ensures After(s.recs[lay.slot(rq)].rec, s.past.running[tid].at)
  {
    assert RecKnown(s, lay.slot(rq), lay);
    assert !InUse(s, rq);
  }

  lemma NameLinks(s: State, at: nat, cpu: nat, tid: u64, rq: u64, switched: bool, lay: Layout)
    requires Inv(s, lay) && s.past.now == at > 0 && cpu < |s.rx| && Live(s, cpu) && s.rx[cpu].tid == tid
    requires rq != 0 && Has(s, rq, lay) && Alone(s, tid, rq)
    requires !switched && s.recs[lay.slot(rq)].rec.proc != 0 ==> rq !in s.past.running[tid].copied
    ensures Linked(Name(s, at, cpu, tid, rq, switched, lay), lay)
  {
    var t, i := Name(s, at, cpu, tid, rq, switched, lay), lay.slot(rq);
    assert ContextOk(s, cpu, lay) && CallOk(s, tid);
    assert RecOk(s.recs[i].rec, PeriodsAt(s.past, i), at);
    if !switched && s.recs[i].rec.proc != 0 { Idle(s, cpu, tid, rq, lay); }
    forall k | 0 <= k < |t.rx| ensures ContextOk(t, k, lay) {
      assert ContextOk(s, k, lay);
      if k != cpu && Live(s, k) { LiveApart(s, k, cpu, lay); }
    }
    NameKnown(s, at, cpu, tid, rq, switched, lay);
  }

  lemma NameKnown(s: State, at: nat, cpu: nat, tid: u64, rq: u64, switched: bool, lay: Layout)
    requires Linked(s, lay) && s.past.now == at && cpu < |s.rx| && tid in s.past.running
    requires Has(s, rq, lay) && Alone(s, tid, rq)
    ensures var t := Name(s, at, cpu, tid, rq, switched, lay);
            && (forall u :: u in t.past.running ==> CallOk(t, u)) && Apart(t)
            && (forall j :: j in t.recs ==> RecKnown(t, j, lay))
  {
    var t, i := Name(s, at, cpu, tid, rq, switched, lay), lay.slot(rq);
    forall u | u in t.past.running ensures CallOk(t, u) {
      assert CallOk(s, u);
    }
    forall j | j in t.recs ensures RecKnown(t, j, lay) {
      assert RecKnown(s, j, lay) && t.recs[j].rq == s.recs[j].rq;
      if InUse(s, s.recs[j].rq) {
        var u :| u in s.past.running && s.recs[j].rq in s.past.running[u].copied;
        assert s.recs[j].rq in t.past.running[u].copied;
      }
      if j == i { assert rq in t.past.running[tid].copied; }
    }
  }

  lemma CopyLinks(s: State, e: Event, lay: Layout)
    requires Inv(s, lay) && Timely(s, e) && s.past.now == e.at && e.Copy? && Orderly(s, e, lay)
    ensures Linked(OnCopy(s, e, lay), lay)
  {
    if Names(s, e, lay) || Clears(s, e, lay) {
      var t := Close(s, e.at, e.cpu, lay);
      if Named(s, e.cpu, lay) || Names(s, e, lay) {
        assert Live(s, e.cpu);
        CloseLinks(s, e.at, e.cpu, lay);
      }
      if Names(s, e, lay) {
        var rq := Indexed(s, e, lay);
        OrderlyIsHarmless(s, e, lay);
        CloseIff(s, e.at, e.cpu, lay);
        NameLinks(t, e.at, e.cpu, e.tid, rq, s.rx[e.cpu].dataRq != 0, lay);
      } else {
        ClearedLinks(t, e.at, e.cpu, lay);
      }
    }
  }

  lemma ClearedLinks(s: State, at: nat, cpu: nat, lay: Layout)
    requires Linked(s, lay) && cpu < |s.rx|
    ensures Linked(s.(rx := s.rx[cpu := s.rx[cpu].(dataRq := 0, busyFrom := at)]), lay)
  {
    var t := s.(rx := s.rx[cpu := s.rx[cpu].(dataRq := 0, busyFrom := at)]);
    forall k | 0 <= k < |t.rx| ensures ContextOk(t, k, lay) {
      assert ContextOk(s, k, lay);
    }
    forall u | u in t.past.running ensures CallOk(t, u) {
      assert CallOk(s, u);
    }
    SameUse(s, t, lay);
  }

  /** Records and calls as before, or with reads more in use. */
  lemma SameUse(s: State, t: State, lay: Layout)
    requires Linked(s, lay) && t.past.left == s.past.left && t.past.running == s.past.running
    requires forall i :: i in t.recs ==>
               i in s.recs && t.recs[i].rq == s.recs[i].rq && t.recs[i].rec.proc == s.recs[i].rec.proc &&
               t.recs[i].rec.done == s.recs[i].rec.done
    ensures forall i :: i in t.recs ==> RecKnown(t, i, lay)
  {
    forall i | i in t.recs ensures RecKnown(t, i, lay) {
      assert RecKnown(s, i, lay);
      assert InUse(s, s.recs[i].rq) ==> InUse(t, s.recs[i].rq);
    }
  }

  lemma StampLinks(s: State, i: SlotNo, at: nat, lay: Layout)
    requires Linked(s, lay) && i in s.recs
    ensures Linked(Answered(s, i, at), lay)
  {
    var t := Answered(s, i, at);
    forall k | 0 <= k < |t.rx| ensures ContextOk(t, k, lay) {
      assert ContextOk(s, k, lay) && Live(t, k) == Live(s, k);
    }
    forall u | u in t.past.running ensures CallOk(t, u) {
      assert CallOk(s, u);
    }
    SameUse(s, t, lay);
  }

  lemma CompleteLinks(s: State, e: Event, lay: Layout)
    requires Linked(s, lay) && Timely(s, e) && s.past.now == e.at && e.Complete? && Orderly(s, e, lay)
    ensures Linked(OnComplete(s, e, lay), lay)
  {
    if s.recs != map[] && s.rx[e.cpu].tid == e.tid && Has(s, e.rq, lay) {
      StampLinks(s, lay.slot(e.rq), e.at, lay);
      if s.rx[e.cpu].dataRq == e.rq {
        assert Closes(s, e, lay) && Live(Answered(s, lay.slot(e.rq), e.at), e.cpu);
        CloseLinks(Answered(s, lay.slot(e.rq), e.at), e.at, e.cpu, lay);
      }
    }
  }

  /** A call ends: its reads are left as they are now. */
  lemma LeaveLinks(s: State, tid: u64, at: nat, lay: Layout)
    requires Linked(s, lay) && InPhase(s) && s.past.now == at
    ensures Linked(s.(past := Leave(s.past, tid, at)), lay)
  {
    var t := s.(past := Leave(s.past, tid, at));
    forall k | 0 <= k < |t.rx| ensures ContextOk(t, k, lay) {
      assert ContextOk(s, k, lay);
    }
    forall u | u in t.past.running ensures CallOk(t, u) {
      assert CallOk(s, u);
    }
    forall i | i in t.recs ensures RecKnown(t, i, lay) {
      assert RecKnown(s, i, lay) && RecOk(s.recs[i].rec, PeriodsAt(s.past, i), at);
      var rq := s.recs[i].rq;
      if InUse(s, rq) {
        var u :| u in s.past.running && rq in s.past.running[u].copied;
        if u != tid { assert u in t.past.running && rq in t.past.running[u].copied; }
      }
    }
  }

  lemma ExitLinks(s: State, e: Event, lay: Layout)
    requires Inv(s, lay) && Timely(s, e) && s.past.now == e.at && e.RxExit? && Orderly(s, e, lay)
    ensures Linked(OnExit(s, e, lay), lay)
  {
    if s.rx[e.cpu].tid != e.tid {
      LeaveLinks(s, e.tid, e.at, lay);
    } else {
      OrderlyIsHarmless(s, e, lay);
      CloseIff(s, e.at, e.cpu, lay);
      if Named(s, e.cpu, lay) {
        assert Closes(s, e, lay) && Live(s, e.cpu);
        CloseLinks(s, e.at, e.cpu, lay);
      }
      var t := Close(s, e.at, e.cpu, lay);
      LeaveLinks(t, e.tid, e.at, lay);
      UntagLinks(t.(past := Leave(t.past, e.tid, e.at)), e.cpu, lay);
    }
  }

  lemma UntagLinks(s: State, cpu: nat, lay: Layout)
    requires Linked(s, lay) && cpu < |s.rx|
    ensures Linked(s.(rx := s.rx[cpu := s.rx[cpu].(tid := 0)]), lay)
  {
    var t := s.(rx := s.rx[cpu := s.rx[cpu].(tid := 0)]);
    forall u | u in t.past.running ensures CallOk(t, u) {
      assert CallOk(s, u);
    }
    forall k | 0 <= k < |t.rx| ensures ContextOk(t, k, lay) {
      assert ContextOk(s, k, lay);
    }
    SameUse(s, t, lay);
  }

  lemma BeginLinks(s: State, e: Event, lay: Layout)
    requires Linked(s, lay) && Timely(s, e) && s.past.now == e.at && e.RxEnter? && e.tid !in s.past.running
    ensures Linked(Begin(s, e), lay)
  {
    var t := Begin(s, e);
    forall k | 0 <= k < |t.rx| ensures t.past.wrote[k] <= t.past.calls && ContextOk(t, k, lay) {
      assert ContextOk(s, k, lay) && s.past.wrote[k] <= s.past.calls;
    }
    forall u | u in t.past.running ensures CallOk(t, u) {
      assert u != e.tid ==> CallOk(s, u);
    }
    forall i | i in t.recs ensures RecKnown(t, i, lay) {
      assert RecKnown(s, i, lay);
      if InUse(s, s.recs[i].rq) {
        var u :| u in s.past.running && s.recs[i].rq in s.past.running[u].copied;
        assert u in t.past.running && s.recs[i].rq in t.past.running[u].copied;
      }
    }
  }

  lemma EnterLinks(s: State, e: Event, lay: Layout)
    requires Inv(s, lay) && Timely(s, e) && s.past.now == e.at && e.RxEnter?
    ensures Linked(OnEnter(s, e), lay)
  {
    LeaveLinks(s, e.tid, e.at, lay);
    BeginLinks(s.(past := Leave(s.past, e.tid, e.at)), e, lay);
  }

  lemma SetupLinks(s: State, e: Event, lay: Layout)
    requires Linked(s, lay) && Timely(s, e) && e.Setup? && Orderly(s, e, lay)
    ensures Linked(OnSetup(s, e, lay), lay)
  {
    var t := OnSetup(s, e, lay);
    forall k | 0 <= k < |t.rx| ensures ContextOk(t, k, lay) {
      assert ContextOk(s, k, lay) && Live(s, k) == Live(t, k);
    }
    forall u | u in t.past.running ensures CallOk(t, u) {
      assert CallOk(s, u);
    }
    forall i | i in t.recs ensures RecKnown(t, i, lay) {
      if i != lay.slot(e.rq) {
        assert RecKnown(s, i, lay);
        assert InUse(s, s.recs[i].rq) ==> InUse(t, s.recs[i].rq);
      }
    }
  }

  lemma GoneLinks(s: State, e: Event, lay: Layout)
    requires Linked(s, lay) && e.Gone?
    ensures Linked(OnGone(s, e, lay), lay)
  {
    var t := OnGone(s, e, lay);
    forall k | 0 <= k < |t.rx| ensures ContextOk(t, k, lay) {
      assert ContextOk(s, k, lay) && Live(s, k) == Live(t, k);
    }
    forall u | u in t.past.running ensures CallOk(t, u) {
      assert CallOk(s, u);
    }
    SameUse(s, t, lay);
  }

  lemma HookLinks(s: State, e: Event, lay: Layout)
    requires Inv(s, lay) && Timely(s, e) && s.past.now == e.at && Orderly(s, e, lay)
    ensures Linked(Hook(s, e, lay), lay)
  {
    match e
    case Setup(_, _, _, _) => SetupLinks(s, e, lay);
    case Gone(_, _) => GoneLinks(s, e, lay);
    case RxEnter(_, _, _, _, _) => EnterLinks(s, e, lay);
    case Copy(_, _, _, _, _, _) => CopyLinks(s, e, lay);
    case Complete(_, _, _, _) => CompleteLinks(s, e, lay);
    case RxExit(_, _, _) => ExitLinks(s, e, lay);
  }

  lemma OrderlyLater(s: State, e: Event, lay: Layout)
    requires Timely(s, e) && Orderly(s, e, lay)
    ensures Orderly(At(s, e.at), e, lay) && Timely(At(s, e.at), e)
  {
    var t := At(s, e.at);
    if e.Setup? {
      forall cpu | 0 <= cpu < |t.rx| == |t.past.wrote| && Live(t, cpu) ensures t.rx[cpu].dataRq != e.rq {
        assert Live(s, cpu);
      }
    }
  }

  lemma OrderlyKeeps(s: State, e: Event, lay: Layout)
    requires Inv(s, lay) && Timely(s, e) && Orderly(s, e, lay)
    ensures Inv(Step(s, e, lay), lay)
  {
    OrderlyIsHarmless(s, e, lay);
    InPhaseIffHarmless(s, e, lay);
    Later(s, e.at);
    LinkedLater(s, e.at, lay);
    OrderlyLater(s, e, lay);
    HookLinks(At(s, e.at), e, lay);
  }

  ghost predicate On(events: seq<Event>, cpus: nat) {
    forall i :: 0 <= i < |events| && events[i].OnCpu() ==> events[i].cpu < cpus
  }

  function RunOf(cpus: nat, index: map<SlotNo, CidEntry>, events: seq<Event>, lay: Layout): (s: State)
    requires On(events, cpus)
    ensures |s.rx| == |s.past.wrote| == cpus
  {
    if events == [] then Start(cpus, index)
    else Step(RunOf(cpus, index, events[..|events| - 1], lay), events[|events| - 1], lay)
  }

  ghost predicate AllOrderly(cpus: nat, index: map<SlotNo, CidEntry>, events: seq<Event>, lay: Layout) {
    && On(events, cpus)
    && forall i :: 0 <= i < |events| ==>
         var s := RunOf(cpus, index, events[..i], lay);
         Timely(s, events[i]) && Orderly(s, events[i], lay)
  }

  /**
   Over every run of receive calls on any threads and CPUs, that switch between reads, of reads that are set up and
   emitted: as long as the calls are orderly, each read's periods are disjoint and in [C2H_PROC, C2H_DONE].
   */
  lemma {:induction false} ReadsInPhase(cpus: nat, index: map<SlotNo, CidEntry>, events: seq<Event>, lay: Layout)
    requires AllOrderly(cpus, index, events, lay)
    ensures Inv(RunOf(cpus, index, events, lay), lay)
  {
    if events != [] {
      var n := |events| - 1;
      var before := events[..n];
      forall i | 0 <= i < n ensures var s := RunOf(cpus, index, before[..i], lay);
                                    Timely(s, before[i]) && Orderly(s, before[i], lay) {
        assert before[..i] == events[..i];
      }
      ReadsInPhase(cpus, index, before, lay);
      OrderlyKeeps(RunOf(cpus, index, before, lay), events[n], lay);
    }
  }

  /**
   So the cap on the busy time does not act, and HOST_WAIT is exactly the sum of the gaps; a read whose data went on
   after its completion was parsed has no data phase.
   */
  lemma WaitIsGaps(cpus: nat, index: map<SlotNo, CidEntry>, events: seq<Event>, lay: Layout, i: SlotNo, h: Rec)
    requires AllOrderly(cpus, index, events, lay)
    requires i in RunOf(cpus, index, events, lay).recs
    requires var r := RunOf(cpus, index, events, lay).recs[i].rec;
             && h.ts[H_C2H_PROC] == r.proc && h.ts[H_C2H_DONE] == r.done && h.ts[H_RSP_PROC] == r.rspProc
             && h.busyNs == r.busyNs && r.skbs > 0
    ensures var s := RunOf(cpus, index, events, lay);
            var r, ps := s.recs[i].rec, PeriodsAt(s.past, i);
            && h.busyNs <= r.done - r.proc
            && StageModel.ReadPhase(h) ==
               if h.busyNs == 0 || r.done > r.rspProc then NoPhase
               else Phase.Phase(h.busyNs, Gaps(r.proc, ps))
  {
    ReadsInPhase(cpus, index, events, lay);
    var s := RunOf(cpus, index, events, lay);
    var r, ps := s.recs[i].rec, PeriodsAt(s.past, i);
    assert RecOk(r, ps, s.past.now) && ps != [];
    SpanIs(r.proc, ps);
    if r.done <= r.rspProc {
      PhaseOfPeriods(h.ts[H_C2H_PROC], h.ts[H_C2H_DONE], h.ts[H_RSP_PROC], h.busyNs, ps);
    }
  }

  // ---- threads that stay ----

  /** Every tag is that of a call under way on its CPU. */
  ghost predicate Tagged(s: State) {
    && |s.rx| == |s.past.wrote|
    && forall cpu :: 0 <= cpu < |s.rx| && s.rx[cpu].tid != 0 ==> Live(s, cpu) && s.past.running[s.rx[cpu].tid].cpu == cpu
  }

  /** A thread in a call is not moved during it, and ends it before it begins another. */
  predicate Staying(s: State, e: Event) {
    && ((e.Copy? || e.Complete? || e.RxExit?) && e.tid in s.past.running ==> s.past.running[e.tid].cpu == e.cpu)
    && (e.RxEnter? ==> e.tid !in s.past.running)
  }

  /** The tags and the calls are as before. */
  ghost predicate SameTags(s: State, t: State) {
    && SameShape(s, t) && t.past.wrote == s.past.wrote
    && (forall cpu :: 0 <= cpu < |s.rx| ==> t.rx[cpu].tid == s.rx[cpu].tid)
    && t.past.running.Keys == s.past.running.Keys
    && forall u :: u in s.past.running ==>
         t.past.running[u].no == s.past.running[u].no && t.past.running[u].cpu == s.past.running[u].cpu
  }

  lemma TagsKept(s: State, t: State)
    requires Tagged(s) && SameTags(s, t)
    ensures Tagged(t)
  {
    forall cpu | 0 <= cpu < |t.rx| && t.rx[cpu].tid != 0
      ensures Live(t, cpu) && t.past.running[t.rx[cpu].tid].cpu == cpu {
      assert Live(s, cpu);
    }
  }

  lemma CloseTags(s: State, at: nat, cpu: nat, lay: Layout)
    requires cpu < |s.rx|
    ensures SameTags(s, Close(s, at, cpu, lay))
  {
  }

  lemma CopyTags(s: State, e: Event, lay: Layout)
    requires e.Copy? && e.cpu < |s.rx|
    ensures SameTags(s, OnCopy(s, e, lay))
  {
    CloseTags(s, e.at, e.cpu, lay);
  }

  lemma CompleteTags(s: State, e: Event, lay: Layout)
    requires e.Complete? && e.cpu < |s.rx|
    ensures SameTags(s, OnComplete(s, e, lay))
  {
    if Has(s, e.rq, lay) { CloseTags(Answered(s, lay.slot(e.rq), e.at), e.at, e.cpu, lay); }
  }

  lemma ExitTags(s: State, e: Event, lay: Layout)
    requires Tagged(s) && Timely(s, e) && e.RxExit? && Staying(s, e)
    ensures Tagged(OnExit(s, e, lay))
  {
    CloseTags(s, e.at, e.cpu, lay);
    var t := OnExit(s, e, lay);
    forall cpu | 0 <= cpu < |t.rx| && t.rx[cpu].tid != 0
      ensures Live(t, cpu) && t.past.running[t.rx[cpu].tid].cpu == cpu {
      assert Live(s, cpu) && s.past.running[s.rx[cpu].tid].cpu == cpu;
    }
  }

  lemma EnterTags(s: State, e: Event)
    requires Tagged(s) && Timely(s, e) && e.RxEnter? && Staying(s, e)
    ensures Tagged(OnEnter(s, e))
  {
    var t := OnEnter(s, e);
    forall cpu | 0 <= cpu < |t.rx| && t.rx[cpu].tid != 0
      ensures Live(t, cpu) && t.past.running[t.rx[cpu].tid].cpu == cpu {
      if s.rx[cpu].tid != 0 { assert Live(s, cpu) && s.past.running[s.rx[cpu].tid].cpu == cpu; }
    }
  }

  /** While threads stay, a hook finds its own call's context or none: the tag is as good as the comment on it says. */
  lemma StayingIsEnough(s: State, e: Event, lay: Layout)
    requires Tagged(s) && Timely(s, e) && Staying(s, e)
    ensures e.OnCpu() && !e.RxEnter? ==> OwnContext(s, e.cpu, e.tid)
    ensures Tagged(Step(s, e, lay))
  {
    var u := At(s, e.at);
    TagsKept(s, u);
    match e
    case Copy(_, _, _, _, _, _) => CopyTags(u, e, lay); TagsKept(u, OnCopy(u, e, lay));
    case Complete(_, _, _, _) => CompleteTags(u, e, lay); TagsKept(u, OnComplete(u, e, lay));
    case RxExit(_, _, _) => ExitTags(u, e, lay);
    case RxEnter(_, _, _, _, _) => EnterTags(u, e);
    case _ => TagsKept(u, Hook(u, e, lay));
  }
}
