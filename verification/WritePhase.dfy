/**
 TCP writes' data phases on the target (bpf/nvme_tcp_target.bpf.c): the copies of a write's data are timed by a pair of
 hooks around skb_copy_datagram_iter. Between the two the copy's start lies in a context of the CPU, tagged with the
 thread (bpf/common.bpf.h). All threads, CPUs and records together.
 */
module WritePhase {
  import opened Records
  import opened StageModel
  import opened Periods
  import TargetSlots

  type SlotNo = TargetSlots.SlotNo

  /** struct tcp_rx, of one CPU: who copied last here, since when (0: not timed, or over), and from where in the skb */
  datatype Rx = Rx(tid: u64, enter: nat, offset: int)

  /** The fields of a record that its data phase has. */
  datatype WriteRec = WriteRec(r2tSent: nat, dataProc: nat, dataDone: nat, exec: nat, r2t: bool, busyNs: int, skbs: nat)

  const NEW_WRITE := WriteRec(0, 0, 0, 0, false, 0, 0)

  datatype Slot = Slot(req: u64, rec: WriteRec)

  /** A copy: its number, when and on which CPU it began. */
  datatype Copy = Copy(no: nat, at: nat, cpu: nat)

  /**
   What the program does not have, and the properties are about: the time, the copies begun so far, which of them wrote
   each CPU's context, which one each thread is in, when the last copy of a command's data ended, and the periods that
   each record's busyNs is the sum of.
   */
  datatype Past = Past(now: nat, copies: nat, wrote: seq<nat>, began: map<u64, Copy>, ended: map<u64, nat>,
                       periods: map<SlotNo, seq<Period>>)

  datatype State = State(rx: seq<Rx>, recs: map<SlotNo, Slot>, past: Past)

  function Start(cpus: nat): State {
    State(seq(cpus, _ => Rx(0, 0, 0)), map[], Past(0, 0, seq(cpus, _ => 0), map[], map[], map[]))
  }

  datatype Event =
    /** nvmet_req_init opens a record; it is emitted */
    | Opens(at: nat, req: u64)
    | Gone(at: nat, req: u64)
    | R2tSent(at: nat, req: u64)
    /** nvmet_tcp_build_pdu_iovec: a data PDU's header was parsed */
    | H2c(at: nat, req: u64)
    | CopyStart(at: nat, cpu: nat, tid: u64, offset: int)
    /** a copy ends; its queue is receiving this command's data (0: none) */
    | CopyEnd(at: nat, cpu: nat, tid: u64, ok: bool, req: u64)
    | Exec(at: nat, req: u64)

  /** The clock is monotone and never 0, as are thread ids and addresses. */
  predicate Timely(s: State, e: Event) {
    && s.past.now <= e.at && e.at > 0
    && (e.CopyStart? || e.CopyEnd? ==> e.cpu < |s.rx| == |s.past.wrote| && e.tid != 0)
    && (e.Opens? || e.Gone? || e.R2tSent? || e.H2c? || e.Exec? ==> e.req != 0)
  }

  // ---- the hooks ----

  /** tgt_rec() */
  predicate Has(s: State, req: u64, slotOf: u64 -> SlotNo) {
    slotOf(req) in s.recs && s.recs[slotOf(req)].req == req
  }

  function PeriodsAt(p: Past, i: SlotNo): seq<Period> {
    if i in p.periods then p.periods[i] else []
  }

  /** The guards of on_copy_done(): is this the end of a timed copy of a write's solicited data? */
  predicate Counts(s: State, cpu: nat, tid: u64, ok: bool, req: u64, slotOf: u64 -> SlotNo)
    requires cpu < |s.rx|
  {
    && s.rx[cpu].tid == tid && s.rx[cpu].enter != 0 && ok && req != 0 && Has(s, req, slotOf)
    && var r := s.recs[slotOf(req)].rec; r.r2t && r.dataProc != 0 && r.exec == 0
  }

  /** Data that came in the header's skb was there when the header was parsed: its copy counts from then on. */
  function From(r: WriteRec, c: Rx): nat {
    if r.skbs == 0 && c.offset > 0 then r.dataProc else c.enter
  }

  function Timed(r: WriteRec, from: nat, at: nat): WriteRec {
    r.(busyNs := r.busyNs + at - from, skbs := r.skbs + 1, dataDone := at)
  }

  /** on_copy() */
  function OnCopy(s: State, at: nat, cpu: nat, tid: u64, offset: int): State
    requires cpu < |s.rx| == |s.past.wrote|
  {
    var n := s.past.copies + 1;
    s.(rx := s.rx[cpu := Rx(tid, if s.recs != map[] then at else 0, offset)],
       past := s.past.(copies := n, wrote := s.past.wrote[cpu := n], began := s.past.began[tid := Copy(n, at, cpu)]))
  }

  /** on_copy_done() */
  function OnCopyDone(s: State, at: nat, cpu: nat, tid: u64, ok: bool, req: u64, slotOf: u64 -> SlotNo): State
    requires cpu < |s.rx|
  {
    var past := s.past.(ended := s.past.ended[req := at]);
    if s.recs == map[] || s.rx[cpu].tid != tid then s.(past := past)
    else
      var c := s.rx[cpu];
      var t := s.(rx := s.rx[cpu := c.(enter := 0)], past := past);
      if !Counts(s, cpu, tid, ok, req, slotOf) then t
      else
        var slot := slotOf(req);
        var r := s.recs[slot].rec;
        if at < From(r, c) then t
        else t.(recs := s.recs[slot := Slot(req, Timed(r, From(r, c), at))],
                past := past.(periods := past.periods[slot := PeriodsAt(past, slot) + [Period(From(r, c), at)]]))
  }

  /** A hook that changes the record of one command, if it has one. */
  function Change(s: State, req: u64, r: WriteRec, slotOf: u64 -> SlotNo): State {
    s.(recs := s.recs[slotOf(req) := Slot(req, r)])
  }

  function Hook(s: State, e: Event, slotOf: u64 -> SlotNo): State
    requires (e.CopyStart? || e.CopyEnd?) ==> e.cpu < |s.rx| == |s.past.wrote|
  {
    match e
    case Opens(_, req) =>
      Change(s, req, NEW_WRITE, slotOf).(past := s.past.(periods := s.past.periods[slotOf(req) := []]))
    case Gone(_, req) => if Has(s, req, slotOf) then s.(recs := s.recs - {slotOf(req)}) else s
    case R2tSent(at, req) =>
      if Has(s, req, slotOf) && s.recs[slotOf(req)].rec.r2tSent == 0 then
        Change(s, req, s.recs[slotOf(req)].rec.(r2tSent := at), slotOf)
      else s
    case H2c(at, req) =>
      if Has(s, req, slotOf) && s.recs[slotOf(req)].rec.r2tSent != 0 && s.recs[slotOf(req)].rec.dataProc == 0 then
        Change(s, req, s.recs[slotOf(req)].rec.(r2t := true, dataProc := at), slotOf)
      else s
    case Exec(at, req) =>
      if Has(s, req, slotOf) && s.recs[slotOf(req)].rec.exec == 0 then
        Change(s, req, s.recs[slotOf(req)].rec.(exec := at), slotOf)
      else s
    case CopyStart(at, cpu, tid, offset) => OnCopy(s, at, cpu, tid, offset)
    case CopyEnd(at, cpu, tid, ok, req) => OnCopyDone(s, at, cpu, tid, ok, req, slotOf)
  }

  function Step(s: State, e: Event, slotOf: u64 -> SlotNo): State
    requires (e.CopyStart? || e.CopyEnd?) ==> e.cpu < |s.rx| == |s.past.wrote|
  {
    Hook(At(s, e.at), e, slotOf)
  }

  function At(s: State, at: nat): State {
    s.(past := s.past.(now := at))
  }

  // ---- one event ----

  /** The record's periods are disjoint, in [DATA_PROC, DATA_DONE], and what its fields say of them is so. */
  ghost predicate RecOk(r: WriteRec, ps: seq<Period>, now: nat) {
    && r.dataProc <= now && r.dataDone <= now && r.exec <= now
    && r.skbs == |ps| && r.busyNs == Busy(ps) && r.dataDone == End(0, ps)
    && (r.dataProc == 0 ==> ps == [])
    && Disjoint(r.dataProc, ps)
    && (r.exec != 0 ==> r.dataDone <= r.exec)
  }

  /** The property: every record's periods are in its data phase. */
  ghost predicate InPhase(s: State) {
    forall i :: i in s.recs ==> RecOk(s.recs[i].rec, PeriodsAt(s.past, i), s.past.now)
  }

  /**
   What on_copy_done() would have to check before it adds to h2c_busy_ns: that the copy's start in the context is not
   before the header's parsing or the end of the last copy counted, unless it counts from the header.
   */
  predicate Harmless(s: State, e: Event, slotOf: u64 -> SlotNo)
    requires e.CopyEnd? ==> e.cpu < |s.rx|
  {
    e.CopyEnd? && Counts(s, e.cpu, e.tid, e.ok, e.req, slotOf) && From(s.recs[slotOf(e.req)].rec, s.rx[e.cpu]) <= e.at ==>
      var r, c := s.recs[slotOf(e.req)].rec, s.rx[e.cpu];
      (r.skbs == 0 && c.offset > 0) || (r.dataProc <= c.enter && r.dataDone <= c.enter)
  }

  lemma TimedIff(r: WriteRec, ps: seq<Period>, c: Rx, at: nat)
    requires RecOk(r, ps, at) && r.dataProc != 0 && r.exec == 0 && From(r, c) <= at
    ensures RecOk(Timed(r, From(r, c), at), ps + [Period(From(r, c), at)], at) <==>
            (r.skbs == 0 && c.offset > 0) || (r.dataProc <= c.enter && r.dataDone <= c.enter)
  {
    Append(r.dataProc, ps, Period(From(r, c), at));
    SpanIs(r.dataProc, ps);
  }

  lemma Later(s: State, at: nat)
    requires InPhase(s) && s.past.now <= at
    ensures InPhase(At(s, at))
  {
    forall i | i in s.recs ensures RecOk(s.recs[i].rec, PeriodsAt(s.past, i), at) {
      assert RecOk(s.recs[i].rec, PeriodsAt(s.past, i), s.past.now);
    }
  }

  /** One record changes, and perhaps its periods: all are in phase exactly if that one is. */
  lemma OneChanges(s: State, t: State, slot: SlotNo)
    requires InPhase(s) && t.past.now == s.past.now && slot in t.recs
    requires forall i :: i in t.recs && i != slot ==>
               i in s.recs && t.recs[i] == s.recs[i] && PeriodsAt(t.past, i) == PeriodsAt(s.past, i)
    ensures InPhase(t) <==> RecOk(t.recs[slot].rec, PeriodsAt(t.past, slot), t.past.now)
  {
  }

  lemma CopyEndIff(s: State, e: Event, slotOf: u64 -> SlotNo)
    requires InPhase(s) && s.past.now == e.at && e.CopyEnd? && e.cpu < |s.rx| == |s.past.wrote|
    ensures InPhase(Hook(s, e, slotOf)) <==> Harmless(s, e, slotOf)
  {
    var t := Hook(s, e, slotOf);
    if Counts(s, e.cpu, e.tid, e.ok, e.req, slotOf) && From(s.recs[slotOf(e.req)].rec, s.rx[e.cpu]) <= e.at {
      var slot, c := slotOf(e.req), s.rx[e.cpu];
      var r, ps := s.recs[slot].rec, PeriodsAt(s.past, slot);
      assert s.recs != map[];
      assert RecOk(r, ps, e.at);
      TimedIff(r, ps, c, e.at);
      assert PeriodsAt(t.past, slot) == ps + [Period(From(r, c), e.at)];
      OneChanges(s, t, slot);
    } else {
      assert t.recs == s.recs && t.past.periods == s.past.periods;
    }
  }

  /** The other hooks write fields that no period depends on. */
  lemma OthersKeep(s: State, e: Event, slotOf: u64 -> SlotNo)
    requires InPhase(s) && s.past.now == e.at && !e.CopyEnd? && !e.CopyStart? && e.at > 0
    ensures InPhase(Hook(s, e, slotOf))
  {
    var t, slot := Hook(s, e, slotOf), slotOf(e.req);
    if !e.Gone? && t != s {
      if !e.Opens? { assert RecOk(s.recs[slot].rec, PeriodsAt(s.past, slot), e.at); }
      OneChanges(s, t, slot);
    }
  }

  /** An event leaves all records in phase exactly if it is harmless. */
  lemma InPhaseIffHarmless(s: State, e: Event, slotOf: u64 -> SlotNo)
    requires InPhase(s) && Timely(s, e)
    ensures InPhase(Step(s, e, slotOf)) <==> Harmless(s, e, slotOf)
  {
    Later(s, e.at);
    if e.CopyEnd? {
      CopyEndIff(At(s, e.at), e, slotOf);
    } else if !e.CopyStart? {
      OthersKeep(At(s, e.at), e, slotOf);
    }
  }

  /** A first header parsed while a copy is timed: the copy's end is harmless exactly if the copy counts from it. */
  lemma HeaderInsideCopy(s: State, req: u64, at: nat, end: nat, cpu: nat, tid: u64, slotOf: u64 -> SlotNo)
    requires InPhase(s) && Timely(s, H2c(at, req)) && at <= end && Timely(s, CopyEnd(end, cpu, tid, true, req))
    requires Has(s, req, slotOf) && s.recs[slotOf(req)].rec.r2tSent != 0
    requires s.recs[slotOf(req)].rec.dataProc == 0 && s.recs[slotOf(req)].rec.exec == 0
    requires s.rx[cpu].tid == tid && 0 < s.rx[cpu].enter < at
    ensures InPhase(Step(Step(s, H2c(at, req), slotOf), CopyEnd(end, cpu, tid, true, req), slotOf)) <==>
            s.rx[cpu].offset > 0
  {
    var t := Step(s, H2c(at, req), slotOf);
    InPhaseIffHarmless(s, H2c(at, req), slotOf);
    assert RecOk(s.recs[slotOf(req)].rec, PeriodsAt(s.past, slotOf(req)), s.past.now);
    assert t.recs[slotOf(req)].rec.dataProc == at && t.recs[slotOf(req)].rec.skbs == 0 && t.rx == s.rx;
    InPhaseIffHarmless(t, CopyEnd(end, cpu, tid, true, req), slotOf);
  }

  // ---- whole runs ----

  /** The end of a copy of a recorded command's data, on a CPU whose context has a copy of this thread still running. */
  predicate Taken(s: State, e: Event, slotOf: u64 -> SlotNo)
    requires e.CopyEnd? ==> e.cpu < |s.rx|
  {
    e.CopyEnd? && e.req != 0 && Has(s, e.req, slotOf) && s.rx[e.cpu].tid == e.tid && s.rx[e.cpu].enter != 0
  }

  /**
   What the environment has to keep, only for such an end; copies of anything else may overlap and move as they like:
   the context was written by this copy; the copies of one command's data follow each other; and the command's first
   data header was not parsed in the middle of a copy that began with an skb.
   */
  predicate Orderly(s: State, e: Event, slotOf: u64 -> SlotNo)
    requires e.CopyEnd? ==> e.cpu < |s.rx| == |s.past.wrote|
  {
    Taken(s, e, slotOf) ==>
      && OwnContext(s, e.cpu, e.tid)
      && (e.tid in s.past.began ==>
            var began, r := s.past.began[e.tid].at, s.recs[slotOf(e.req)].rec;
            && (e.req in s.past.ended ==> s.past.ended[e.req] <= began)
            && (r.skbs > 0 || s.rx[e.cpu].offset > 0 || r.dataProc <= began))
  }

  /** The running copy that the thread finds under its tag, if any, is the one it is in. */
  predicate OwnContext(s: State, cpu: nat, tid: u64)
    requires cpu < |s.rx| == |s.past.wrote|
  {
    s.rx[cpu].tid == tid && s.rx[cpu].enter != 0 ==> tid in s.past.began && s.past.wrote[cpu] == s.past.began[tid].no
  }

  /** Contexts and history agree. */
  ghost predicate Linked(s: State, slotOf: u64 -> SlotNo) {
    && |s.rx| == |s.past.wrote|
    && (forall cpu :: 0 <= cpu < |s.rx| ==> s.past.wrote[cpu] <= s.past.copies && ContextOk(s, cpu))
    && (forall t :: t in s.past.began ==> s.past.began[t].no <= s.past.copies)
    && (forall i :: i in s.recs ==> EndKnown(s, i, slotOf))
  }

  ghost predicate ContextOk(s: State, cpu: nat)
    requires cpu < |s.rx| == |s.past.wrote|
  {
    var t := s.rx[cpu].tid;
    t != 0 ==>
      && t in s.past.began
      // a context that the thread's last copy wrote has that copy's start; and where that copy began, it wrote it
      && (s.past.wrote[cpu] == s.past.began[t].no ==> s.rx[cpu].enter == 0 || s.rx[cpu].enter == s.past.began[t].at)
      && (s.past.began[t].cpu == cpu ==> s.past.wrote[cpu] == s.past.began[t].no)
  }

  ghost predicate EndKnown(s: State, i: SlotNo, slotOf: u64 -> SlotNo)
    requires i in s.recs
  {
    var req, done := s.recs[i].req, s.recs[i].rec.dataDone;
    slotOf(req) == i && (done != 0 ==> req in s.past.ended && done <= s.past.ended[req] <= s.past.now)
  }

  ghost predicate Inv(s: State, slotOf: u64 -> SlotNo) {
    InPhase(s) && Linked(s, slotOf)
  }

  lemma OrderlyIsHarmless(s: State, e: Event, slotOf: u64 -> SlotNo)
    requires Inv(s, slotOf) && Timely(s, e) && Orderly(s, e, slotOf)
    ensures Harmless(s, e, slotOf)
  {
    if e.CopyEnd? && Counts(s, e.cpu, e.tid, e.ok, e.req, slotOf) {
      var i := slotOf(e.req);
      assert ContextOk(s, e.cpu) && EndKnown(s, i, slotOf);
      assert RecOk(s.recs[i].rec, PeriodsAt(s.past, i), s.past.now);
      SpanIs(s.recs[i].rec.dataProc, PeriodsAt(s.past, i));
    }
  }

  lemma CopyStartLinks(s: State, e: Event, slotOf: u64 -> SlotNo)
    requires Linked(s, slotOf) && Timely(s, e) && e.CopyStart?
    ensures Linked(Step(s, e, slotOf), slotOf)
  {
    var t := Step(s, e, slotOf);
    forall cpu | 0 <= cpu < |t.rx| ensures t.past.wrote[cpu] <= t.past.copies && ContextOk(t, cpu) {
      assert ContextOk(s, cpu);
    }
    forall i | i in t.recs ensures EndKnown(t, i, slotOf) {
      assert EndKnown(s, i, slotOf);
    }
  }

  lemma CopyEndLinks(s: State, e: Event, slotOf: u64 -> SlotNo)
    requires Linked(s, slotOf) && Timely(s, e) && e.CopyEnd?
    ensures Linked(Step(s, e, slotOf), slotOf)
  {
    var t := Step(s, e, slotOf);
    forall cpu | 0 <= cpu < |t.rx| ensures t.past.wrote[cpu] <= t.past.copies && ContextOk(t, cpu) {
      assert ContextOk(s, cpu);
    }
    forall i | i in t.recs ensures EndKnown(t, i, slotOf) {
      assert i in s.recs && EndKnown(s, i, slotOf);
    }
  }

  lemma OthersLink(s: State, e: Event, slotOf: u64 -> SlotNo)
    requires Linked(s, slotOf) && Timely(s, e) && !e.CopyStart? && !e.CopyEnd?
    ensures Linked(Step(s, e, slotOf), slotOf)
  {
    var t := Step(s, e, slotOf);
    assert t.rx == s.rx && t.past.wrote == s.past.wrote && t.past.began == s.past.began;
    forall cpu | 0 <= cpu < |t.rx| ensures t.past.wrote[cpu] <= t.past.copies && ContextOk(t, cpu) {
      assert ContextOk(s, cpu);
    }
    forall i | i in t.recs ensures EndKnown(t, i, slotOf) {
      assert i in s.recs ==> EndKnown(s, i, slotOf);
    }
  }

  lemma OrderlyKeeps(s: State, e: Event, slotOf: u64 -> SlotNo)
    requires Inv(s, slotOf) && Timely(s, e) && Orderly(s, e, slotOf)
    ensures Inv(Step(s, e, slotOf), slotOf)
  {
    OrderlyIsHarmless(s, e, slotOf);
    InPhaseIffHarmless(s, e, slotOf);
    if e.CopyStart? { CopyStartLinks(s, e, slotOf); }
    else if e.CopyEnd? { CopyEndLinks(s, e, slotOf); }
    else { OthersLink(s, e, slotOf); }
  }

  /** A thread that ends its copies where it began them always finds its own context, or another thread's. */
  lemma StayingIsEnough(s: State, cpu: nat, tid: u64, slotOf: u64 -> SlotNo)
    requires Linked(s, slotOf) && cpu < |s.rx| && tid != 0
    requires tid in s.past.began ==> s.past.began[tid].cpu == cpu
    ensures OwnContext(s, cpu, tid)
  {
    assert ContextOk(s, cpu);
  }

  ghost predicate On(events: seq<Event>, cpus: nat) {
    forall i :: 0 <= i < |events| && (events[i].CopyStart? || events[i].CopyEnd?) ==> events[i].cpu < cpus
  }

  function RunOf(cpus: nat, events: seq<Event>, slotOf: u64 -> SlotNo): (s: State)
    requires On(events, cpus)
    ensures |s.rx| == |s.past.wrote| == cpus
  {
    if events == [] then Start(cpus)
    else Step(RunOf(cpus, events[..|events| - 1], slotOf), events[|events| - 1], slotOf)
  }

  ghost predicate AllOrderly(cpus: nat, events: seq<Event>, slotOf: u64 -> SlotNo) {
    && On(events, cpus)
    && forall i :: 0 <= i < |events| ==>
         var s := RunOf(cpus, events[..i], slotOf);
         Timely(s, events[i]) && Orderly(s, events[i], slotOf)
  }

  /**
   Over every run of copies on any threads and CPUs, headers, records opened and emitted: as long as the copies are
   orderly, what was timed for a record are disjoint periods in [DATA_PROC, DATA_DONE].
   */
  lemma {:induction false} PeriodsInPhase(cpus: nat, events: seq<Event>, slotOf: u64 -> SlotNo)
    requires AllOrderly(cpus, events, slotOf)
    ensures Inv(RunOf(cpus, events, slotOf), slotOf)
  {
    if events != [] {
      var n := |events| - 1;
      var before := events[..n];
      forall i | 0 <= i < n ensures var s := RunOf(cpus, before[..i], slotOf);
                                    Timely(s, before[i]) && Orderly(s, before[i], slotOf) {
        assert before[..i] == events[..i];
      }
      PeriodsInPhase(cpus, before, slotOf);
      OrderlyKeeps(RunOf(cpus, before, slotOf), events[n], slotOf);
    }
  }

  /** So DATA_DONE is at most EXEC, the model's cap never acts, and TGT_WAIT is exactly the sum of the gaps. */
  lemma WaitIsGaps(cpus: nat, events: seq<Event>, slotOf: u64 -> SlotNo, i: SlotNo, t: Rec)
    requires AllOrderly(cpus, events, slotOf)
    requires i in RunOf(cpus, events, slotOf).recs
    requires var r := RunOf(cpus, events, slotOf).recs[i].rec;
             && t.ts[T_DATA_PROC] == r.dataProc && t.ts[T_DATA_DONE] == r.dataDone && t.ts[T_EXEC] == r.exec
             && t.busyNs == r.busyNs && r.exec != 0 && r.skbs > 0
    ensures var s := RunOf(cpus, events, slotOf);
            var r, ps := s.recs[i].rec, PeriodsAt(s.past, i);
            && r.dataProc <= r.dataDone <= r.exec && t.busyNs <= r.dataDone - r.dataProc
            && StageModel.WritePhase(t) ==
               if t.busyNs == 0 then NoPhase else Phase.Phase(t.busyNs, Gaps(r.dataProc, ps))
  {
    PeriodsInPhase(cpus, events, slotOf);
    var s := RunOf(cpus, events, slotOf);
    var r, ps := s.recs[i].rec, PeriodsAt(s.past, i);
    assert RecOk(r, ps, s.past.now) && ps != [];
    PhaseOfPeriods(t.ts[T_DATA_PROC], t.ts[T_DATA_DONE], t.ts[T_EXEC], t.busyNs, ps);
    SpanIs(r.dataProc, ps);
  }
}
