/**
 Which copies a write's record counts. WritePhase shows when the periods of a record are disjoint and inside its data
 phase; here the periods, and with them the record, are read off the events alone: who holds a slot, when its command's
 header was parsed and when it was executed, which copy each CPU is timing, and which copies ended.
 */
module WriteHistory {
  import opened Records
  import opened StageModel
  import opened Periods
  import opened WritePhase

  ghost predicate AllTimely(cpus: nat, events: seq<Event>, slotOf: u64 -> SlotNo) {
    && On(events, cpus)
    && forall i :: 0 <= i < |events| ==> Timely(RunOf(cpus, events[..i], slotOf), events[i])
  }

  // ---- what the events say ----

  predicate OnCopies(e: Event) {
    e.CopyStart? || e.CopyEnd?
  }

  /** The nvmet_req whose record is in the slot. */
  function Holder(events: seq<Event>, i: SlotNo, slotOf: u64 -> SlotNo): Option<u64> {
    var n := |events| - 1;
    if events == [] then None
    else
      var before := Holder(events[..n], i, slotOf);
      match events[n]
      case Opens(_, req) => if slotOf(req) == i then Some(req) else before
      case Gone(_, req) => if slotOf(req) == i && before == Some(req) then None else before
      case _ => before
  }

  ghost predicate AnyHeld(events: seq<Event>, slotOf: u64 -> SlotNo) {
    exists i: SlotNo :: Holder(events, i, slotOf).Some?
  }

  /** The nvmet_req has its record in the slot. */
  predicate Holds(events: seq<Event>, req: u64, i: SlotNo, slotOf: u64 -> SlotNo) {
    slotOf(req) == i && Holder(events, i, slotOf) == Some(req)
  }

  /** The time of the command's first R2T (0: none yet). */
  function R2tAt(events: seq<Event>, i: SlotNo, slotOf: u64 -> SlotNo): nat {
    var n := |events| - 1;
    if events == [] then 0
    else
      var before := R2tAt(events[..n], i, slotOf);
      match events[n]
      case Opens(_, req) => if slotOf(req) == i then 0 else before
      case R2tSent(at, req) => if Holds(events[..n], req, i, slotOf) && before == 0 then at else before
      case _ => before
  }

  /** The time of the first data header behind that R2T. */
  function HeaderAt(events: seq<Event>, i: SlotNo, slotOf: u64 -> SlotNo): nat {
    var n := |events| - 1;
    if events == [] then 0
    else
      var before := HeaderAt(events[..n], i, slotOf);
      match events[n]
      case Opens(_, req) => if slotOf(req) == i then 0 else before
      case H2c(at, req) =>
        if Holds(events[..n], req, i, slotOf) && R2tAt(events[..n], i, slotOf) != 0 && before == 0 then at else before
      case _ => before
  }

  function ExecAt(events: seq<Event>, i: SlotNo, slotOf: u64 -> SlotNo): nat {
    var n := |events| - 1;
    if events == [] then 0
    else
      var before := ExecAt(events[..n], i, slotOf);
      match events[n]
      case Opens(_, req) => if slotOf(req) == i then 0 else before
      case Exec(at, req) => if Holds(events[..n], req, i, slotOf) && before == 0 then at else before
      case _ => before
  }

  /**
   The copy that the CPU is timing: the last one begun on it, if there was a record then, until its thread ends a copy
   there.
   */
  ghost function Timing(events: seq<Event>, cpu: nat, slotOf: u64 -> SlotNo): Option<Event> {
    var n := |events| - 1;
    if events == [] then None
    else
      var before := Timing(events[..n], cpu, slotOf);
      match events[n]
      case CopyStart(_, on, _, _) =>
        if on != cpu then before else if AnyHeld(events[..n], slotOf) then Some(events[n]) else None
      case CopyEnd(_, on, tid, _, _) =>
        if on == cpu && AnyHeld(events[..n], slotOf) && before.Some? && before.value.CopyStart? && before.value.tid == tid
        then None else before
      case _ => before
  }

  /** The event ends a timed copy of data of the slot's command, between its header and its execution. */
  ghost predicate Ends(events: seq<Event>, e: Event, i: SlotNo, slotOf: u64 -> SlotNo) {
    && e.CopyEnd? && e.ok && e.req != 0 && Holds(events, e.req, i, slotOf)
    && TimingOf(events, e, slotOf) && HeaderAt(events, i, slotOf) != 0 && ExecAt(events, i, slotOf) == 0
  }

  /** The CPU is timing a copy of the event's thread. */
  ghost predicate TimingOf(events: seq<Event>, e: Event, slotOf: u64 -> SlotNo)
    requires e.CopyEnd?
  {
    var c := Timing(events, e.cpu, slotOf);
    c.Some? && c.value.CopyStart? && c.value.tid == e.tid
  }

  /**
   The successful copies of the command's data between its header and its execution, each from its start to its end;
   the first one from the header, if it began inside an skb.
   */
  ghost function CopiesOf(events: seq<Event>, i: SlotNo, slotOf: u64 -> SlotNo): seq<Period> {
    var n := |events| - 1;
    if events == [] then []
    else
      var e, before := events[n], CopiesOf(events[..n], i, slotOf);
      if e.Opens? && slotOf(e.req) == i then []
      else if Ends(events[..n], e, i, slotOf) then
        var c := Timing(events[..n], e.cpu, slotOf).value;
        before + [Period(if before == [] && c.offset > 0 then HeaderAt(events[..n], i, slotOf) else c.at, e.at)]
      else before
  }

  // ---- one event ----

  /** Every end that counts adds exactly its period to exactly its record, and no other event adds one. */
  lemma EndAddsPeriod(s: State, e: Event, slotOf: u64 -> SlotNo)
    requires Timely(s, e) && e.CopyEnd?
    ensures var t, slot := Step(s, e, slotOf), slotOf(e.req);
            if Counts(s, e.cpu, e.tid, e.ok, e.req, slotOf) && From(s.recs[slot].rec, s.rx[e.cpu]) <= e.at then
              var from := From(s.recs[slot].rec, s.rx[e.cpu]);
              && PeriodsAt(t.past, slot) == PeriodsAt(s.past, slot) + [Period(from, e.at)]
              && (forall i :: i != slot ==> PeriodsAt(t.past, i) == PeriodsAt(s.past, i))
              && t.recs == s.recs[slot := Slot(e.req, Timed(s.recs[slot].rec, from, e.at))]
            else t.recs == s.recs && t.past.periods == s.past.periods
  {
    if Counts(s, e.cpu, e.tid, e.ok, e.req, slotOf) { assert s.recs != map[]; }
  }

  // ---- whole runs ----

  /** The record of the slot's command, as the events have it. */
  ghost function RecordOf(events: seq<Event>, i: SlotNo, slotOf: u64 -> SlotNo): WriteRec {
    var header, ps := HeaderAt(events, i, slotOf), CopiesOf(events, i, slotOf);
    WriteRec(R2tAt(events, i, slotOf), header, End(0, ps), ExecAt(events, i, slotOf), header != 0, Busy(ps), |ps|)
  }

  ghost predicate SlotTold(s: State, events: seq<Event>, i: SlotNo, slotOf: u64 -> SlotNo) {
    && PeriodsAt(s.past, i) == CopiesOf(events, i, slotOf)
    && Holder(events, i, slotOf) == (if i in s.recs then Some(s.recs[i].req) else None)
    && (i in s.recs ==> slotOf(s.recs[i].req) == i && s.recs[i].rec == RecordOf(events, i, slotOf))
    && HeaderAt(events, i, slotOf) <= s.past.now
  }

  ghost predicate CpuTold(s: State, events: seq<Event>, cpu: nat, slotOf: u64 -> SlotNo)
    requires cpu < |s.rx|
  {
    match Timing(events, cpu, slotOf)
    case None => s.rx[cpu].enter == 0
    case Some(c) => c.CopyStart? && s.rx[cpu] == Rx(c.tid, c.at, c.offset) && 0 < c.at <= s.past.now
  }

  ghost predicate Told(s: State, events: seq<Event>, slotOf: u64 -> SlotNo) {
    && (forall i: SlotNo :: SlotTold(s, events, i, slotOf))
    && (forall cpu :: 0 <= cpu < |s.rx| ==> CpuTold(s, events, cpu, slotOf))
  }

  lemma HeldIs(s: State, events: seq<Event>, slotOf: u64 -> SlotNo)
    requires forall i: SlotNo :: SlotTold(s, events, i, slotOf)
    ensures AnyHeld(events, slotOf) <==> s.recs != map[]
  {
    if AnyHeld(events, slotOf) {
      var i: SlotNo :| Holder(events, i, slotOf).Some?;
      assert SlotTold(s, events, i, slotOf);
    }
    if s.recs != map[] {
      var i :| i in s.recs;
      assert SlotTold(s, events, i, slotOf);
    }
  }

  lemma CpuNext(s: State, events: seq<Event>, e: Event, cpu: nat, slotOf: u64 -> SlotNo)
    requires Told(s, events, slotOf) && Timely(s, e) && cpu < |s.rx|
    ensures CpuTold(Step(s, e, slotOf), events + [e], cpu, slotOf)
  {
    assert (events + [e])[..|events|] == events;
    assert CpuTold(s, events, cpu, slotOf);
    HeldIs(s, events, slotOf);
  }

  /** The end counts, for the hook, exactly if the events say so; the copy began in time. */
  lemma EndsIs(s: State, events: seq<Event>, e: Event, slotOf: u64 -> SlotNo)
    requires Told(s, events, slotOf) && Timely(s, e) && e.CopyEnd?
    ensures Ends(events, e, slotOf(e.req), slotOf) <==> Counts(s, e.cpu, e.tid, e.ok, e.req, slotOf)
    ensures Counts(s, e.cpu, e.tid, e.ok, e.req, slotOf) ==>
              var i := slotOf(e.req);
              var c := Timing(events, e.cpu, slotOf).value;
              && From(s.recs[i].rec, s.rx[e.cpu]) <= e.at
              && From(s.recs[i].rec, s.rx[e.cpu]) ==
                 if CopiesOf(events, i, slotOf) == [] && c.offset > 0 then HeaderAt(events, i, slotOf) else c.at
  {
    assert SlotTold(s, events, slotOf(e.req), slotOf) && CpuTold(s, events, e.cpu, slotOf);
  }

  /** The end of a copy changes nothing that the events say of a slot, except perhaps its copies. */
  lemma EndSays(events: seq<Event>, e: Event, i: SlotNo, slotOf: u64 -> SlotNo)
    requires e.CopyEnd?
    ensures var all := events + [e];
            && Holder(all, i, slotOf) == Holder(events, i, slotOf) && R2tAt(all, i, slotOf) == R2tAt(events, i, slotOf)
            && HeaderAt(all, i, slotOf) == HeaderAt(events, i, slotOf) && ExecAt(all, i, slotOf) == ExecAt(events, i, slotOf)
    ensures CopiesOf(events + [e], i, slotOf) ==
            if Ends(events, e, i, slotOf) then
              var c, ps := Timing(events, e.cpu, slotOf).value, CopiesOf(events, i, slotOf);
              ps + [Period(if ps == [] && c.offset > 0 then HeaderAt(events, i, slotOf) else c.at, e.at)]
            else CopiesOf(events, i, slotOf)
  {
    assert (events + [e])[..|events|] == events;
  }

  lemma CountedNext(s: State, events: seq<Event>, e: Event, slotOf: u64 -> SlotNo)
    requires Told(s, events, slotOf) && Timely(s, e) && e.CopyEnd? && Ends(events, e, slotOf(e.req), slotOf)
    ensures SlotTold(Step(s, e, slotOf), events + [e], slotOf(e.req), slotOf)
  {
    var i := slotOf(e.req);
    EndsIs(s, events, e, slotOf);
    EndAddsPeriod(s, e, slotOf);
    EndSays(events, e, i, slotOf);
    assert SlotTold(s, events, i, slotOf);
    Append(0, CopiesOf(events, i, slotOf), Period(From(s.recs[i].rec, s.rx[e.cpu]), e.at));
  }

  lemma EndNext(s: State, events: seq<Event>, e: Event, i: SlotNo, slotOf: u64 -> SlotNo)
    requires Told(s, events, slotOf) && Timely(s, e) && e.CopyEnd?
    ensures SlotTold(Step(s, e, slotOf), events + [e], i, slotOf)
  {
    if Ends(events, e, i, slotOf) {
      CountedNext(s, events, e, slotOf);
    } else {
      EndSays(events, e, i, slotOf);
      EndsIs(s, events, e, slotOf);
      EndAddsPeriod(s, e, slotOf);
      assert SlotTold(s, events, i, slotOf);
    }
  }

  lemma SlotNext(s: State, events: seq<Event>, e: Event, i: SlotNo, slotOf: u64 -> SlotNo)
    requires Told(s, events, slotOf) && Timely(s, e) && !e.CopyEnd?
    ensures SlotTold(Step(s, e, slotOf), events + [e], i, slotOf)
  {
    assert (events + [e])[..|events|] == events;
    assert SlotTold(s, events, i, slotOf);
  }

  lemma ToldNext(s: State, events: seq<Event>, e: Event, slotOf: u64 -> SlotNo)
    requires Told(s, events, slotOf) && Timely(s, e)
    ensures Told(Step(s, e, slotOf), events + [e], slotOf)
  {
    var t := Step(s, e, slotOf);
    forall i: SlotNo ensures SlotTold(t, events + [e], i, slotOf) {
      if e.CopyEnd? { EndNext(s, events, e, i, slotOf); } else { SlotNext(s, events, e, i, slotOf); }
    }
    forall cpu | 0 <= cpu < |t.rx| ensures CpuTold(t, events + [e], cpu, slotOf) {
      CpuNext(s, events, e, cpu, slotOf);
    }
  }

  lemma ToldFirst(cpus: nat, slotOf: u64 -> SlotNo)
    ensures Told(Start(cpus), [], slotOf)
  {
    forall i: SlotNo ensures SlotTold(Start(cpus), [], i, slotOf) { }
  }

  lemma TimelyAt(cpus: nat, events: seq<Event>, slotOf: u64 -> SlotNo, n: nat, i: nat)
    requires AllTimely(cpus, events, slotOf) && i < n <= |events|
    ensures On(events[..n][..i], cpus) && Timely(RunOf(cpus, events[..n][..i], slotOf), events[..n][i])
  {
    assert events[..n][..i] == events[..i] && events[..n][i] == events[i];
  }

  lemma TimelyBefore(cpus: nat, events: seq<Event>, slotOf: u64 -> SlotNo, n: nat)
    requires AllTimely(cpus, events, slotOf) && n <= |events|
    ensures AllTimely(cpus, events[..n], slotOf)
  {
    forall i | 0 <= i < n ensures Timely(RunOf(cpus, events[..n][..i], slotOf), events[..n][i]) {
      TimelyAt(cpus, events, slotOf, n, i);
    }
  }

  /**
   Over every run, whatever threads and CPUs do: who holds each slot, its record and its periods are what the events
   say, and so is the copy that each CPU's context has.
   */
  lemma {:induction false} RecordsAreHistory(cpus: nat, events: seq<Event>, slotOf: u64 -> SlotNo)
    requires AllTimely(cpus, events, slotOf)
    ensures Told(RunOf(cpus, events, slotOf), events, slotOf)
  {
    if events == [] {
      ToldFirst(cpus, slotOf);
    } else {
      var n := |events| - 1;
      var before, e := events[..n], events[n];
      assert events == before + [e];
      TimelyBefore(cpus, events, slotOf, n);
      RecordsAreHistory(cpus, before, slotOf);
      ToldNext(RunOf(cpus, before, slotOf), before, e, slotOf);
    }
  }

  // ---- orderly runs ----

  /** The copy that the thread began last. */
  function LastStart(events: seq<Event>, tid: u64): Option<Event> {
    var n := |events| - 1;
    if events == [] then None
    else if events[n].CopyStart? && events[n].tid == tid then Some(events[n])
    else LastStart(events[..n], tid)
  }

  lemma {:induction false} BeganIs(cpus: nat, events: seq<Event>, tid: u64, slotOf: u64 -> SlotNo)
    requires On(events, cpus)
    ensures var began := RunOf(cpus, events, slotOf).past.began;
            match LastStart(events, tid)
            case None => tid !in began
            case Some(c) => c.CopyStart? && tid in began && began[tid].at == c.at
  {
    if events != [] { BeganIs(cpus, events[..|events| - 1], tid, slotOf); }
  }

  lemma OrderlyIsTimely(cpus: nat, events: seq<Event>, slotOf: u64 -> SlotNo)
    requires AllOrderly(cpus, events, slotOf)
    ensures AllTimely(cpus, events, slotOf)
  {
  }

  lemma OwnStart(s: State, e: Event, slotOf: u64 -> SlotNo)
    requires Linked(s, slotOf) && Timely(s, e) && Orderly(s, e, slotOf)
    requires e.CopyEnd? && Counts(s, e.cpu, e.tid, e.ok, e.req, slotOf)
    ensures e.tid in s.past.began && s.rx[e.cpu].enter == s.past.began[e.tid].at
  {
    assert ContextOk(s, e.cpu);
  }

  lemma TimingIs(s: State, events: seq<Event>, e: Event, i: SlotNo, slotOf: u64 -> SlotNo)
    requires Told(s, events, slotOf) && Timely(s, e) && Ends(events, e, i, slotOf)
    ensures Counts(s, e.cpu, e.tid, e.ok, e.req, slotOf) && s.rx[e.cpu].enter == Timing(events, e.cpu, slotOf).value.at
  {
    EndsIs(s, events, e, slotOf);
    assert CpuTold(s, events, e.cpu, slotOf);
  }

  /** In an orderly run the copy that counts began when the thread's own last copy did. */
  lemma OwnCopyCounts(cpus: nat, events: seq<Event>, e: Event, i: SlotNo, slotOf: u64 -> SlotNo)
    requires AllOrderly(cpus, events, slotOf) && Ends(events, e, i, slotOf)
    requires Timely(RunOf(cpus, events, slotOf), e) && Orderly(RunOf(cpus, events, slotOf), e, slotOf)
    ensures LastStart(events, e.tid).Some? && LastStart(events, e.tid).value.CopyStart?
    ensures Timing(events, e.cpu, slotOf).value.at == LastStart(events, e.tid).value.at
  {
    var s := RunOf(cpus, events, slotOf);
    OrderlyIsTimely(cpus, events, slotOf);
    RecordsAreHistory(cpus, events, slotOf);
    PeriodsInPhase(cpus, events, slotOf);
    BeganIs(cpus, events, e.tid, slotOf);
    TimingIs(s, events, e, i, slotOf);
    OwnStart(s, e, slotOf);
  }

  /**
   So for the record of an executed write TGT_WAIT is exactly the time between the copies of its data, as the events
   have them, from the header on, and the transport's part the time in them.
   */
  lemma WaitIsBetweenCopies(cpus: nat, events: seq<Event>, slotOf: u64 -> SlotNo, i: SlotNo, t: Rec)
    requires AllOrderly(cpus, events, slotOf)
    requires i in RunOf(cpus, events, slotOf).recs
    requires var r := RunOf(cpus, events, slotOf).recs[i].rec;
             && t.ts[T_DATA_PROC] == r.dataProc && t.ts[T_DATA_DONE] == r.dataDone && t.ts[T_EXEC] == r.exec
             && t.busyNs == r.busyNs && r.exec != 0 && r.skbs > 0
    ensures var header, ps := HeaderAt(events, i, slotOf), CopiesOf(events, i, slotOf);
            && Disjoint(header, ps) && End(header, ps) <= ExecAt(events, i, slotOf)
            && StageModel.WritePhase(t) ==
               if Busy(ps) == 0 then NoPhase else Phase.Phase(Busy(ps), Gaps(header, ps))
  {
    WaitIsGaps(cpus, events, slotOf, i, t);
    PeriodsInPhase(cpus, events, slotOf);
    OrderlyIsTimely(cpus, events, slotOf);
    RecordsAreHistory(cpus, events, slotOf);
    var s := RunOf(cpus, events, slotOf);
    assert SlotTold(s, events, i, slotOf) && RecOk(s.recs[i].rec, PeriodsAt(s.past, i), s.past.now);
  }
}
