/**
 Which periods a read's record counts. ReadPhase shows when the periods of a record are disjoint and inside its data
 phase; here the periods, and with them the record, are read off the events alone: who holds a slot, what the index
 says of a cid, which call each CPU's context is for, and which read's data that call is copying since when.
 */
module ReadHistory {
  import opened Records
  import opened StageModel
  import opened Periods
  import opened ReadPhase
  import HostObject

  ghost predicate AllTimely(cpus: nat, index: map<SlotNo, CidEntry>, events: seq<Event>, lay: Layout) {
    && On(events, cpus)
    && forall i :: 0 <= i < |events| ==> Timely(RunOf(cpus, index, events[..i], lay), events[i])
  }

  // ---- what the events say ----

  /** A request's record; a receive call; a read whose data is being copied, and since when. */
  datatype Held = Held(rq: u64, queue: u64, cid: u16)
  datatype Receive = Receive(tid: u64, queue: u64, skb: u64, at: nat)
  datatype Current = Copying(rq: u64, since: nat)

  /** The request whose record is in the slot. */
  function Holder(events: seq<Event>, i: SlotNo, lay: Layout): Option<Held> {
    var n := |events| - 1;
    if events == [] then None
    else
      var before := Holder(events[..n], i, lay);
      match events[n]
      case Setup(_, rq, queue, cid) => if lay.slot(rq) == i then Some(Held(rq, queue, cid)) else before
      case Gone(_, rq) => if lay.slot(rq) == i && before.Some? && before.value.rq == rq then None else before
      case _ => before
  }

  ghost predicate AnyHeld(events: seq<Event>, lay: Layout) {
    exists i: SlotNo :: Holder(events, i, lay).Some?
  }

  predicate Holds(events: seq<Event>, rq: u64, i: SlotNo, lay: Layout) {
    lay.slot(rq) == i && Holder(events, i, lay).Some? && Holder(events, i, lay).value.rq == rq
  }

  /** The index entry of a cid: the last request set up there; its request is 0 once that one's record is gone. */
  function Entry(events: seq<Event>, j: SlotNo, index: map<SlotNo, CidEntry>, lay: Layout): Option<CidEntry> {
    var n := |events| - 1;
    if events == [] then if j in index then Some(index[j]) else None
    else
      var before := Entry(events[..n], j, index, lay);
      match events[n]
      case Setup(_, rq, queue, cid) =>
        if lay.cidSlot(queue, cid) == j then Some(HostObject.CidEntry(queue, cid, rq)) else before
      case Gone(_, rq) =>
        if Holds(events[..n], rq, lay.slot(rq), lay) && before.Some? && before.value.rq == rq &&
           var h := Holder(events[..n], lay.slot(rq), lay).value; lay.cidSlot(h.queue, h.cid) == j
        then Some(before.value.(rq := 0)) else before
      case _ => before
  }

  /** The call that the CPU's context is for: the last one begun there with a record to need it, until its exit. */
  ghost function CallOn(events: seq<Event>, cpu: nat, lay: Layout): Option<Receive> {
    var n := |events| - 1;
    if events == [] then None
    else
      var before := CallOn(events[..n], cpu, lay);
      match events[n]
      case RxEnter(at, on, tid, queue, skb) =>
        if on == cpu && AnyHeld(events[..n], lay) then Some(Receive(tid, queue, skb, at)) else before
      case RxExit(_, on, tid) => if on == cpu && before.Some? && before.value.tid == tid then None else before
      case _ => before
  }

  ghost predicate InCallOf(events: seq<Event>, cpu: nat, tid: u64, lay: Layout) {
    var c := CallOn(events, cpu, lay);
    c.Some? && c.value.tid == tid
  }

  /** The request that the index has for a copy of C2H data out of the skb of the call. */
  ghost function Found(events: seq<Event>, e: Event, index: map<SlotNo, CidEntry>, lay: Layout): Option<u64> {
    if e.Copy? && e.data && InCallOf(events, e.cpu, e.tid, lay) && AnyHeld(events, lay) then
      var c := CallOn(events, e.cpu, lay).value;
      var x := Entry(events, lay.cidSlot(c.queue, e.cid), index, lay);
      if c.skb == e.skb && x.Some? && x.value.queue == c.queue && x.value.cid == e.cid then Some(x.value.rq) else None
    else None
  }

  /** The copy is the first, in a row, of a recorded read's data. */
  ghost predicate Starts(events: seq<Event>, e: Event, index: map<SlotNo, CidEntry>, lay: Layout)
    decreases |events|, 2
  {
    var found := Found(events, e, index, lay);
    && found.Some? && found.value != 0 && Holds(events, found.value, lay.slot(found.value), lay)
    && var b := Copied(events, e.cpu, index, lay); !(b.Some? && b.value.rq == found.value)
  }

  /** The copy is of a cid whose entry was cleared, and ends what the call was copying. */
  ghost predicate Stops(events: seq<Event>, e: Event, index: map<SlotNo, CidEntry>, lay: Layout)
    decreases |events|, 2
  {
    && Found(events, e, index, lay) == Some(0) && Holder(events, lay.slot(0), lay).None?
    && Copied(events, e.cpu, index, lay).Some?
  }

  /**
   The read whose data the CPU's call is copying, and since when: from its first copy of all, or from where the call
   turned to it; a read with earlier data that is the call's first counts from the call's entry.
   */
  ghost function Copied(events: seq<Event>, cpu: nat, index: map<SlotNo, CidEntry>, lay: Layout): Option<Current>
    decreases |events|, 1
  {
    var n := |events| - 1;
    if events == [] then None
    else
      var past, e := events[..n], events[n];
      var before := Copied(past, cpu, index, lay);
      if !e.OnCpu() || e.cpu != cpu then before
      else
        match e
        case RxEnter(_, _, _, _, _) => if AnyHeld(past, lay) then None else before
        case RxExit(_, _, tid) => if InCallOf(past, cpu, tid, lay) then None else before
        case Complete(_, _, tid, rq) =>
          if InCallOf(past, cpu, tid, lay) && Holds(past, rq, lay.slot(rq), lay) && before.Some? && before.value.rq == rq
          then None else before
        case Copy(at, _, _, _, _, _) =>
          if Starts(past, e, index, lay) then
            var rq := Found(past, e, index, lay).value;
            Some(Copying(rq, if before.Some? || FirstAt(past, lay.slot(rq), index, lay) == 0 then at
                             else CallOn(past, cpu, lay).value.at))
          else if Stops(past, e, index, lay) then None
          else before
  }

  /** The time of the first copy of the read's data (0: none yet). */
  ghost function FirstAt(events: seq<Event>, i: SlotNo, index: map<SlotNo, CidEntry>, lay: Layout): nat
    decreases |events|, 1
  {
    var n := |events| - 1;
    if events == [] then 0
    else
      var past, e := events[..n], events[n];
      var before := FirstAt(past, i, index, lay);
      if e.Setup? && lay.slot(e.rq) == i then 0
      else if before == 0 && Starts(past, e, index, lay) && lay.slot(Found(past, e, index, lay).value) == i then e.at
      else before
  }

  /** The time of the read's completion, as its call last parsed it. */
  ghost function AnsweredAt(events: seq<Event>, i: SlotNo, lay: Layout): nat {
    var n := |events| - 1;
    if events == [] then 0
    else
      var past, e := events[..n], events[n];
      if e.Setup? && lay.slot(e.rq) == i then 0
      else if e.Complete? && InCallOf(past, e.cpu, e.tid, lay) && Holds(past, e.rq, i, lay) then e.at
      else AnsweredAt(past, i, lay)
  }

  /** The event ends the period of the read in the slot: the call turns to other data, completes the read, or is over. */
  ghost predicate Ends(events: seq<Event>, e: Event, i: SlotNo, index: map<SlotNo, CidEntry>, lay: Layout) {
    && e.OnCpu() && InCallOf(events, e.cpu, e.tid, lay)
    && var b := Copied(events, e.cpu, index, lay);
       && b.Some? && Holds(events, b.value.rq, i, lay)
       && match e
          case RxExit(_, _, _) => true
          case Complete(_, _, _, rq) => rq == b.value.rq
          case Copy(_, _, _, _, _, _) =>
            Starts(events, e, index, lay) || Stops(events, e, index, lay)
          case _ => false
  }

  /** The periods in which the read's data was being copied. */
  ghost function PeriodsOf(events: seq<Event>, i: SlotNo, index: map<SlotNo, CidEntry>, lay: Layout): seq<Period> {
    var n := |events| - 1;
    if events == [] then []
    else
      var past, e := events[..n], events[n];
      var before := PeriodsOf(past, i, index, lay);
      if e.Setup? && lay.slot(e.rq) == i then []
      else if Ends(past, e, i, index, lay) then
        before + [Period(Copied(past, e.cpu, index, lay).value.since, e.at)]
      else before
  }

  // ---- one event ----

  /** The event ends the period of the read in this slot. */
  predicate ClosesAt(s: State, e: Event, i: SlotNo, lay: Layout) {
    Closes(s, e, lay) && lay.slot(s.rx[e.cpu].dataRq) == i && 0 < s.rx[e.cpu].busyFrom <= e.at
  }

  predicate NamesAt(s: State, e: Event, i: SlotNo, lay: Layout) {
    e.Copy? && e.cpu < |s.rx| && Names(s, e, lay) && lay.slot(Indexed(s, e, lay)) == i
  }

  predicate Answers(s: State, e: Event, i: SlotNo, lay: Layout) {
    e.Complete? && e.cpu < |s.rx| && s.rx[e.cpu].tid == e.tid && Has(s, e.rq, lay) && lay.slot(e.rq) == i
  }

  /** The stamps that the event gives a record, before a period is added. */
  function StampedBy(r: ReadRec, first: bool, answer: bool, at: nat): ReadRec {
    r.(proc := if first && r.proc == 0 then at else r.proc, rspProc := if answer then at else r.rspProc)
  }

  /**
   What one event of the receive path does to one slot: every end of a period with a start adds exactly that period to
   exactly the read that the context names, and nothing else adds one.
   */
  ghost predicate Does(s: State, t: State, e: Event, i: SlotNo, lay: Layout) {
    && (i in t.recs <==> i in s.recs)
    && (i in s.recs ==>
          var r := StampedBy(s.recs[i].rec, NamesAt(s, e, i, lay), Answers(s, e, i, lay), e.at);
          t.recs[i] == s.recs[i].(rec := if ClosesAt(s, e, i, lay) then Timed(r, s.rx[e.cpu].busyFrom, e.at) else r))
    && PeriodsAt(t.past, i) == PeriodsAt(s.past, i) +
         (if ClosesAt(s, e, i, lay) then [Period(s.rx[e.cpu].busyFrom, e.at)] else [])
  }

  lemma CopyDoes(s: State, e: Event, i: SlotNo, lay: Layout)
    requires e.Copy? && Timely(s, e)
    ensures Does(s, OnCopy(s, e, lay), e, i, lay)
  {
  }

  lemma CompleteDoes(s: State, e: Event, i: SlotNo, lay: Layout)
    requires e.Complete? && Timely(s, e)
    ensures Does(s, OnComplete(s, e, lay), e, i, lay)
  {
  }

  lemma ExitDoes(s: State, e: Event, i: SlotNo, lay: Layout)
    requires e.RxExit? && Timely(s, e)
    ensures Does(s, OnExit(s, e, lay), e, i, lay)
  {
    ExitIs(s, e, lay);
  }

  // ---- whole runs ----

  /** The record of the slot's read, as the events have it. */
  ghost function RecordOf(events: seq<Event>, i: SlotNo, index: map<SlotNo, CidEntry>, lay: Layout): ReadRec {
    var ps := PeriodsOf(events, i, index, lay);
    ReadRec(FirstAt(events, i, index, lay), End(0, ps), AnsweredAt(events, i, lay), Busy(ps), |ps|)
  }

  ghost predicate SlotTold(s: State, events: seq<Event>, i: SlotNo, index: map<SlotNo, CidEntry>, lay: Layout) {
    && PeriodsAt(s.past, i) == PeriodsOf(events, i, index, lay)
    && match Holder(events, i, lay)
       case None => i !in s.recs
       case Some(h) =>
         i in s.recs && h.rq != 0 && lay.slot(h.rq) == i &&
         s.recs[i] == Slot(h.rq, h.queue, h.cid, RecordOf(events, i, index, lay))
  }

  ghost predicate IndexTold(s: State, events: seq<Event>, j: SlotNo, index: map<SlotNo, CidEntry>, lay: Layout) {
    Entry(events, j, index, lay) == if j in s.index then Some(s.index[j]) else None
  }

  ghost predicate CpuTold(s: State, events: seq<Event>, cpu: nat, index: map<SlotNo, CidEntry>, lay: Layout)
    requires cpu < |s.rx|
  {
    var x := s.rx[cpu];
    match CallOn(events, cpu, lay)
    case None => x.tid == 0
    case Some(c) =>
      && x.tid == c.tid && x.queue == c.queue && x.skb == c.skb && x.enter == c.at && 0 < c.at <= s.past.now
      && match Copied(events, cpu, index, lay)
         case None => x.dataRq == 0
         case Some(b) => x.dataRq == b.rq != 0 && x.busyFrom == b.since && 0 < b.since <= s.past.now
  }

  ghost predicate Told(s: State, events: seq<Event>, index: map<SlotNo, CidEntry>, lay: Layout) {
    && (forall i: SlotNo :: SlotTold(s, events, i, index, lay))
    && (forall j: SlotNo :: IndexTold(s, events, j, index, lay))
    && (forall cpu :: 0 <= cpu < |s.rx| ==> CpuTold(s, events, cpu, index, lay))
  }

  lemma HeldIs(s: State, events: seq<Event>, index: map<SlotNo, CidEntry>, lay: Layout)
    requires Told(s, events, index, lay)
    ensures AnyHeld(events, lay) <==> s.recs != map[]
  {
    if AnyHeld(events, lay) {
      var i: SlotNo :| Holder(events, i, lay).Some?;
      assert SlotTold(s, events, i, index, lay);
    }
    if s.recs != map[] {
      var i :| i in s.recs;
      assert SlotTold(s, events, i, index, lay);
    }
  }

  lemma HoldsIs(s: State, events: seq<Event>, rq: u64, index: map<SlotNo, CidEntry>, lay: Layout)
    requires Told(s, events, index, lay)
    ensures Holds(events, rq, lay.slot(rq), lay) <==> Has(s, rq, lay)
  {
    assert SlotTold(s, events, lay.slot(rq), index, lay);
  }

  lemma FoundIs(s: State, events: seq<Event>, e: Event, index: map<SlotNo, CidEntry>, lay: Layout)
    requires Told(s, events, index, lay) && Timely(s, e) && e.Copy?
    ensures Found(events, e, index, lay) == if InCall(s, e, lay) then Some(Indexed(s, e, lay)) else None
    ensures InCall(s, e, lay) ==> InCallOf(events, e.cpu, e.tid, lay)
  {
    assert CpuTold(s, events, e.cpu, index, lay);
    assert IndexTold(s, events, lay.cidSlot(s.rx[e.cpu].queue, e.cid), index, lay);
    HeldIs(s, events, index, lay);
  }

  lemma StartsIs(s: State, events: seq<Event>, e: Event, index: map<SlotNo, CidEntry>, lay: Layout)
    requires Told(s, events, index, lay) && Timely(s, e) && e.Copy?
    ensures Starts(events, e, index, lay) <==> Names(s, e, lay)
    ensures Stops(events, e, index, lay) <==> Clears(s, e, lay)
  {
    FoundIs(s, events, e, index, lay);
    if InCall(s, e, lay) {
      assert CpuTold(s, events, e.cpu, index, lay);
      HoldsIs(s, events, Indexed(s, e, lay), index, lay);
      assert SlotTold(s, events, lay.slot(0), index, lay);
    }
  }

  lemma EndsIs(s: State, events: seq<Event>, e: Event, i: SlotNo, index: map<SlotNo, CidEntry>, lay: Layout)
    requires Told(s, events, index, lay) && Timely(s, e)
    ensures Ends(events, e, i, index, lay) <==> ClosesAt(s, e, i, lay)
    ensures Ends(events, e, i, index, lay) ==> Copied(events, e.cpu, index, lay).value.since == s.rx[e.cpu].busyFrom
  {
    if e.OnCpu() {
      assert CpuTold(s, events, e.cpu, index, lay);
      if InCallOf(events, e.cpu, e.tid, lay) {
        HoldsIs(s, events, s.rx[e.cpu].dataRq, index, lay);
        if e.Copy? { StartsIs(s, events, e, index, lay); }
      }
    }
  }

  /** What an event of the receive path adds to what is said of a slot. */
  lemma SaidOfSlot(events: seq<Event>, e: Event, i: SlotNo, index: map<SlotNo, CidEntry>, lay: Layout)
    requires e.OnCpu()
    ensures Holder(events + [e], i, lay) == Holder(events, i, lay)
    ensures FirstAt(events + [e], i, index, lay) ==
            if FirstAt(events, i, index, lay) == 0 && Starts(events, e, index, lay) &&
               lay.slot(Found(events, e, index, lay).value) == i then e.at
            else FirstAt(events, i, index, lay)
    ensures AnsweredAt(events + [e], i, lay) ==
            if e.Complete? && InCallOf(events, e.cpu, e.tid, lay) && Holds(events, e.rq, i, lay) then e.at
            else AnsweredAt(events, i, lay)
    ensures PeriodsOf(events + [e], i, index, lay) ==
            PeriodsOf(events, i, index, lay) +
              if Ends(events, e, i, index, lay) then [Period(Copied(events, e.cpu, index, lay).value.since, e.at)] else []
  {
    assert (events + [e])[..|events|] == events;
  }

  /** The stamps of the event are those that the events say. */
  lemma StampsAre(s: State, events: seq<Event>, e: Event, i: SlotNo, index: map<SlotNo, CidEntry>, lay: Layout)
    requires Told(s, events, index, lay) && Timely(s, e) && e.OnCpu()
    ensures Starts(events, e, index, lay) && lay.slot(Found(events, e, index, lay).value) == i <==> NamesAt(s, e, i, lay)
    ensures e.Complete? && InCallOf(events, e.cpu, e.tid, lay) && Holds(events, e.rq, i, lay) <==> Answers(s, e, i, lay)
  {
    assert CpuTold(s, events, e.cpu, index, lay);
    if e.Copy? {
      StartsIs(s, events, e, index, lay);
      FoundIs(s, events, e, index, lay);
    }
    if e.Complete? { HoldsIs(s, events, e.rq, index, lay); }
  }

  lemma SlotOfDoes(s: State, t: State, events: seq<Event>, e: Event, i: SlotNo, index: map<SlotNo, CidEntry>, lay: Layout)
    requires Told(s, events, index, lay) && Timely(s, e) && e.OnCpu() && Does(s, t, e, i, lay)
    ensures SlotTold(t, events + [e], i, index, lay)
  {
    assert SlotTold(s, events, i, index, lay);
    SaidOfSlot(events, e, i, index, lay);
    StampsAre(s, events, e, i, index, lay);
    EndsIs(s, events, e, i, index, lay);
    if ClosesAt(s, e, i, lay) {
      Append(0, PeriodsOf(events, i, index, lay), Period(s.rx[e.cpu].busyFrom, e.at));
    }
  }

  lemma SlotNext(s: State, events: seq<Event>, e: Event, i: SlotNo, index: map<SlotNo, CidEntry>, lay: Layout)
    requires Told(s, events, index, lay) && Timely(s, e)
    ensures SlotTold(Hook(s, e, lay), events + [e], i, index, lay)
  {
    match e
    case Copy(_, _, _, _, _, _) => CopyDoes(s, e, i, lay); SlotOfDoes(s, Hook(s, e, lay), events, e, i, index, lay);
    case Complete(_, _, _, _) => CompleteDoes(s, e, i, lay); SlotOfDoes(s, Hook(s, e, lay), events, e, i, index, lay);
    case RxExit(_, _, _) => ExitDoes(s, e, i, lay); SlotOfDoes(s, Hook(s, e, lay), events, e, i, index, lay);
    case RxEnter(_, _, _, _, _) => SlotOfDoes(s, Hook(s, e, lay), events, e, i, index, lay);
    case _ => SetupGoneSlot(s, events, e, i, index, lay);
  }

  lemma SetupGoneSlot(s: State, events: seq<Event>, e: Event, i: SlotNo, index: map<SlotNo, CidEntry>, lay: Layout)
    requires Told(s, events, index, lay) && Timely(s, e) && (e.Setup? || e.Gone?)
    ensures SlotTold(Hook(s, e, lay), events + [e], i, index, lay)
  {
    assert (events + [e])[..|events|] == events;
    assert SlotTold(s, events, i, index, lay);
    assert !Starts(events, e, index, lay) && !Ends(events, e, i, index, lay);
    if e.Gone? { HoldsIs(s, events, e.rq, index, lay); }
  }

  lemma IndexNext(s: State, events: seq<Event>, e: Event, j: SlotNo, index: map<SlotNo, CidEntry>, lay: Layout)
    requires Told(s, events, index, lay) && Timely(s, e)
    ensures IndexTold(Hook(s, e, lay), events + [e], j, index, lay)
  {
    assert (events + [e])[..|events|] == events;
    assert IndexTold(s, events, j, index, lay);
    if e.Gone? {
      HoldsIs(s, events, e.rq, index, lay);
      assert SlotTold(s, events, lay.slot(e.rq), index, lay);
    }
  }

  /** What the event adds to what is said of its own CPU; of the others it says nothing. */
  lemma SaidOfCpu(events: seq<Event>, e: Event, cpu: nat, index: map<SlotNo, CidEntry>, lay: Layout)
    requires !(e.OnCpu() && e.cpu == cpu)
    ensures CallOn(events + [e], cpu, lay) == CallOn(events, cpu, lay)
    ensures Copied(events + [e], cpu, index, lay) == Copied(events, cpu, index, lay)
  {
    assert (events + [e])[..|events|] == events;
  }

  lemma OtherCpu(s: State, events: seq<Event>, e: Event, cpu: nat, index: map<SlotNo, CidEntry>, lay: Layout)
    requires Told(s, events, index, lay) && Timely(s, e) && s.past.now == e.at && cpu < |s.rx|
    requires !(e.OnCpu() && e.cpu == cpu)
    ensures CpuTold(Hook(s, e, lay), events + [e], cpu, index, lay)
  {
    SaidOfCpu(events, e, cpu, index, lay);
    assert CpuTold(s, events, cpu, index, lay);
  }

  lemma CopyCpu(s: State, events: seq<Event>, e: Event, index: map<SlotNo, CidEntry>, lay: Layout)
    requires Told(s, events, index, lay) && Timely(s, e) && s.past.now == e.at && e.Copy?
    ensures CpuTold(OnCopy(s, e, lay), events + [e], e.cpu, index, lay)
  {
    assert (events + [e])[..|events|] == events;
    assert CpuTold(s, events, e.cpu, index, lay);
    StartsIs(s, events, e, index, lay);
    FoundIs(s, events, e, index, lay);
    if Names(s, e, lay) {
      assert SlotTold(s, events, lay.slot(Indexed(s, e, lay)), index, lay);
    }
  }

  lemma CallCpu(s: State, events: seq<Event>, e: Event, index: map<SlotNo, CidEntry>, lay: Layout)
    requires Told(s, events, index, lay) && Timely(s, e) && s.past.now == e.at && e.OnCpu() && !e.Copy?
    ensures CpuTold(Hook(s, e, lay), events + [e], e.cpu, index, lay)
  {
    assert (events + [e])[..|events|] == events;
    assert CpuTold(s, events, e.cpu, index, lay);
    HeldIs(s, events, index, lay);
    if e.Complete? { HoldsIs(s, events, e.rq, index, lay); }
  }

  lemma HookTold(s: State, events: seq<Event>, e: Event, index: map<SlotNo, CidEntry>, lay: Layout)
    requires Told(s, events, index, lay) && Timely(s, e) && s.past.now == e.at
    ensures Told(Hook(s, e, lay), events + [e], index, lay)
  {
    var t := Hook(s, e, lay);
    forall i: SlotNo ensures SlotTold(t, events + [e], i, index, lay) {
      SlotNext(s, events, e, i, index, lay);
    }
    forall j: SlotNo ensures IndexTold(t, events + [e], j, index, lay) {
      IndexNext(s, events, e, j, index, lay);
    }
    forall cpu | 0 <= cpu < |t.rx| ensures CpuTold(t, events + [e], cpu, index, lay) {
      if !(e.OnCpu() && e.cpu == cpu) { OtherCpu(s, events, e, cpu, index, lay); }
      else if e.Copy? { CopyCpu(s, events, e, index, lay); }
      else { CallCpu(s, events, e, index, lay); }
    }
  }

  lemma ToldLater(s: State, events: seq<Event>, at: nat, index: map<SlotNo, CidEntry>, lay: Layout)
    requires Told(s, events, index, lay) && s.past.now <= at
    ensures Told(At(s, at), events, index, lay)
  {
    var t := At(s, at);
    forall i: SlotNo ensures SlotTold(t, events, i, index, lay) { assert SlotTold(s, events, i, index, lay); }
    forall j: SlotNo ensures IndexTold(t, events, j, index, lay) { assert IndexTold(s, events, j, index, lay); }
    forall cpu | 0 <= cpu < |t.rx| ensures CpuTold(t, events, cpu, index, lay) {
      assert CpuTold(s, events, cpu, index, lay);
    }
  }

  lemma ToldFirst(cpus: nat, index: map<SlotNo, CidEntry>, lay: Layout)
    ensures Told(Start(cpus, index), [], index, lay)
  {
    var s := Start(cpus, index);
    forall i: SlotNo ensures SlotTold(s, [], i, index, lay) { }
    forall j: SlotNo ensures IndexTold(s, [], j, index, lay) { }
  }

  lemma TimelyAt(cpus: nat, index: map<SlotNo, CidEntry>, events: seq<Event>, lay: Layout, n: nat, i: nat)
    requires AllTimely(cpus, index, events, lay) && i < n <= |events|
    ensures On(events[..n][..i], cpus) && Timely(RunOf(cpus, index, events[..n][..i], lay), events[..n][i])
  {
    assert events[..n][..i] == events[..i] && events[..n][i] == events[i];
  }

  lemma TimelyBefore(cpus: nat, index: map<SlotNo, CidEntry>, events: seq<Event>, lay: Layout, n: nat)
    requires AllTimely(cpus, index, events, lay) && n <= |events|
    ensures AllTimely(cpus, index, events[..n], lay)
  {
    forall i | 0 <= i < n ensures Timely(RunOf(cpus, index, events[..n][..i], lay), events[..n][i]) {
      TimelyAt(cpus, index, events, lay, n, i);
    }
  }

  /**
   Over every run, whatever threads and CPUs do: who holds each slot, its record and its periods are what the events
   say, and so are the index, the call that each CPU's context is for and the read that it names.
   */
  lemma {:induction false} RecordsAreHistory(cpus: nat, index: map<SlotNo, CidEntry>, events: seq<Event>, lay: Layout)
    requires AllTimely(cpus, index, events, lay)
    ensures Told(RunOf(cpus, index, events, lay), events, index, lay)
  {
    if events == [] {
      ToldFirst(cpus, index, lay);
    } else {
      var n := |events| - 1;
      var before, e := events[..n], events[n];
      assert events == before + [e];
      TimelyBefore(cpus, index, events, lay, n);
      RecordsAreHistory(cpus, index, before, lay);
      var s := RunOf(cpus, index, before, lay);
      ToldLater(s, before, e.at, index, lay);
      HookTold(At(s, e.at), before, e, index, lay);
    }
  }

  // ---- orderly runs ----

  lemma OrderlyIsTimely(cpus: nat, index: map<SlotNo, CidEntry>, events: seq<Event>, lay: Layout)
    requires AllOrderly(cpus, index, events, lay)
    ensures AllTimely(cpus, index, events, lay)
  {
  }

  /** The call that the thread is in, if any. */
  function UnderWay(events: seq<Event>, tid: u64): Option<Event> {
    var n := |events| - 1;
    if events == [] then None
    else if events[n].RxEnter? && events[n].tid == tid then Some(events[n])
    else if events[n].RxExit? && events[n].tid == tid then None
    else UnderWay(events[..n], tid)
  }

  ghost predicate CallTold(s: State, call: Option<Event>, tid: u64) {
    match call
    case None => tid !in s.past.running
    case Some(c) => c.RxEnter? && tid in s.past.running && s.past.running[tid].at == c.at
  }

  /** Only the entry and the exit of the thread's own calls change which call it is in. */
  lemma CallNext(s: State, e: Event, call: Option<Event>, tid: u64, lay: Layout)
    requires e.OnCpu() ==> e.cpu < |s.rx| == |s.past.wrote|
    requires CallTold(s, call, tid)
    ensures CallTold(Step(s, e, lay), if e.RxEnter? && e.tid == tid then Some(e)
                                      else if e.RxExit? && e.tid == tid then None else call, tid)
  {
    var u := At(s, e.at);
    match e
    case Copy(_, _, _, _, _, _) => CopyCalls(u, e, tid, lay);
    case Complete(_, _, _, _) => CompleteCalls(u, e, lay);
    case _ =>
  }

  lemma CopyCalls(s: State, e: Event, tid: u64, lay: Layout)
    requires e.Copy? && e.cpu < |s.rx|
    ensures var t := OnCopy(s, e, lay);
            && (tid in t.past.running <==> tid in s.past.running)
            && (tid in s.past.running ==> t.past.running[tid].at == s.past.running[tid].at)
  {
  }

  lemma CompleteCalls(s: State, e: Event, lay: Layout)
    requires e.Complete? && e.cpu < |s.rx|
    ensures OnComplete(s, e, lay).past.running == s.past.running
  {
  }

  lemma {:induction false} RunningIs(cpus: nat, index: map<SlotNo, CidEntry>, events: seq<Event>, lay: Layout, tid: u64)
    requires On(events, cpus)
    ensures CallTold(RunOf(cpus, index, events, lay), UnderWay(events, tid), tid)
  {
    if events != [] {
      var before, e := events[..|events| - 1], events[|events| - 1];
      RunningIs(cpus, index, before, lay, tid);
      CallNext(RunOf(cpus, index, before, lay), e, UnderWay(before, tid), tid, lay);
    }
  }

  lemma OwnStart(s: State, e: Event, i: SlotNo, lay: Layout)
    requires Linked(s, lay) && Timely(s, e) && Orderly(s, e, lay) && ClosesAt(s, e, i, lay)
    ensures e.tid in s.past.running && s.rx[e.cpu].enter == s.past.running[e.tid].at
  {
    assert ContextOk(s, e.cpu, lay);
  }

  lemma CallIs(s: State, events: seq<Event>, e: Event, i: SlotNo, index: map<SlotNo, CidEntry>, lay: Layout)
    requires Told(s, events, index, lay) && Timely(s, e) && Ends(events, e, i, index, lay)
    ensures ClosesAt(s, e, i, lay) && s.rx[e.cpu].enter == CallOn(events, e.cpu, lay).value.at
  {
    EndsIs(s, events, e, i, index, lay);
    assert CpuTold(s, events, e.cpu, index, lay);
  }

  /** In an orderly run a period that ends was that of the call that the thread is in. */
  lemma OwnCallCounts(cpus: nat, index: map<SlotNo, CidEntry>, events: seq<Event>, e: Event, i: SlotNo, lay: Layout)
    requires AllOrderly(cpus, index, events, lay) && Ends(events, e, i, index, lay)
    requires Timely(RunOf(cpus, index, events, lay), e) && Orderly(RunOf(cpus, index, events, lay), e, lay)
    ensures UnderWay(events, e.tid).Some? && UnderWay(events, e.tid).value.RxEnter?
    ensures CallOn(events, e.cpu, lay).value.at == UnderWay(events, e.tid).value.at
  {
    var s := RunOf(cpus, index, events, lay);
    OrderlyIsTimely(cpus, index, events, lay);
    RecordsAreHistory(cpus, index, events, lay);
    ReadsInPhase(cpus, index, events, lay);
    RunningIs(cpus, index, events, lay, e.tid);
    CallIs(s, events, e, i, index, lay);
    OwnStart(s, e, i, lay);
  }

  /**
   So in an orderly run HOST_WAIT is exactly the time between the periods in which the read's data was being copied, as
   the events have them, from its first copy on, and the transport's part the time in them.
   */
  lemma WaitIsBetweenCopies(cpus: nat, index: map<SlotNo, CidEntry>, events: seq<Event>, lay: Layout, i: SlotNo, h: Rec)
    requires AllOrderly(cpus, index, events, lay)
    requires i in RunOf(cpus, index, events, lay).recs
    requires var r := RunOf(cpus, index, events, lay).recs[i].rec;
             && h.ts[H_C2H_PROC] == r.proc && h.ts[H_C2H_DONE] == r.done && h.ts[H_RSP_PROC] == r.rspProc
             && h.busyNs == r.busyNs && r.skbs > 0
    ensures var first, ps := FirstAt(events, i, index, lay), PeriodsOf(events, i, index, lay);
            && Disjoint(first, ps)
            && StageModel.ReadPhase(h) ==
               if Busy(ps) == 0 || End(first, ps) > AnsweredAt(events, i, lay) then NoPhase
               else Phase.Phase(Busy(ps), Gaps(first, ps))
  {
    WaitIsGaps(cpus, index, events, lay, i, h);
    ReadsInPhase(cpus, index, events, lay);
    OrderlyIsTimely(cpus, index, events, lay);
    RecordsAreHistory(cpus, index, events, lay);
    var s := RunOf(cpus, index, events, lay);
    assert SlotTold(s, events, i, index, lay) && RecOk(s.recs[i].rec, PeriodsAt(s.past, i), s.past.now);
  }
}
