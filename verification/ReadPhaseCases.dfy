/**
 Where reads' data phases on the host go wrong: a displaced read that resumes in the same call, and a thread that comes
 back to a CPU where an earlier call left its tag; each with the exact condition, and a run that shows it.
 */
module ReadPhaseCases {
  import opened Records
  import opened ReadPhase
  import HostObject

  /**
   A copy that resumes a read in a call whose context names none counts from the call's entry. At the call's end the
   reads are in phase exactly if that read had no data yet, or nothing of it lies behind the call's entry.
   */
  lemma ResumeIff(s: State, e: Event, at: nat, lay: Layout)
    requires Inv(s, lay) && Timely(s, e) && e.Copy? && Names(s, e, lay) && s.rx[e.cpu].dataRq == 0 && e.at <= at
    requires s.rx[e.cpu].enter > 0 && s.rx[e.cpu].enter <= s.past.now
    ensures var r := s.recs[lay.slot(Indexed(s, e, lay))].rec;
            InPhase(Step(Step(s, e, lay), RxExit(at, e.cpu, e.tid), lay)) <==>
            r.proc == 0 || After(r, s.rx[e.cpu].enter)
  {
    var rq, t := Indexed(s, e, lay), Step(s, e, lay);
    var r := s.recs[lay.slot(rq)].rec;
    InPhaseIffHarmless(s, e, lay);
    assert RecOk(r, PeriodsAt(s.past, lay.slot(rq)), s.past.now);
    assert t.rx[e.cpu] == s.rx[e.cpu].(dataRq := rq, busyFrom := if r.proc == 0 then e.at else s.rx[e.cpu].enter);
    assert Has(t, rq, lay) && t.recs[lay.slot(rq)].rec == if r.proc == 0 then r.(proc := e.at) else r;
    InPhaseIffHarmless(t, RxExit(at, e.cpu, e.tid), lay);
  }

  /** Two reads on a queue, on two CPUs. */
  function TwoReads(a: u64, b: u64, index: map<SlotNo, CidEntry>, lay: Layout): (s: State)
    ensures |s.rx| == |s.past.wrote| == 2
  {
    Step(Step(Start(2, index), Setup(1, a, 9, 1), lay), Setup(1, b, 9, 2), lay)
  }

  /** The two requests and their cids do not collide. */
  predicate Distinct(a: u64, b: u64, lay: Layout) {
    a != 0 && b != 0 && lay.slot(a) != lay.slot(b) && lay.cidSlot(9, 1) != lay.cidSlot(9, 2)
  }

  /** Both reads have their records, with these fields, and the index has them. */
  predicate Ready(s: State, a: u64, b: u64, ra: ReadRec, rb: ReadRec, lay: Layout) {
    && Has(s, a, lay) && s.recs[lay.slot(a)].rec == ra
    && Has(s, b, lay) && s.recs[lay.slot(b)].rec == rb
    && lay.cidSlot(9, 1) in s.index && s.index[lay.cidSlot(9, 1)] == HostObject.CidEntry(9, 1, a)
    && lay.cidSlot(9, 2) in s.index && s.index[lay.cidSlot(9, 2)] == HostObject.CidEntry(9, 2, b)
  }

  lemma TwoReadsIs(a: u64, b: u64, index: map<SlotNo, CidEntry>, lay: Layout)
    requires Distinct(a, b, lay)
    ensures var s := TwoReads(a, b, index, lay);
            && Inv(s, lay) && s.past.now == 1 && s.past.running == map[] && s.past.left == map[] && s.past.calls == 0
            && Ready(s, a, b, NEW_READ, NEW_READ, lay) && s.rx == [NO_RX, NO_RX]
  {
    var s1 := Step(Start(2, index), Setup(1, a, 9, 1), lay);
    OrderlyKeeps(Start(2, index), Setup(1, a, 9, 1), lay);
    OrderlyKeeps(s1, Setup(1, b, 9, 2), lay);
  }

  /** The thread's call on CPU 0 has come to name the read `rq`, from `start` on. */
  predicate InCallOn0(s: State, tid: u64, rq: u64, start: nat, copied: set<u64>) {
    && |s.rx| == |s.past.wrote| == 2 && s.rx == [Rx(tid, 9, 7, 2, rq, start), NO_RX] && s.past.left == map[] && s.past.calls == 1
    && s.past.running == map[tid := Call(1, 2, 0, copied)] && s.past.wrote[0] == 1
  }

  lemma EntersOn0(a: u64, b: u64, tid: u64, index: map<SlotNo, CidEntry>, lay: Layout)
    requires Distinct(a, b, lay) && tid != 0
    ensures var s := Step(TwoReads(a, b, index, lay), RxEnter(2, 0, tid, 9, 7), lay);
            && Inv(s, lay) && s.past.now == 2 && InCallOn0(s, tid, 0, 0, {}) && Ready(s, a, b, NEW_READ, NEW_READ, lay)
  {
    TwoReadsIs(a, b, index, lay);
    OrderlyKeeps(TwoReads(a, b, index, lay), RxEnter(2, 0, tid, 9, 7), lay);
  }

  lemma CopiesA(s: State, a: u64, b: u64, tid: u64, lay: Layout)
    requires Distinct(a, b, lay) && tid != 0 && s.past.now == 2 && InCallOn0(s, tid, 0, 0, {})
    requires Ready(s, a, b, NEW_READ, NEW_READ, lay)
    ensures var t := Step(s, Copy(3, 0, tid, 7, true, 1), lay);
            && t.past.now == 3 && InCallOn0(t, tid, a, 3, {a})
            && Ready(t, a, b, ReadRec(3, 0, 0, 0, 0), NEW_READ, lay)
    ensures Orderly(s, Copy(3, 0, tid, 7, true, 1), lay)
  {
    var e := Copy(3, 0, tid, 7, true, 1);
    assert Names(s, e, lay) && Indexed(s, e, lay) == a;
    var none: set<u64> := {};
    assert none + {a} == {a};
  }

  lemma CopiesB(s: State, a: u64, b: u64, tid: u64, lay: Layout)
    requires Distinct(a, b, lay) && tid != 0 && s.past.now == 3 && InCallOn0(s, tid, a, 3, {a})
    requires Ready(s, a, b, ReadRec(3, 0, 0, 0, 0), NEW_READ, lay)
    ensures var t := Step(s, Copy(4, 0, tid, 7, true, 2), lay);
            && t.past.now == 4 && InCallOn0(t, tid, b, 4, {a, b})
            && Ready(t, a, b, ReadRec(3, 4, 0, 1, 1), ReadRec(4, 0, 0, 0, 0), lay)
    ensures Orderly(s, Copy(4, 0, tid, 7, true, 2), lay)
  {
    var e := Copy(4, 0, tid, 7, true, 2);
    assert Names(s, e, lay) && Indexed(s, e, lay) == b;
    assert {a} + {b} == {a, b};
  }

  lemma CompletesB(s: State, a: u64, b: u64, tid: u64, lay: Layout)
    requires Distinct(a, b, lay) && tid != 0 && s.past.now == 4 && InCallOn0(s, tid, b, 4, {a, b})
    requires Ready(s, a, b, ReadRec(3, 4, 0, 1, 1), ReadRec(4, 0, 0, 0, 0), lay)
    ensures var t := Step(s, Complete(5, 0, tid, b), lay);
            && t.past.now == 5 && InCallOn0(t, tid, 0, 0, {a, b})
            && Ready(t, a, b, ReadRec(3, 4, 0, 1, 1), ReadRec(4, 5, 5, 1, 1), lay)
    ensures Orderly(s, Complete(5, 0, tid, b), lay)
  {
  }

  /**
   A read displaced by another and resumed within the call, after the other's completion cleared the context, counts
   from the call's entry and so twice: not in phase at the call's end, and the resumption is what was not orderly.
   */
  lemma DisplacedReadRestarts(a: u64, b: u64, tid: u64, index: map<SlotNo, CidEntry>, lay: Layout)
    requires Distinct(a, b, lay) && tid != 0
    ensures var s0 := Step(TwoReads(a, b, index, lay), RxEnter(2, 0, tid, 9, 7), lay);
            var s1 := Step(Step(s0, Copy(3, 0, tid, 7, true, 1), lay), Copy(4, 0, tid, 7, true, 2), lay);
            var s2 := Step(s1, Complete(5, 0, tid, b), lay);
            && Inv(s2, lay) && !Orderly(s2, Copy(6, 0, tid, 7, true, 1), lay)
            && !InPhase(Step(Step(s2, Copy(6, 0, tid, 7, true, 1), lay), RxExit(7, 0, tid), lay))
  {
    var s0 := Step(TwoReads(a, b, index, lay), RxEnter(2, 0, tid, 9, 7), lay);
    EntersOn0(a, b, tid, index, lay);
    CopiesA(s0, a, b, tid, lay);
    OrderlyKeeps(s0, Copy(3, 0, tid, 7, true, 1), lay);
    var c := Step(s0, Copy(3, 0, tid, 7, true, 1), lay);
    CopiesB(c, a, b, tid, lay);
    OrderlyKeeps(c, Copy(4, 0, tid, 7, true, 2), lay);
    var s1 := Step(c, Copy(4, 0, tid, 7, true, 2), lay);
    CompletesB(s1, a, b, tid, lay);
    OrderlyKeeps(s1, Complete(5, 0, tid, b), lay);
    Resumes(Step(s1, Complete(5, 0, tid, b), lay), a, b, tid, lay);
  }

  lemma Resumes(s: State, a: u64, b: u64, tid: u64, lay: Layout)
    requires Distinct(a, b, lay) && tid != 0 && Inv(s, lay) && s.past.now == 5 && InCallOn0(s, tid, 0, 0, {a, b})
    requires Ready(s, a, b, ReadRec(3, 4, 0, 1, 1), ReadRec(4, 5, 5, 1, 1), lay)
    ensures !Orderly(s, Copy(6, 0, tid, 7, true, 1), lay)
    ensures !InPhase(Step(Step(s, Copy(6, 0, tid, 7, true, 1), lay), RxExit(7, 0, tid), lay))
  {
    var e := Copy(6, 0, tid, 7, true, 1);
    assert Names(s, e, lay) && Indexed(s, e, lay) == a;
    ResumeIff(s, e, 7, lay);
  }

  /** A call's end under a tag that it finds, whoever wrote it: in phase exactly if the period does not start too early. */
  lemma StaleContextIff(s: State, cpu: nat, tid: u64, at: nat, lay: Layout)
    requires Inv(s, lay) && Timely(s, RxExit(at, cpu, tid)) && s.rx[cpu].tid == tid && Named(s, cpu, lay)
    requires 0 < s.rx[cpu].busyFrom <= at
    ensures InPhase(Step(s, RxExit(at, cpu, tid), lay)) <==>
            After(s.recs[lay.slot(s.rx[cpu].dataRq)].rec, s.rx[cpu].busyFrom)
    ensures OwnContext(s, cpu, tid) ==> InPhase(Step(s, RxExit(at, cpu, tid), lay))
  {
    InPhaseIffHarmless(s, RxExit(at, cpu, tid), lay);
    if OwnContext(s, cpu, tid) { OrderlyIsHarmless(s, RxExit(at, cpu, tid), lay); }
  }

  /** CPU 0 has kept the tag and the name of the read `a` from a call that ended elsewhere. */
  predicate LeftOn0(s: State, a: u64, tid: u64, r: ReadRec, lay: Layout) {
    && |s.rx| == |s.past.wrote| == 2 && s.rx[0] == Rx(tid, 9, 7, 2, a, 3) && s.past.wrote[0] == 1 && s.past.calls > 0
    && a != 0 && Has(s, a, lay) && s.recs[lay.slot(a)].rec == r
    && lay.cidSlot(9, 1) in s.index && s.index[lay.cidSlot(9, 1)] == HostObject.CidEntry(9, 1, a)
  }

  lemma EndsElsewhere(s: State, a: u64, b: u64, tid: u64, lay: Layout)
    requires Distinct(a, b, lay) && tid != 0 && s.past.now == 3 && InCallOn0(s, tid, a, 3, {a})
    requires Ready(s, a, b, ReadRec(3, 0, 0, 0, 0), NEW_READ, lay)
    ensures var t := Step(s, RxExit(4, 1, tid), lay);
            && t.past.now == 4 && LeftOn0(t, a, tid, ReadRec(3, 0, 0, 0, 0), lay)
            && t.past.running == map[] && t.past.left == map[a := 4]
    ensures Orderly(s, RxExit(4, 1, tid), lay)
  {
  }

  lemma EntersOn1(s: State, a: u64, tid: u64, at: nat, r: ReadRec, lay: Layout)
    requires tid != 0 && Inv(s, lay) && 0 < s.past.now <= at && LeftOn0(s, a, tid, r, lay) && s.past.running == map[]
    ensures var t := Step(s, RxEnter(at, 1, tid, 9, 7), lay);
            && Inv(t, lay) && t.past.now == at && LeftOn0(t, a, tid, r, lay) && t.past.left == s.past.left
            && t.rx[1] == Rx(tid, 9, 7, at, 0, 0) && t.past.wrote[1] == s.past.calls + 1
            && t.past.running == map[tid := Call(s.past.calls + 1, at, 1, {})]
  {
    OrderlyKeeps(s, RxEnter(at, 1, tid, 9, 7), lay);
  }

  lemma CopiesOn1(s: State, a: u64, tid: u64, n: nat, lay: Layout)
    requires tid != 0 && s.past.now == 10 && LeftOn0(s, a, tid, ReadRec(3, 0, 0, 0, 0), lay)
    requires s.rx[1] == Rx(tid, 9, 7, 10, 0, 0) && s.past.wrote[1] == n && s.past.left == map[a := 4]
    requires s.past.running == map[tid := Call(n, 10, 1, {})]
    ensures var t := Step(s, Copy(11, 1, tid, 7, true, 1), lay);
            && t.past.now == 11 && LeftOn0(t, a, tid, ReadRec(3, 0, 0, 0, 0), lay)
            && t.rx[1] == Rx(tid, 9, 7, 10, a, 10) && t.past.wrote[1] == n
            && tid in t.past.running && t.past.running.Keys == {tid} && t.past.running[tid].no == n
    ensures Orderly(s, Copy(11, 1, tid, 7, true, 1), lay)
  {
    var e := Copy(11, 1, tid, 7, true, 1);
    assert Names(s, e, lay) && Indexed(s, e, lay) == a;
  }

  lemma ExitsOn1(s: State, a: u64, tid: u64, n: nat, lay: Layout)
    requires tid != 0 && s.past.now == 11 && LeftOn0(s, a, tid, ReadRec(3, 0, 0, 0, 0), lay)
    requires s.rx[1] == Rx(tid, 9, 7, 10, a, 10) && s.past.wrote[1] == n
    requires tid in s.past.running && s.past.running.Keys == {tid} && s.past.running[tid].no == n
    ensures var t := Step(s, RxExit(12, 1, tid), lay);
            && t.past.now == 12 && LeftOn0(t, a, tid, ReadRec(3, 12, 0, 2, 1), lay)
            && t.past.running == map[]
    ensures Orderly(s, RxExit(12, 1, tid), lay)
  {
  }

  /**
   The thread is moved to CPU 1 in its first call, so that CPU 0 keeps its tag and goes on naming the read; copies the
   read's data in a second call; and is moved back in a third, whose end then ends the first one's period.
   */
  lemma MigratedBackOverlaps(a: u64, b: u64, tid: u64, index: map<SlotNo, CidEntry>, lay: Layout)
    requires Distinct(a, b, lay) && tid != 0
    ensures var s0 := Step(TwoReads(a, b, index, lay), RxEnter(2, 0, tid, 9, 7), lay);
            var s1 := Step(Step(s0, Copy(3, 0, tid, 7, true, 1), lay), RxExit(4, 1, tid), lay);
            var s2 := Step(Step(s1, RxEnter(10, 1, tid, 9, 7), lay), Copy(11, 1, tid, 7, true, 1), lay);
            var s3 := Step(Step(s2, RxExit(12, 1, tid), lay), RxEnter(20, 1, tid, 9, 7), lay);
            && Inv(s3, lay) && !OwnContext(s3, 0, tid) && !InPhase(Step(s3, RxExit(25, 0, tid), lay))
  {
    var s0 := Step(TwoReads(a, b, index, lay), RxEnter(2, 0, tid, 9, 7), lay);
    EntersOn0(a, b, tid, index, lay);
    CopiesA(s0, a, b, tid, lay);
    OrderlyKeeps(s0, Copy(3, 0, tid, 7, true, 1), lay);
    var c := Step(s0, Copy(3, 0, tid, 7, true, 1), lay);
    EndsElsewhere(c, a, b, tid, lay);
    OrderlyKeeps(c, RxExit(4, 1, tid), lay);
    var s1 := Step(c, RxExit(4, 1, tid), lay);
    EntersOn1(s1, a, tid, 10, ReadRec(3, 0, 0, 0, 0), lay);
    var d := Step(s1, RxEnter(10, 1, tid, 9, 7), lay);
    CopiesOn1(d, a, tid, s1.past.calls + 1, lay);
    OrderlyKeeps(d, Copy(11, 1, tid, 7, true, 1), lay);
    var s2 := Step(d, Copy(11, 1, tid, 7, true, 1), lay);
    ExitsOn1(s2, a, tid, s1.past.calls + 1, lay);
    OrderlyKeeps(s2, RxExit(12, 1, tid), lay);
    var f := Step(s2, RxExit(12, 1, tid), lay);
    EntersOn1(f, a, tid, 20, ReadRec(3, 12, 0, 2, 1), lay);
    StaleContextIff(Step(f, RxEnter(20, 1, tid, 9, 7), lay), 0, tid, 25, lay);
  }
}
