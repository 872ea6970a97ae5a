/** A run in which a write's data phase on the target goes wrong: the thread comes back to a CPU that kept its tag. */
module WritePhaseCases {
  import opened Records
  import opened WritePhase

  /** A write whose header was parsed at 3, on two CPUs; and the thread's copy begun on CPU 0 after it. */
  function Parsed(req: u64, slotOf: u64 -> SlotNo): (s: State)
    ensures |s.rx| == |s.past.wrote| == 2
  {
    Step(Step(Step(Start(2), Opens(1, req), slotOf), R2tSent(2, req), slotOf), H2c(3, req), slotOf)
  }

  function Begun(req: u64, tid: u64, offset: int, slotOf: u64 -> SlotNo): (s: State)
    ensures |s.rx| == |s.past.wrote| == 2
  {
    Step(Parsed(req, slotOf), CopyStart(4, 0, tid, offset), slotOf)
  }

  lemma ParsedIs(req: u64, slotOf: u64 -> SlotNo)
    requires req != 0
    ensures var s := Parsed(req, slotOf);
            && Inv(s, slotOf) && s.rx == [Rx(0, 0, 0), Rx(0, 0, 0)] && s.past.now == 3 && Has(s, req, slotOf)
            && s.recs[slotOf(req)].rec == WriteRec(2, 3, 0, 0, true, 0, 0)
  {
    var s1 := Step(Start(2), Opens(1, req), slotOf);
    OrderlyKeeps(Start(2), Opens(1, req), slotOf);
    var s2 := Step(s1, R2tSent(2, req), slotOf);
    OrderlyKeeps(s1, R2tSent(2, req), slotOf);
    OrderlyKeeps(s2, H2c(3, req), slotOf);
  }

  lemma BegunIs(req: u64, tid: u64, offset: int, slotOf: u64 -> SlotNo)
    requires req != 0 && tid != 0
    ensures var s := Begun(req, tid, offset, slotOf);
            && Inv(s, slotOf) && s.rx == [Rx(tid, 4, offset), Rx(0, 0, 0)]
            && s.past.now == 4 && Has(s, req, slotOf)
            && s.recs[slotOf(req)].rec == WriteRec(2, 3, 0, 0, true, 0, 0)
  {
    ParsedIs(req, slotOf);
    OrderlyKeeps(Parsed(req, slotOf), CopyStart(4, 0, tid, offset), slotOf);
  }

  /**
   The thread moves to CPU 1 during that copy, so that its end goes unseen; copies there; and is moved back to CPU 0
   during the next copy. The tag on CPU 0 is still the thread's, and the old start is taken for this copy's.
   */
  lemma MigratedBackOverlaps(req: u64, tid: u64, slotOf: u64 -> SlotNo)
    requires req != 0 && tid != 0
    ensures var s0 := Begun(req, tid, 0, slotOf);
            var s1 := Step(s0, CopyEnd(6, 1, tid, true, req), slotOf);
            var s2 := Step(Step(s1, CopyStart(10, 1, tid, 0), slotOf), CopyEnd(12, 1, tid, true, req), slotOf);
            var s3 := Step(s2, CopyStart(20, 1, tid, 0), slotOf);
            && Inv(s3, slotOf) && |s3.rx| == 2 && !OwnContext(s3, 0, tid)
            && !InPhase(Step(s3, CopyEnd(25, 0, tid, true, req), slotOf))
  {
    BegunIs(req, tid, 0, slotOf);
    var s0 := Begun(req, tid, 0, slotOf);
    var s1 := Step(s0, CopyEnd(6, 1, tid, true, req), slotOf);
    OrderlyKeeps(s0, CopyEnd(6, 1, tid, true, req), slotOf);
    assert s1.rx == s0.rx && s1.recs == s0.recs && s1.past.ended[req] == 6;
    CopiesOnCpu1(s1, req, tid, slotOf);
    var s2 := Step(Step(s1, CopyStart(10, 1, tid, 0), slotOf), CopyEnd(12, 1, tid, true, req), slotOf);
    MovesBack(s2, req, tid, slotOf);
  }

  lemma CopiesOnCpu1(s: State, req: u64, tid: u64, slotOf: u64 -> SlotNo)
    requires Inv(s, slotOf) && req != 0 && tid != 0 && s.rx == [Rx(tid, 4, 0), Rx(0, 0, 0)] && s.past.now == 6
    requires Has(s, req, slotOf) && s.recs[slotOf(req)].rec == WriteRec(2, 3, 0, 0, true, 0, 0)
    requires req in s.past.ended && s.past.ended[req] == 6
    ensures var t := Step(Step(s, CopyStart(10, 1, tid, 0), slotOf), CopyEnd(12, 1, tid, true, req), slotOf);
            && Inv(t, slotOf) && t.rx == [Rx(tid, 4, 0), Rx(tid, 0, 0)] && t.past.now == 12
            && Has(t, req, slotOf) && t.recs[slotOf(req)].rec == WriteRec(2, 3, 12, 0, true, 2, 1)
  {
    var c := Step(s, CopyStart(10, 1, tid, 0), slotOf);
    OrderlyKeeps(s, CopyStart(10, 1, tid, 0), slotOf);
    assert c.rx == [Rx(tid, 4, 0), Rx(tid, 10, 0)] && c.recs == s.recs;
    assert ContextOk(c, 1);
    OrderlyKeeps(c, CopyEnd(12, 1, tid, true, req), slotOf);
  }

  lemma MovesBack(s: State, req: u64, tid: u64, slotOf: u64 -> SlotNo)
    requires Inv(s, slotOf) && req != 0 && tid != 0 && s.rx == [Rx(tid, 4, 0), Rx(tid, 0, 0)] && s.past.now == 12
    requires Has(s, req, slotOf) && s.recs[slotOf(req)].rec == WriteRec(2, 3, 12, 0, true, 2, 1)
    ensures var t := Step(s, CopyStart(20, 1, tid, 0), slotOf);
            && Inv(t, slotOf) && |t.rx| == 2 == |t.past.wrote| && !OwnContext(t, 0, tid)
            && !InPhase(Step(t, CopyEnd(25, 0, tid, true, req), slotOf))
  {
    var t := Step(s, CopyStart(20, 1, tid, 0), slotOf);
    OrderlyKeeps(s, CopyStart(20, 1, tid, 0), slotOf);
    assert t.rx[0] == Rx(tid, 4, 0) && t.recs == s.recs;
    InPhaseIffHarmless(t, CopyEnd(25, 0, tid, true, req), slotOf);
  }
}
