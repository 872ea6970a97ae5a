/**
 ntp_breakdown() as the code computes it: a breakdown filled in place with 64-bit signed arithmetic. Every value and
 every intermediate sum is shown to fit, for stamps below 2^59 (18 years of nanoseconds), and the result is the
 exact one of StageModel.
 */
module StageCode {
  import opened Records
  import opened StageModel

  type i64 = x: int | -0x8000_0000_0000_0000 <= x < 0x8000_0000_0000_0000

  const LIMIT := 0x0800_0000_0000_0000

  ghost predicate Bounded(r: Rec) {
    forall e :: 0 <= e < EVENTS ==> r.ts[e] < LIMIT
  }

  /** d(): unsigned subtraction that wraps, read as a signed number. */
  function Sub64(later: u64, earlier: u64): (d: i64)
    ensures later < LIMIT && earlier < LIMIT ==> d == D(later, earlier) && -LIMIT < d < LIMIT
  {
    var x := (later as int - earlier as int) % 0x1_0000_0000_0000_0000;
    if x < 0x8000_0000_0000_0000 then x else x - 0x1_0000_0000_0000_0000
  }

  // ---- the sums of stage() ----

  function Bound(c: Comp): int {
    if c == Net then 4 * LIMIT else 2 * LIMIT
  }

  ghost predicate Fits(m: Comps) {
    forall c: Comp :: m.At(c).Some? ==> -Bound(c) < m.At(c).value < Bound(c)
  }

  function SumVals(m: Comps, cs: seq<Comp>): int {
    if cs == [] then 0 else Val(m.At(cs[0])) + SumVals(m, cs[1..])
  }

  function SumBounds(cs: seq<Comp>): int {
    if cs == [] then 0 else Bound(cs[0]) + SumBounds(cs[1..])
  }

  lemma {:induction false} SumsSnoc(m: Comps, cs: seq<Comp>, c: Comp)
    ensures SumVals(m, cs + [c]) == SumVals(m, cs) + Val(m.At(c))
    ensures SumBounds(cs + [c]) == SumBounds(cs) + Bound(c)
  {
    if cs == [] {
      assert cs + [c] == [c];
    } else {
      assert (cs + [c])[1..] == cs[1..] + [c];
      SumsSnoc(m, cs[1..], c);
    }
  }

  lemma {:induction false} SumWithinBounds(m: Comps, cs: seq<Comp>)
    requires Fits(m)
    ensures -SumBounds(cs) <= SumVals(m, cs) <= SumBounds(cs)
  {
    if cs != [] { SumWithinBounds(m, cs[1..]); }
  }

  lemma SumPrefix(m: Comps, cs: seq<Comp>, i: nat)
    requires Fits(m) && i < |cs|
    ensures SumVals(m, cs[..i + 1]) == SumVals(m, cs[..i]) + Val(m.At(cs[i]))
    ensures SumBounds(cs[..i + 1]) == SumBounds(cs[..i]) + Bound(cs[i])
    ensures -SumBounds(cs[..i + 1]) <= SumVals(m, cs[..i + 1]) <= SumBounds(cs[..i + 1])
    ensures SumBounds(cs[..i + 1]) <= SumBounds(cs)
  {
    assert cs[..i + 1] == cs[..i] + [cs[i]];
    SumsSnoc(m, cs[..i], cs[i]);
    SumWithinBounds(m, cs[..i + 1]);
    PrefixBounds(cs, i + 1);
  }

  lemma {:induction false} PrefixBounds(cs: seq<Comp>, i: nat)
    requires i <= |cs|
    ensures 0 <= SumBounds(cs[..i]) <= SumBounds(cs)
  {
    if i > 0 {
      assert cs[..i][1..] == cs[1..][..i - 1];
      PrefixBounds(cs[1..], i - 1);
    } else if cs != [] {
      PrefixBounds(cs[1..], 0);
    }
  }

  class NtpBreakdown {
    var ioClass: IoClass
    var joined: bool
    var postEstimated: bool
    var comp: Comps
    var stage: Stages

    constructor ()
      ensures View() == Breakdown(Read, false, false, NOTHING, NO_STAGES)
    {
      ioClass, joined, postEstimated, comp, stage := Read, false, false, NOTHING, NO_STAGES;
    }

    ghost function View(): Breakdown
      reads this
    {
      Breakdown(ioClass, joined, postEstimated, comp, stage)
    }

    method CommonHost(h: Rec)
      requires Bounded(h) && comp == NOTHING
      modifies this`comp
      ensures comp == StageModel.CommonHost(h.ts)
    {
      var H := h.ts;
      var v: i64 := Sub64(H[H_CMD_SENT], H[H_QUEUE_RQ]);
      comp := comp.(trSub := Some(v));
      v := Sub64(H[H_BLK_DONE], H[H_RSP_PROC]);
      comp := comp.(blkCmpl := Some(v));
      if H[H_START] != 0 && H[H_START] <= H[H_QUEUE_RQ] {
        v := Sub64(H[H_QUEUE_RQ], H[H_START]);
        comp := comp.(blkSub := Some(v));
        v := Sub64(H[H_BLK_DONE], H[H_START]);
        comp := comp.(e2e := Some(v));
      } else {
        v := Sub64(H[H_BLK_DONE], H[H_QUEUE_RQ]);
        comp := comp.(e2e := Some(v));
      }
      if H[H_NVME_DONE] != 0 {
        v := Sub64(H[H_NVME_DONE], H[H_RSP_PROC]);
        comp := comp.(cmplIpi := Some(v));
      }
    }

    /** data_phase(): the busy time is capped by the span, so the wait is never negative. */
    static method DataPhase(first: u64, done: u64, next: u64, busyNs: u64) returns (p: Phase)
      requires first < LIMIT && done < LIMIT
      ensures p == StageModel.DataPhase(first, done, next, busyNs)
      ensures p.Phase? ==> 0 <= p.busy < LIMIT && 0 <= p.wait < LIMIT
    {
      if busyNs == 0 || done == 0 || done < first || done > next {
        return NoPhase;
      }
      var span: i64 := Sub64(done, first);
      var busy: i64 := if busyNs > span then span else busyNs;
      var wait: i64 := span - busy;
      p := Phase.Phase(busy, wait);
    }

    method ReadSide(h: Rec)
      requires Bounded(h) && comp == StageModel.CommonHost(h.ts)
      modifies this`comp
      ensures comp == ReadComps(h)
    {
      var H := h.ts;
      var v: i64 := Sub64(H[H_C2H_ARR], H[H_CMD_SENT]);
      comp := comp.(remote := Some(v));
      v := Sub64(H[H_C2H_PROC], H[H_C2H_ARR]);
      comp := comp.(hostRx := Some(v));
      var p := DataPhase(H[H_C2H_PROC], H[H_C2H_DONE], H[H_RSP_PROC], h.busyNs);
      if p.Phase? {
        comp := comp.(hostData := Some(p.busy), hostWait := Some(p.wait));
        v := Sub64(H[H_RSP_PROC], H[H_C2H_DONE]);
      } else {
        v := Sub64(H[H_RSP_PROC], H[H_C2H_PROC]);
      }
      comp := comp.(trCmpl := Some(v));
    }

    method OneTripSide(h: Rec)
      requires Bounded(h) && comp == StageModel.CommonHost(h.ts)
      modifies this`comp
      ensures comp == OneTripComps(h.ts)
    {
      var H := h.ts;
      var v: i64 := Sub64(H[H_RSP_ARR], H[H_CMD_SENT]);
      comp := comp.(remote := Some(v));
      v := Sub64(H[H_RSP_PROC], H[H_RSP_ARR]);
      comp := comp.(hostRx := Some(v), trCmpl := Some(0));
    }

    method R2tSide(h: Rec)
      requires Bounded(h) && comp == StageModel.CommonHost(h.ts)
      modifies this`comp
      ensures comp == R2tComps(h.ts)
    {
      var H := h.ts;
      var v: i64 := comp.trSub.value + Sub64(H[H_DATA_START], H[H_R2T_PROC]);
      comp := comp.(trSub := Some(v));
      v := Sub64(H[H_R2T_ARR], H[H_CMD_SENT]) + Sub64(H[H_RSP_ARR], H[H_DATA_START]);
      comp := comp.(remote := Some(v));
      v := Sub64(H[H_R2T_PROC], H[H_R2T_ARR]) + Sub64(H[H_RSP_PROC], H[H_RSP_ARR]);
      comp := comp.(hostRx := Some(v), trCmpl := Some(0));
    }

    method BackendDetails(T: Stamps)
      requires forall e :: 0 <= e < EVENTS ==> T[e] < LIMIT
      modifies this`comp
      ensures comp == Backend(T, old(comp))
    {
      if T[T_BE_ISSUE] == 0 || T[T_BE_DONE] == 0 || T[T_BE_DONE] > T[T_COMPLETE] {
        return;
      }
      var v: i64 := Sub64(T[T_BE_ISSUE], T[T_EXEC]);
      comp := comp.(tgtBeSub := Some(v));
      v := Sub64(T[T_BE_DONE], T[T_BE_ISSUE]);
      comp := comp.(tgtDev := Some(v));
      v := Sub64(T[T_COMPLETE], T[T_BE_DONE]);
      comp := comp.(tgtBeCmpl := Some(v));
    }

    /** The case of target_side() for a write whose data was asked for. */
    method TwoTrips(t: Rec) returns (residence: i64)
      requires Bounded(t) && comp.tgtData == None && comp.tgtWait == None
      modifies this`comp
      ensures residence == Residence(t, WriteR2T)
      ensures var was, to := old(comp), SplitRemote(old(comp), t, WriteR2T);
              comp == was.(tgtRx := to.tgtRx, tgtCmpl := to.tgtCmpl, tgtSub := to.tgtSub, tgtData := to.tgtData,
                           tgtWait := to.tgtWait)
    {
      var T := t.ts;
      var v: i64 := Sub64(T[T_CMD_PROC], T[T_CMD_ARR]) + Sub64(T[T_DATA_PROC], T[T_DATA_ARR]);
      comp := comp.(tgtRx := Some(v));
      var p := DataPhase(T[T_DATA_PROC], T[T_DATA_DONE], T[T_EXEC], t.busyNs);
      if p.Phase? {
        comp := comp.(tgtData := Some(p.busy), tgtWait := Some(p.wait));
        v := Sub64(T[T_EXEC], T[T_DATA_DONE]);
      } else {
        v := Sub64(T[T_EXEC], T[T_DATA_PROC]);
      }
      v := Sub64(T[T_R2T_SENT], T[T_CMD_PROC]) + v;
      comp := comp.(tgtSub := Some(v));
      v := Sub64(T[T_RSP_SENT], T[T_COMPLETE]);
      comp := comp.(tgtCmpl := Some(v));
      residence := Sub64(T[T_R2T_SENT], T[T_CMD_ARR]) + Sub64(T[T_RSP_SENT], T[T_DATA_ARR]);
    }

    /** target_side() */
    method TargetSide(t: Rec)
      requires Bounded(t) && comp.remote.Some? && -2 * LIMIT < comp.remote.value < 2 * LIMIT
      requires comp.tgtData == None && comp.tgtWait == None
      modifies this`comp
      ensures comp == WithTarget(old(comp), t, ioClass)
    {
      var T := t.ts;
      ghost var m := comp;
      var v: i64 := Sub64(T[T_COMPLETE], T[T_EXEC]);
      comp := comp.(tgtBe := Some(v));
      var residence: i64;
      match ioClass {
        case Read =>
          v := Sub64(T[T_CMD_PROC], T[T_CMD_ARR]);
          comp := comp.(tgtRx := Some(v));
          v := Sub64(T[T_EXEC], T[T_CMD_PROC]);
          comp := comp.(tgtSub := Some(v));
          v := Sub64(T[T_C2H_SENT], T[T_COMPLETE]);
          comp := comp.(tgtCmpl := Some(v));
          residence := Sub64(T[T_C2H_SENT], T[T_CMD_ARR]);
        case WriteInline =>
          v := Sub64(T[T_CMD_PROC], T[T_CMD_ARR]);
          comp := comp.(tgtRx := Some(v));
          v := Sub64(T[T_EXEC], T[T_CMD_PROC]);
          comp := comp.(tgtSub := Some(v));
          v := Sub64(T[T_RSP_SENT], T[T_COMPLETE]);
          comp := comp.(tgtCmpl := Some(v));
          residence := Sub64(T[T_RSP_SENT], T[T_CMD_ARR]);
        case WriteR2T =>
          residence := TwoTrips(t);
      }
      v := comp.remote.value - residence;
      comp := comp.(net := Some(v), remote := None);
      assert comp == SplitRemote(m, t, ioClass);
      BackendDetails(T);
    }

    /** rdma_target_side() */
    method RdmaTargetSide(t: Rec) returns (used: bool)
      requires Bounded(t) && comp.remote.Some? && -2 * LIMIT < comp.remote.value < 2 * LIMIT
      requires !postEstimated && comp.netData == None
      modifies this`comp, this`ioClass, this`postEstimated
      ensures used <==> RdmaUsable(t)
      ensures used ==> comp == WithRdmaTarget(old(comp), t) && postEstimated == PostEstimated(t)
      ensures used ==> ioClass == if RdmaRead in t.flags then WriteR2T else old(ioClass)
      ensures !used ==> comp == old(comp) && ioClass == old(ioClass) && !postEstimated
    {
      var T := t.ts;
      var fetch := RdmaRead in t.flags;
      ghost var m := comp;
      if !HaveAll(T, TARGET_NEEDS_RDMA) || (fetch && (T[T_R2T_SENT] == 0 || T[T_DATA_PROC] == 0)) {
        return false;
      }
      if T[T_SEND_DONE] != 0 && T[T_RSP_SENT] > T[T_SEND_DONE] {
        T := T[T_RSP_SENT := 0][T_C2H_SENT := 0];
      }
      if T[T_RSP_SENT] == 0 {
        if T[T_SEND_DONE] == 0 {
          return false;
        }
        T := T[T_RSP_SENT := T[T_COMPLETE]];
        if Write !in t.flags {
          T := T[T_C2H_SENT := T[T_COMPLETE]];
        }
        postEstimated := true;
      }
      assert T == RdmaStamps(t);
      SplitInPlace(T, fetch, Write in t.flags);
      BackendDetails(T);
      used := true;
    }

    method SplitInPlace(T: Stamps, fetch: bool, write: bool)
      requires forall e :: 0 <= e < EVENTS ==> T[e] < LIMIT
      requires comp.remote.Some? && -2 * LIMIT < comp.remote.value < 2 * LIMIT && comp.netData == None
      modifies this`comp, this`ioClass
      ensures comp == SplitRdma(old(comp), T, fetch, write)
      ensures ioClass == if fetch then WriteR2T else old(ioClass)
    {
      var fetchNs: i64 := 0;
      var v: i64 := Sub64(T[T_CMD_PROC], T[T_CMD_ARR]);
      comp := comp.(tgtRx := Some(v));
      if fetch {
        fetchNs := Sub64(T[T_DATA_PROC], T[T_R2T_SENT]);
        v := Sub64(T[T_R2T_SENT], T[T_CMD_PROC]) + Sub64(T[T_EXEC], T[T_DATA_PROC]);
        comp := comp.(tgtSub := Some(v));
        ioClass := WriteR2T;
        comp := comp.(netData := Some(fetchNs));
      } else {
        v := Sub64(T[T_EXEC], T[T_CMD_PROC]);
        comp := comp.(tgtSub := Some(v));
      }
      if !write && T[T_C2H_SENT] != 0 && T[T_SEND_DONE] != 0 {
        v := Sub64(T[T_SEND_DONE], T[T_C2H_SENT]);
        comp := comp.(netData := Some(v));
      }
      v := Sub64(T[T_COMPLETE], T[T_EXEC]);
      comp := comp.(tgtBe := Some(v));
      v := Sub64(T[T_RSP_SENT], T[T_COMPLETE]);
      comp := comp.(tgtCmpl := Some(v));
      var residence: i64 := Sub64(T[T_RSP_SENT], T[T_CMD_ARR]) - fetchNs;
      v := comp.remote.value - residence;
      comp := comp.(net := Some(v), remote := None);
    }

    /** stage(): every part must be valid; extras count where they are. */
    method StageOf(parts: seq<Comp>, extras: seq<Comp>) returns (s: Option<int>)
      requires Fits(comp) && SumBounds(parts) + SumBounds(extras) < 16 * LIMIT
      ensures (forall c :: c in parts ==> comp.At(c).Some?) ==>
                s == Some(SumVals(comp, parts) + SumVals(comp, extras))
      ensures (exists c :: c in parts && comp.At(c) == None) ==> s == None
    {
      var sum: i64 := 0;
      PrefixBounds(extras, 0);
      for i := 0 to |parts|
        invariant sum == SumVals(comp, parts[..i])
        invariant forall j :: 0 <= j < i ==> comp.At(parts[j]).Some?
      {
        if comp.At(parts[i]) == None {
          return None;
        }
        SumPrefix(comp, parts, i);
        sum := sum + comp.At(parts[i]).value;
      }
      assert parts[..|parts|] == parts;
      ghost var most := SumVals(comp, parts);
      SumWithinBounds(comp, parts);
      for i := 0 to |extras|
        invariant sum == most + SumVals(comp, extras[..i])
      {
        SumPrefix(comp, extras, i);
        if comp.At(extras[i]).Some? {
          sum := sum + comp.At(extras[i]).value;
        }
      }
      assert extras[..|extras|] == extras;
      s := Some(sum);
    }

    method PairStage(a: Comp, b: Comp, extra: Option<Comp>) returns (s: Option<int>)
      requires Fits(comp) && a != Net && b != Net && extra != Some(Net)
      ensures s == if comp.At(a).Some? && comp.At(b).Some?
                   then Some(comp.At(a).value + comp.At(b).value + if extra.Some? then Val(comp.At(extra.value)) else 0)
                   else None
    {
      Two(comp, a, b);
      if extra.Some? {
        One(comp, extra.value);
        s := StageOf([a, b], [extra.value]);
      } else {
        s := StageOf([a, b], []);
      }
      assert a in [a, b] && b in [a, b];
    }

    method NetworkStage() returns (s: Option<int>)
      requires Fits(comp)
      ensures s == StagesOf(comp).s3to5
    {
      Three(comp, Net, TgtRx, HostRx);
      Two(comp, HostWait, TgtWait);
      var parts := [Net, TgtRx, HostRx];
      s := StageOf(parts, [HostWait, TgtWait]);
      assert parts[0] in parts && parts[1] in parts && parts[2] in parts;
    }

    method StorageStage() returns (s: Option<int>)
      requires Fits(comp)
      ensures s == comp.tgtBe
    {
      One(comp, TgtBe);
      s := StageOf([TgtBe], []);
      assert TgtBe in [TgtBe];
    }

    /** stages() */
    method StageSums()
      requires Fits(comp)
      modifies this`stage
      ensures stage == StagesOf(comp)
    {
      var s1 := PairStage(BlkSub, BlkCmpl, None);
      var s2 := PairStage(TrSub, TrCmpl, Some(HostData));
      var s3 := NetworkStage();
      var s6 := PairStage(TgtSub, TgtCmpl, Some(TgtData));
      var s7 := StorageStage();
      stage := Stages(s1, s2, s3, s6, s7);
    }

    static lemma One(m: Comps, a: Comp)
      ensures SumVals(m, [a]) == Val(m.At(a)) && SumBounds([a]) == Bound(a)
    {
      assert [a][1..] == [];
    }

    static lemma Two(m: Comps, a: Comp, b: Comp)
      ensures SumVals(m, [a, b]) == Val(m.At(a)) + Val(m.At(b)) && SumBounds([a, b]) == Bound(a) + Bound(b)
    {
      One(m, b);
      assert [a, b][1..] == [b];
    }

    static lemma Three(m: Comps, a: Comp, b: Comp, c: Comp)
      ensures SumVals(m, [a, b, c]) == Val(m.At(a)) + Val(m.At(b)) + Val(m.At(c))
      ensures SumBounds([a, b, c]) == Bound(a) + Bound(b) + Bound(c)
    {
      Two(m, b, c);
      assert [a, b, c][1..] == [b, c];
    }

    /** host_side() or rdma_host_side() */
    method HostSide(h: Rec)
      requires Bounded(h) && comp == NOTHING && ioClass == IoClassOf(h)
      modifies this`comp
      ensures comp == HostPart(h)
    {
      CommonHost(h);
      if h.transport == Rdma || ioClass == WriteInline {
        OneTripSide(h);
      } else if ioClass == Read {
        ReadSide(h);
      } else {
        R2tSide(h);
      }
    }

    /** ntp_breakdown() */
    method Compute(h: Rec, t: Option<Rec>) returns (err: Err)
      requires Bounded(h) && (t.Some? ==> Bounded(t.value))
      modifies this
      ensures (err, View()) == BreakdownOf(h, t)
    {
      joined, postEstimated, comp, stage := false, false, NOTHING, NO_STAGES;
      ioClass := IoClassOf(h);
      if !HostComplete(h) {
        return IncompleteHost;
      }
      HostSide(h);
      HostFits(h);
      err := Ok;
      if t.Some? {
        UseTarget(h, t.value);
        err := if joined then Ok else IncompleteTarget;
      }
      StageSums();
    }

    /** Its part for the target record, if that is usable. */
    method UseTarget(h: Rec, t: Rec)
      requires Bounded(h) && Bounded(t) && comp == HostPart(h) && ioClass == IoClassOf(h)
      requires !joined && !postEstimated && stage == NO_STAGES
      modifies this`comp, this`ioClass, this`joined, this`postEstimated
      ensures joined == TargetUsable(h, t) && Fits(comp)
      ensures View() == (if joined then JoinedBreakdown(h, t) else HostOnly(h)).(stage := NO_STAGES)
    {
      HostFits(h);
      if h.transport == Rdma {
        var used := false;
        if (Write in t.flags) == (Write in h.flags) && t.transport == Rdma {
          used := RdmaTargetSide(t);
        }
        if used { RdmaFits(HostPart(h), t); }
        joined := used;
      } else if (R2T in t.flags) == (ioClass == WriteR2T) && HaveAll(t.ts, TargetNeeds(ioClass)) {
        TargetSide(t);
        TargetFits(HostPart(h), t, ioClass);
        joined := true;
      }
    }

    static lemma HostFits(h: Rec)
      requires Bounded(h)
      ensures Fits(HostPart(h)) && HostPart(h).remote.Some?
      ensures HostPart(h).tgtData == None && HostPart(h).tgtWait == None && HostPart(h).netData == None
    {
    }

    static lemma BackendFits(T: Stamps, m: Comps)
      requires Fits(m) && forall e :: 0 <= e < EVENTS ==> T[e] < LIMIT
      ensures Fits(Backend(T, m))
    {
      forall k: Comp ensures Backend(T, m).At(k).Some? ==> -Bound(k) < Backend(T, m).At(k).value < Bound(k) {
        assert m.At(k).Some? ==> -Bound(k) < m.At(k).value < Bound(k);
      }
    }

    static lemma TargetFits(m: Comps, t: Rec, c: IoClass)
      requires Bounded(t) && Fits(m)
      ensures Fits(WithTarget(m, t, c))
    {
      var r := SplitRemote(m, t, c);
      assert m.At(Remote) == m.remote;
      forall k: Comp ensures r.At(k).Some? ==> -Bound(k) < r.At(k).value < Bound(k) {
        assert m.At(k).Some? ==> -Bound(k) < m.At(k).value < Bound(k);
      }
      BackendFits(t.ts, r);
    }

    static lemma SplitFits(m: Comps, T: Stamps, fetch: bool, write: bool)
      requires Fits(m) && forall e :: 0 <= e < EVENTS ==> T[e] < LIMIT
      ensures Fits(SplitRdma(m, T, fetch, write))
    {
      var r := SplitRdma(m, T, fetch, write);
      assert m.At(Remote) == m.remote;
      forall k: Comp ensures r.At(k).Some? ==> -Bound(k) < r.At(k).value < Bound(k) {
        assert m.At(k).Some? ==> -Bound(k) < m.At(k).value < Bound(k);
      }
    }

    static lemma RdmaFits(m: Comps, t: Rec)
      requires Bounded(t) && Fits(m)
      ensures Fits(WithRdmaTarget(m, t))
    {
      var T := RdmaStamps(t);
      SplitFits(m, T, RdmaRead in t.flags, Write in t.flags);
      BackendFits(T, SplitRdma(m, T, RdmaRead in t.flags, Write in t.flags));
    }
  }
}
