/**
 The stage model (src/model.c) over exact differences of stamps: which components a record pair gives, and
 that they add up. The code's own arithmetic on 64-bit words is in StageCode.
 */
module StageModel {
  import opened Records

  datatype IoClass = Read | WriteInline | WriteR2T

  /** enum ntp_comp, in path order; the last five are details that split one of the others. */
  datatype Comp =
    | BlkSub | TrSub | Net | TgtRx | TgtSub | TgtWait | TgtData | TgtBe | TgtCmpl | HostRx | HostWait | HostData
    | TrCmpl | BlkCmpl | Remote | E2E | TgtBeSub | TgtDev | TgtBeCmpl | CmplIpi | NetData

  datatype Stage = S1 | S2 | S3to5 | S6 | S7to9

  datatype Err = Ok | IncompleteHost | IncompleteTarget

  /** The components of a breakdown; one without a value (its valid bit clear) is None. */
  datatype Comps = Comps(
    blkSub: Option<int>, trSub: Option<int>, net: Option<int>, tgtRx: Option<int>, tgtSub: Option<int>, tgtWait:
    Option<int>, tgtData: Option<int>, tgtBe: Option<int>, tgtCmpl: Option<int>, hostRx: Option<int>, hostWait:
    Option<int>, hostData: Option<int>, trCmpl: Option<int>, blkCmpl: Option<int>, remote: Option<int>, e2e:
    Option<int>, tgtBeSub: Option<int>, tgtDev: Option<int>, tgtBeCmpl: Option<int>, cmplIpi: Option<int>, netData:
    Option<int>)
  {
    function At(c: Comp): Option<int> {
      match c
      case BlkSub => blkSub
      case TrSub => trSub
      case Net => net
      case TgtRx => tgtRx
      case TgtSub => tgtSub
      case TgtWait => tgtWait
      case TgtData => tgtData
      case TgtBe => tgtBe
      case TgtCmpl => tgtCmpl
      case HostRx => hostRx
      case HostWait => hostWait
      case HostData => hostData
      case TrCmpl => trCmpl
      case BlkCmpl => blkCmpl
      case Remote => remote
      case E2E => e2e
      case TgtBeSub => tgtBeSub
      case TgtDev => tgtDev
      case TgtBeCmpl => tgtBeCmpl
      case CmplIpi => cmplIpi
      case NetData => netData
    }
  }

  const NOTHING := Comps(None, None, None, None, None, None, None, None, None, None, None, None, None, None, None, None, None, None, None, None, None)

  /** The five stages, None where a part is missing. */
  datatype Stages = Stages(s1: Option<int>, s2: Option<int>, s3to5: Option<int>, s6: Option<int>, s7to9: Option<int>) {
    function At(s: Stage): Option<int> {
      match s
      case S1 => s1
      case S2 => s2
      case S3to5 => s3to5
      case S6 => s6
      case S7to9 => s7to9
    }
  }

  datatype Breakdown = Breakdown(ioClass: IoClass, joined: bool, postEstimated: bool, comp: Comps, stage: Stages)

  function IoClassOf(h: Rec): IoClass {
    if Write !in h.flags then Read else if R2T in h.flags then WriteR2T else WriteInline
  }

  predicate HaveAll(ts: Stamps, events: seq<nat>)
    requires forall e :: e in events ==> e < EVENTS
  {
    forall e :: e in events ==> ts[e] != 0
  }

  function HostNeeds(c: IoClass): (events: seq<nat>)
    ensures forall e :: e in events ==> e < EVENTS
  {
    match c
    case Read => [H_QUEUE_RQ, H_CMD_SENT, H_C2H_ARR, H_C2H_PROC, H_RSP_PROC, H_BLK_DONE]
    case WriteInline => [H_QUEUE_RQ, H_CMD_SENT, H_RSP_ARR, H_RSP_PROC, H_BLK_DONE]
    case WriteR2T => [H_QUEUE_RQ, H_CMD_SENT, H_R2T_ARR, H_R2T_PROC, H_DATA_START, H_RSP_ARR, H_RSP_PROC, H_BLK_DONE]
  }

  function TargetNeeds(c: IoClass): (events: seq<nat>)
    ensures forall e :: e in events ==> e < EVENTS
  {
    match c
    case Read => [T_CMD_ARR, T_CMD_PROC, T_EXEC, T_COMPLETE, T_C2H_SENT]
    case WriteInline => [T_CMD_ARR, T_CMD_PROC, T_EXEC, T_COMPLETE, T_RSP_SENT]
    case WriteR2T => [T_CMD_ARR, T_CMD_PROC, T_R2T_SENT, T_DATA_ARR, T_DATA_PROC, T_EXEC, T_COMPLETE, T_RSP_SENT]
  }

  const HOST_NEEDS_RDMA: seq<nat> := [H_QUEUE_RQ, H_CMD_SENT, H_RSP_ARR, H_RSP_PROC, H_BLK_DONE]
  const TARGET_NEEDS_RDMA: seq<nat> := [T_CMD_ARR, T_CMD_PROC, T_EXEC, T_COMPLETE]

  /** The request start is usable: seen, and not after the transport was entered. */
  predicate Started(H: Stamps) {
    0 < H[H_START] <= H[H_QUEUE_RQ]
  }

  /** The time from one stamp to a later one. */
  function D(later: u64, earlier: u64): int {
    later as int - earlier as int
  }

  function CommonHost(H: Stamps): Comps {
    NOTHING.(
      trSub := Some(D(H[H_CMD_SENT], H[H_QUEUE_RQ])),
      blkCmpl := Some(D(H[H_BLK_DONE], H[H_RSP_PROC])),
      e2e := Some(D(H[H_BLK_DONE], if Started(H) then H[H_START] else H[H_QUEUE_RQ])),
      blkSub := if Started(H) then Some(D(H[H_QUEUE_RQ], H[H_START])) else None,
      cmplIpi := if H[H_NVME_DONE] != 0 then Some(D(H[H_NVME_DONE], H[H_RSP_PROC])) else None)
  }

  /** A TCP data phase from `first` to `done`, before `next`: the transport's own time and the wait for data. */
  datatype Phase = NoPhase | Phase(busy: int, wait: int)

  function DataPhase(first: u64, done: u64, next: u64, busyNs: u64): (p: Phase)
    ensures p.NoPhase? <==> busyNs == 0 || done == 0 || done < first || done > next
    ensures p.Phase? ==> 0 <= p.busy && 0 <= p.wait && p.busy + p.wait == done - first
    ensures p.Phase? && busyNs <= done - first ==> p.busy == busyNs
  {
    if busyNs == 0 || done == 0 || done < first || done > next then NoPhase
    else
      var span := done - first;
      var busy := if busyNs > span then span else busyNs;
      Phase(busy, span - busy)
  }

  function ReadPhase(h: Rec): Phase {
    DataPhase(h.ts[H_C2H_PROC], h.ts[H_C2H_DONE], h.ts[H_RSP_PROC], h.busyNs)
  }

  function WritePhase(t: Rec): Phase {
    DataPhase(t.ts[T_DATA_PROC], t.ts[T_DATA_DONE], t.ts[T_EXEC], t.busyNs)
  }

  function BusyOf(p: Phase): Option<int> {
    if p.Phase? then Some(p.busy) else None
  }

  function WaitOf(p: Phase): Option<int> {
    if p.Phase? then Some(p.wait) else None
  }

  /** host_side(), class by class */
  function ReadComps(h: Rec): Comps {
    var H := h.ts;
    var p := ReadPhase(h);
    CommonHost(H).(
      remote := Some(D(H[H_C2H_ARR], H[H_CMD_SENT])),
      hostRx := Some(D(H[H_C2H_PROC], H[H_C2H_ARR])),
      hostData := BusyOf(p),
      hostWait := WaitOf(p),
      trCmpl := Some(D(H[H_RSP_PROC], if p.Phase? then H[H_C2H_DONE] else H[H_C2H_PROC])))
  }

  /** One round trip: a write with its data in the capsule, or any RDMA command (rdma_host_side()). */
  function OneTripComps(H: Stamps): Comps {
    CommonHost(H).(
      remote := Some(D(H[H_RSP_ARR], H[H_CMD_SENT])),
      hostRx := Some(D(H[H_RSP_PROC], H[H_RSP_ARR])),
      trCmpl := Some(0))
  }

  function R2tComps(H: Stamps): Comps {
    CommonHost(H).(
      trSub := Some(D(H[H_CMD_SENT], H[H_QUEUE_RQ]) + D(H[H_DATA_START], H[H_R2T_PROC])),
      remote := Some(D(H[H_R2T_ARR], H[H_CMD_SENT]) + D(H[H_RSP_ARR], H[H_DATA_START])),
      hostRx := Some(D(H[H_R2T_PROC], H[H_R2T_ARR]) + D(H[H_RSP_PROC], H[H_RSP_ARR])),
      trCmpl := Some(0))
  }

  /** backend_details() */
  function Backend(T: Stamps, m: Comps): Comps {
    if T[T_BE_ISSUE] == 0 || T[T_BE_DONE] == 0 || T[T_BE_DONE] > T[T_COMPLETE] then m
    else m.(tgtBeSub := Some(D(T[T_BE_ISSUE], T[T_EXEC])),
            tgtDev := Some(D(T[T_BE_DONE], T[T_BE_ISSUE])),
            tgtBeCmpl := Some(D(T[T_COMPLETE], T[T_BE_DONE])))
  }

  /** The time a command spent at the target, from the target's stamps alone. */
  function Residence(t: Rec, c: IoClass): int {
    var T := t.ts;
    match c
    case Read => D(T[T_C2H_SENT], T[T_CMD_ARR])
    case WriteInline => D(T[T_RSP_SENT], T[T_CMD_ARR])
    case WriteR2T => D(T[T_R2T_SENT], T[T_CMD_ARR]) + D(T[T_RSP_SENT], T[T_DATA_ARR])
  }

  /** target_side(): the target record splits the remote time in `m`. */
  function WithTarget(m: Comps, t: Rec, c: IoClass): Comps {
    Backend(t.ts, SplitRemote(m, t, c))
  }

  function SplitRemote(m: Comps, t: Rec, c: IoClass): Comps {
    var T := t.ts;
    var p := WritePhase(t);
    m.(
      remote := None,
      net := Some(Val(m.remote) - Residence(t, c)),
      tgtBe := Some(D(T[T_COMPLETE], T[T_EXEC])),
      tgtRx := Some(D(T[T_CMD_PROC], T[T_CMD_ARR]) + if c == WriteR2T then D(T[T_DATA_PROC], T[T_DATA_ARR]) else 0),
      tgtCmpl := Some(D(if c == Read then T[T_C2H_SENT] else T[T_RSP_SENT], T[T_COMPLETE])),
      tgtSub := Some(if c != WriteR2T then D(T[T_EXEC], T[T_CMD_PROC])
                     else D(T[T_R2T_SENT], T[T_CMD_PROC]) +
                          D(T[T_EXEC], if p.Phase? then T[T_DATA_DONE] else T[T_DATA_PROC])),
      tgtData := if c == WriteR2T then BusyOf(p) else m.tgtData,
      tgtWait := if c == WriteR2T then WaitOf(p) else m.tgtWait)
  }

  // ---- RDMA ----

  /** RSP_SENT and C2H_SENT, unless they are later than the send completion, which no own posting is. */
  function OwnPosting(T: Stamps): Stamps {
    if T[T_SEND_DONE] != 0 && T[T_RSP_SENT] > T[T_SEND_DONE] then T[T_RSP_SENT := 0][T_C2H_SENT := 0] else T
  }

  predicate RdmaUsable(t: Rec) {
    && HaveAll(t.ts, TARGET_NEEDS_RDMA)
    && (RdmaRead in t.flags ==> t.ts[T_R2T_SENT] != 0 && t.ts[T_DATA_PROC] != 0)
    && (OwnPosting(t.ts)[T_RSP_SENT] != 0 || t.ts[T_SEND_DONE] != 0)
  }

  predicate PostEstimated(t: Rec) {
    OwnPosting(t.ts)[T_RSP_SENT] == 0
  }

  /** The stamps the breakdown uses: an unseen posting is taken to be nvmet_req_complete's time. */
  function RdmaStamps(t: Rec): Stamps {
    var T := OwnPosting(t.ts);
    if !PostEstimated(t) then T
    else
      var T2 := T[T_RSP_SENT := T[T_COMPLETE]];
      if Write in t.flags then T2 else T2[T_C2H_SENT := T[T_COMPLETE]]
  }

  /** The RDMA READ of a write's data, and the time at the target without it. */
  function Fetch(T: Stamps, fetch: bool): int {
    if fetch then D(T[T_DATA_PROC], T[T_R2T_SENT]) else 0
  }

  function RdmaResidence(T: Stamps, fetch: bool): int {
    D(T[T_RSP_SENT], T[T_CMD_ARR]) - Fetch(T, fetch)
  }

  /** rdma_target_side(), for a usable target record. */
  function WithRdmaTarget(m: Comps, t: Rec): Comps {
    var T := RdmaStamps(t);
    Backend(T, SplitRdma(m, T, RdmaRead in t.flags, Write in t.flags))
  }

  function SplitRdma(m: Comps, T: Stamps, fetch: bool, write: bool): Comps {
    m.(remote := None,
       net := Some(Val(m.remote) - RdmaResidence(T, fetch)),
       tgtRx := Some(D(T[T_CMD_PROC], T[T_CMD_ARR])),
       tgtBe := Some(D(T[T_COMPLETE], T[T_EXEC])),
       tgtCmpl := Some(D(T[T_RSP_SENT], T[T_COMPLETE])),
       tgtSub := Some(if fetch then D(T[T_R2T_SENT], T[T_CMD_PROC]) + D(T[T_EXEC], T[T_DATA_PROC])
                      else D(T[T_EXEC], T[T_CMD_PROC])),
       netData := if !write && T[T_C2H_SENT] != 0 && T[T_SEND_DONE] != 0 then Some(D(T[T_SEND_DONE], T[T_C2H_SENT]))
                  else if fetch then Some(Fetch(T, fetch)) else m.netData)
  }

  // ---- stages ----

  function Val(o: Option<int>): int {
    if o.Some? then o.value else 0
  }

  /** A stage needs all its parts; its extras count where they are present. */
  function StagesOf(m: Comps): Stages {
    Stages(
      if m.blkSub.Some? && m.blkCmpl.Some? then Some(m.blkSub.value + m.blkCmpl.value) else None,
      if m.trSub.Some? && m.trCmpl.Some? then Some(m.trSub.value + m.trCmpl.value + Val(m.hostData)) else None,
      if m.net.Some? && m.tgtRx.Some? && m.hostRx.Some?
        then Some(m.net.value + m.tgtRx.value + m.hostRx.value + Val(m.hostWait) + Val(m.tgtWait)) else None,
      if m.tgtSub.Some? && m.tgtCmpl.Some? then Some(m.tgtSub.value + m.tgtCmpl.value + Val(m.tgtData)) else None,
      m.tgtBe)
  }

  // ---- the whole ----

  predicate HostComplete(h: Rec) {
    if h.transport == Rdma then HaveAll(h.ts, HOST_NEEDS_RDMA) else HaveAll(h.ts, HostNeeds(IoClassOf(h)))
  }

  predicate TargetUsable(h: Rec, t: Rec) {
    if h.transport == Rdma then
      ((Write in t.flags) == (Write in h.flags)) && t.transport == Rdma && RdmaUsable(t)
    else
      ((R2T in t.flags) == (IoClassOf(h) == WriteR2T)) && HaveAll(t.ts, TargetNeeds(IoClassOf(h)))
  }

  function HostPart(h: Rec): Comps {
    if h.transport == Rdma then OneTripComps(h.ts)
    else
      match IoClassOf(h)
      case Read => ReadComps(h)
      case WriteInline => OneTripComps(h.ts)
      case WriteR2T => R2tComps(h.ts)
  }

  function HostOnly(h: Rec): Breakdown {
    Breakdown(IoClassOf(h), false, false, HostPart(h), StagesOf(HostPart(h)))
  }

  function JoinedBreakdown(h: Rec, t: Rec): Breakdown {
    if h.transport == Rdma then
      var m := WithRdmaTarget(HostPart(h), t);
      Breakdown(if RdmaRead in t.flags then WriteR2T else IoClassOf(h), true, PostEstimated(t), m, StagesOf(m))
    else
      var m := WithTarget(HostPart(h), t, IoClassOf(h));
      Breakdown(IoClassOf(h), true, false, m, StagesOf(m))
  }

  const NO_STAGES := Stages(None, None, None, None, None)

  /** ntp_breakdown(): the error code and the breakdown of a host record with a target record or without. */
  function BreakdownOf(h: Rec, t: Option<Rec>): (Err, Breakdown) {
    if !HostComplete(h) then (IncompleteHost, Breakdown(IoClassOf(h), false, false, NOTHING, NO_STAGES))
    else if t == None then (Ok, HostOnly(h))
    else if TargetUsable(h, t.value) then (Ok, JoinedBreakdown(h, t.value))
    else (IncompleteTarget, HostOnly(h))
  }

  // ---- it adds up ----

  /** The components of the host's own time, and those between its sending and the answer's arrival. */
  function HostSum(m: Comps): int {
    Val(m.blkSub) + Val(m.trSub) + Val(m.hostRx) + Val(m.hostWait) + Val(m.hostData) + Val(m.trCmpl) + Val(m.blkCmpl)
  }

  function RemoteSum(m: Comps): int {
    Val(m.net) + Val(m.tgtRx) + Val(m.tgtSub) + Val(m.tgtWait) + Val(m.tgtData) + Val(m.tgtBe) + Val(m.tgtCmpl) +
    Val(m.remote)
  }

  /** The sum of the components that are not details. */
  function MainSum(m: Comps): int {
    HostSum(m) + RemoteSum(m)
  }

  function StageSum(s: Stages): int {
    Val(s.s1) + Val(s.s2) + Val(s.s3to5) + Val(s.s6) + Val(s.s7to9)
  }

  /** The end-to-end time of a host record. */
  function EndToEnd(h: Rec): int {
    D(h.ts[H_BLK_DONE], if Started(h.ts) then h.ts[H_START] else h.ts[H_QUEUE_RQ])
  }

  lemma CommonAdds(H: Stamps)
    ensures var m := CommonHost(H);
            && m.e2e == Some(Val(m.blkSub) + D(H[H_BLK_DONE], H[H_QUEUE_RQ]))
            && (m.blkSub.Some? <==> Started(H))
            && m == NOTHING.(blkSub := m.blkSub, trSub := m.trSub, blkCmpl := m.blkCmpl, e2e := m.e2e,
                             cmplIpi := m.cmplIpi)
  {
  }

  lemma ReadAdds(h: Rec)
    requires h.transport == Tcp && IoClassOf(h) == Read
    ensures MainSum(ReadComps(h)) == EndToEnd(h)
    ensures Val(ReadComps(h).hostData) >= 0 && Val(ReadComps(h).hostWait) >= 0
  {
    var m, p := ReadComps(h), ReadPhase(h);
    CommonAdds(h.ts);
    assert RemoteSum(m) == Val(m.remote);
    if p.Phase? {
      assert m.hostData == Some(p.busy) && m.hostWait == Some(p.wait);
    } else {
      assert m.hostData == None && m.hostWait == None;
    }
  }

  lemma WriteAdds(h: Rec)
    requires h.transport == Rdma || IoClassOf(h) != Read
    ensures MainSum(HostPart(h)) == EndToEnd(h)
    ensures HostPart(h).hostData == None && HostPart(h).hostWait == None
  {
    var m := HostPart(h);
    CommonAdds(h.ts);
    assert RemoteSum(m) == Val(m.remote);
  }

  lemma HostAdds(h: Rec)
    ensures MainSum(HostPart(h)) == EndToEnd(h)
    ensures Val(HostPart(h).hostData) >= 0 && Val(HostPart(h).hostWait) >= 0
  {
    if h.transport == Tcp && IoClassOf(h) == Read { ReadAdds(h); } else { WriteAdds(h); }
  }

  /** However the target record splits the remote time, the parts add up to it. */
  lemma TargetAdds(m: Comps, t: Rec, c: IoClass)
    requires c != WriteR2T ==> m.tgtData == None && m.tgtWait == None
    ensures RemoteSum(WithTarget(m, t, c)) == Val(m.remote)
    ensures Val(WithTarget(m, t, c).tgtData) >= 0 && Val(WithTarget(m, t, c).tgtWait) >= 0
  {
    var T, r := t.ts, WithTarget(m, t, c);
    assert r.remote == None && Val(r.net) == Val(m.remote) - Residence(t, c);
    match c
    case Read =>
      assert Val(r.tgtRx) + Val(r.tgtSub) + Val(r.tgtBe) + Val(r.tgtCmpl) == Residence(t, c);
    case WriteInline =>
      assert Val(r.tgtRx) + Val(r.tgtSub) + Val(r.tgtBe) + Val(r.tgtCmpl) == Residence(t, c);
    case WriteR2T =>
      assert Val(r.tgtSub) + Val(r.tgtData) + Val(r.tgtWait) ==
             D(T[T_R2T_SENT], T[T_CMD_PROC]) + D(T[T_EXEC], T[T_DATA_PROC]);
  }

  lemma RdmaTargetAdds(m: Comps, t: Rec)
    requires m.tgtData == None && m.tgtWait == None
    ensures RemoteSum(WithRdmaTarget(m, t)) == Val(m.remote)
  {
    var T, fetch := RdmaStamps(t), RdmaRead in t.flags;
    var r := SplitRdma(m, T, fetch, Write in t.flags);
    assert r.remote == None && Val(r.net) == Val(m.remote) - RdmaResidence(T, fetch);
    assert Val(r.tgtRx) + Val(r.tgtSub) + Val(r.tgtBe) + Val(r.tgtCmpl) == RdmaResidence(T, fetch);
  }

  /** What holds of every breakdown of a complete host record. */
  ghost predicate AddsUp(h: Rec, b: Breakdown) {
    && MainSum(b.comp) == EndToEnd(h) && b.comp.e2e == Some(EndToEnd(h))
    && Val(b.comp.hostData) >= 0 && Val(b.comp.hostWait) >= 0 && Val(b.comp.tgtData) >= 0 && Val(b.comp.tgtWait) >= 0
    && (b.joined <==> b.comp.remote == None) && (b.joined <==> b.comp.net.Some?)
    && (b.joined <==> b.stage.s3to5.Some?) && (b.joined <==> b.stage.s6.Some?) && (b.joined <==> b.stage.s7to9.Some?)
    && b.stage.s2.Some? && (b.stage.s1.Some? <==> Started(h.ts))
    && StageSum(b.stage) == MainSum(b.comp) - Val(b.comp.remote) -
                            (if Started(h.ts) then 0 else Val(b.comp.blkCmpl)) -
                            (if b.joined then 0 else Val(b.comp.hostRx) + Val(b.comp.hostWait))
  }

  lemma WithTargetKeeps(m: Comps, t: Rec, c: IoClass)
    ensures var r := WithTarget(m, t, c);
            && HostSum(r) == HostSum(m) && r.e2e == m.e2e && r.blkSub == m.blkSub && r.trSub == m.trSub
            && r.trCmpl == m.trCmpl && r.blkCmpl == m.blkCmpl && r.hostRx == m.hostRx && r.hostData == m.hostData
            && r.hostWait == m.hostWait
            && r.remote == None && r.net.Some? && r.tgtRx.Some? && r.tgtSub.Some? && r.tgtCmpl.Some? && r.tgtBe.Some?
  {
  }

  lemma StagesOfSum(m: Comps)
    requires m.trSub.Some? && m.trCmpl.Some? && m.net.Some? && m.tgtRx.Some? && m.hostRx.Some?
    requires m.tgtSub.Some? && m.tgtCmpl.Some? && m.tgtBe.Some? && m.blkCmpl.Some?
    ensures StageSum(StagesOf(m)) == MainSum(m) - Val(m.remote) - if m.blkSub.Some? then 0 else Val(m.blkCmpl)
  {
  }

  lemma HostOnlyAddsUp(h: Rec)
    ensures AddsUp(h, HostOnly(h))
  {
    HostAdds(h);
    CommonAdds(h.ts);
  }

  lemma TcpAddsUp(h: Rec, t: Rec)
    requires h.transport == Tcp
    ensures AddsUp(h, JoinedBreakdown(h, t))
  {
    HostAdds(h);
    CommonAdds(h.ts);
    TargetAdds(HostPart(h), t, IoClassOf(h));
    WithTargetKeeps(HostPart(h), t, IoClassOf(h));
    StagesOfSum(WithTarget(HostPart(h), t, IoClassOf(h)));
  }

  lemma RdmaAddsUp(h: Rec, t: Rec)
    requires h.transport == Rdma
    ensures AddsUp(h, JoinedBreakdown(h, t))
  {
    HostAdds(h);
    CommonAdds(h.ts);
    RdmaTargetAdds(HostPart(h), t);
    StagesOfSum(WithRdmaTarget(HostPart(h), t));
  }

  /**
   For every host record with its needed events, any target record or none: the main components add up to the
   end-to-end time exactly, no data phase has a negative side, and the remote time stands exactly where no target
   record was used.
   */
  lemma Additive(h: Rec, t: Option<Rec>)
    ensures var (err, b) := BreakdownOf(h, t);
            if !HostComplete(h) then
              err == IncompleteHost && b.comp == NOTHING && b.stage == NO_STAGES && !b.joined
            else
              err != IncompleteHost && AddsUp(h, b) && (b.joined <==> t.Some? && TargetUsable(h, t.value))
  {
    HostOnlyAddsUp(h);
    if t.Some? {
      if h.transport == Rdma { RdmaAddsUp(h, t.value); } else { TcpAddsUp(h, t.value); }
    }
  }

  /** Joined, the five stages add up to the end-to-end time; without a usable start, to all but blk completion. */
  lemma StagesAddUp(h: Rec, t: Rec)
    requires HostComplete(h) && TargetUsable(h, t)
    ensures var b := BreakdownOf(h, Some(t)).1;
            StageSum(b.stage) == EndToEnd(h) - if Started(h.ts) then 0 else Val(b.comp.blkCmpl)
  {
    Additive(h, Some(t));
  }

  /** A target record that cannot be used changes the error code and nothing else. */
  lemma UnusableTargetFallsBack(h: Rec, t: Rec)
    requires BreakdownOf(h, Some(t)).0 == IncompleteTarget
    ensures BreakdownOf(h, Some(t)).1 == BreakdownOf(h, None).1
  {
  }

  // ---- the clocks do not matter ----

  /** Every stamp that is set, moved by the same offset; the durations beside them stay. */
  ghost predicate Shifted(a: Rec, b: Rec, off: int) {
    && (a.Host? <==> b.Host?)
    && (forall e :: 0 <= e < EVENTS ==> b.ts[e] == if a.ts[e] == 0 then 0 else a.ts[e] + off)
    && (forall e :: 0 <= e < EVENTS ==> (b.ts[e] == 0 <==> a.ts[e] == 0))
    && a.transport == b.transport && a.flags == b.flags && a.busyNs == b.busyNs
  }


  lemma HostShift(h: Rec, h2: Rec, off: int)
    requires Shifted(h, h2, off)
    ensures HostComplete(h) <==> HostComplete(h2)
    ensures HostComplete(h) ==> HostPart(h) == HostPart(h2)
  {
    NeedsShift(h, h2, off, if h.transport == Rdma then HOST_NEEDS_RDMA else HostNeeds(IoClassOf(h)));
    if HostComplete(h) {
      HostPartShift(h, h2, off);
    }
  }

  lemma NeedsShift(a: Rec, b: Rec, off: int, events: seq<nat>)
    requires Shifted(a, b, off) && forall e :: e in events ==> e < EVENTS
    ensures HaveAll(a.ts, events) <==> HaveAll(b.ts, events)
  {
  }

  lemma CommonShift(h: Rec, h2: Rec, off: int)
    requires Shifted(h, h2, off) && HaveAll(h.ts, [H_QUEUE_RQ, H_CMD_SENT, H_RSP_PROC, H_BLK_DONE])
    ensures CommonHost(h.ts) == CommonHost(h2.ts)
  {
    var needs := [H_QUEUE_RQ, H_CMD_SENT, H_RSP_PROC, H_BLK_DONE];
    assert h.ts[needs[0]] != 0 && h.ts[needs[1]] != 0 && h.ts[needs[2]] != 0 && h.ts[needs[3]] != 0;
  }

  lemma ReadShift(h: Rec, h2: Rec, off: int)
    requires Shifted(h, h2, off) && h.transport == Tcp && IoClassOf(h) == Read
    requires HaveAll(h.ts, HostNeeds(Read)) && CommonHost(h.ts) == CommonHost(h2.ts)
    ensures ReadComps(h) == ReadComps(h2)
  {
    var needs := HostNeeds(Read);
    assert h.ts[needs[1]] != 0 && h.ts[needs[2]] != 0 && h.ts[needs[3]] != 0 && h.ts[needs[4]] != 0;
    assert ReadPhase(h) == ReadPhase(h2);
  }

  lemma R2tNeeds(ts: Stamps)
    requires HaveAll(ts, HostNeeds(WriteR2T))
    ensures ts[H_QUEUE_RQ] != 0 && ts[H_CMD_SENT] != 0 && ts[H_R2T_ARR] != 0 && ts[H_R2T_PROC] != 0
    ensures ts[H_DATA_START] != 0 && ts[H_RSP_ARR] != 0 && ts[H_RSP_PROC] != 0
  {
    var needs := HostNeeds(WriteR2T);
    assert ts[needs[0]] != 0 && ts[needs[1]] != 0 && ts[needs[2]] != 0 && ts[needs[3]] != 0;
    assert ts[needs[4]] != 0 && ts[needs[5]] != 0 && ts[needs[6]] != 0;
  }

  lemma R2tShift(A: Stamps, B: Stamps, off: int)
    requires Moved(A, B, off) && CommonHost(A) == CommonHost(B)
    requires A[H_QUEUE_RQ] != 0 && A[H_CMD_SENT] != 0 && A[H_R2T_ARR] != 0 && A[H_R2T_PROC] != 0
    requires A[H_DATA_START] != 0 && A[H_RSP_ARR] != 0 && A[H_RSP_PROC] != 0
    ensures R2tComps(A) == R2tComps(B)
  {
  }

  lemma OneTripShift(h: Rec, h2: Rec, off: int)
    requires Shifted(h, h2, off) && (h.transport == Rdma || IoClassOf(h) == WriteInline)
    requires HaveAll(h.ts, HOST_NEEDS_RDMA) && CommonHost(h.ts) == CommonHost(h2.ts)
    ensures OneTripComps(h.ts) == OneTripComps(h2.ts)
  {
    var needs := HOST_NEEDS_RDMA;
    assert h.ts[needs[1]] != 0 && h.ts[needs[2]] != 0 && h.ts[needs[3]] != 0;
  }

  lemma HostPartShift(h: Rec, h2: Rec, off: int)
    requires Shifted(h, h2, off) && HostComplete(h)
    ensures HostPart(h) == HostPart(h2)
  {
    CommonShift(h, h2, off);
    if h.transport == Rdma || IoClassOf(h) == WriteInline {
      OneTripShift(h, h2, off);
    } else if IoClassOf(h) == Read {
      ReadShift(h, h2, off);
    } else {
      R2tNeeds(h.ts);
      R2tShift(h.ts, h2.ts, off);
    }
  }

  /** Stamp sequences that differ by an offset where they are set. */
  ghost predicate Moved(A: Stamps, B: Stamps, off: int) {
    forall e :: 0 <= e < EVENTS ==> (B[e] == if A[e] == 0 then 0 else A[e] + off) && (B[e] == 0 <==> A[e] == 0)
  }

  lemma BackendShift(A: Stamps, B: Stamps, off: int, m: Comps)
    requires Moved(A, B, off) && A[T_EXEC] != 0 && A[T_COMPLETE] != 0
    ensures Backend(A, m) == Backend(B, m)
  {
  }

  lemma TargetNeedsEach(ts: Stamps, c: IoClass)
    requires HaveAll(ts, TargetNeeds(c))
    ensures ts[T_CMD_ARR] != 0 && ts[T_CMD_PROC] != 0 && ts[T_EXEC] != 0 && ts[T_COMPLETE] != 0
    ensures if c == Read then ts[T_C2H_SENT] != 0 else ts[T_RSP_SENT] != 0
    ensures c == WriteR2T ==> ts[T_R2T_SENT] != 0 && ts[T_DATA_ARR] != 0 && ts[T_DATA_PROC] != 0
  {
    var needs := TargetNeeds(c);
    assert ts[needs[0]] != 0 && ts[needs[1]] != 0 && ts[needs[2]] != 0 && ts[needs[3]] != 0 && ts[needs[4]] != 0;
    assert c == WriteR2T ==> ts[needs[5]] != 0 && ts[needs[6]] != 0 && ts[needs[7]] != 0;
  }

  lemma SplitShift(m: Comps, t: Rec, t2: Rec, c: IoClass, off: int)
    requires Shifted(t, t2, off) && HaveAll(t.ts, TargetNeeds(c))
    ensures SplitRemote(m, t, c) == SplitRemote(m, t2, c)
  {
    TargetNeedsEach(t.ts, c);
    if c == WriteR2T {
      assert WritePhase(t) == WritePhase(t2);
    }
  }

  lemma TargetShift(m: Comps, t: Rec, t2: Rec, c: IoClass, off: int)
    requires Shifted(t, t2, off) && HaveAll(t.ts, TargetNeeds(c))
    ensures WithTarget(m, t, c) == WithTarget(m, t2, c)
  {
    TargetNeedsEach(t.ts, c);
    SplitShift(m, t, t2, c, off);
    BackendShift(t.ts, t2.ts, off, SplitRemote(m, t, c));
  }

  lemma RdmaStampsShift(t: Rec, t2: Rec, off: int)
    requires Shifted(t, t2, off)
    ensures RdmaUsable(t) <==> RdmaUsable(t2)
    ensures RdmaUsable(t) ==> PostEstimated(t) == PostEstimated(t2)
    ensures RdmaUsable(t) ==> Moved(RdmaStamps(t), RdmaStamps(t2), off)
  {
    NeedsShift(t, t2, off, TARGET_NEEDS_RDMA);
    var needs := TARGET_NEEDS_RDMA;
    if RdmaUsable(t) {
      assert t.ts[needs[3]] != 0;
    }
  }

  lemma SplitRdmaShift(m: Comps, A: Stamps, B: Stamps, off: int, fetch: bool, write: bool)
    requires Moved(A, B, off) && HaveAll(A, TARGET_NEEDS_RDMA) && A[T_RSP_SENT] != 0
    requires fetch ==> A[T_R2T_SENT] != 0 && A[T_DATA_PROC] != 0
    ensures SplitRdma(m, A, fetch, write) == SplitRdma(m, B, fetch, write)
  {
    var needs := TARGET_NEEDS_RDMA;
    assert A[needs[0]] != 0 && A[needs[1]] != 0 && A[needs[2]] != 0 && A[needs[3]] != 0;
  }

  /** The stamps the code adjusts are the posting's alone. */
  lemma RdmaStampsKeep(t: Rec)
    requires RdmaUsable(t)
    ensures forall e :: 0 <= e < EVENTS && e != T_RSP_SENT && e != T_C2H_SENT ==> RdmaStamps(t)[e] == t.ts[e]
    ensures HaveAll(RdmaStamps(t), TARGET_NEEDS_RDMA) && RdmaStamps(t)[T_RSP_SENT] != 0
  {
    var needs := TARGET_NEEDS_RDMA;
    assert t.ts[needs[3]] != 0;
  }

  lemma RdmaTargetShift(m: Comps, t: Rec, t2: Rec, off: int)
    requires Shifted(t, t2, off) && RdmaUsable(t)
    ensures WithRdmaTarget(m, t) == WithRdmaTarget(m, t2)
  {
    RdmaStampsShift(t, t2, off);
    RdmaStampsKeep(t);
    var A, B, fetch, write := RdmaStamps(t), RdmaStamps(t2), RdmaRead in t.flags, Write in t.flags;
    SplitRdmaShift(m, A, B, off, fetch, write);
    var needs := TARGET_NEEDS_RDMA;
    assert A[needs[2]] != 0 && A[needs[3]] != 0;
    BackendShift(A, B, off, SplitRdma(m, A, fetch, write));
  }

  lemma RdmaClocks(h: Rec, h2: Rec, t: Rec, t2: Rec, tgtOff: int)
    requires h.transport == h2.transport == Rdma && h.flags == h2.flags && Shifted(t, t2, tgtOff)
    requires HostPart(h) == HostPart(h2)
    ensures TargetUsable(h, t) == TargetUsable(h2, t2)
    ensures TargetUsable(h, t) ==> JoinedBreakdown(h, t) == JoinedBreakdown(h2, t2)
  {
    RdmaStampsShift(t, t2, tgtOff);
    if RdmaUsable(t) { RdmaTargetShift(HostPart(h), t, t2, tgtOff); }
  }

  lemma TcpClocks(h: Rec, h2: Rec, t: Rec, t2: Rec, tgtOff: int)
    requires h.transport == h2.transport == Tcp && h.flags == h2.flags && Shifted(t, t2, tgtOff)
    requires HostPart(h) == HostPart(h2)
    ensures TargetUsable(h, t) == TargetUsable(h2, t2)
    ensures TargetUsable(h, t) ==> JoinedBreakdown(h, t) == JoinedBreakdown(h2, t2)
  {
    var c := IoClassOf(h);
    NeedsShift(t, t2, tgtOff, TargetNeeds(c));
    if HaveAll(t.ts, TargetNeeds(c)) { TargetShift(HostPart(h), t, t2, c, tgtOff); }
  }

  /**
   The two machines' clocks may run from any origin: moving every set host stamp by one offset and every set target
   stamp by another leaves error code, class, flags, components and stages exactly as they were.
   */
  lemma ClockIndependent(h: Rec, h2: Rec, t: Rec, t2: Rec, hostOff: int, tgtOff: int)
    requires Shifted(h, h2, hostOff) && Shifted(t, t2, tgtOff)
    ensures BreakdownOf(h, None) == BreakdownOf(h2, None)
    ensures BreakdownOf(h, Some(t)) == BreakdownOf(h2, Some(t2))
  {
    HostShift(h, h2, hostOff);
    if HostComplete(h) {
      if h.transport == Rdma { RdmaClocks(h, h2, t, t2, tgtOff); } else { TcpClocks(h, h2, t, t2, tgtOff); }
    }
  }
}
