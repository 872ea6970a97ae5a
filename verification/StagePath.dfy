/**
 Which interval each component of src/model.c is. A command's way is a path of stops, each a moment with the component
 that leads up to it: through the block layer and the transport of the host, over the network, through the target, and
 back. A component is the time spent on the legs with its label, and a stage the time on the legs of its components.
 The paths are written down here on their own, event by event; the breakdown is shown to be what they say.
 */
module StagePath {
  import opened Records
  import opened StageModel

  /** A moment on the way, and the component of the leg that ends there. */
  datatype Stop = Stop(leg: Comp, at: int)

  function Ends(start: int, path: seq<Stop>): int {
    if path == [] then start else path[|path| - 1].at
  }

  /** The time on the legs of one component. */
  function Along(start: int, path: seq<Stop>, c: Comp): int {
    if path == [] then 0
    else
      var rest, last := path[..|path| - 1], path[|path| - 1];
      Along(start, rest, c) + if last.leg == c then last.at - Ends(start, rest) else 0
  }

  predicate On(path: seq<Stop>, c: Comp) {
    exists i :: 0 <= i < |path| && path[i].leg == c
  }

  // ---- the paths ----

  function HostStart(h: Rec): int {
    if Started(h.ts) then h.ts[H_START] else h.ts[H_QUEUE_RQ]
  }

  /** Down to the moment when the command was handed to the network. */
  function Out(h: Rec): seq<Stop> {
    (if Started(h.ts) then [Stop(BlkSub, h.ts[H_QUEUE_RQ])] else []) + [Stop(TrSub, h.ts[H_CMD_SENT])]
  }

  /** A data phase, where it was timed: so much work of the transport, the rest waiting. */
  predicate Phased(first: u64, done: u64, next: u64, busy: u64) {
    busy > 0 && done != 0 && first <= done <= next
  }

  function PhaseStops(work: Comp, wait: Comp, first: u64, done: u64, next: u64, busy: u64): seq<Stop> {
    if !Phased(first, done, next, busy) then []
    else [Stop(work, first + if busy <= done - first then busy else done - first), Stop(wait, done)]
  }

  /** From the read's first data to the end. */
  function ReadBack(h: Rec): seq<Stop> {
    var H := h.ts;
    [Stop(HostRx, H[H_C2H_PROC])] +
    PhaseStops(HostData, HostWait, H[H_C2H_PROC], H[H_C2H_DONE], H[H_RSP_PROC], h.busyNs) +
    [Stop(TrCmpl, H[H_RSP_PROC]), Stop(BlkCmpl, H[H_BLK_DONE])]
  }

  /** From the response to the end. */
  function Back(h: Rec): seq<Stop> {
    var H := h.ts;
    [Stop(HostRx, H[H_RSP_PROC]), Stop(TrCmpl, H[H_RSP_PROC]), Stop(BlkCmpl, H[H_BLK_DONE])]
  }

  /** There and back to the host's `arr`, seen from the host alone or through the target's one visit. */
  function OneVisit(t: Option<Rec>, sent: nat, arr: u64): seq<Stop>
    requires sent < EVENTS
  {
    if t == None then [Stop(Remote, arr)]
    else
      var T := t.value.ts;
      [Stop(Net, T[T_CMD_ARR]), Stop(TgtRx, T[T_CMD_PROC]), Stop(TgtSub, T[T_EXEC]), Stop(TgtBe, T[T_COMPLETE]),
       Stop(TgtCmpl, T[sent]), Stop(Net, arr)]
  }

  /** A write that waits for an R2T: the visit that asks for the data, and the one that brings it. */
  function FirstVisit(t: Option<Rec>, arr: u64): seq<Stop> {
    if t == None then [Stop(Remote, arr)]
    else
      var T := t.value.ts;
      [Stop(Net, T[T_CMD_ARR]), Stop(TgtRx, T[T_CMD_PROC]), Stop(TgtSub, T[T_R2T_SENT]), Stop(Net, arr)]
  }

  function SecondVisit(t: Option<Rec>, arr: u64): seq<Stop> {
    if t == None then [Stop(Remote, arr)]
    else
      var T := t.value.ts;
      [Stop(Net, T[T_DATA_ARR]), Stop(TgtRx, T[T_DATA_PROC])] +
      PhaseStops(TgtData, TgtWait, T[T_DATA_PROC], T[T_DATA_DONE], T[T_EXEC], t.value.busyNs) +
      [Stop(TgtSub, T[T_EXEC]), Stop(TgtBe, T[T_COMPLETE]), Stop(TgtCmpl, T[T_RSP_SENT]), Stop(Net, arr)]
  }

  /** When an RDMA response was posted: a time behind its send completion is not its own, and COMPLETE stands in. */
  function PostedAt(t: Rec): u64 {
    var T := t.ts;
    if T[T_RSP_SENT] == 0 || (T[T_SEND_DONE] != 0 && T[T_RSP_SENT] > T[T_SEND_DONE]) then T[T_COMPLETE]
    else T[T_RSP_SENT]
  }

  /** RDMA: the target fetches a write's data over the network in the middle of its submission. */
  function RdmaVisit(t: Option<Rec>, arr: u64): seq<Stop> {
    if t == None then [Stop(Remote, arr)]
    else
      var T := t.value.ts;
      [Stop(Net, T[T_CMD_ARR]), Stop(TgtRx, T[T_CMD_PROC])] +
      (if RdmaRead in t.value.flags then [Stop(TgtSub, T[T_R2T_SENT]), Stop(Net, T[T_DATA_PROC])] else []) +
      [Stop(TgtSub, T[T_EXEC]), Stop(TgtBe, T[T_COMPLETE]), Stop(TgtCmpl, PostedAt(t.value)), Stop(Net, arr)]
  }

  /** The way of a command, with the target record used or without one. */
  function PathOf(h: Rec, t: Option<Rec>): seq<Stop> {
    var H := h.ts;
    if h.transport == Rdma then Out(h) + RdmaVisit(t, H[H_RSP_ARR]) + Back(h)
    else if Write !in h.flags then Out(h) + OneVisit(t, T_C2H_SENT, H[H_C2H_ARR]) + ReadBack(h)
    else if R2T !in h.flags then Out(h) + OneVisit(t, T_RSP_SENT, H[H_RSP_ARR]) + Back(h)
    else
      Out(h) + FirstVisit(t, H[H_R2T_ARR]) + [Stop(HostRx, H[H_R2T_PROC]), Stop(TrSub, H[H_DATA_START])] +
      SecondVisit(t, H[H_RSP_ARR]) + Back(h)
  }

  // ---- adding up legs ----

  /** More time in one component. */
  function Add(m: Comps, c: Comp, d: int): Comps {
    match c
    case BlkSub => m.(blkSub := Some(Val(m.blkSub) + d))
    case TrSub => m.(trSub := Some(Val(m.trSub) + d))
    case Net => m.(net := Some(Val(m.net) + d))
    case TgtRx => m.(tgtRx := Some(Val(m.tgtRx) + d))
    case TgtSub => m.(tgtSub := Some(Val(m.tgtSub) + d))
    case TgtWait => m.(tgtWait := Some(Val(m.tgtWait) + d))
    case TgtData => m.(tgtData := Some(Val(m.tgtData) + d))
    case TgtBe => m.(tgtBe := Some(Val(m.tgtBe) + d))
    case TgtCmpl => m.(tgtCmpl := Some(Val(m.tgtCmpl) + d))
    case HostRx => m.(hostRx := Some(Val(m.hostRx) + d))
    case HostWait => m.(hostWait := Some(Val(m.hostWait) + d))
    case HostData => m.(hostData := Some(Val(m.hostData) + d))
    case TrCmpl => m.(trCmpl := Some(Val(m.trCmpl) + d))
    case BlkCmpl => m.(blkCmpl := Some(Val(m.blkCmpl) + d))
    case Remote => m.(remote := Some(Val(m.remote) + d))
    case E2E => m.(e2e := Some(Val(m.e2e) + d))
    case TgtBeSub => m.(tgtBeSub := Some(Val(m.tgtBeSub) + d))
    case TgtDev => m.(tgtDev := Some(Val(m.tgtDev) + d))
    case TgtBeCmpl => m.(tgtBeCmpl := Some(Val(m.tgtBeCmpl) + d))
    case CmplIpi => m.(cmplIpi := Some(Val(m.cmplIpi) + d))
    case NetData => m.(netData := Some(Val(m.netData) + d))
  }

  /** All components of a path at once, on top of `m`. */
  function Walk(m: Comps, start: int, path: seq<Stop>): Comps
    decreases path
  {
    if path == [] then m
    else Walk(Add(m, path[0].leg, path[0].at - start), path[0].at, path[1..])
  }

  lemma {:induction false} WalkOn(m: Comps, start: int, p: seq<Stop>, q: seq<Stop>)
    ensures Walk(m, start, p + q) == Walk(Walk(m, start, p), Ends(start, p), q)
    ensures Ends(start, p + q) == Ends(Ends(start, p), q)
    decreases p
  {
    if p == [] {
      assert p + q == q;
    } else {
      var m', at := Add(m, p[0].leg, p[0].at - start), p[0].at;
      assert (p + q)[0] == p[0] && (p + q)[1..] == p[1..] + q;
      WalkOn(m', at, p[1..], q);
      assert Ends(at, p[1..]) == Ends(start, p);
    }
  }

  lemma Walk1(m: Comps, start: int, a: Stop)
    ensures Walk(m, start, [a]) == Add(m, a.leg, a.at - start)
  {
    assert [a][1..] == [];
  }

  lemma Walk2(m: Comps, start: int, a: Stop, b: Stop)
    ensures Walk(m, start, [a, b]) == Add(Add(m, a.leg, a.at - start), b.leg, b.at - a.at)
  {
    assert [a, b][1..] == [b];
    Walk1(Add(m, a.leg, a.at - start), a.at, b);
  }

  lemma Walk3(m: Comps, start: int, a: Stop, b: Stop, c: Stop)
    ensures Walk(m, start, [a, b, c]) == Add(Add(Add(m, a.leg, a.at - start), b.leg, b.at - a.at), c.leg, c.at - b.at)
  {
    assert [a, b, c][1..] == [b, c];
    Walk2(Add(m, a.leg, a.at - start), a.at, b, c);
  }

  lemma Walk4(m: Comps, start: int, a: Stop, b: Stop, c: Stop, d: Stop)
    ensures Walk(m, start, [a, b, c, d]) ==
            Add(Add(Add(Add(m, a.leg, a.at - start), b.leg, b.at - a.at), c.leg, c.at - b.at), d.leg, d.at - c.at)
  {
    assert [a, b, c, d][1..] == [b, c, d];
    Walk3(Add(m, a.leg, a.at - start), a.at, b, c, d);
  }

  /** Walking a path gives each component the time along it, and only those on it. */
  lemma {:induction false} WalkIs(start: int, path: seq<Stop>, c: Comp)
    ensures Walk(NOTHING, start, path).At(c) == if On(path, c) then Some(Along(start, path, c)) else None
  {
    if path != [] {
      var rest, last := path[..|path| - 1], path[|path| - 1];
      WalkIs(start, rest, c);
      WalkSnoc(start, rest, last, c);
      assert path == rest + [last];
    }
  }

  lemma WalkSnoc(start: int, rest: seq<Stop>, last: Stop, c: Comp)
    requires Walk(NOTHING, start, rest).At(c) == if On(rest, c) then Some(Along(start, rest, c)) else None
    ensures var path := rest + [last];
            Walk(NOTHING, start, path).At(c) == if On(path, c) then Some(Along(start, path, c)) else None
  {
    var m, d := Walk(NOTHING, start, rest), last.at - Ends(start, rest);
    WalkOn(NOTHING, start, rest, [last]);
    Walk1(m, Ends(start, rest), last);
    OnSnoc(rest, last, c);
    AlongSnoc(start, rest, last, c);
    if !On(rest, c) { NotAlong(start, rest, c); }
    OneMoreLeg(m, On(rest, c), Along(start, rest, c), last.leg, d, c);
  }

  lemma AlongSnoc(start: int, rest: seq<Stop>, last: Stop, c: Comp)
    ensures Along(start, rest + [last], c) ==
            Along(start, rest, c) + if last.leg == c then last.at - Ends(start, rest) else 0
  {
    assert (rest + [last])[..|rest|] == rest;
  }

  lemma OneMoreLeg(m: Comps, on: bool, along: int, k: Comp, d: int, c: Comp)
    requires m.At(c) == (if on then Some(along) else None) && (!on ==> along == 0)
    ensures Add(m, k, d).At(c) == if on || k == c then Some(along + if k == c then d else 0) else None
  {
    AddAt(m, k, d, c);
  }

  lemma AddAt(m: Comps, k: Comp, d: int, c: Comp)
    ensures Add(m, k, d).At(c) == if k == c then Some(Val(m.At(c)) + d) else m.At(c)
  {
  }

  lemma OnSnoc(p: seq<Stop>, s: Stop, c: Comp)
    ensures On(p + [s], c) <==> On(p, c) || s.leg == c
  {
    if On(p, c) {
      var i :| 0 <= i < |p| && p[i].leg == c;
      assert (p + [s])[i].leg == c;
    }
    if s.leg == c { assert (p + [s])[|p|].leg == c; }
  }

  lemma {:induction false} NotAlong(start: int, path: seq<Stop>, c: Comp)
    requires !On(path, c)
    ensures Along(start, path, c) == 0
  {
    if path != [] {
      assert path == path[..|path| - 1] + [path[|path| - 1]];
      OnSnoc(path[..|path| - 1], path[|path| - 1], c);
      NotAlong(start, path[..|path| - 1], c);
    }
  }

  // ---- the breakdown is what the path says ----

  /** The components without those that split another, and the whole. */
  function Main(m: Comps): Comps {
    m.(e2e := None, tgtBeSub := None, tgtDev := None, tgtBeCmpl := None, cmplIpi := None, netData := None)
  }

  lemma OutWalk(h: Rec)
    ensures var H := h.ts;
            && Walk(NOTHING, HostStart(h), Out(h)) ==
               NOTHING.(blkSub := CommonHost(H).blkSub, trSub := CommonHost(H).trSub)
            && Ends(HostStart(h), Out(h)) == H[H_CMD_SENT]
  {
    var s, a, b := HostStart(h), Stop(BlkSub, h.ts[H_QUEUE_RQ]), Stop(TrSub, h.ts[H_CMD_SENT]);
    if Started(h.ts) {
      Walk2(NOTHING, s, a, b);
      assert Out(h) == [a, b];
    } else {
      Walk1(NOTHING, s, b);
      assert Out(h) == [b];
    }
  }

  /** A data phase on top of components that have none yet. */
  lemma HostPhaseWalk(m: Comps, first: u64, done: u64, next: u64, busy: u64)
    requires m.hostData == None && m.hostWait == None
    ensures var p, phase := PhaseStops(HostData, HostWait, first, done, next, busy), DataPhase(first, done, next, busy);
            && Walk(m, first, p) == m.(hostData := BusyOf(phase), hostWait := WaitOf(phase))
            && Ends(first, p) == (if phase.Phase? then done as int else first as int)
  {
    if Phased(first, done, next, busy) {
      var mid: int := first + if busy <= done - first then busy else done - first;
      Walk2(m, first, Stop(HostData, mid), Stop(HostWait, done));
    }
  }

  lemma TgtPhaseWalk(m: Comps, first: u64, done: u64, next: u64, busy: u64)
    requires m.tgtData == None && m.tgtWait == None
    ensures var p, phase := PhaseStops(TgtData, TgtWait, first, done, next, busy), DataPhase(first, done, next, busy);
            && Walk(m, first, p) == m.(tgtData := BusyOf(phase), tgtWait := WaitOf(phase))
            && Ends(first, p) == (if phase.Phase? then done as int else first as int)
  {
    if Phased(first, done, next, busy) {
      var mid: int := first + if busy <= done - first then busy else done - first;
      Walk2(m, first, Stop(TgtData, mid), Stop(TgtWait, done));
    }
  }

  lemma BackWalk(m: Comps, start: int, h: Rec)
    requires m.trCmpl == None && m.blkCmpl == None
    ensures var H := h.ts;
            && Walk(m, start, Back(h)) ==
               m.(hostRx := Some(Val(m.hostRx) + H[H_RSP_PROC] - start), trCmpl := Some(0),
                  blkCmpl := Some(D(H[H_BLK_DONE], H[H_RSP_PROC])))
            && Ends(start, Back(h)) == H[H_BLK_DONE]
  {
    var H := h.ts;
    Walk3(m, start, Stop(HostRx, H[H_RSP_PROC]), Stop(TrCmpl, H[H_RSP_PROC]), Stop(BlkCmpl, H[H_BLK_DONE]));
  }

  lemma ReadBackWalk(m: Comps, start: int, h: Rec)
    requires m.hostRx == None && m.trCmpl == None && m.blkCmpl == None && m.hostData == None && m.hostWait == None
    ensures var H, p := h.ts, StageModel.ReadPhase(h);
            && Walk(m, start, ReadBack(h)) ==
               m.(hostRx := Some(H[H_C2H_PROC] - start), hostData := BusyOf(p), hostWait := WaitOf(p),
                  trCmpl := Some(D(H[H_RSP_PROC], if p.Phase? then H[H_C2H_DONE] else H[H_C2H_PROC])),
                  blkCmpl := Some(D(H[H_BLK_DONE], H[H_RSP_PROC])))
            && Ends(start, ReadBack(h)) == H[H_BLK_DONE]
  {
    var H, p := h.ts, StageModel.ReadPhase(h);
    var a, x, y := Stop(HostRx, H[H_C2H_PROC]), Stop(TrCmpl, H[H_RSP_PROC]), Stop(BlkCmpl, H[H_BLK_DONE]);
    var phase := PhaseStops(HostData, HostWait, H[H_C2H_PROC], H[H_C2H_DONE], H[H_RSP_PROC], h.busyNs);
    Walk1(m, start, a);
    var m1 := m.(hostRx := Some(H[H_C2H_PROC] - start));
    HostPhaseWalk(m1, H[H_C2H_PROC], H[H_C2H_DONE], H[H_RSP_PROC], h.busyNs);
    WalkOn(m, start, [a], phase);
    var m2, at := m1.(hostData := BusyOf(p), hostWait := WaitOf(p)), if p.Phase? then H[H_C2H_DONE] else H[H_C2H_PROC];
    CmplWalk(m2, at, h);
    WalkOn(m, start, [a] + phase, [x, y]);
  }

  lemma CmplWalk(m: Comps, start: int, h: Rec)
    requires m.trCmpl == None && m.blkCmpl == None
    ensures var H := h.ts;
            Walk(m, start, [Stop(TrCmpl, H[H_RSP_PROC]), Stop(BlkCmpl, H[H_BLK_DONE])]) ==
            m.(trCmpl := Some(H[H_RSP_PROC] - start), blkCmpl := Some(D(H[H_BLK_DONE], H[H_RSP_PROC])))
  {
    Walk2(m, start, Stop(TrCmpl, h.ts[H_RSP_PROC]), Stop(BlkCmpl, h.ts[H_BLK_DONE]));
  }

  /** Execution, completion, the response and the way back: the end of every visit. */
  lemma LastWalk(m: Comps, start: int, T: Stamps, sent: u64, arr: u64)
    requires m.tgtBe == None && m.tgtCmpl == None
    ensures var p := [Stop(TgtSub, T[T_EXEC]), Stop(TgtBe, T[T_COMPLETE]), Stop(TgtCmpl, sent), Stop(Net, arr)];
            && Walk(m, start, p) ==
               m.(tgtSub := Some(Val(m.tgtSub) + T[T_EXEC] - start), tgtBe := Some(D(T[T_COMPLETE], T[T_EXEC])),
                  tgtCmpl := Some(D(sent, T[T_COMPLETE])), net := Some(Val(m.net) + D(arr, sent)))
            && Ends(start, p) == arr
  {
    Walk4(m, start, Stop(TgtSub, T[T_EXEC]), Stop(TgtBe, T[T_COMPLETE]), Stop(TgtCmpl, sent), Stop(Net, arr));
  }

  /** Nothing of the target is known yet. */
  predicate NoTarget(m: Comps) {
    && m.net == None && m.tgtRx == None && m.tgtSub == None && m.tgtWait == None && m.tgtData == None && m.tgtBe == None
    && m.tgtCmpl == None && m.remote == None
  }

  /** Over the network to the target's transport: the beginning of every visit. */
  lemma ArriveWalk(m: Comps, sent: int, arr: int, proc: int)
    ensures Walk(m, sent, [Stop(Net, arr), Stop(TgtRx, proc)]) ==
            m.(net := Some(Val(m.net) + arr - sent), tgtRx := Some(Val(m.tgtRx) + proc - arr))
    ensures Ends(sent, [Stop(Net, arr), Stop(TgtRx, proc)]) == proc
  {
    Walk2(m, sent, Stop(Net, arr), Stop(TgtRx, proc));
  }

  /** A visit without interruption. */
  lemma PlainWalk(m: Comps, T: Stamps, posted: u64, sent: u64, arr: u64)
    requires NoTarget(m)
    ensures var p := [Stop(Net, T[T_CMD_ARR]), Stop(TgtRx, T[T_CMD_PROC])] +
                     [Stop(TgtSub, T[T_EXEC]), Stop(TgtBe, T[T_COMPLETE]), Stop(TgtCmpl, posted), Stop(Net, arr)];
            && Walk(m, sent, p) ==
               m.(net := Some(D(arr, sent) - D(posted, T[T_CMD_ARR])), tgtRx := Some(D(T[T_CMD_PROC], T[T_CMD_ARR])),
                  tgtSub := Some(D(T[T_EXEC], T[T_CMD_PROC])), tgtBe := Some(D(T[T_COMPLETE], T[T_EXEC])),
                  tgtCmpl := Some(D(posted, T[T_COMPLETE])))
            && Ends(sent, p) == arr
  {
    var a, b := Stop(Net, T[T_CMD_ARR]), Stop(TgtRx, T[T_CMD_PROC]);
    var last := [Stop(TgtSub, T[T_EXEC]), Stop(TgtBe, T[T_COMPLETE]), Stop(TgtCmpl, posted), Stop(Net, arr)];
    ArriveWalk(m, sent, T[T_CMD_ARR], T[T_CMD_PROC]);
    LastWalk(m.(net := Some(D(T[T_CMD_ARR], sent)), tgtRx := Some(D(T[T_CMD_PROC], T[T_CMD_ARR]))), T[T_CMD_PROC], T, posted, arr);
    WalkOn(m, sent, [a, b], last);
  }

  lemma VisitWalk(m: Comps, t: Rec, sentAt: nat, sent: u64, arr: u64)
    requires NoTarget(m) && sentAt < EVENTS
    ensures var T, p := t.ts, OneVisit(Some(t), sentAt, arr);
            && Walk(m, sent, p) ==
               m.(net := Some(D(arr, sent) - D(T[sentAt], T[T_CMD_ARR])), tgtRx := Some(D(T[T_CMD_PROC], T[T_CMD_ARR])),
                  tgtSub := Some(D(T[T_EXEC], T[T_CMD_PROC])), tgtBe := Some(D(T[T_COMPLETE], T[T_EXEC])),
                  tgtCmpl := Some(D(T[sentAt], T[T_COMPLETE])))
            && Ends(sent, p) == arr
  {
    var T := t.ts;
    PlainWalk(m, T, T[sentAt], sent, arr);
    assert OneVisit(Some(t), sentAt, arr) ==
           [Stop(Net, T[T_CMD_ARR]), Stop(TgtRx, T[T_CMD_PROC])] +
           [Stop(TgtSub, T[T_EXEC]), Stop(TgtBe, T[T_COMPLETE]), Stop(TgtCmpl, T[sentAt]), Stop(Net, arr)];
  }

  lemma FirstVisitWalk(m: Comps, t: Rec, sent: u64, arr: u64)
    requires NoTarget(m)
    ensures var T, p := t.ts, FirstVisit(Some(t), arr);
            && Walk(m, sent, p) ==
               m.(net := Some(D(arr, sent) - D(T[T_R2T_SENT], T[T_CMD_ARR])), tgtRx := Some(D(T[T_CMD_PROC], T[T_CMD_ARR])),
                  tgtSub := Some(D(T[T_R2T_SENT], T[T_CMD_PROC])))
            && Ends(sent, p) == arr
  {
    var T := t.ts;
    Walk4(m, sent, Stop(Net, T[T_CMD_ARR]), Stop(TgtRx, T[T_CMD_PROC]), Stop(TgtSub, T[T_R2T_SENT]), Stop(Net, arr));
  }

  lemma SecondVisitIs(t: Rec, arr: u64)
    ensures var T := t.ts;
            SecondVisit(Some(t), arr) ==
            [Stop(Net, T[T_DATA_ARR]), Stop(TgtRx, T[T_DATA_PROC])] +
            (PhaseStops(TgtData, TgtWait, T[T_DATA_PROC], T[T_DATA_DONE], T[T_EXEC], t.busyNs) +
             [Stop(TgtSub, T[T_EXEC]), Stop(TgtBe, T[T_COMPLETE]), Stop(TgtCmpl, T[T_RSP_SENT]), Stop(Net, arr)])
  {
  }

  lemma SecondVisitWalk(m: Comps, t: Rec, sent: u64, arr: u64)
    requires m.tgtBe == None && m.tgtCmpl == None && m.tgtData == None && m.tgtWait == None
    ensures var T, p, phase := t.ts, SecondVisit(Some(t), arr), StageModel.WritePhase(t);
            && Walk(m, sent, p) ==
               m.(net := Some(Val(m.net) + D(arr, sent) - D(T[T_RSP_SENT], T[T_DATA_ARR])),
                  tgtRx := Some(Val(m.tgtRx) + D(T[T_DATA_PROC], T[T_DATA_ARR])),
                  tgtData := BusyOf(phase), tgtWait := WaitOf(phase),
                  tgtSub := Some(Val(m.tgtSub) + D(T[T_EXEC], if phase.Phase? then T[T_DATA_DONE] else T[T_DATA_PROC])),
                  tgtBe := Some(D(T[T_COMPLETE], T[T_EXEC])), tgtCmpl := Some(D(T[T_RSP_SENT], T[T_COMPLETE])))
            && Ends(sent, p) == arr
  {
    var T := t.ts;
    var a, b := Stop(Net, T[T_DATA_ARR]), Stop(TgtRx, T[T_DATA_PROC]);
    var phase := PhaseStops(TgtData, TgtWait, T[T_DATA_PROC], T[T_DATA_DONE], T[T_EXEC], t.busyNs);
    var last := [Stop(TgtSub, T[T_EXEC]), Stop(TgtBe, T[T_COMPLETE]), Stop(TgtCmpl, T[T_RSP_SENT]), Stop(Net, arr)];
    ArriveWalk(m, sent, T[T_DATA_ARR], T[T_DATA_PROC]);
    PhasedWalk(m.(net := Some(Val(m.net) + D(T[T_DATA_ARR], sent)), tgtRx := Some(Val(m.tgtRx) + D(T[T_DATA_PROC], T[T_DATA_ARR]))),
               t, arr);
    WalkOn(m, sent, [a, b], phase + last);
    SecondVisitIs(t, arr);
  }

  lemma PhasedWalk(m: Comps, t: Rec, arr: u64)
    requires m.tgtBe == None && m.tgtCmpl == None && m.tgtData == None && m.tgtWait == None
    ensures var T, ph := t.ts, StageModel.WritePhase(t);
            var p := PhaseStops(TgtData, TgtWait, T[T_DATA_PROC], T[T_DATA_DONE], T[T_EXEC], t.busyNs) +
                     [Stop(TgtSub, T[T_EXEC]), Stop(TgtBe, T[T_COMPLETE]), Stop(TgtCmpl, T[T_RSP_SENT]), Stop(Net, arr)];
            && Walk(m, T[T_DATA_PROC], p) ==
               m.(tgtData := BusyOf(ph), tgtWait := WaitOf(ph),
                  tgtSub := Some(Val(m.tgtSub) + D(T[T_EXEC], if ph.Phase? then T[T_DATA_DONE] else T[T_DATA_PROC])),
                  tgtBe := Some(D(T[T_COMPLETE], T[T_EXEC])), tgtCmpl := Some(D(T[T_RSP_SENT], T[T_COMPLETE])),
                  net := Some(Val(m.net) + D(arr, T[T_RSP_SENT])))
            && Ends(T[T_DATA_PROC], p) == arr
  {
    var T, ph := t.ts, StageModel.WritePhase(t);
    var phase := PhaseStops(TgtData, TgtWait, T[T_DATA_PROC], T[T_DATA_DONE], T[T_EXEC], t.busyNs);
    var last := [Stop(TgtSub, T[T_EXEC]), Stop(TgtBe, T[T_COMPLETE]), Stop(TgtCmpl, T[T_RSP_SENT]), Stop(Net, arr)];
    TgtPhaseWalk(m, T[T_DATA_PROC], T[T_DATA_DONE], T[T_EXEC], t.busyNs);
    LastWalk(m.(tgtData := BusyOf(ph), tgtWait := WaitOf(ph)), if ph.Phase? then T[T_DATA_DONE] else T[T_DATA_PROC], T, T[T_RSP_SENT], arr);
    WalkOn(m, T[T_DATA_PROC], phase, last);
  }

  lemma RdmaVisitWalk(m: Comps, t: Rec, sent: u64, arr: u64)
    requires NoTarget(m)
    ensures var T, p, fetch := t.ts, RdmaVisit(Some(t), arr), RdmaRead in t.flags;
            && Walk(m, sent, p) ==
               m.(net := Some(D(arr, sent) - (D(PostedAt(t), T[T_CMD_ARR]) - Fetch(T, fetch))),
                  tgtRx := Some(D(T[T_CMD_PROC], T[T_CMD_ARR])),
                  tgtSub := Some(if fetch then D(T[T_R2T_SENT], T[T_CMD_PROC]) + D(T[T_EXEC], T[T_DATA_PROC])
                                 else D(T[T_EXEC], T[T_CMD_PROC])),
                  tgtBe := Some(D(T[T_COMPLETE], T[T_EXEC])), tgtCmpl := Some(D(PostedAt(t), T[T_COMPLETE])))
            && Ends(sent, p) == arr
  {
    var T := t.ts;
    var a, b := Stop(Net, T[T_CMD_ARR]), Stop(TgtRx, T[T_CMD_PROC]);
    var f, g := Stop(TgtSub, T[T_R2T_SENT]), Stop(Net, T[T_DATA_PROC]);
    var last := [Stop(TgtSub, T[T_EXEC]), Stop(TgtBe, T[T_COMPLETE]), Stop(TgtCmpl, PostedAt(t)), Stop(Net, arr)];
    if RdmaRead in t.flags {
      FetchVisitWalk(m, T, PostedAt(t), sent, arr);
      assert [a, b] + ([f, g] + last) == [a, b] + [f, g] + last;
    } else {
      PlainWalk(m, T, PostedAt(t), sent, arr);
      assert [a, b] + [] == [a, b];
    }
  }

  lemma FetchVisitWalk(m: Comps, T: Stamps, posted: u64, sent: u64, arr: u64)
    requires NoTarget(m)
    ensures var p := [Stop(Net, T[T_CMD_ARR]), Stop(TgtRx, T[T_CMD_PROC])] +
                     ([Stop(TgtSub, T[T_R2T_SENT]), Stop(Net, T[T_DATA_PROC])] +
                      [Stop(TgtSub, T[T_EXEC]), Stop(TgtBe, T[T_COMPLETE]), Stop(TgtCmpl, posted), Stop(Net, arr)]);
            && Walk(m, sent, p) ==
               m.(net := Some(D(arr, sent) - (D(posted, T[T_CMD_ARR]) - D(T[T_DATA_PROC], T[T_R2T_SENT]))),
                  tgtRx := Some(D(T[T_CMD_PROC], T[T_CMD_ARR])),
                  tgtSub := Some(D(T[T_R2T_SENT], T[T_CMD_PROC]) + D(T[T_EXEC], T[T_DATA_PROC])),
                  tgtBe := Some(D(T[T_COMPLETE], T[T_EXEC])), tgtCmpl := Some(D(posted, T[T_COMPLETE])))
            && Ends(sent, p) == arr
  {
    var a, b := Stop(Net, T[T_CMD_ARR]), Stop(TgtRx, T[T_CMD_PROC]);
    var rest := [Stop(TgtSub, T[T_R2T_SENT]), Stop(Net, T[T_DATA_PROC])] +
                [Stop(TgtSub, T[T_EXEC]), Stop(TgtBe, T[T_COMPLETE]), Stop(TgtCmpl, posted), Stop(Net, arr)];
    ArriveWalk(m, sent, T[T_CMD_ARR], T[T_CMD_PROC]);
    FetchedWalk(m.(net := Some(D(T[T_CMD_ARR], sent)), tgtRx := Some(D(T[T_CMD_PROC], T[T_CMD_ARR]))), T, posted, arr);
    WalkOn(m, sent, [a, b], rest);
  }

  lemma FetchedWalk(m: Comps, T: Stamps, sent: u64, arr: u64)
    requires m.tgtSub == None && m.tgtBe == None && m.tgtCmpl == None
    ensures var p := [Stop(TgtSub, T[T_R2T_SENT]), Stop(Net, T[T_DATA_PROC])] +
                     [Stop(TgtSub, T[T_EXEC]), Stop(TgtBe, T[T_COMPLETE]), Stop(TgtCmpl, sent), Stop(Net, arr)];
            && Walk(m, T[T_CMD_PROC], p) ==
               m.(tgtSub := Some(D(T[T_R2T_SENT], T[T_CMD_PROC]) + D(T[T_EXEC], T[T_DATA_PROC])),
                  tgtBe := Some(D(T[T_COMPLETE], T[T_EXEC])), tgtCmpl := Some(D(sent, T[T_COMPLETE])),
                  net := Some(Val(m.net) + D(T[T_DATA_PROC], T[T_R2T_SENT]) + D(arr, sent)))
            && Ends(T[T_CMD_PROC], p) == arr
  {
    var f, g := Stop(TgtSub, T[T_R2T_SENT]), Stop(Net, T[T_DATA_PROC]);
    var last := [Stop(TgtSub, T[T_EXEC]), Stop(TgtBe, T[T_COMPLETE]), Stop(TgtCmpl, sent), Stop(Net, arr)];
    FetchWalk(m, T);
    LastWalk(m.(tgtSub := Some(D(T[T_R2T_SENT], T[T_CMD_PROC])), net := Some(Val(m.net) + D(T[T_DATA_PROC], T[T_R2T_SENT]))),
             T[T_DATA_PROC], T, sent, arr);
    WalkOn(m, T[T_CMD_PROC], [f, g], last);
  }

  lemma FetchWalk(m: Comps, T: Stamps)
    requires m.tgtSub == None
    ensures Walk(m, T[T_CMD_PROC], [Stop(TgtSub, T[T_R2T_SENT]), Stop(Net, T[T_DATA_PROC])]) ==
            m.(tgtSub := Some(D(T[T_R2T_SENT], T[T_CMD_PROC])), net := Some(Val(m.net) + D(T[T_DATA_PROC], T[T_R2T_SENT])))
  {
    Walk2(m, T[T_CMD_PROC], Stop(TgtSub, T[T_R2T_SENT]), Stop(Net, T[T_DATA_PROC]));
  }

  lemma RemoteWalk(m: Comps, sent: u64, arr: u64)
    ensures Walk(m, sent, [Stop(Remote, arr)]) == m.(remote := Some(Val(m.remote) + D(arr, sent)))
  {
    Walk1(m, sent, Stop(Remote, arr));
  }

  // ---- the breakdown is what the path says ----

  lemma BackendMain(T: Stamps, m: Comps)
    ensures Main(Backend(T, m)) == Main(m)
  {
  }

  /** The way out, the visit and the way back. */
  lemma Trip(h: Rec, visit: seq<Stop>, back: seq<Stop>, m1: Comps, m2: Comps, m3: Comps, arr: int)
    requires m1 == NOTHING.(blkSub := CommonHost(h.ts).blkSub, trSub := CommonHost(h.ts).trSub)
    requires Walk(m1, h.ts[H_CMD_SENT], visit) == m2 && Ends(h.ts[H_CMD_SENT], visit) == arr
    requires Walk(m2, arr, back) == m3
    ensures Walk(NOTHING, HostStart(h), Out(h) + visit + back) == m3
    ensures Ends(HostStart(h), Out(h) + visit + back) == Ends(arr, back)
  {
    OutWalk(h);
    WalkOn(NOTHING, HostStart(h), Out(h), visit);
    WalkOn(NOTHING, HostStart(h), Out(h) + visit, back);
  }

  function Sent(h: Rec): Comps {
    NOTHING.(blkSub := CommonHost(h.ts).blkSub, trSub := CommonHost(h.ts).trSub)
  }

  lemma ReadAlone(h: Rec)
    requires h.transport == Tcp && IoClassOf(h) == Read
    ensures Walk(NOTHING, HostStart(h), PathOf(h, None)) == Main(HostPart(h))
    ensures Ends(HostStart(h), PathOf(h, None)) == h.ts[H_BLK_DONE]
  {
    var H, m1 := h.ts, Sent(h);
    var m2 := m1.(remote := Some(D(H[H_C2H_ARR], H[H_CMD_SENT])));
    RemoteWalk(m1, H[H_CMD_SENT], H[H_C2H_ARR]);
    ReadBackWalk(m2, H[H_C2H_ARR], h);
    Trip(h, [Stop(Remote, H[H_C2H_ARR])], ReadBack(h), m1, m2, Walk(m2, H[H_C2H_ARR], ReadBack(h)), H[H_C2H_ARR]);
  }

  lemma ReadJoined(h: Rec, t: Rec)
    requires h.transport == Tcp && IoClassOf(h) == Read
    ensures Walk(NOTHING, HostStart(h), PathOf(h, Some(t))) == Main(WithTarget(HostPart(h), t, Read))
    ensures Ends(HostStart(h), PathOf(h, Some(t))) == h.ts[H_BLK_DONE]
  {
    var H, m1, visit := h.ts, Sent(h), OneVisit(Some(t), T_C2H_SENT, h.ts[H_C2H_ARR]);
    VisitWalk(m1, t, T_C2H_SENT, H[H_CMD_SENT], H[H_C2H_ARR]);
    var m2 := Walk(m1, H[H_CMD_SENT], visit);
    ReadBackWalk(m2, H[H_C2H_ARR], h);
    Trip(h, visit, ReadBack(h), m1, m2, Walk(m2, H[H_C2H_ARR], ReadBack(h)), H[H_C2H_ARR]);
    BackendMain(t.ts, SplitRemote(HostPart(h), t, Read));
  }

  lemma OneTripAlone(h: Rec)
    requires h.transport == Rdma || IoClassOf(h) == WriteInline
    ensures Walk(NOTHING, HostStart(h), PathOf(h, None)) == Main(HostPart(h))
    ensures Ends(HostStart(h), PathOf(h, None)) == h.ts[H_BLK_DONE]
  {
    var H, m1 := h.ts, Sent(h);
    var m2 := m1.(remote := Some(D(H[H_RSP_ARR], H[H_CMD_SENT])));
    RemoteWalk(m1, H[H_CMD_SENT], H[H_RSP_ARR]);
    BackWalk(m2, H[H_RSP_ARR], h);
    Trip(h, [Stop(Remote, H[H_RSP_ARR])], Back(h), m1, m2, Walk(m2, H[H_RSP_ARR], Back(h)), H[H_RSP_ARR]);
  }

  lemma InlineJoined(h: Rec, t: Rec)
    requires h.transport == Tcp && IoClassOf(h) == WriteInline
    ensures Walk(NOTHING, HostStart(h), PathOf(h, Some(t))) == Main(WithTarget(HostPart(h), t, WriteInline))
    ensures Ends(HostStart(h), PathOf(h, Some(t))) == h.ts[H_BLK_DONE]
  {
    var H, m1, visit := h.ts, Sent(h), OneVisit(Some(t), T_RSP_SENT, h.ts[H_RSP_ARR]);
    VisitWalk(m1, t, T_RSP_SENT, H[H_CMD_SENT], H[H_RSP_ARR]);
    var m2 := Walk(m1, H[H_CMD_SENT], visit);
    BackWalk(m2, H[H_RSP_ARR], h);
    Trip(h, visit, Back(h), m1, m2, Walk(m2, H[H_RSP_ARR], Back(h)), H[H_RSP_ARR]);
    BackendMain(t.ts, SplitRemote(HostPart(h), t, WriteInline));
  }

  lemma RdmaPosted(t: Rec)
    requires RdmaUsable(t)
    ensures var T := RdmaStamps(t);
            && T[T_RSP_SENT] == PostedAt(t) && T[T_CMD_ARR] == t.ts[T_CMD_ARR] && T[T_CMD_PROC] == t.ts[T_CMD_PROC]
            && T[T_R2T_SENT] == t.ts[T_R2T_SENT] && T[T_DATA_PROC] == t.ts[T_DATA_PROC]
            && T[T_EXEC] == t.ts[T_EXEC] && T[T_COMPLETE] == t.ts[T_COMPLETE]
  {
  }

  lemma RdmaJoined(h: Rec, t: Rec)
    requires h.transport == Rdma && RdmaUsable(t)
    ensures Walk(NOTHING, HostStart(h), PathOf(h, Some(t))) == Main(WithRdmaTarget(HostPart(h), t))
    ensures Ends(HostStart(h), PathOf(h, Some(t))) == h.ts[H_BLK_DONE]
  {
    var H, m1, visit := h.ts, Sent(h), RdmaVisit(Some(t), h.ts[H_RSP_ARR]);
    RdmaVisitWalk(m1, t, H[H_CMD_SENT], H[H_RSP_ARR]);
    var m2 := Walk(m1, H[H_CMD_SENT], visit);
    BackWalk(m2, H[H_RSP_ARR], h);
    Trip(h, visit, Back(h), m1, m2, Walk(m2, H[H_RSP_ARR], Back(h)), H[H_RSP_ARR]);
    RdmaPosted(t);
    BackendMain(RdmaStamps(t), SplitRdma(HostPart(h), RdmaStamps(t), RdmaRead in t.flags, Write in t.flags));
  }

  /** Between the two visits the host answers the R2T. */
  lemma R2tWalk(m: Comps, h: Rec)
    requires m.hostRx == None
    ensures var H, p := h.ts, [Stop(HostRx, h.ts[H_R2T_PROC]), Stop(TrSub, h.ts[H_DATA_START])];
            && Walk(m, H[H_R2T_ARR], p) ==
               m.(hostRx := Some(D(H[H_R2T_PROC], H[H_R2T_ARR])), trSub := Some(Val(m.trSub) + D(H[H_DATA_START], H[H_R2T_PROC])))
            && Ends(H[H_R2T_ARR], p) == H[H_DATA_START]
  {
    Walk2(m, h.ts[H_R2T_ARR], Stop(HostRx, h.ts[H_R2T_PROC]), Stop(TrSub, h.ts[H_DATA_START]));
  }

  /** Two visits, and the host between them. */
  lemma TwoTrips(h: Rec, one: seq<Stop>, two: seq<Stop>, m2: Comps, m4: Comps)
    requires Walk(Sent(h), h.ts[H_CMD_SENT], one) == m2 && Ends(h.ts[H_CMD_SENT], one) == h.ts[H_R2T_ARR]
    requires m2.hostRx == None && m4.trCmpl == None && m4.blkCmpl == None
    requires Walk(m2.(hostRx := Some(D(h.ts[H_R2T_PROC], h.ts[H_R2T_ARR])),
                      trSub := Some(Val(m2.trSub) + D(h.ts[H_DATA_START], h.ts[H_R2T_PROC]))),
                  h.ts[H_DATA_START], two) == m4
    requires Ends(h.ts[H_DATA_START], two) == h.ts[H_RSP_ARR]
    ensures var mid := [Stop(HostRx, h.ts[H_R2T_PROC]), Stop(TrSub, h.ts[H_DATA_START])];
            var path := Out(h) + one + mid + two + Back(h);
            && Walk(NOTHING, HostStart(h), path) == Walk(m4, h.ts[H_RSP_ARR], Back(h))
            && Ends(HostStart(h), path) == h.ts[H_BLK_DONE]
  {
    var mid, s := [Stop(HostRx, h.ts[H_R2T_PROC]), Stop(TrSub, h.ts[H_DATA_START])], HostStart(h);
    OutWalk(h);
    WalkOn(NOTHING, s, Out(h), one);
    R2tWalk(m2, h);
    WalkOn(NOTHING, s, Out(h) + one, mid);
    WalkOn(NOTHING, s, Out(h) + one + mid, two);
    BackWalk(m4, h.ts[H_RSP_ARR], h);
    WalkOn(NOTHING, s, Out(h) + one + mid + two, Back(h));
  }

  lemma R2tAlone(h: Rec)
    requires h.transport == Tcp && IoClassOf(h) == WriteR2T
    ensures Walk(NOTHING, HostStart(h), PathOf(h, None)) == Main(HostPart(h))
    ensures Ends(HostStart(h), PathOf(h, None)) == h.ts[H_BLK_DONE]
  {
    var H, m1 := h.ts, Sent(h);
    var m2 := m1.(remote := Some(D(H[H_R2T_ARR], H[H_CMD_SENT])));
    RemoteWalk(m1, H[H_CMD_SENT], H[H_R2T_ARR]);
    var m3 := m2.(hostRx := Some(D(H[H_R2T_PROC], H[H_R2T_ARR])), trSub := Some(Val(m2.trSub) + D(H[H_DATA_START], H[H_R2T_PROC])));
    RemoteWalk(m3, H[H_DATA_START], H[H_RSP_ARR]);
    var m4 := m3.(remote := Some(Val(m3.remote) + D(H[H_RSP_ARR], H[H_DATA_START])));
    TwoTrips(h, [Stop(Remote, H[H_R2T_ARR])], [Stop(Remote, H[H_RSP_ARR])], m2, m4);
    BackWalk(m4, H[H_RSP_ARR], h);
  }

  lemma R2tJoined(h: Rec, t: Rec)
    requires h.transport == Tcp && IoClassOf(h) == WriteR2T
    ensures Walk(NOTHING, HostStart(h), PathOf(h, Some(t))) == Main(WithTarget(HostPart(h), t, WriteR2T))
    ensures Ends(HostStart(h), PathOf(h, Some(t))) == h.ts[H_BLK_DONE]
  {
    var H, m1, one, two := h.ts, Sent(h), FirstVisit(Some(t), h.ts[H_R2T_ARR]), SecondVisit(Some(t), h.ts[H_RSP_ARR]);
    FirstVisitWalk(m1, t, H[H_CMD_SENT], H[H_R2T_ARR]);
    var m2 := Walk(m1, H[H_CMD_SENT], one);
    var m3 := m2.(hostRx := Some(D(H[H_R2T_PROC], H[H_R2T_ARR])), trSub := Some(Val(m2.trSub) + D(H[H_DATA_START], H[H_R2T_PROC])));
    SecondVisitWalk(m3, t, H[H_DATA_START], H[H_RSP_ARR]);
    var m4 := Walk(m3, H[H_DATA_START], two);
    TwoTrips(h, one, two, m2, m4);
    BackWalk(m4, H[H_RSP_ARR], h);
    BackendMain(t.ts, SplitRemote(HostPart(h), t, WriteR2T));
  }

  // ---- the theorem ----

  /** The target record, where it is used. */
  function Used(h: Rec, t: Option<Rec>): Option<Rec> {
    if t.Some? && TargetUsable(h, t.value) then t else None
  }

  lemma WalksThePath(h: Rec, t: Option<Rec>)
    requires HostComplete(h)
    ensures Walk(NOTHING, HostStart(h), PathOf(h, Used(h, t))) == Main(BreakdownOf(h, t).1.comp)
    ensures Ends(HostStart(h), PathOf(h, Used(h, t))) == h.ts[H_BLK_DONE]
  {
    var u := Used(h, t);
    if h.transport == Rdma {
      if u == None { OneTripAlone(h); } else { RdmaJoined(h, u.value); }
    } else {
      match IoClassOf(h) {
        case Read => if u == None { ReadAlone(h); } else { ReadJoined(h, u.value); }
        case WriteInline => if u == None { OneTripAlone(h); } else { InlineJoined(h, u.value); }
        case WriteR2T => if u == None { R2tAlone(h); } else { R2tJoined(h, u.value); }
      }
    }
  }

  predicate Detail(c: Comp) {
    c == E2E || c == TgtBeSub || c == TgtDev || c == TgtBeCmpl || c == CmplIpi || c == NetData
  }

  /**
   For every complete host record, any target record or none: each component is valid exactly if it has a leg on the
   command's path, and is the time on its legs; the end-to-end time is the whole path.
   */
  lemma ComponentsArePath(h: Rec, t: Option<Rec>, c: Comp)
    requires HostComplete(h) && !Detail(c)
    ensures var path, s, m := PathOf(h, Used(h, t)), HostStart(h), BreakdownOf(h, t).1.comp;
            && m.At(c) == (if On(path, c) then Some(Along(s, path, c)) else None)
            && m.e2e == Some(Ends(s, path) - s)
  {
    WalksThePath(h, t);
    WalkIs(HostStart(h), PathOf(h, Used(h, t)), c);
    MainAt(BreakdownOf(h, t).1.comp, c);
    WholePath(h, t);
  }

  lemma MainAt(m: Comps, c: Comp)
    requires !Detail(c)
    ensures Main(m).At(c) == m.At(c)
  {
  }

  lemma WholePath(h: Rec, t: Option<Rec>)
    requires HostComplete(h)
    ensures BreakdownOf(h, t).1.comp.e2e == Some(Ends(HostStart(h), PathOf(h, Used(h, t))) - HostStart(h))
  {
    WalksThePath(h, t);
    Additive(h, t);
  }

  // ---- stages ----

  /** The stage of a leg. */
  function StageOfLeg(c: Comp): Option<Stage> {
    match c
    case BlkSub => Some(S1)
    case BlkCmpl => Some(S1)
    case TrSub => Some(S2)
    case TrCmpl => Some(S2)
    case HostData => Some(S2)
    case Net => Some(S3to5)
    case TgtRx => Some(S3to5)
    case HostRx => Some(S3to5)
    case HostWait => Some(S3to5)
    case TgtWait => Some(S3to5)
    case TgtSub => Some(S6)
    case TgtCmpl => Some(S6)
    case TgtData => Some(S6)
    case TgtBe => Some(S7to9)
    case _ => None
  }

  /** The time on the legs of a stage. */
  function InStage(start: int, path: seq<Stop>, s: Stage): int {
    if path == [] then 0
    else
      var rest, last := path[..|path| - 1], path[|path| - 1];
      InStage(start, rest, s) + if StageOfLeg(last.leg) == Some(s) then last.at - Ends(start, rest) else 0
  }

  /** The time on the legs of a stage, component by component. */
  function LegsOf(start: int, p: seq<Stop>, s: Stage): int {
    match s
    case S1 => Along(start, p, BlkSub) + Along(start, p, BlkCmpl)
    case S2 => Along(start, p, TrSub) + Along(start, p, TrCmpl) + Along(start, p, HostData)
    case S3to5 =>
      Along(start, p, Net) + Along(start, p, TgtRx) + Along(start, p, HostRx) + Along(start, p, HostWait) +
      Along(start, p, TgtWait)
    case S6 => Along(start, p, TgtSub) + Along(start, p, TgtCmpl) + Along(start, p, TgtData)
    case S7to9 => Along(start, p, TgtBe)
  }

  lemma {:induction false} StageIsItsLegs(start: int, p: seq<Stop>, s: Stage)
    ensures InStage(start, p, s) == LegsOf(start, p, s)
  {
    if p != [] { StageIsItsLegs(start, p[..|p| - 1], s); }
  }

  lemma ValueAlong(h: Rec, t: Option<Rec>, c: Comp)
    requires HostComplete(h) && !Detail(c)
    ensures Val(BreakdownOf(h, t).1.comp.At(c)) == Along(HostStart(h), PathOf(h, Used(h, t)), c)
  {
    ComponentsArePath(h, t, c);
    if !On(PathOf(h, Used(h, t)), c) { NotAlong(HostStart(h), PathOf(h, Used(h, t)), c); }
  }

  /**
   Each stage that is valid is the time on the legs of its components: S1 exactly with a usable start, S2 always, the
   others exactly with a target record used.
   */
  lemma StagesArePath(h: Rec, t: Option<Rec>, s: Stage)
    requires HostComplete(h)
    ensures var path, b := PathOf(h, Used(h, t)), BreakdownOf(h, t).1;
            b.stage.At(s) ==
            if s == S2 || (s == S1 && Started(h.ts)) || (s != S1 && Used(h, t).Some?)
            then Some(InStage(HostStart(h), path, s)) else None
  {
    StageValid(h, t, s);
    StageIsItsLegs(HostStart(h), PathOf(h, Used(h, t)), s);
    if BreakdownOf(h, t).1.stage.At(s).Some? { StageValue(h, t, s); }
  }

  lemma StageValid(h: Rec, t: Option<Rec>, s: Stage)
    requires HostComplete(h)
    ensures BreakdownOf(h, t).1.stage.At(s).Some? <==>
            s == S2 || (s == S1 && Started(h.ts)) || (s != S1 && Used(h, t).Some?)
  {
    Additive(h, t);
  }

  lemma StageValue(h: Rec, t: Option<Rec>, s: Stage)
    requires HostComplete(h) && BreakdownOf(h, t).1.stage.At(s).Some?
    ensures BreakdownOf(h, t).1.stage.At(s) == Some(LegsOf(HostStart(h), PathOf(h, Used(h, t)), s))
  {
    forall c: Comp | !Detail(c) ensures AlongIs(BreakdownOf(h, t).1.comp, HostStart(h), PathOf(h, Used(h, t)), c) {
      ValueAlong(h, t, c);
    }
    StagesOfBreakdown(h, t);
    StageAlong(BreakdownOf(h, t).1.comp, HostStart(h), PathOf(h, Used(h, t)), s);
  }

  lemma StageAlong(m: Comps, start: int, path: seq<Stop>, s: Stage)
    requires StagesOf(m).At(s).Some? && forall c: Comp :: !Detail(c) ==> AlongIs(m, start, path, c)
    ensures StagesOf(m).At(s).value == LegsOf(start, path, s)
  {
    StageSum(m, s);
    LegsAre(m, start, path, s);
  }

  lemma LegsAre(m: Comps, start: int, path: seq<Stop>, s: Stage)
    requires forall c: Comp :: !Detail(c) ==> AlongIs(m, start, path, c)
    ensures LegsOf(start, path, s) == PartsOf(m, s)
  {
    match s
    case S1 => assert AlongIs(m, start, path, BlkSub) && AlongIs(m, start, path, BlkCmpl);
    case S2 =>
      assert AlongIs(m, start, path, TrSub) && AlongIs(m, start, path, TrCmpl) && AlongIs(m, start, path, HostData);
    case S3to5 =>
      assert AlongIs(m, start, path, Net) && AlongIs(m, start, path, TgtRx) && AlongIs(m, start, path, HostRx) &&
             AlongIs(m, start, path, HostWait) && AlongIs(m, start, path, TgtWait);
    case S6 =>
      assert AlongIs(m, start, path, TgtSub) && AlongIs(m, start, path, TgtCmpl) && AlongIs(m, start, path, TgtData);
    case S7to9 => assert AlongIs(m, start, path, TgtBe);
  }

  /** The component is the time on its legs. */
  ghost predicate AlongIs(m: Comps, start: int, path: seq<Stop>, c: Comp) {
    Val(m.At(c)) == Along(start, path, c)
  }

  /** The components of a stage, where they are valid. */
  function PartsOf(m: Comps, s: Stage): int {
    match s
    case S1 => Val(m.At(BlkSub)) + Val(m.At(BlkCmpl))
    case S2 => Val(m.At(TrSub)) + Val(m.At(TrCmpl)) + Val(m.At(HostData))
    case S3to5 =>
      Val(m.At(Net)) + Val(m.At(TgtRx)) + Val(m.At(HostRx)) + Val(m.At(HostWait)) + Val(m.At(TgtWait))
    case S6 => Val(m.At(TgtSub)) + Val(m.At(TgtCmpl)) + Val(m.At(TgtData))
    case S7to9 => Val(m.At(TgtBe))
  }

  lemma StageSum(m: Comps, s: Stage)
    requires StagesOf(m).At(s).Some?
    ensures StagesOf(m).At(s).value == PartsOf(m, s)
  {
  }

  lemma StagesOfBreakdown(h: Rec, t: Option<Rec>)
    requires HostComplete(h)
    ensures BreakdownOf(h, t).1.stage == StagesOf(BreakdownOf(h, t).1.comp)
  {
  }

  // ---- details ----

  /** Inside the back end: to the drive's queue, the drive, and back. */
  function BackendPath(T: Stamps): seq<Stop> {
    [Stop(TgtBeSub, T[T_BE_ISSUE]), Stop(TgtDev, T[T_BE_DONE]), Stop(TgtBeCmpl, T[T_COMPLETE])]
  }

  /** The back end's split was seen: both drive events, the last before the completion. */
  predicate BackendSeen(t: Option<Rec>) {
    t.Some? && t.value.ts[T_BE_ISSUE] != 0 && t.value.ts[T_BE_DONE] != 0 && t.value.ts[T_BE_DONE] <= t.value.ts[T_COMPLETE]
  }

  /** The details of the back end in `m`: those of the path if they were seen, else none. */
  ghost predicate BackendReads(m: Comps, u: Option<Rec>) {
    if BackendSeen(u) then
      var T := u.value.ts;
      && Walk(NOTHING, T[T_EXEC], BackendPath(T)) ==
         NOTHING.(tgtBeSub := m.tgtBeSub, tgtDev := m.tgtDev, tgtBeCmpl := m.tgtBeCmpl)
      && m.tgtBe == Some(Val(m.tgtBeSub) + Val(m.tgtDev) + Val(m.tgtBeCmpl))
    else m.tgtBeSub == None && m.tgtDev == None && m.tgtBeCmpl == None
  }

  /** The back end's three details are the legs between EXEC and COMPLETE, valid together, and make up TGT_BE. */
  lemma BackendIsPath(h: Rec, t: Option<Rec>)
    requires HostComplete(h)
    ensures BackendReads(BreakdownOf(h, t).1.comp, Used(h, t))
  {
    var u := Used(h, t);
    BackendAlone(h);
    if u.Some? {
      if h.transport == Rdma { BackendRdma(HostPart(h), u.value); } else { BackendTcp(HostPart(h), u.value, IoClassOf(h)); }
    }
  }

  lemma BackendTcp(m: Comps, t: Rec, c: IoClass)
    requires m.tgtBeSub == None && m.tgtDev == None && m.tgtBeCmpl == None
    ensures BackendReads(WithTarget(m, t, c), Some(t))
  {
    SplitDetails(t.ts, SplitRemote(m, t, c));
    BackendWalk(t.ts);
  }

  lemma BackendRdma(m: Comps, t: Rec)
    requires m.tgtBeSub == None && m.tgtDev == None && m.tgtBeCmpl == None && RdmaUsable(t)
    ensures BackendReads(WithRdmaTarget(m, t), Some(t))
  {
    RdmaPosted(t);
    BackendStamps(t);
    SplitDetails(RdmaStamps(t), SplitRdma(m, RdmaStamps(t), RdmaRead in t.flags, Write in t.flags));
    BackendWalk(t.ts);
  }

  lemma BackendWalk(T: Stamps)
    ensures Walk(NOTHING, T[T_EXEC], BackendPath(T)) ==
            NOTHING.(tgtBeSub := Some(D(T[T_BE_ISSUE], T[T_EXEC])), tgtDev := Some(D(T[T_BE_DONE], T[T_BE_ISSUE])),
                     tgtBeCmpl := Some(D(T[T_COMPLETE], T[T_BE_DONE])))
  {
    Walk3(NOTHING, T[T_EXEC], Stop(TgtBeSub, T[T_BE_ISSUE]), Stop(TgtDev, T[T_BE_DONE]), Stop(TgtBeCmpl, T[T_COMPLETE]));
  }

  lemma BackendAlone(h: Rec)
    ensures var m := HostPart(h); m.tgtBeSub == None && m.tgtDev == None && m.tgtBeCmpl == None
    ensures HostPart(h).cmplIpi == CommonHost(h.ts).cmplIpi
  {
  }

  lemma SplitDetails(T: Stamps, split: Comps)
    requires split.tgtBeSub == None && split.tgtDev == None && split.tgtBeCmpl == None
    requires split.tgtBe == Some(D(T[T_COMPLETE], T[T_EXEC]))
    ensures var b := Backend(T, split);
            && b.tgtBe == split.tgtBe
            && if T[T_BE_ISSUE] != 0 && T[T_BE_DONE] != 0 && T[T_BE_DONE] <= T[T_COMPLETE] then
                 b.tgtBeSub == Some(D(T[T_BE_ISSUE], T[T_EXEC])) && b.tgtDev == Some(D(T[T_BE_DONE], T[T_BE_ISSUE])) &&
                 b.tgtBeCmpl == Some(D(T[T_COMPLETE], T[T_BE_DONE]))
               else b.tgtBeSub == None && b.tgtDev == None && b.tgtBeCmpl == None
  {
  }

  lemma BackendStamps(t: Rec)
    ensures RdmaStamps(t)[T_BE_ISSUE] == t.ts[T_BE_ISSUE] && RdmaStamps(t)[T_BE_DONE] == t.ts[T_BE_DONE]
    ensures RdmaStamps(t)[T_SEND_DONE] == t.ts[T_SEND_DONE]
  {
  }

  /** The interrupt's part of the completion, from the response's parsing on. */
  lemma IpiIsPath(h: Rec, t: Option<Rec>)
    requires HostComplete(h)
    ensures BreakdownOf(h, t).1.comp.cmplIpi ==
            if h.ts[H_NVME_DONE] != 0 then Some(Along(h.ts[H_RSP_PROC], [Stop(CmplIpi, h.ts[H_NVME_DONE])], CmplIpi))
            else None
  {
    assert [Stop(CmplIpi, h.ts[H_NVME_DONE])][..0] == [];
    BackendAlone(h);
    IpiKept(h, t);
  }

  lemma IpiKept(h: Rec, t: Option<Rec>)
    requires HostComplete(h)
    ensures BreakdownOf(h, t).1.comp.cmplIpi == HostPart(h).cmplIpi
  {
  }

  /** RDMA: when a read's data was posted; when that was not seen, its completion. */
  function DataPosted(t: Rec): u64 {
    var T := t.ts;
    if T[T_RSP_SENT] == 0 || (T[T_SEND_DONE] != 0 && T[T_RSP_SENT] > T[T_SEND_DONE]) then T[T_COMPLETE] else T[T_C2H_SENT]
  }

  /** The transfer of an RDMA command's data: a read's from its posting to the send completion, a write's fetch. */
  function TransferOf(t: Rec): Option<int> {
    var T := t.ts;
    if Write !in t.flags && DataPosted(t) != 0 && T[T_SEND_DONE] != 0 then Some(D(T[T_SEND_DONE], DataPosted(t)))
    else if RdmaRead in t.flags then Some(D(T[T_DATA_PROC], T[T_R2T_SENT]))
    else None
  }

  lemma NetDataIsTransfer(h: Rec, t: Option<Rec>)
    requires HostComplete(h)
    ensures BreakdownOf(h, t).1.comp.netData ==
            if h.transport == Rdma && Used(h, t).Some? then TransferOf(Used(h, t).value) else None
  {
    var u := Used(h, t);
    if u.Some? && h.transport == Rdma { TransferIs(HostPart(h), u.value); }
  }

  lemma TransferIs(m: Comps, t: Rec)
    requires m.netData == None && RdmaUsable(t)
    ensures WithRdmaTarget(m, t).netData == TransferOf(t)
  {
    BackendStamps(t);
  }

  // ---- when a record is used ----

  /** Every moment on the path has a stamp. */
  ghost predicate Seen(path: seq<Stop>) {
    forall s :: s in path ==> s.at != 0
  }

  lemma SeenConcat(a: seq<Stop>, b: seq<Stop>)
    ensures Seen(a + b) <==> Seen(a) && Seen(b)
  {
    assert forall s :: s in a || s in b ==> s in a + b;
  }

  lemma SeenEach(a: Stop, b: Stop, c: Stop)
    ensures Seen([a]) <==> a.at != 0
    ensures Seen([a, b]) <==> a.at != 0 && b.at != 0
    ensures Seen([a, b, c]) <==> a.at != 0 && b.at != 0 && c.at != 0
  {
    assert a in [a] && a in [a, b] && b in [a, b] && a in [a, b, c] && b in [a, b, c] && c in [a, b, c];
  }

  lemma OutSeen(h: Rec)
    requires h.ts[H_QUEUE_RQ] != 0
    ensures Seen(Out(h)) <==> h.ts[H_CMD_SENT] != 0
  {
    var a, b := Stop(BlkSub, h.ts[H_QUEUE_RQ]), Stop(TrSub, h.ts[H_CMD_SENT]);
    SeenEach(a, b, b);
    SeenEach(b, b, b);
    SeenConcat([a], [b]);
    assert [] + [b] == [b];
  }

  lemma PhaseSeen(work: Comp, wait: Comp, first: u64, done: u64, next: u64, busy: u64)
    ensures first != 0 ==> Seen(PhaseStops(work, wait, first, done, next, busy))
  {
  }

  lemma BackSeen(h: Rec)
    ensures Seen(Back(h)) <==> h.ts[H_RSP_PROC] != 0 && h.ts[H_BLK_DONE] != 0
  {
    SeenEach(Back(h)[0], Back(h)[1], Back(h)[2]);
  }

  lemma ReadBackSeen(h: Rec)
    ensures Seen(ReadBack(h)) <==> h.ts[H_C2H_PROC] != 0 && h.ts[H_RSP_PROC] != 0 && h.ts[H_BLK_DONE] != 0
  {
    var H := h.ts;
    var phase := PhaseStops(HostData, HostWait, H[H_C2H_PROC], H[H_C2H_DONE], H[H_RSP_PROC], h.busyNs);
    var a, b, c := Stop(HostRx, H[H_C2H_PROC]), Stop(TrCmpl, H[H_RSP_PROC]), Stop(BlkCmpl, H[H_BLK_DONE]);
    PhaseSeen(HostData, HostWait, H[H_C2H_PROC], H[H_C2H_DONE], H[H_RSP_PROC], h.busyNs);
    SeenEach(a, b, c);
    SeenEach(b, c, c);
    SeenConcat([a], phase);
    SeenConcat([a] + phase, [b, c]);
  }

  /** The host's own stamps on the way, beside those of a visit. */
  ghost predicate HostSeen(h: Rec) {
    var H := h.ts;
    && H[H_QUEUE_RQ] != 0 && H[H_CMD_SENT] != 0 && H[H_RSP_PROC] != 0 && H[H_BLK_DONE] != 0
    && (if h.transport == Tcp && Write !in h.flags then H[H_C2H_ARR] != 0 && H[H_C2H_PROC] != 0 else H[H_RSP_ARR] != 0)
    && (h.transport == Tcp && Write in h.flags && R2T in h.flags ==>
          H[H_R2T_ARR] != 0 && H[H_R2T_PROC] != 0 && H[H_DATA_START] != 0)
  }

  lemma HostSeenIs(h: Rec)
    ensures HostComplete(h) <==> HostSeen(h)
  {
    var H := h.ts;
    if h.transport == Rdma {
      assert HaveAll(H, HOST_NEEDS_RDMA) <==>
             H[H_QUEUE_RQ] != 0 && H[H_CMD_SENT] != 0 && H[H_RSP_ARR] != 0 && H[H_RSP_PROC] != 0 && H[H_BLK_DONE] != 0;
    }
  }

  lemma SeenFour(a: Stop, b: Stop, c: Stop, d: Stop)
    ensures Seen([a, b, c, d]) <==> a.at != 0 && b.at != 0 && c.at != 0 && d.at != 0
  {
    SeenEach(a, b, b);
    SeenEach(c, d, d);
    SeenConcat([a, b], [c, d]);
    assert [a, b] + [c, d] == [a, b, c, d];
  }

  /** The target's stamps on a plain visit. */
  predicate VisitStamped(T: Stamps, sent: u64) {
    T[T_CMD_ARR] != 0 && T[T_CMD_PROC] != 0 && T[T_EXEC] != 0 && T[T_COMPLETE] != 0 && sent != 0
  }

  lemma LastLegsSeen(T: Stamps, sent: u64, arr: u64)
    ensures Seen([Stop(TgtSub, T[T_EXEC]), Stop(TgtBe, T[T_COMPLETE]), Stop(TgtCmpl, sent), Stop(Net, arr)]) <==>
            T[T_EXEC] != 0 && T[T_COMPLETE] != 0 && sent != 0 && arr != 0
  {
    SeenFour(Stop(TgtSub, T[T_EXEC]), Stop(TgtBe, T[T_COMPLETE]), Stop(TgtCmpl, sent), Stop(Net, arr));
  }

  lemma OneVisitSeen(t: Option<Rec>, sent: nat, arr: u64)
    requires sent < EVENTS
    ensures Seen(OneVisit(t, sent, arr)) <==> arr != 0 && (t.Some? ==> VisitStamped(t.value.ts, t.value.ts[sent]))
  {
    if t == None {
      SeenEach(Stop(Remote, arr), Stop(Remote, arr), Stop(Remote, arr));
    } else {
      var T := t.value.ts;
      var two := [Stop(Net, T[T_CMD_ARR]), Stop(TgtRx, T[T_CMD_PROC])];
      var four := [Stop(TgtSub, T[T_EXEC]), Stop(TgtBe, T[T_COMPLETE]), Stop(TgtCmpl, T[sent]), Stop(Net, arr)];
      assert OneVisit(t, sent, arr) == two + four;
      SeenConcat(two, four);
      SeenEach(two[0], two[1], two[1]);
      LastLegsSeen(T, T[sent], arr);
    }
  }

  lemma FirstVisitSeen(t: Option<Rec>, arr: u64)
    ensures Seen(FirstVisit(t, arr)) <==>
            arr != 0 && (t.Some? ==> t.value.ts[T_CMD_ARR] != 0 && t.value.ts[T_CMD_PROC] != 0 && t.value.ts[T_R2T_SENT] != 0)
  {
    if t == None {
      SeenEach(Stop(Remote, arr), Stop(Remote, arr), Stop(Remote, arr));
    } else {
      var p := FirstVisit(t, arr);
      SeenFour(p[0], p[1], p[2], p[3]);
    }
  }

  lemma SecondVisitSeen(t: Option<Rec>, arr: u64)
    ensures Seen(SecondVisit(t, arr)) <==>
            arr != 0 && (t.Some? ==>
              var T := t.value.ts;
              T[T_DATA_ARR] != 0 && T[T_DATA_PROC] != 0 && T[T_EXEC] != 0 && T[T_COMPLETE] != 0 && T[T_RSP_SENT] != 0)
  {
    if t == None {
      SeenEach(Stop(Remote, arr), Stop(Remote, arr), Stop(Remote, arr));
    } else {
      var T := t.value.ts;
      var two := [Stop(Net, T[T_DATA_ARR]), Stop(TgtRx, T[T_DATA_PROC])];
      var phase := PhaseStops(TgtData, TgtWait, T[T_DATA_PROC], T[T_DATA_DONE], T[T_EXEC], t.value.busyNs);
      var four := [Stop(TgtSub, T[T_EXEC]), Stop(TgtBe, T[T_COMPLETE]), Stop(TgtCmpl, T[T_RSP_SENT]), Stop(Net, arr)];
      SecondVisitIs(t.value, arr);
      SeenConcat(two, phase + four);
      SeenConcat(phase, four);
      SeenEach(two[0], two[1], two[1]);
      PhaseSeen(TgtData, TgtWait, T[T_DATA_PROC], T[T_DATA_DONE], T[T_EXEC], t.value.busyNs);
      LastLegsSeen(T, T[T_RSP_SENT], arr);
    }
  }

  lemma RdmaVisitSeen(t: Option<Rec>, arr: u64)
    ensures Seen(RdmaVisit(t, arr)) <==>
            arr != 0 && (t.Some? ==>
              && VisitStamped(t.value.ts, PostedAt(t.value))
              && (RdmaRead in t.value.flags ==> t.value.ts[T_R2T_SENT] != 0 && t.value.ts[T_DATA_PROC] != 0))
  {
    if t == None {
      SeenEach(Stop(Remote, arr), Stop(Remote, arr), Stop(Remote, arr));
    } else {
      var T := t.value.ts;
      var two := [Stop(Net, T[T_CMD_ARR]), Stop(TgtRx, T[T_CMD_PROC])];
      var data := [Stop(TgtSub, T[T_R2T_SENT]), Stop(Net, T[T_DATA_PROC])];
      var fetch := if RdmaRead in t.value.flags then data else [];
      var four := [Stop(TgtSub, T[T_EXEC]), Stop(TgtBe, T[T_COMPLETE]), Stop(TgtCmpl, PostedAt(t.value)), Stop(Net, arr)];
      SeenConcat(two + fetch, four);
      SeenConcat(two, fetch);
      SeenEach(two[0], two[1], two[1]);
      SeenEach(data[0], data[1], data[1]);
      LastLegsSeen(T, PostedAt(t.value), arr);
    }
  }

  /** The target's stamps on the way of the command. */
  ghost predicate TargetSeen(h: Rec, t: Rec) {
    var T := t.ts;
    if h.transport == Rdma then
      VisitStamped(T, PostedAt(t)) && (RdmaRead in t.flags ==> T[T_R2T_SENT] != 0 && T[T_DATA_PROC] != 0)
    else if Write !in h.flags then VisitStamped(T, T[T_C2H_SENT])
    else
      && VisitStamped(T, T[T_RSP_SENT])
      && (R2T in h.flags ==> T[T_R2T_SENT] != 0 && T[T_DATA_ARR] != 0 && T[T_DATA_PROC] != 0)
  }

  lemma PathSeen(h: Rec, t: Option<Rec>)
    ensures h.ts[H_QUEUE_RQ] != 0 && Seen(PathOf(h, t)) <==> HostSeen(h) && (t.Some? ==> TargetSeen(h, t.value))
  {
    var H := h.ts;
    if H[H_QUEUE_RQ] != 0 {
      OutSeen(h);
      BackSeen(h);
      if h.transport == Rdma {
        RdmaVisitSeen(t, H[H_RSP_ARR]);
        TripSeen(Out(h), RdmaVisit(t, H[H_RSP_ARR]), Back(h));
      } else if Write !in h.flags {
        ReadBackSeen(h);
        OneVisitSeen(t, T_C2H_SENT, H[H_C2H_ARR]);
        TripSeen(Out(h), OneVisit(t, T_C2H_SENT, H[H_C2H_ARR]), ReadBack(h));
      } else if R2T !in h.flags {
        OneVisitSeen(t, T_RSP_SENT, H[H_RSP_ARR]);
        TripSeen(Out(h), OneVisit(t, T_RSP_SENT, H[H_RSP_ARR]), Back(h));
      } else {
        TwoTripsSeen(h, t);
      }
    }
  }

  lemma TripSeen(a: seq<Stop>, b: seq<Stop>, c: seq<Stop>)
    ensures Seen(a + b + c) <==> Seen(a) && Seen(b) && Seen(c)
  {
    SeenConcat(a, b);
    SeenConcat(a + b, c);
  }

  lemma TwoTripsSeen(h: Rec, t: Option<Rec>)
    requires h.transport == Tcp && Write in h.flags && R2T in h.flags && h.ts[H_QUEUE_RQ] != 0
    ensures Seen(PathOf(h, t)) <==> HostSeen(h) && (t.Some? ==> TargetSeen(h, t.value))
  {
    var H := h.ts;
    var one, two := FirstVisit(t, H[H_R2T_ARR]), SecondVisit(t, H[H_RSP_ARR]);
    var between := [Stop(HostRx, H[H_R2T_PROC]), Stop(TrSub, H[H_DATA_START])];
    OutSeen(h);
    BackSeen(h);
    FirstVisitSeen(t, H[H_R2T_ARR]);
    SecondVisitSeen(t, H[H_RSP_ARR]);
    SeenEach(between[0], between[1], between[1]);
    TripSeen(Out(h), one, between);
    TripSeen(Out(h) + one + between, two, Back(h));
  }

  /** A host record has a breakdown exactly if every moment on its own path was seen. */
  lemma CompleteIffSeen(h: Rec)
    ensures HostComplete(h) <==> h.ts[H_QUEUE_RQ] != 0 && Seen(PathOf(h, None))
  {
    HostSeenIs(h);
    PathSeen(h, None);
  }

  /** The two records are of the same kind: the same direction over RDMA, both with an R2T or neither over TCP. */
  predicate SameKind(h: Rec, t: Rec) {
    if h.transport == Rdma then t.transport == Rdma && (Write in t.flags <==> Write in h.flags)
    else R2T in t.flags <==> Write in h.flags && R2T in h.flags
  }

  lemma TargetSeenIs(h: Rec, t: Rec)
    ensures TargetUsable(h, t) <==>
            SameKind(h, t) && TargetSeen(h, t) &&
            (h.transport == Rdma ==> t.ts[T_RSP_SENT] != 0 || t.ts[T_SEND_DONE] != 0)
  {
    var T := t.ts;
    if h.transport == Rdma {
      assert HaveAll(T, TARGET_NEEDS_RDMA) <==>
             T[T_CMD_ARR] != 0 && T[T_CMD_PROC] != 0 && T[T_EXEC] != 0 && T[T_COMPLETE] != 0;
    }
  }

  /**
   A target record is used exactly if it is of the host record's kind and every moment on the path through it was seen;
   over RDMA the response's posting may be missing if its completion was seen.
   */
  lemma UsedIffSeen(h: Rec, t: Rec)
    requires HostComplete(h)
    ensures Used(h, Some(t)).Some? <==>
            SameKind(h, t) && Seen(PathOf(h, Some(t))) &&
            (h.transport == Rdma ==> t.ts[T_RSP_SENT] != 0 || t.ts[T_SEND_DONE] != 0)
  {
    HostSeenIs(h);
    PathSeen(h, Some(t));
    TargetSeenIs(h, t);
  }
}
