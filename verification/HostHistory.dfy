/**
 What a host record holds. HostObject shows what each hook does and that the books balance; here the open and the
 emitted records are read off the hooks alone: who has a record, which request a queue and a cid mean, and when each
 event was.
 */
module HostHistory {
  import opened Records
  import opened TargetSlots
  import opened HostObject

  predicate AllWellFormed(hooks: seq<HostHook>) {
    forall i :: 0 <= i < |hooks| ==> hooks[i].WellFormed()
  }

  // ---- what the hooks say ----

  /** The request's record as nvme_setup_cmd made it, until it completes or another request takes its slot. */
  function Held(hooks: seq<HostHook>, rq: u64, at: Layout): Option<HostEntry> {
    var n := |hooks| - 1;
    if hooks == [] then None
    else
      var before := Held(hooks[..n], rq, at);
      match hooks[n]
      case OfSetup(e) => if e.rq == rq then Some(e) else if at.slot(e.rq) == at.slot(rq) then None else before
      case OfDone(done, _, _) => if done == rq then None else before
      case _ => before
  }

  /** The index entry: the last request set up there; its request is 0 once that one completed. */
  function Entry(hooks: seq<HostHook>, j: SlotNo, at: Layout): CidEntry {
    var n := |hooks| - 1;
    if hooks == [] then CidEntry(0, 0, 0)
    else
      var before := Entry(hooks[..n], j, at);
      match hooks[n]
      case OfSetup(e) =>
        if at.cidSlot(e.queue, e.rec.id.cid) == j then CidEntry(e.queue, e.rec.id.cid, e.rq) else before
      case OfDone(done, _, _) =>
        var h := Held(hooks[..n], done, at);
        if h.Some? && at.cidSlot(h.value.queue, h.value.rec.id.cid) == j && before.rq == done then before.(rq := 0)
        else before
      case _ => before
  }

  /** The request that a stamping hook is about (0: none). */
  function Meant(hooks: seq<HostHook>, h: HostHook, at: Layout): u64 {
    match h
    case OfRequest(rq, _, _, _) => rq
    case OfCid(queue, cid, _, _, _) =>
      var x := Entry(hooks, at.cidSlot(queue, cid), at);
      if x.queue == queue && x.cid == cid then x.rq else 0
    case _ => 0
  }

  /** The time of an event of the request: what the setup gave it, then the first time if `once`, else the last. */
  function TimeOf(hooks: seq<HostHook>, rq: u64, event: nat, at: Layout): u64
    requires event < EVENTS
  {
    var n := |hooks| - 1;
    if hooks == [] then 0
    else
      var h, before := hooks[n], TimeOf(hooks[..n], rq, event, at);
      if h.OfSetup? then if h.e.rq == rq then h.e.rec.ts[event] else before
      else if h.OfDone? || Meant(hooks[..n], h, at) != rq || h.event != event || (h.once && before != 0) then before
      else h.now
  }

  /** The record with the times that the hooks say. */
  function WithTimes(r: Rec, hooks: seq<HostHook>, rq: u64, at: Layout): Rec {
    var ts: Stamps := seq(EVENTS, e requires 0 <= e < EVENTS => TimeOf(hooks, rq, e, at));
    r.(ts := ts)
  }

  function CompletedAt(ts: Stamps, event: nat, now: u64): u64
    requires event < EVENTS
  {
    if event == H_BLK_DONE then now else ts[event]
  }

  /** A completed request's record: BLK_DONE is the completion; a TCP write that no R2T came for had inline data. */
  function Completed(r: Rec, now: u64): Rec {
    var ts: Stamps := seq(EVENTS, e requires 0 <= e < EVENTS => CompletedAt(r.ts, e, now));
    r.(ts := ts, flags := r.flags + if r.transport.Tcp? && Write in r.flags && R2T !in r.flags then {InlineData} else {})
  }

  /** What goes to the ring buffer, in order of completion. */
  function SentBy(hooks: seq<HostHook>, at: Layout): seq<Rec> {
    var n := |hooks| - 1;
    if hooks == [] then []
    else
      var h, sent := hooks[n], SentBy(hooks[..n], at);
      if h.OfDone? && !h.full && Held(hooks[..n], h.rq, at).Some? then
        sent + [Completed(WithTimes(Held(hooks[..n], h.rq, at).value.rec, hooks[..n], h.rq, at), h.now)]
      else sent
  }

  // ---- and what the records hold ----

  ghost predicate Told(s: HostState, hooks: seq<HostHook>, rq: u64, at: Layout) {
    match Held(hooks, rq, at)
    case None => !Recorded(s, rq, at)
    case Some(e) => Recorded(s, rq, at) && s.open[at.slot(rq)] == e.(rec := WithTimes(e.rec, hooks, rq, at))
  }

  ghost predicate IndexTold(s: HostState, hooks: seq<HostHook>, j: SlotNo, at: Layout) {
    j in s.index && s.index[j] == Entry(hooks, j, at)
  }

  ghost predicate AllTold(s: HostState, hooks: seq<HostHook>, at: Layout) {
    && (forall rq: u64 :: rq != 0 ==> Told(s, hooks, rq, at))
    && (forall j: SlotNo :: IndexTold(s, hooks, j, at))
    && s.sent == SentBy(hooks, at)
  }

  /** A stamping hook changes one event of one request. */
  lemma StampSays(hooks: seq<HostHook>, h: HostHook, r: Rec, rq: u64, at: Layout)
    requires h.WellFormed() && (h.OfRequest? || h.OfCid?)
    ensures Held(hooks + [h], rq, at) == Held(hooks, rq, at)
    ensures WithTimes(r, hooks + [h], rq, at) ==
            if Meant(hooks, h, at) == rq then StampRec(WithTimes(r, hooks, rq, at), h.event, h.once, h.now)
            else WithTimes(r, hooks, rq, at)
  {
    var all := hooks + [h];
    assert all[..|hooks|] == hooks && all[|hooks|] == h;
    var was := WithTimes(r, hooks, rq, at);
    var x := if Meant(hooks, h, at) == rq then StampRec(was, h.event, h.once, h.now) else was;
    forall e | 0 <= e < EVENTS ensures WithTimes(r, all, rq, at).ts[e] == x.ts[e] {
      assert was.ts[e] == TimeOf(hooks, rq, e, at) && was.ts[h.event] == TimeOf(hooks, rq, h.event, at);
    }
  }

  lemma OthersSay(hooks: seq<HostHook>, h: HostHook, r: Rec, rq: u64, at: Layout)
    requires (h.OfSetup? && h.e.rq != rq) || h.OfDone?
    ensures WithTimes(r, hooks + [h], rq, at) == WithTimes(r, hooks, rq, at)
  {
    var all := hooks + [h];
    assert all[..|hooks|] == hooks && all[|hooks|] == h;
    forall e | 0 <= e < EVENTS ensures WithTimes(r, all, rq, at).ts[e] == WithTimes(r, hooks, rq, at).ts[e] { }
  }

  lemma SetupSays(hooks: seq<HostHook>, e: HostEntry, at: Layout)
    ensures WithTimes(e.rec, hooks + [OfSetup(e)], e.rq, at) == e.rec
  {
    var all := hooks + [OfSetup(e)];
    assert all[..|hooks|] == hooks && all[|hooks|] == OfSetup(e);
    forall k | 0 <= k < EVENTS ensures WithTimes(e.rec, all, e.rq, at).ts[k] == e.rec.ts[k] { }
  }

  lemma HeldNext(hooks: seq<HostHook>, h: HostHook, rq: u64, at: Layout)
    requires h.OfSetup? || h.OfDone?
    ensures Held(hooks + [h], rq, at) ==
            match h
            case OfSetup(e) =>
              if e.rq == rq then Some(e) else if at.slot(e.rq) == at.slot(rq) then None else Held(hooks, rq, at)
            case OfDone(done, _, _) => if done == rq then None else Held(hooks, rq, at)
            case _ => None
  {
    assert (hooks + [h])[..|hooks|] == hooks;
  }

  /** The hook stamps the record of the request that it means. */
  lemma StampIs(s: HostState, hooks: seq<HostHook>, h: HostHook, at: Layout)
    requires AllTold(s, hooks, at) && h.WellFormed() && (h.OfRequest? || h.OfCid?)
    ensures HostStep(s, h, at) == var rq := Meant(hooks, h, at);
              if rq == 0 then s else StampRq(s, rq, h.event, h.once, h.now, at)
  {
    if h.OfCid? { assert IndexTold(s, hooks, at.cidSlot(h.queue, h.cid), at); }
  }

  lemma StampTold(s: HostState, hooks: seq<HostHook>, h: HostHook, rq: u64, at: Layout)
    requires AllTold(s, hooks, at) && h.WellFormed() && (h.OfRequest? || h.OfCid?) && rq != 0
    ensures Told(HostStep(s, h, at), hooks + [h], rq, at)
  {
    StampIs(s, hooks, h, at);
    assert Told(s, hooks, rq, at);
    match Held(hooks, rq, at)
    case Some(e) => StampSays(hooks, h, e.rec, rq, at);
    case None => assert Held(hooks + [h], rq, at).None? by { assert (hooks + [h])[..|hooks|] == hooks; }
  }

  lemma TableTold(s: HostState, hooks: seq<HostHook>, h: HostHook, rq: u64, at: Layout)
    requires AllTold(s, hooks, at) && h.WellFormed() && (h.OfSetup? || h.OfDone?) && rq != 0
    ensures Told(HostStep(s, h, at), hooks + [h], rq, at)
  {
    HeldNext(hooks, h, rq, at);
    assert Told(s, hooks, rq, at);
    if h.OfSetup? && h.e.rq == rq {
      SetupSays(hooks, h.e, at);
    } else if Held(hooks, rq, at).Some? {
      OthersSay(hooks, h, Held(hooks, rq, at).value.rec, rq, at);
    }
  }

  lemma IndexNext(s: HostState, hooks: seq<HostHook>, h: HostHook, j: SlotNo, at: Layout)
    requires AllTold(s, hooks, at) && h.WellFormed()
    ensures IndexTold(HostStep(s, h, at), hooks + [h], j, at)
  {
    assert (hooks + [h])[..|hooks|] == hooks;
    assert IndexTold(s, hooks, j, at);
    if h.OfDone? { assert Told(s, hooks, h.rq, at); }
    if h.OfRequest? || h.OfCid? { StampIs(s, hooks, h, at); }
  }

  lemma DoneIs(r: Rec, now: u64)
    ensures Done(r, now) == Completed(r, now)
  {
    assert Done(r, now).ts == Completed(r, now).ts;
  }

  lemma SentNext(s: HostState, hooks: seq<HostHook>, h: HostHook, at: Layout)
    requires AllTold(s, hooks, at) && h.WellFormed()
    ensures HostStep(s, h, at).sent == SentBy(hooks + [h], at)
  {
    assert (hooks + [h])[..|hooks|] == hooks;
    if h.OfDone? {
      assert Told(s, hooks, h.rq, at);
      if Recorded(s, h.rq, at) { DoneIs(s.open[at.slot(h.rq)].rec, h.now); }
    }
    if h.OfRequest? || h.OfCid? { StampIs(s, hooks, h, at); }
  }

  lemma ToldNext(s: HostState, hooks: seq<HostHook>, h: HostHook, at: Layout)
    requires AllTold(s, hooks, at) && h.WellFormed()
    ensures AllTold(HostStep(s, h, at), hooks + [h], at)
  {
    SentNext(s, hooks, h, at);
    forall j: SlotNo ensures IndexTold(HostStep(s, h, at), hooks + [h], j, at) {
      IndexNext(s, hooks, h, j, at);
    }
    forall rq: u64 | rq != 0 ensures Told(HostStep(s, h, at), hooks + [h], rq, at) {
      if h.OfSetup? || h.OfDone? { TableTold(s, hooks, h, rq, at); } else { StampTold(s, hooks, h, rq, at); }
    }
  }

  /**
   Over every run of host hooks the records are those of the history: who has one and with which stamps, also where a
   hook knows only a queue and a cid; and the ring buffer got exactly the completed requests' records, in order.
   */
  lemma {:induction false} RecordsAreHistory(hooks: seq<HostHook>, at: Layout)
    requires AllWellFormed(hooks)
    ensures AllTold(HostRunOf(hooks, at), hooks, at)
  {
    if hooks != [] {
      var n := |hooks| - 1;
      assert hooks == hooks[..n] + [hooks[n]];
      RecordsAreHistory(hooks[..n], at);
      ToldNext(HostRunOf(hooks[..n], at), hooks[..n], hooks[n], at);
    }
  }
}
