/**
 The host's record life cycle (bpf/host.bpf.h): records found by their request's address in a table of slots, an index
 for the hooks that know a queue and a cid instead, and ntp_inflight. First what the hooks do to the open records; then the object with its table, its shortcut, and its habit of following a cleared index entry.
 */
module HostObject {
  import opened Records
  import opened TargetSlots

  datatype HostEntry = HostEntry(rq: u64, queue: u64, rec: Rec)

  /** struct cid_slot; rq 0 once the request completed */
  datatype CidEntry = CidEntry(queue: u64, cid: u16, rq: u64)

  datatype HostState = HostState(open: map<SlotNo, HostEntry>, index: map<SlotNo, CidEntry>, sent: seq<Rec>,
                                 sampled: nat, emitted: nat, drops: nat, stale: nat)

  /** Where a request's record and a (queue, cid) pair live; nothing depends on how the addresses are mixed. */
  datatype Layout = Layout(slot: u64 -> SlotNo, cidSlot: (u64, u16) -> SlotNo)

  predicate Recorded(s: HostState, rq: u64, at: Layout) {
    at.slot(rq) in s.open && s.open[at.slot(rq)].rq == rq
  }

  function StampRec(r: Rec, event: nat, once: bool, now: u64): Rec
    requires event < EVENTS
  {
    if once && r.ts[event] != 0 then r else r.(ts := r.ts[event := now])
  }

  /** A hook that knows the request. */
  function StampRq(s: HostState, rq: u64, event: nat, once: bool, now: u64, at: Layout): HostState
    requires event < EVENTS
  {
    if !Recorded(s, rq, at) then s
    else
      var e := s.open[at.slot(rq)];
      s.(open := s.open[at.slot(rq) := e.(rec := StampRec(e.rec, event, once, now))])
  }

  /** A hook that knows only the queue and the cid: the request last set up under them, if it is still open. */
  function StampCid(s: HostState, queue: u64, cid: u16, event: nat, once: bool, now: u64, at: Layout): HostState
    requires event < EVENTS
  {
    var c := at.cidSlot(queue, cid);
    if c in s.index && s.index[c].queue == queue && s.index[c].cid == cid && s.index[c].rq != 0
    then StampRq(s, s.index[c].rq, event, once, now, at) else s
  }

  /** ntp_h_setup_cmd, for a sampled request */
  function Setup(s: HostState, e: HostEntry, at: Layout): HostState {
    s.(open := s.open[at.slot(e.rq) := e],
       index := s.index[at.cidSlot(e.queue, e.rec.id.cid) := CidEntry(e.queue, e.rec.id.cid, e.rq)],
       sampled := s.sampled + 1, stale := s.stale + if at.slot(e.rq) in s.open then 1 else 0)
  }

  function Done(r: Rec, now: u64): Rec {
    var stamped := r.(ts := r.ts[H_BLK_DONE := now]);
    if r.transport == Tcp && Write in r.flags && R2T !in r.flags then stamped.(flags := r.flags + {InlineData})
    else stamped
  }

  /** ntp_h_blk_done: emit the record, clear its index entry, free its slot */
  function BlkDone(s: HostState, rq: u64, now: u64, full: bool, at: Layout): HostState {
    if !Recorded(s, rq, at) then s
    else
      var e := s.open[at.slot(rq)];
      var c := at.cidSlot(e.queue, e.rec.id.cid);
      var left := s.(open := s.open - {at.slot(rq)},
                     index := if c in s.index && s.index[c].rq == rq then s.index[c := s.index[c].(rq := 0)]
                              else s.index);
      if full then left.(drops := s.drops + 1)
      else left.(emitted := s.emitted + 1, sent := s.sent + [Done(e.rec, now)])
  }

  // ---- every reachable state ----

  datatype HostHook =
    | OfRequest(rq: u64, event: nat, once: bool, now: u64)
    | OfCid(queue: u64, cid: u16, event: nat, once: bool, now: u64)
    | OfSetup(e: HostEntry)
    | OfDone(rq: u64, now: u64, full: bool)
  {
    predicate WellFormed() {
      match this
      case OfRequest(rq, e, _, _) => rq != 0 && e < EVENTS
      case OfCid(_, _, e, _, _) => e < EVENTS
      case OfSetup(e) => e.rq != 0
      case OfDone(rq, _, _) => rq != 0
    }
  }

  function HostStep(s: HostState, h: HostHook, at: Layout): HostState
    requires h.WellFormed()
  {
    match h
    case OfRequest(rq, e, once, now) => StampRq(s, rq, e, once, now, at)
    case OfCid(q, cid, e, once, now) => StampCid(s, q, cid, e, once, now, at)
    case OfSetup(e) => Setup(s, e, at)
    case OfDone(rq, now, full) => BlkDone(s, rq, now, full, at)
  }

  /** Each open record sits in its request's slot, and their number is SAMPLED - EMITTED - RB_DROPS - STALE. */
  ghost predicate HostInv(s: HostState, at: Layout) {
    && s.sampled == s.emitted + s.drops + s.stale + |s.open|
    && forall i :: i in s.open ==> s.open[i].rq != 0 && at.slot(s.open[i].rq) == i
  }

  lemma HostStepKeeps(s: HostState, h: HostHook, at: Layout)
    requires HostInv(s, at) && h.WellFormed()
    ensures HostInv(HostStep(s, h, at), at)
  {
    match h
    case OfRequest(rq, e, once, now) => StampRqKeeps(s, rq, e, once, now, at);
    case OfCid(q, cid, e, once, now) =>
      var c := at.cidSlot(q, cid);
      if c in s.index { StampRqKeeps(s, s.index[c].rq, e, once, now, at); }
    case OfSetup(e) => CardUpdate(s.open, at.slot(e.rq), e);
    case OfDone(rq, now, full) => if Recorded(s, rq, at) { CardRemove(s.open, at.slot(rq)); }
  }

  lemma StampRqKeeps(s: HostState, rq: u64, event: nat, once: bool, now: u64, at: Layout)
    requires HostInv(s, at) && event < EVENTS
    ensures HostInv(StampRq(s, rq, event, once, now, at), at)
  {
    if Recorded(s, rq, at) {
      var e := s.open[at.slot(rq)];
      CardUpdate(s.open, at.slot(rq), e.(rec := StampRec(e.rec, event, once, now)));
    }
  }

  /** No record yet; the index is an array of zeros. */
  ghost const HOST_IDLE := HostState(map[], map i: SlotNo | true :: CidEntry(0, 0, 0), [], 0, 0, 0, 0)

  ghost function HostRunOf(hooks: seq<HostHook>, at: Layout): HostState
    requires forall i :: 0 <= i < |hooks| ==> hooks[i].WellFormed()
  {
    if hooks == [] then HOST_IDLE else HostStep(HostRunOf(hooks[..|hooks| - 1], at), hooks[|hooks| - 1], at)
  }

  lemma {:induction false} HostBalance(hooks: seq<HostHook>, at: Layout)
    requires forall i :: 0 <= i < |hooks| ==> hooks[i].WellFormed()
    ensures HostInv(HostRunOf(hooks, at), at)
  {
    if hooks != [] {
      HostBalance(hooks[..|hooks| - 1], at);
      HostStepKeeps(HostRunOf(hooks[..|hooks| - 1], at), hooks[|hooks| - 1], at);
    }
  }

  // ---- the object ----

  class HostBpf {
    const reqs: array<HostEntry>  // rq 0 = free
    const cids: array<CidEntry>
    const at: Layout
    var inflight: int
    var sampled: nat
    var emitted: nat
    var drops: nat
    var stale: nat
    var sent: seq<Rec>

    ghost function Open(): map<SlotNo, HostEntry>
      requires reqs.Length == SLOTS
      reads reqs
    {
      map i: SlotNo | reqs[i].rq != 0 :: reqs[i]
    }

    ghost function Index(): map<SlotNo, CidEntry>
      requires cids.Length == SLOTS
      reads cids
    {
      map i: SlotNo | true :: cids[i]
    }

    ghost function View(): HostState
      requires reqs.Length == SLOTS && cids.Length == SLOTS
      reads this, reqs, cids
    {
      HostState(Open(), Index(), sent, sampled, emitted, drops, stale)
    }

    ghost predicate Valid()
      reads this, reqs, cids
    {
      && reqs.Length == SLOTS && cids.Length == SLOTS && reqs as object != cids
      && inflight == |Open()|
      && inflight == sampled - emitted - drops - stale
    }

    constructor (at: Layout, unused: HostEntry)
      requires unused.rq == 0
      ensures Valid() && fresh(reqs) && fresh(cids) && View() == HOST_IDLE && this.at == at
    {
      this.at := at;
      reqs := new HostEntry[SLOTS](_ => unused);
      cids := new CidEntry[SLOTS](_ => CidEntry(0, 0, 0));
      inflight, sampled, emitted, drops, stale, sent := 0, 0, 0, 0, 0, [];
      new;
      assert Open() == map[];
    }

    /** host_rec() and a stamp, as every hook has them: rq 0 finds a free slot and writes into what is wiped later. */
    method StampSlot(rq: u64, event: nat, once: bool, now: u64)
      requires Valid() && event < EVENTS
      modifies reqs
      ensures Valid() && Index() == old(Index())
      ensures View() == if rq == 0 then old(View()) else StampRq(old(View()), rq, event, once, now, at)
    {
      var slot := at.slot(rq);
      var e := reqs[slot];
      if e.rq != rq {
        return;
      }
      var stamped := e.(rec := StampRec(e.rec, event, once, now));
      reqs[slot] := stamped;
      assert rq != 0 ==> Open() == old(Open())[slot := stamped];
      assert rq == 0 ==> Open() == old(Open());
    }

    method OnStamp(rq: u64, event: nat, once: bool, now: u64)
      requires Valid() && rq != 0 && event < EVENTS
      modifies reqs
      ensures Valid() && View() == HostStep(old(View()), OfRequest(rq, event, once, now), at)
    {
      if inflight != 0 {
        StampSlot(rq, event, once, now);
      }
    }

    /** host_rec_by_cid(): the index entry may have been cleared (its rq 0); no open record changes then. */
    method OnStampByCid(queue: u64, cid: u16, event: nat, once: bool, now: u64)
      requires Valid() && event < EVENTS
      modifies reqs
      ensures Valid() && View() == HostStep(old(View()), OfCid(queue, cid, event, once, now), at)
    {
      if inflight == 0 {
        return;
      }
      var c := cids[at.cidSlot(queue, cid)];
      if c.queue == queue && c.cid == cid {
        StampSlot(c.rq, event, once, now);
      }
    }

    /** The last part of ntp_h_setup_cmd: take the slot, wipe it, fill it in, and enter it in the index. */
    method OnSetup(e: HostEntry)
      requires Valid() && e.rq != 0
      modifies this`stale, this`inflight, this`sampled, reqs, cids
      ensures Valid() && View() == HostStep(old(View()), OfSetup(e), at)
    {
      var slot, c := at.slot(e.rq), at.cidSlot(e.queue, e.rec.id.cid);
      CardUpdate(Open(), slot, e);
      if reqs[slot].rq != 0 {
        stale := stale + 1;
      } else {
        inflight := inflight + 1;
      }
      reqs[slot] := e;
      cids[c] := CidEntry(e.queue, e.rec.id.cid, e.rq);
      sampled := sampled + 1;
      assert Open() == old(Open())[slot := e];
      assert Index() == old(Index())[c := CidEntry(e.queue, e.rec.id.cid, e.rq)];
    }

    method Free(rq: u64)
      requires Valid() && rq != 0 && reqs[at.slot(rq)].rq == rq
      modifies reqs, cids
      ensures Open() == old(Open()) - {at.slot(rq)} && |Open()| == |old(Open())| - 1
      ensures var e := old(reqs[at.slot(rq)]);
              var c := at.cidSlot(e.queue, e.rec.id.cid);
              Index() == if old(Index())[c].rq == rq then old(Index())[c := old(Index())[c].(rq := 0)] else old(Index())
    {
      var slot := at.slot(rq);
      var c := at.cidSlot(reqs[slot].queue, reqs[slot].rec.id.cid);
      CardRemove(Open(), slot);
      if cids[c].rq == rq {
        cids[c] := cids[c].(rq := 0);
        assert Index() == old(Index())[c := old(Index())[c].(rq := 0)];
      }
      reqs[slot] := reqs[slot].(rq := 0);
      assert Open() == old(Open()) - {slot};
    }

    method OnBlkDone(rq: u64, now: u64, full: bool)
      requires Valid() && rq != 0
      modifies this`drops, this`emitted, this`sent, this`inflight, reqs, cids
      ensures Valid() && View() == HostStep(old(View()), OfDone(rq, now, full), at)
    {
      if inflight == 0 || reqs[at.slot(rq)].rq != rq {
        return;
      }
      var rec := Done(reqs[at.slot(rq)].rec, now);
      Free(rq);
      if full {
        drops := drops + 1;
      } else {
        sent, emitted := sent + [rec], emitted + 1;
      }
      inflight := inflight - 1;
    }
  }
}
