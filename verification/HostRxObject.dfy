/**
 The receive hooks of bpf/nvme_tcp_host.bpf.c and bpf/host.bpf.h on what they work on: one context per CPU, the table of
 requests, the index of cids and ntp_inflight. Each does exactly what ReadPhase says of its event.
 */
module HostRxObject {
  import opened Records
  import opened ReadPhase
  import TargetSlots
  import HostObject

  class HostRx {
    const rx: array<Rx>  // one per CPU
    const reqs: array<Slot>  // rq 0 = free
    const cids: array<CidEntry>
    const lay: Layout
    var inflight: int  // ntp_inflight
    ghost var past: Past

    ghost function Open(): map<SlotNo, Slot>
      requires reqs.Length == TargetSlots.SLOTS
      reads reqs
    {
      map i: SlotNo | reqs[i].rq != 0 :: reqs[i]
    }

    ghost function Index(): map<SlotNo, CidEntry>
      requires cids.Length == TargetSlots.SLOTS
      reads cids
    {
      map i: SlotNo | true :: cids[i]
    }

    ghost function View(): State
      requires reqs.Length == TargetSlots.SLOTS == cids.Length
      reads this, reqs, cids, rx
    {
      State(rx[..], Open(), Index(), past)
    }

    ghost predicate Valid()
      reads this, reqs, cids, rx
    {
      && reqs.Length == TargetSlots.SLOTS == cids.Length && |past.wrote| == rx.Length
      && reqs as object != rx && reqs as object != cids && rx as object != cids
      && inflight == |Open()|
    }

    constructor (cpus: nat, lay: Layout)
      ensures Valid() && fresh(rx) && fresh(reqs) && fresh(cids) && this.lay == lay
      ensures View() == Start(cpus, Index())
    {
      rx := new Rx[cpus](_ => NO_RX);
      reqs := new Slot[TargetSlots.SLOTS](_ => Slot(0, 0, 0, NEW_READ));
      cids := new CidEntry[TargetSlots.SLOTS](_ => HostObject.CidEntry(0, 0, 0));
      this.lay, inflight, past := lay, 0, Past(0, 0, seq(cpus, _ => 0), map[], map[], map[]);
      new;
      assert Open() == map[];
      assert rx[..] == seq(cpus, _ => NO_RX);
    }

    /** host_entry() */
    method Find(rq: u64) returns (found: bool, i: SlotNo)
      requires Valid()
      ensures i == lay.slot(rq) && found == (reqs[i].rq == rq)
      ensures rq != 0 ==> found == Has(View(), rq, lay)
      ensures rq == 0 ==> found == (i !in Open())
    {
      i := lay.slot(rq);
      found := reqs[i].rq == rq;
    }

    method Store(i: SlotNo, x: Slot)
      requires reqs.Length == TargetSlots.SLOTS
      modifies reqs
      ensures x.rq != 0 ==> Open() == old(Open())[i := x]
      ensures x.rq == 0 ==> Open() == old(Open()) - {i}
      ensures |Open()| == |old(Open())| + (if x.rq != 0 then 1 else 0) - (if i in old(Open()) then 1 else 0)
    {
      TargetSlots.CardUpdate(Open(), i, x);
      if i in Open() { TargetSlots.CardRemove(Open(), i); }
      reqs[i] := x;
      assert x.rq != 0 ==> Open() == old(Open())[i := x];
      assert x.rq == 0 ==> Open() == old(Open()) - {i};
    }

    /** host_data_done(), for the record that the context names, if there is one */
    method DataDone(cpu: nat, at: nat)
      requires Valid() && cpu < rx.Length && rx[cpu].dataRq != 0
      modifies reqs, rx, this`past
      ensures Valid() && View() == Close(old(View()), at, cpu, lay)
    {
      ghost var s := View();
      var c := rx[cpu];
      var found, i := Find(c.dataRq);
      if found {
        past := Close(s, at, cpu, lay).past;
        if c.busyFrom != 0 && at >= c.busyFrom {
          var r := reqs[i].rec;
          Store(i, reqs[i].(rec := r.(busyNs := r.busyNs + (at - c.busyFrom), skbs := r.skbs + 1, done := at)));
        }
        rx[cpu] := c.(dataRq := 0, busyFrom := 0);
        assert rx[..] == s.rx[cpu := c.(dataRq := 0, busyFrom := 0)];
      }
    }

    ghost method Tick(at: nat)
      requires Valid()
      modifies this`past
      ensures Valid() && View() == At(old(View()), at)
    {
      past := past.(now := at);
    }

    /** on_recv_skb() */
    method OnRecvSkb(cpu: nat, tid: u64, at: nat, queue: u64, skb: u64)
      requires Valid() && cpu < rx.Length
      modifies rx, this`past
      ensures Valid() && View() == Step(old(View()), RxEnter(at, cpu, tid, queue, skb), lay)
    {
      ghost var t := Step(View(), RxEnter(at, cpu, tid, queue, skb), lay);
      assert inflight == 0 <==> Open() == map[];
      if inflight != 0 {
        rx[cpu] := Rx(tid, queue, skb, at, 0, 0);
      }
      past := t.past;
      assert rx[..] == t.rx;
    }

    /** on_copy() */
    method OnCopyData(cpu: nat, tid: u64, at: nat, skb: u64, data: bool, cid: u16)
      requires Valid() && cpu < rx.Length
      modifies rx, reqs, this`past
      ensures Valid() && View() == Step(old(View()), Copy(at, cpu, tid, skb, data, cid), lay)
    {
      Tick(at);
      assert inflight == 0 <==> Open() == map[];
      if inflight == 0 || rx[cpu].tid != tid || rx[cpu].skb != skb || !data {
        return;
      }
      var c := cids[lay.cidSlot(rx[cpu].queue, cid)];
      if c.queue != rx[cpu].queue || c.cid != cid {
        return;
      }
      CopyOf(cpu, tid, at, c.rq, Copy(at, cpu, tid, skb, data, cid));
    }

    /** Its part for the request that the index names, which may be none. */
    method CopyOf(cpu: nat, tid: u64, at: nat, rq: u64, ghost e: Event)
      requires Valid() && cpu < rx.Length && e.Copy? && e.cpu == cpu && e.tid == tid && e.at == at
      requires InCall(View(), e, lay) && Indexed(View(), e, lay) == rq
      modifies rx, reqs, this`past
      ensures Valid() && View() == OnCopy(old(View()), e, lay)
    {
      ghost var s := View();
      var found, i := Find(rq);
      if !found || rx[cpu].dataRq == rq {
        return;
      }
      var switched := rx[cpu].dataRq != 0;
      if switched {
        DataDone(cpu, at);
      }
      if rq == 0 {
        rx[cpu] := rx[cpu].(dataRq := 0, busyFrom := at);
        assert rx[..] == Close(s, at, cpu, lay).rx[cpu := rx[cpu]];
      } else {
        NameIt(cpu, tid, at, rq, switched);
      }
    }

    /** Its end: the context names the read. */
    method NameIt(cpu: nat, tid: u64, at: nat, rq: u64, switched: bool)
      requires Valid() && cpu < rx.Length && rq != 0 && Has(View(), rq, lay)
      modifies rx, reqs, this`past
      ensures Valid() && View() == Name(old(View()), at, cpu, tid, rq, switched, lay)
    {
      ghost var s := View();
      var i := lay.slot(rq);
      var x := reqs[i];
      past := Name(s, at, cpu, tid, rq, switched, lay).past;
      if x.rec.proc == 0 {
        Store(i, x.(rec := x.rec.(proc := at)));
        rx[cpu] := rx[cpu].(dataRq := rq, busyFrom := at);
      } else {
        rx[cpu] := rx[cpu].(dataRq := rq, busyFrom := if switched then at else rx[cpu].enter);
      }
      assert rx[..] == s.rx[cpu := rx[cpu]];
    }

    /** host_complete() */
    method OnHostComplete(cpu: nat, tid: u64, at: nat, rq: u64)
      requires Valid() && cpu < rx.Length && rq != 0
      modifies rx, reqs, this`past
      ensures Valid() && View() == Step(old(View()), Complete(at, cpu, tid, rq), lay)
    {
      Tick(at);
      assert inflight == 0 <==> Open() == map[];
      var found, i := Find(rq);
      if inflight == 0 || rx[cpu].tid != tid || !found {
        return;
      }
      Store(i, reqs[i].(rec := reqs[i].rec.(rspProc := at)));
      if rx[cpu].dataRq == rq {
        DataDone(cpu, at);
      }
    }

    /** on_recv_skb_exit() */
    method OnRecvSkbExit(cpu: nat, tid: u64, at: nat)
      requires Valid() && cpu < rx.Length
      modifies rx, reqs, this`past
      ensures Valid() && View() == Step(old(View()), RxExit(at, cpu, tid), lay)
    {
      Tick(at);
      ghost var s := View();
      if rx[cpu].tid == tid {
        if rx[cpu].dataRq != 0 {
          DataDone(cpu, at);
        }
        assert View() == Close(s, at, cpu, lay);
        rx[cpu] := rx[cpu].(tid := 0);
        assert rx[..] == Close(s, at, cpu, lay).rx[cpu := rx[cpu]];
      }
      past := Leave(past, tid, at);
    }

    /** The end of ntp_h_setup_cmd */
    method OnSetupCmd(at: nat, rq: u64, queue: u64, cid: u16)
      requires Valid() && rq != 0
      modifies reqs, cids, this`past, this`inflight
      ensures Valid() && View() == Step(old(View()), Setup(at, rq, queue, cid), lay)
    {
      ghost var t := Step(View(), Setup(at, rq, queue, cid), lay);
      var i, j := lay.slot(rq), lay.cidSlot(queue, cid);
      if reqs[i].rq == 0 {
        inflight := inflight + 1;
      }
      Store(i, Slot(rq, queue, cid, NEW_READ));
      cids[j] := HostObject.CidEntry(queue, cid, rq);
      assert Index() == old(Index())[j := HostObject.CidEntry(queue, cid, rq)];
      past := t.past;
    }

    /** The end of ntp_h_blk_done */
    method OnBlkDone(at: nat, rq: u64)
      requires Valid() && rq != 0
      modifies reqs, cids, this`past, this`inflight
      ensures Valid() && View() == Step(old(View()), Gone(at, rq), lay)
    {
      Tick(at);
      var found, i := Find(rq);
      if found {
        var j := lay.cidSlot(reqs[i].queue, reqs[i].cid);
        Store(i, reqs[i].(rq := 0));
        if cids[j].rq == rq {
          cids[j] := cids[j].(rq := 0);
          assert Index() == old(Index())[j := old(Index())[j].(rq := 0)];
        }
        inflight := inflight - 1;
      }
    }
  }
}
