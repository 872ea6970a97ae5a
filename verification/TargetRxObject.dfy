/**
 The copy hooks of bpf/nvme_tcp_target.bpf.c on what they work on: one context per CPU, the table of records and
 ntp_inflight. Each does exactly what WritePhase says of its event.
 */
module TargetRxObject {
  import opened Records
  import opened WritePhase
  import TargetSlots

  class TargetRx {
    const rx: array<Rx>  // one per CPU
    const slots: array<Slot>  // treqs; req 0 = free
    const slotOf: u64 -> SlotNo
    var inflight: int  // ntp_inflight
    ghost var past: Past

    ghost function Open(): map<SlotNo, Slot>
      requires slots.Length == TargetSlots.SLOTS
      reads slots
    {
      map i: SlotNo | slots[i].req != 0 :: slots[i]
    }

    ghost function View(): State
      requires slots.Length == TargetSlots.SLOTS
      reads this, slots, rx
    {
      State(rx[..], Open(), past)
    }

    ghost predicate Valid()
      reads this, slots, rx
    {
      && slots.Length == TargetSlots.SLOTS && |past.wrote| == rx.Length && slots as object != rx
      && inflight == |Open()|
    }

    constructor (cpus: nat, slotOf: u64 -> SlotNo)
      ensures Valid() && fresh(rx) && fresh(slots) && View() == Start(cpus) && this.slotOf == slotOf
    {
      rx := new Rx[cpus](_ => Rx(0, 0, 0));
      slots := new Slot[TargetSlots.SLOTS](_ => Slot(0, NEW_WRITE));
      this.slotOf, inflight, past := slotOf, 0, Start(cpus).past;
      new;
      assert Open() == map[];
      assert rx[..] == Start(cpus).rx;
    }

    method OnCopy(cpu: nat, tid: u64, at: nat, offset: int)
      requires Valid() && cpu < rx.Length
      modifies rx, this`past
      ensures Valid() && View() == Step(old(View()), CopyStart(at, cpu, tid, offset), slotOf)
    {
      ghost var after := Step(View(), CopyStart(at, cpu, tid, offset), slotOf);
      assert inflight != 0 <==> Open() != map[];
      rx[cpu] := Rx(tid, if inflight != 0 then at else 0, offset);
      past := after.past;
      assert rx[..] == after.rx;
    }

    /** tgt_rec(): where the command's record is */
    method Find(req: u64) returns (found: bool, slot: SlotNo)
      requires Valid()
      ensures slot == slotOf(req) && found == (req != 0 && Has(View(), req, slotOf))
      ensures found ==> slots[slot] == View().recs[slot]
    {
      slot := slotOf(req);
      found := req != 0 && slots[slot].req == req;
    }

    method Store(slot: SlotNo, req: u64, r: WriteRec)
      requires slots.Length == TargetSlots.SLOTS && req != 0
      modifies slots
      ensures Open() == old(Open())[slot := Slot(req, r)]
      ensures |Open()| == |old(Open())| + if slot in old(Open()) then 0 else 1
    {
      TargetSlots.CardUpdate(Open(), slot, Slot(req, r));
      slots[slot] := Slot(req, r);
      assert Open() == old(Open())[slot := Slot(req, r)];
    }

    method OnCopyDone(cpu: nat, tid: u64, at: nat, ok: bool, req: u64)
      requires Valid() && cpu < rx.Length
      modifies rx, slots, this`past
      ensures Valid() && View() == Step(old(View()), CopyEnd(at, cpu, tid, ok, req), slotOf)
    {
      ghost var s := View();
      past := Step(s, CopyEnd(at, cpu, tid, ok, req), slotOf).past;
      if inflight == 0 || rx[cpu].tid != tid {
        return;
      }
      var c := rx[cpu];
      rx[cpu] := c.(enter := 0);
      assert rx[..] == s.rx[cpu := c.(enter := 0)];
      var found, slot := Find(req);
      if c.enter == 0 || !ok || !found {
        return;
      }
      var r := slots[slot].rec;
      if !r.r2t || r.dataProc == 0 || r.exec != 0 {
        return;
      }
      var from := if r.skbs == 0 && c.offset > 0 then r.dataProc else c.enter;
      if at < from {
        return;
      }
      Store(slot, req, r.(busyNs := r.busyNs + (at - from), skbs := r.skbs + 1, dataDone := at));
    }

    method OnH2c(at: nat, req: u64)
      requires Valid() && req != 0
      modifies slots, this`past
      ensures Valid() && View() == Step(old(View()), H2c(at, req), slotOf)
    {
      ghost var s := View();
      var found, slot := Find(req);
      if inflight != 0 && found && slots[slot].rec.r2tSent != 0 && slots[slot].rec.dataProc == 0 {
        Store(slot, req, slots[slot].rec.(r2t := true, dataProc := at));
      }
      past := Step(s, H2c(at, req), slotOf).past;
    }

    method OnExec(at: nat, req: u64)
      requires Valid() && req != 0
      modifies slots, this`past
      ensures Valid() && View() == Step(old(View()), Exec(at, req), slotOf)
    {
      ghost var s := View();
      var found, slot := Find(req);
      if inflight != 0 && found && slots[slot].rec.exec == 0 {
        Store(slot, req, slots[slot].rec.(exec := at));
      }
      past := Step(s, Exec(at, req), slotOf).past;
    }

    method OnR2tSent(at: nat, req: u64)
      requires Valid() && req != 0
      modifies slots, this`past
      ensures Valid() && View() == Step(old(View()), R2tSent(at, req), slotOf)
    {
      ghost var s := View();
      var found, slot := Find(req);
      if inflight != 0 && found && slots[slot].rec.r2tSent == 0 {
        Store(slot, req, slots[slot].rec.(r2tSent := at));
      }
      past := Step(s, R2tSent(at, req), slotOf).past;
    }

    /** nvmet_req_init takes the slot. */
    method OnOpen(at: nat, req: u64)
      requires Valid() && req != 0
      modifies slots, this`past, this`inflight
      ensures Valid() && View() == Step(old(View()), Opens(at, req), slotOf)
    {
      ghost var s := View();
      var slot := slotOf(req);
      if slots[slot].req == 0 {
        inflight := inflight + 1;
      }
      Store(slot, req, NEW_WRITE);
      past := Step(s, Opens(at, req), slotOf).past;
    }

    method Free(slot: SlotNo)
      requires slots.Length == TargetSlots.SLOTS && slots[slot].req != 0
      modifies slots
      ensures Open() == old(Open()) - {slot} && |Open()| == |old(Open())| - 1
    {
      TargetSlots.CardRemove(Open(), slot);
      slots[slot] := slots[slot].(req := 0);
      assert Open() == old(Open()) - {slot};
    }

    /** tgt_emit frees it. */
    method OnEmit(at: nat, req: u64)
      requires Valid() && req != 0
      modifies slots, this`past, this`inflight
      ensures Valid() && View() == Step(old(View()), Gone(at, req), slotOf)
    {
      ghost var s := View();
      var found, slot := Find(req);
      if found {
        Free(slot);
        inflight := inflight - 1;
      }
      past := Step(s, Gone(at, req), slotOf).past;
    }
  }
}
