/**
 The target's BPF object (bpf/target.bpf.h, bpf/common.bpf.h): a direct-mapped array of slots and ntp_inflight, the
 counter that lets hooks return at once while it is 0. Each hook, with its shortcut, does exactly what TargetSlots
 says without one, in every state, because the counter always equals the number of occupied slots.
 */
module TargetObject {
  import opened Records
  import opened TargetSlots

  /** struct tgt_entry; req 0 = free */
  datatype Slot = Slot(req: u64, rec: Rec)

  /** Who is behind a slot's record: TargetSlots needs it, the program does not have it. */
  datatype Origin = Origin(cmd: nat, writer: Writers)

  ghost predicate Tagged(recs: seq<Rec>, entries: seq<Entry>) {
    |entries| == |recs| && forall i :: 0 <= i < |recs| ==> entries[i].rec == recs[i]
  }

  class TargetBpf {
    const slots: array<Slot>  // treqs
    const slotOf: u64 -> SlotNo  // SlotOf(); nothing below depends on how it mixes
    var inflight: int  // ntp_inflight
    var armed: bool
    var sampled: nat
    var emitted: nat
    var drops: nat
    var stale: nat
    var sent: seq<Rec>  // what the ring buffer took

    ghost var origins: seq<Origin>
    ghost var entries: seq<Entry>  // `sent`, with who is behind each record
    ghost var carries: map<u64, nat>
    ghost var begun: nat

    ghost function EntryAt(i: SlotNo): Entry
      requires slots.Length == SLOTS == |origins|
      reads slots, this`origins
    {
      Entry(slots[i].req, slots[i].rec, origins[i].cmd, origins[i].writer)
    }

    ghost function Open(): map<SlotNo, Entry>
      requires slots.Length == SLOTS == |origins|
      reads slots, this`origins
    {
      map i: SlotNo | slots[i].req != 0 :: EntryAt(i)
    }

    ghost function View(): State
      requires slots.Length == SLOTS == |origins|
      reads this, slots
    {
      State(Open(), entries, armed, sampled, emitted, drops, stale, carries, begun)
    }

    /** The counter is exact: occupied slots = ntp_inflight = SAMPLED - EMITTED - RB_DROPS - STALE. */
    ghost predicate Valid()
      reads this, slots
    {
      && slots.Length == SLOTS == |origins|
      && inflight == |Open()|
      && inflight == sampled - emitted - drops - stale
      && Tagged(sent, entries)
    }

    constructor (unused: Rec)
      ensures Valid() && fresh(slots) && View() == IDLE
    {
      slots := new Slot[SLOTS](_ => Slot(0, unused));
      slotOf := SlotOf;
      inflight, armed, sampled, emitted, drops, stale := 0, false, 0, 0, 0, 0;
      sent, entries, carries, begun := [], [], map[], 0;
      origins := seq(SLOTS, _ => Origin(0, AllBy(0)));
      new;
      assert Open() == map[];
    }

    method SetArmed(on: bool)
      requires Valid()
      modifies this`armed
      ensures Valid() && View() == Step(old(View()), Arm(on), slotOf)
    {
      armed := on;
    }

    /** An occupied or free slot gets new contents. */
    method Put(slot: SlotNo, req: u64, rec: Rec, ghost cmd: nat, ghost writer: Writers)
      requires slots.Length == SLOTS == |origins| && req != 0
      modifies slots, this`origins
      ensures |origins| == SLOTS && Open() == old(Open())[slot := Entry(req, rec, cmd, writer)]
      ensures |Open()| == |old(Open())| + if slot in old(Open()) then 0 else 1
      ensures slots[slot].req == req
    {
      CardUpdate(Open(), slot, Entry(req, rec, cmd, writer));
      slots[slot], origins := Slot(req, rec), origins[slot := Origin(cmd, writer)];
      assert Open() == old(Open())[slot := Entry(req, rec, cmd, writer)];
    }

    /** A timestamp-only hook: on_exec, block_rq_issue, block_rq_complete, nvmet_req_complete, and the transports'. */
    method OnStamp(req: u64, event: nat, once: bool, now: u64, ghost who: nat)
      requires Valid() && Stamp(req, event, once, now, who).WellFormed()
      modifies slots, this`origins
      ensures Valid() && View() == Step(old(View()), Stamp(req, event, once, now, who), slotOf)
    {
      if inflight == 0 {
        return;
      }
      var slot := slotOf(req);
      var e := slots[slot];
      if e.req != req || (once && e.rec.ts[event] != 0) {
        assert e.req == req ==> Open()[slot := EntryAt(slot)] == Open();
        return;
      }
      ghost var was := EntryAt(slot);
      Put(slot, req, e.rec.(ts := e.rec.ts[event := now]), was.cmd, was.writer[event := who]);
    }

    /** tgt_emit() */
    method Emit(req: u64, full: bool)
      requires Valid() && req != 0
      modifies this`drops, this`emitted, this`sent, this`entries, this`inflight, slots
      ensures Valid()
      ensures View() == if Has(old(View()), slotOf(req), req) then TargetSlots.Emit(old(View()), slotOf(req), full)
                        else old(View())
    {
      if slots[slotOf(req)].req == req {
        EmitAt(slotOf(req), full);
      }
    }

    method EmitAt(slot: SlotNo, full: bool)
      requires Valid() && slots[slot].req != 0
      modifies this`drops, this`emitted, this`sent, this`entries, this`inflight, slots
      ensures Valid() && View() == TargetSlots.Emit(old(View()), slot, full)
    {
      Output(slots[slot].rec, EntryAt(slot), full);
      Free(slot);
    }

    /** The ring buffer takes the record, or is full. */
    method Output(rec: Rec, ghost e: Entry, full: bool)
      requires e.rec == rec && Tagged(sent, entries)
      modifies this`drops, this`emitted, this`sent, this`entries
      ensures Tagged(sent, entries)
      ensures full ==> drops == old(drops) + 1 && emitted == old(emitted) && entries == old(entries)
      ensures !full ==> drops == old(drops) && emitted == old(emitted) + 1 && entries == old(entries) + [e]
    {
      if full {
        drops := drops + 1;
      } else {
        sent, entries, emitted := sent + [rec], entries + [e], emitted + 1;
      }
    }

    method Free(slot: SlotNo)
      requires slots.Length == SLOTS == |origins| && slots[slot].req != 0 && inflight == |Open()|
      modifies slots, this`inflight
      ensures Open() == old(Open()) - {slot} && inflight == |Open()| == old(inflight) - 1
    {
      CardRemove(Open(), slot);
      slots[slot] := slots[slot].(req := 0);
      assert Open() == old(Open()) - {slot};
      inflight := inflight - 1;
    }

    /** The part of nvmet_req_init that ends a record still open under this nvmet_req, behind its own shortcut. */
    method EmitReused(req: u64, full: bool)
      requires Valid() && req != 0
      modifies this`drops, this`emitted, this`sent, this`entries, this`inflight, this`origins, slots
      ensures Valid() && View() == Reuse(old(View()), slotOf(req), req, full)
      ensures slots[slotOf(req)].req != req
    {
      if inflight != 0 {
        var slot := slotOf(req);
        var e := slots[slot];
        if e.req == req {
          ghost var was := EntryAt(slot);
          Put(slot, req, e.rec.(flags := e.rec.flags + {Reused}), was.cmd, was.writer);
          Emit(req, full);
        }
      }
    }

    /** Its part that takes the slot for a sampled command. */
    method Take(req: u64, rec: Rec, ghost cmd: nat, ghost writer: Writers)
      requires Valid() && req != 0
      modifies this`stale, this`inflight, this`sampled, this`origins, slots
      ensures Valid() && View() == TargetSlots.Open(old(View()), slotOf(req), Entry(req, rec, cmd, writer))
    {
      CountTaken(slotOf(req));
      Put(slotOf(req), req, rec, cmd, writer);
    }

    /** The counters of a slot that is taken: a record still in it is lost, else one more is in flight. */
    method CountTaken(slot: SlotNo)
      requires slots.Length == SLOTS == |origins|
      modifies this`stale, this`inflight, this`sampled
      ensures sampled == old(sampled) + 1
      ensures stale == old(stale) + if slot in Open() then 1 else 0
      ensures inflight == old(inflight) + if slot in Open() then 0 else 1
    {
      if slots[slot].req != 0 {
        stale := stale + 1;
      } else {
        inflight := inflight + 1;
      }
      sampled := sampled + 1;
    }

    ghost method BeginCommand(req: u64)
      requires Valid()
      modifies this`begun, this`carries
      ensures Valid() && View() == Begin(old(View()), req)
    {
      begun, carries := begun + 1, carries[req := begun + 1];
    }

    /** ntp_t_req_init */
    method OnReqInit(req: u64, ioQueue: bool, ours: bool, sample: bool, id: CmdId, write: bool, arrival: u64, now: u64,
                     full: bool)
      requires Valid() && ReqInit(req, ioQueue, ours, sample, id, write, arrival, now, full).WellFormed()
      modifies this, slots
      ensures Valid()
      ensures View() == Step(old(View()), ReqInit(req, ioQueue, ours, sample, id, write, arrival, now, full), slotOf)
    {
      if !armed || !ioQueue || !ours {
        BeginCommand(req);
        return;
      }
      InitIs(View(), ReqInit(req, ioQueue, ours, sample, id, write, arrival, now, full), slotOf);
      Recorded(req, sample, id, write, arrival, now, full);
    }

    /** Its part for a command of the recording. */
    method Recorded(req: u64, sample: bool, id: CmdId, write: bool, arrival: u64, now: u64, full: bool)
      requires Valid() && req != 0
      modifies this`drops, this`emitted, this`sent, this`entries, this`inflight, this`origins, this`begun, this`carries
      modifies this`stale, this`sampled, slots
      ensures Valid()
      ensures var s := old(View());
              var free := Begin(Reuse(s, slotOf(req), req, full), req);
              View() == if sample then
                          TargetSlots.Open(free, slotOf(req), Fresh(req, id, write, arrival, now, s.begun + 1))
                        else free
    {
      EmitReused(req, full);
      BeginCommand(req);
      if sample {
        Take(req, FreshRec(id, write, arrival, now), begun, AllBy(begun));
      }
    }

    /** The send of the response: stamp it, then tgt_finish. */
    method OnFinish(req: u64, event: nat, now: u64, full: bool, ghost who: nat)
      requires Valid() && Finish(req, event, now, full, who).WellFormed()
      modifies this`drops, this`emitted, this`sent, this`entries, this`inflight, this`origins, slots
      ensures Valid() && View() == Step(old(View()), Finish(req, event, now, full, who), slotOf)
    {
      OnStamp(req, event, false, now, who);
      Emit(req, full);
    }
  }
}
