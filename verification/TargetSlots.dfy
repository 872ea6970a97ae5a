/**
 The target's record life cycle (bpf/target.bpf.h): a record is opened by nvmet_req_init, stamped by later hooks that
 know only the nvmet_req, and emitted by the last one. Records live in a direct-mapped table; a counter of open records
 lets most hooks return at once. This module says what the hooks do to the open records, without table and counter.
 */
module TargetSlots {
  import opened Records

  const SLOTS := 0x4000

  type SlotNo = i: int | 0 <= i < SLOTS

  /** ntp_slot(): the low bits of a mixed address. */
  function SlotOf(addr: u64): SlotNo {
    var a := addr as bv64;
    ((((a >> 6) ^ (a >> 26)) * 0x9e3779b1) as nat) % SLOTS
  }

  /**
   A record under construction. `cmd` is the command that opened it and `writer` the command behind each stamp: the
   program does not have them, they are what the properties are about.
   */
  datatype Entry = Entry(req: u64, rec: Rec, cmd: nat, writer: Writers)

  type Writers = s: seq<nat> | |s| == EVENTS witness seq(EVENTS, _ => 0)

  /** Every stamp in the record comes from the command that opened it. */
  ghost predicate Own(e: Entry) {
    forall i :: 0 <= i < EVENTS ==> e.rec.ts[i] == 0 || e.writer[i] == e.cmd
  }

  /** The property this is about: no record, open or emitted, holds another command's stamp. */
  ghost predicate AllOwn(s: State) {
    (forall i :: i in s.open ==> Own(s.open[i])) && (forall e :: e in s.sent ==> Own(e))
  }

  /**
   `open` holds the records by slot, `sent` those handed to the ring buffer. The counters are NTP_CNT_TGT_SAMPLED,
   _EMITTED, _RB_DROPS and _STALE. `carries` says which command each nvmet_req carries now; commands are numbered.
   */
  datatype State = State(open: map<SlotNo, Entry>, sent: seq<Entry>, armed: bool,
                         sampled: nat, emitted: nat, drops: nat, stale: nat,
                         carries: map<u64, nat>, begun: nat)

  const IDLE := State(map[], [], false, 0, 0, 0, 0, map[], 0)

  datatype Hook =
    /** nvmet_req_init: on an I/O queue, of this transport, to be sampled (opcode, filter, hash)? */
    | ReqInit(req: u64, ioQueue: bool, ours: bool, sample: bool, id: CmdId, write: bool, arrival: u64, now: u64,
              full: bool)
    /**
     a hook that stamps one event of the record, if there is one; `once` keeps the first time. It fires on behalf of
     command `who`, which need not be the one that the nvmet_req carries by then
     */
    | Stamp(req: u64, event: nat, once: bool, now: u64, who: nat)
    /** the response goes out: stamp it and emit the record (tgt_finish) */
    | Finish(req: u64, event: nat, now: u64, full: bool, who: nat)
    | Arm(on: bool)
  {
    predicate WellFormed() {
      match this
      case ReqInit(req, _, _, _, _, _, arrival, now, _) => req != 0 && arrival != 0 && now != 0
      case Stamp(req, e, _, now, _) => req != 0 && e < EVENTS && now != 0
      case Finish(req, e, now, _, _) => req != 0 && e < EVENTS && now != 0
      case Arm(_) => true
    }
  }

  /** tgt_entry(): the record open under this nvmet_req. */
  predicate Has(s: State, slot: SlotNo, req: u64) {
    slot in s.open && s.open[slot].req == req
  }

  function Stamped(e: Entry, event: nat, once: bool, now: u64, who: nat): Entry
    requires event < EVENTS
  {
    if once && e.rec.ts[event] != 0 then e
    else e.(rec := e.rec.(ts := e.rec.ts[event := now]), writer := e.writer[event := who])
  }

  /** tgt_emit() */
  function Emit(s: State, slot: SlotNo, full: bool): State
    requires slot in s.open
  {
    var left := s.(open := s.open - {slot});
    if full then left.(drops := s.drops + 1)
    else left.(emitted := s.emitted + 1, sent := s.sent + [s.open[slot]])
  }

  function AllBy(cmd: nat): Writers {
    seq(EVENTS, _ => cmd)
  }

  function FreshRec(id: CmdId, write: bool, arrival: u64, now: u64): Rec {
    var ts: Stamps := NO_STAMPS[T_CMD_ARR := arrival][T_CMD_PROC := now];
    Target(Tcp, if write then {Write} else {}, id, 0, ts, 0, 0, 0, 0)
  }

  function Fresh(req: u64, id: CmdId, write: bool, arrival: u64, now: u64, cmd: nat): Entry {
    Entry(req, FreshRec(id, write, arrival, now), cmd, AllBy(cmd))
  }

  /** The slot is taken for a new record; one still in it is lost. */
  function Open(s: State, slot: SlotNo, e: Entry): State {
    s.(open := s.open[slot := e], sampled := s.sampled + 1, stale := s.stale + if slot in s.open then 1 else 0)
  }

  function StampAt(s: State, slot: SlotNo, req: u64, event: nat, once: bool, now: u64, who: nat): State
    requires event < EVENTS
  {
    if Has(s, slot, req) then s.(open := s.open[slot := Stamped(s.open[slot], event, once, now, who)]) else s
  }

  function Reuse(s: State, slot: SlotNo, req: u64, full: bool): State {
    if Has(s, slot, req) then
      var was := s.open[slot];
      var flagged := was.(rec := was.rec.(flags := was.rec.flags + {Reused}));
      Emit(s.(open := s.open[slot := flagged]), slot, full)
    else s
  }

  /** The nvmet_req carries a new command from here on. */
  function Begin(s: State, req: u64): State {
    s.(begun := s.begun + 1, carries := s.carries[req := s.begun + 1])
  }

  /** The hook's effect, with the record's slot given (SlotOf of its address). */
  function StepAt(s: State, h: Hook, slot: SlotNo): State
    requires h.WellFormed()
  {
    match h
    case Arm(on) => s.(armed := on)
    case Stamp(req, e, once, now, who) => StampAt(s, slot, req, e, once, now, who)
    case Finish(req, e, now, full, who) =>
      if Has(s, slot, req) then Emit(StampAt(s, slot, req, e, false, now, who), slot, full) else s
    case ReqInit(req, ioQueue, ours, sample, id, write, arrival, now, full) =>
      if !s.armed || !ioQueue || !ours then Begin(s, req)
      else
        var free := Begin(Reuse(s, slot, req, full), req);
        if sample then Open(free, slot, Fresh(req, id, write, arrival, now, s.begun + 1)) else free
  }

  // ---- every reachable state ----

  /** The books balance: open records = SAMPLED - EMITTED - RB_DROPS - STALE. */
  ghost predicate Balanced(s: State) {
    s.sampled == s.emitted + s.drops + s.stale + |s.open|
  }

  /** An open record belongs to the command its nvmet_req carries now, and every record holds that one's stamps only. */
  ghost predicate Inv(s: State, slotOf: u64 -> SlotNo) {
    && Balanced(s)
    && (forall i :: i in s.open ==> EntryOk(s, s.open[i], i, slotOf))
    && (forall e :: e in s.sent ==> Own(e))
    && (forall r :: r in s.carries ==> s.carries[r] <= s.begun)
  }

  ghost predicate EntryOk(s: State, e: Entry, slot: SlotNo, slotOf: u64 -> SlotNo) {
    && slotOf(e.req) == slot && e.req != 0 && Own(e)
    && e.req in s.carries && s.carries[e.req] == e.cmd
  }

  /** The hook fires while its nvmet_req still carries its command. */
  predicate Punctual(s: State, h: Hook) {
    (h.Stamp? || h.Finish?) && h.req in s.carries ==> h.who == s.carries[h.req]
  }

  /** The hook is for a command that the recording does not take. */
  predicate Outside(s: State, h: Hook) {
    h.ReqInit? && (!s.armed || !h.ioQueue || !h.ours)
  }

  /**
   The guards that keep stamps apart: a command outside the recording must not get an nvmet_req whose record is still
   open, for nvmet_req_init returns before it looks; and a hook that writes a stamp that is kept must be punctual.
   */
  predicate Benign(s: State, h: Hook, slotOf: u64 -> SlotNo) {
    match h
    case Arm(_) => true
    case ReqInit(req, _, _, _, _, _, _, _, _) => Outside(s, h) ==> !Has(s, slotOf(req), req)
    case Stamp(req, e, once, _, _) =>
      e < EVENTS && Has(s, slotOf(req), req) && !(once && s.open[slotOf(req)].rec.ts[e] != 0) ==> Punctual(s, h)
    case Finish(req, _, _, full, _) => Has(s, slotOf(req), req) && !full ==> Punctual(s, h)
  }

  function Step(s: State, h: Hook, slotOf: u64 -> SlotNo): State
    requires h.WellFormed()
  {
    StepAt(s, h, if h.Arm? then 0 else slotOf(h.req))
  }

  lemma CardRemove<K, V>(m: map<K, V>, k: K)
    requires k in m
    ensures |m - {k}| == |m| - 1
  {
    assert (m - {k}).Keys == m.Keys - {k};
  }

  lemma CardUpdate<K, V>(m: map<K, V>, k: K, v: V)
    ensures |m[k := v]| == if k in m then |m| else |m| + 1
  {
    assert m[k := v].Keys == m.Keys + {k};
  }

  lemma EmitKeeps(s: State, slot: SlotNo, full: bool, slotOf: u64 -> SlotNo)
    requires Inv(s, slotOf) && slot in s.open
    ensures Inv(Emit(s, slot, full), slotOf)
  {
    CardRemove(s.open, slot);
  }

  lemma StampKeeps(s: State, slot: SlotNo, req: u64, event: nat, once: bool, now: u64, who: nat,
                   slotOf: u64 -> SlotNo)
    requires Inv(s, slotOf) && event < EVENTS && slot == slotOf(req)
    requires Has(s, slot, req) && !(once && s.open[slot].rec.ts[event] != 0) && req in s.carries ==> who == s.carries[req]
    ensures Inv(StampAt(s, slot, req, event, once, now, who), slotOf)
  {
    if Has(s, slot, req) {
      assert EntryOk(s, s.open[slot], slot, slotOf);
      CardUpdate(s.open, slot, Stamped(s.open[slot], event, once, now, who));
    }
  }

  /** A record that the full ring buffer refuses leaves with whatever was stamped last. */
  lemma DroppedAnyway(s: State, slot: SlotNo, req: u64, event: nat, now: u64, who: nat)
    requires Has(s, slot, req) && event < EVENTS
    ensures Emit(StampAt(s, slot, req, event, false, now, who), slot, true) == Emit(s, slot, true)
  {
    var x := Stamped(s.open[slot], event, false, now, who);
    assert s.open[slot := x] - {slot} == s.open - {slot};
  }

  lemma FinishKeeps(s: State, h: Hook, slotOf: u64 -> SlotNo)
    requires Inv(s, slotOf) && h.WellFormed() && h.Finish? && Benign(s, h, slotOf)
    ensures Inv(Step(s, h, slotOf), slotOf)
  {
    var slot := slotOf(h.req);
    if Has(s, slot, h.req) {
      assert EntryOk(s, s.open[slot], slot, slotOf);
      if h.full {
        DroppedAnyway(s, slot, h.req, h.event, h.now, h.who);
        EmitKeeps(s, slot, true, slotOf);
      } else {
        StampKeeps(s, slot, h.req, h.event, false, h.now, h.who, slotOf);
        EmitKeeps(StampAt(s, slot, h.req, h.event, false, h.now, h.who), slot, h.full, slotOf);
      }
    }
  }

  /** Once the record under the key is gone, the next command may take the nvmet_req. */
  lemma BeginKeeps(s: State, req: u64, slotOf: u64 -> SlotNo)
    requires Inv(s, slotOf) && !Has(s, slotOf(req), req)
    ensures Inv(Begin(s, req), slotOf)
  {
    var b := Begin(s, req);
    forall i | i in b.open ensures EntryOk(b, b.open[i], i, slotOf) {
      assert EntryOk(s, s.open[i], i, slotOf);
    }
  }

  lemma OpenKeeps(s: State, slot: SlotNo, e: Entry, slotOf: u64 -> SlotNo)
    requires Inv(s, slotOf) && EntryOk(s, e, slot, slotOf)
    ensures Inv(Open(s, slot, e), slotOf)
  {
    CardUpdate(s.open, slot, e);
    var o := Open(s, slot, e);
    forall i | i in o.open ensures EntryOk(o, o.open[i], i, slotOf) {
      assert i != slot ==> EntryOk(s, s.open[i], i, slotOf);
    }
  }

  lemma ReuseKeeps(s: State, slot: SlotNo, req: u64, full: bool, slotOf: u64 -> SlotNo)
    requires Inv(s, slotOf) && slot == slotOf(req)
    ensures Inv(Reuse(s, slot, req, full), slotOf) && !Has(Reuse(s, slot, req, full), slot, req)
    ensures Reuse(s, slot, req, full).begun == s.begun
  {
    if Has(s, slot, req) {
      var was := s.open[slot];
      var flagged := was.(rec := was.rec.(flags := was.rec.flags + {Reused}));
      var f := s.(open := s.open[slot := flagged]);
      CardUpdate(s.open, slot, flagged);
      assert EntryOk(s, was, slot, slotOf);
      forall i | i in f.open ensures EntryOk(f, f.open[i], i, slotOf) {
        assert EntryOk(s, s.open[i], i, slotOf);
      }
      EmitKeeps(f, slot, full, slotOf);
    }
  }

  lemma FreshOk(s: State, req: u64, id: CmdId, write: bool, arrival: u64, now: u64, slotOf: u64 -> SlotNo)
    requires req != 0 && req in s.carries
    ensures EntryOk(s, Fresh(req, id, write, arrival, now, s.carries[req]), slotOf(req), slotOf)
  {
  }

  lemma SampleKeeps(s: State, h: Hook, slotOf: u64 -> SlotNo)
    requires Inv(s, slotOf) && h.WellFormed() && h.ReqInit?
    ensures var free := Begin(Reuse(s, slotOf(h.req), h.req, h.full), h.req);
            && Inv(free, slotOf)
            && Inv(Open(free, slotOf(h.req), Fresh(h.req, h.id, h.write, h.arrival, h.now, s.begun + 1)), slotOf)
  {
    var slot := slotOf(h.req);
    var r := Reuse(s, slot, h.req, h.full);
    ReuseKeeps(s, slot, h.req, h.full, slotOf);
    BeginKeeps(r, h.req, slotOf);
    FreshOk(Begin(r, h.req), h.req, h.id, h.write, h.arrival, h.now, slotOf);
    OpenKeeps(Begin(r, h.req), slot, Fresh(h.req, h.id, h.write, h.arrival, h.now, s.begun + 1), slotOf);
  }

  lemma InitKeeps(s: State, h: Hook, slotOf: u64 -> SlotNo)
    requires Inv(s, slotOf) && h.WellFormed() && h.ReqInit? && Benign(s, h, slotOf)
    ensures Inv(Step(s, h, slotOf), slotOf)
  {
    if !s.armed || !h.ioQueue || !h.ours {
      BeginKeeps(s, h.req, slotOf);
    } else {
      SampleKeeps(s, h, slotOf);
      InitIs(s, h, slotOf);
    }
  }

  lemma InitIs(s: State, h: Hook, slotOf: u64 -> SlotNo)
    requires h.WellFormed() && h.ReqInit? && s.armed && h.ioQueue && h.ours
    ensures var free := Begin(Reuse(s, slotOf(h.req), h.req, h.full), h.req);
            Step(s, h, slotOf) ==
            if h.sample then Open(free, slotOf(h.req), Fresh(h.req, h.id, h.write, h.arrival, h.now, s.begun + 1))
            else free
  {
  }

  lemma BenignKeeps(s: State, h: Hook, slotOf: u64 -> SlotNo)
    requires Inv(s, slotOf) && h.WellFormed() && Benign(s, h, slotOf)
    ensures Inv(Step(s, h, slotOf), slotOf)
  {
    match h
    case Arm(_) =>
    case Stamp(req, e, once, now, who) => StampKeeps(s, slotOf(req), req, e, once, now, who, slotOf);
    case Finish(_, _, _, _, _) => FinishKeeps(s, h, slotOf);
    case ReqInit(_, _, _, _, _, _, _, _, _) => InitKeeps(s, h, slotOf);
  }

  /** A hook that stamps or emits leaves every record with its own stamps exactly if it is benign. */
  lemma OwnIffPunctual(s: State, h: Hook, slotOf: u64 -> SlotNo)
    requires Inv(s, slotOf) && h.WellFormed() && (h.Stamp? || h.Finish?)
    ensures AllOwn(Step(s, h, slotOf)) <==> Benign(s, h, slotOf)
  {
    if Benign(s, h, slotOf) {
      BenignKeeps(s, h, slotOf);
      InvIsOwn(Step(s, h, slotOf), slotOf);
    } else {
      LateSpoils(s, h, slotOf);
    }
  }

  lemma InvIsOwn(s: State, slotOf: u64 -> SlotNo)
    requires Inv(s, slotOf)
    ensures AllOwn(s)
  {
    forall i | i in s.open ensures Own(s.open[i]) {
      assert EntryOk(s, s.open[i], i, slotOf);
    }
  }

  lemma LateSpoils(s: State, h: Hook, slotOf: u64 -> SlotNo)
    requires Inv(s, slotOf) && h.WellFormed() && (h.Stamp? || h.Finish?) && !Benign(s, h, slotOf)
    ensures !AllOwn(Step(s, h, slotOf))
  {
    var slot := slotOf(h.req);
    var was := s.open[slot];
    assert EntryOk(s, was, slot, slotOf);
    var e := Stamped(was, h.event, h.Stamp? && h.once, h.now, h.who);
    assert !Own(e) by {
      assert e.writer[h.event] == h.who != e.cmd && e.rec.ts[h.event] == h.now != 0;
    }
    var after := Step(s, h, slotOf);
    if h.Stamp? {
      assert after.open[slot] == e;
    } else {
      assert after.sent == s.sent + [e] && e in after.sent;
    }
  }

  /**
   nvmet_req_init writes no stamp itself; what it decides is whose record the next stamps go to. It is benign exactly
   if a stamp of the command that it begins, whatever the event and the time, leaves every record with its own stamps.
   */
  lemma OwnIffNotStillOpen(s: State, h: Hook, event: nat, now: u64, slotOf: u64 -> SlotNo)
    requires Inv(s, slotOf) && h.WellFormed() && h.ReqInit? && event < EVENTS && now != 0
    ensures Benign(s, h, slotOf) <==>
            AllOwn(Step(Step(s, h, slotOf), Stamp(h.req, event, false, now, s.begun + 1), slotOf))
  {
    var slot, next := slotOf(h.req), Stamp(h.req, event, false, now, s.begun + 1);
    var after := Step(s, h, slotOf);
    if Benign(s, h, slotOf) {
      BenignKeeps(s, h, slotOf);
      BeginsNext(s, h, slotOf);
      BenignKeeps(after, next, slotOf);
    } else {
      assert EntryOk(s, s.open[slot], slot, slotOf);
      assert after.open == s.open;
      var e := Step(after, next, slotOf).open[slot];
      assert e.writer[event] == s.begun + 1 && e.cmd <= s.begun && e.rec.ts[event] == now;
    }
  }

  lemma BeginsNext(s: State, h: Hook, slotOf: u64 -> SlotNo)
    requires h.WellFormed() && h.ReqInit?
    ensures var after := Step(s, h, slotOf);
            h.req in after.carries && after.carries[h.req] == s.begun + 1 == after.begun
  {
    if !Outside(s, h) { InitIs(s, h, slotOf); }
  }

  function RunOf(hooks: seq<Hook>, slotOf: u64 -> SlotNo): State
    requires forall i :: 0 <= i < |hooks| ==> hooks[i].WellFormed()
  {
    if hooks == [] then IDLE else Step(RunOf(hooks[..|hooks| - 1], slotOf), hooks[|hooks| - 1], slotOf)
  }

  /**
   Over every run of hooks, with nvmet_req reuse, responses never seen, slot collisions and commands not sampled: if
   every step is benign, each stamp of each record, open or emitted, comes from the command that opened it.
   */
  lemma {:induction false} StampsAreOwn(hooks: seq<Hook>, slotOf: u64 -> SlotNo)
    requires forall i :: 0 <= i < |hooks| ==> hooks[i].WellFormed()
    requires forall i :: 0 <= i < |hooks| ==> Benign(RunOf(hooks[..i], slotOf), hooks[i], slotOf)
    ensures Inv(RunOf(hooks, slotOf), slotOf) && AllOwn(RunOf(hooks, slotOf))
  {
    if hooks != [] {
      var n := |hooks| - 1;
      var before := hooks[..n];
      forall i | 0 <= i < n ensures Benign(RunOf(before[..i], slotOf), before[i], slotOf) {
        assert before[..i] == hooks[..i];
      }
      StampsAreOwn(before, slotOf);
      BenignKeeps(RunOf(before, slotOf), hooks[n], slotOf);
    }
    InvIsOwn(RunOf(hooks, slotOf), slotOf);
  }

  /**
   In particular in a recording that stays armed. The tracepoint sees the admin queue's and the other transports'
   commands too; an nvmet_req belongs to one queue, so it does not change sides. And every hook is punctual.
   */
  lemma {:induction false} StampsAreOwnWhileArmed(hooks: seq<Hook>, mine: u64 -> bool, slotOf: u64 -> SlotNo)
    requires |hooks| > 0 && hooks[0] == Arm(true)
    requires forall i :: 0 <= i < |hooks| ==> hooks[i].WellFormed()
    requires forall i :: 0 <= i < |hooks| ==> hooks[i] != Arm(false)
    requires forall i :: 0 <= i < |hooks| && hooks[i].ReqInit? ==>
               (hooks[i].ioQueue && hooks[i].ours) == mine(hooks[i].req)
    requires forall i :: 0 <= i < |hooks| ==> Punctual(RunOf(hooks[..i], slotOf), hooks[i])
    ensures var s := RunOf(hooks, slotOf);
            && Inv(s, slotOf) && AllOwn(s) && s.armed
            && forall i :: i in s.open ==> mine(s.open[i].req)
  {
    var n := |hooks| - 1;
    if n == 0 {
      assert hooks[..0] == [];
    } else {
      var before := hooks[..n];
      forall i | 0 <= i < n ensures Punctual(RunOf(before[..i], slotOf), before[i]) {
        assert before[..i] == hooks[..i];
      }
      StampsAreOwnWhileArmed(before, mine, slotOf);
      BenignKeeps(RunOf(before, slotOf), hooks[n], slotOf);
      SidesKept(RunOf(before, slotOf), hooks[n], mine, slotOf);
    }
    InvIsOwn(RunOf(hooks, slotOf), slotOf);
  }

  lemma SidesKept(s: State, h: Hook, mine: u64 -> bool, slotOf: u64 -> SlotNo)
    requires h.WellFormed() && h != Arm(false) && s.armed
    requires h.ReqInit? ==> (h.ioQueue && h.ours) == mine(h.req)
    requires forall i :: i in s.open ==> mine(s.open[i].req)
    ensures forall i :: i in Step(s, h, slotOf).open ==> mine(Step(s, h, slotOf).open[i].req)
    ensures Step(s, h, slotOf).armed
  {
    if h.ReqInit? && !Outside(s, h) { InitIs(s, h, slotOf); }
  }

  // ---- what happens otherwise ----

  /** Disarmed, a reused nvmet_req does get the next command's stamps into the old record. */
  lemma DisarmedMisattributes(slotOf: u64 -> SlotNo, id: CmdId)
    ensures var armed := Step(IDLE, Arm(true), slotOf);
            var taken := Step(armed, ReqInit(64, true, true, true, id, false, 1, 1, false), slotOf);
            var disarmed := Step(taken, Arm(false), slotOf);
            var reused := Step(disarmed, ReqInit(64, true, true, true, id, false, 2, 2, false), slotOf);
            Inv(disarmed, slotOf) && !AllOwn(Step(reused, Stamp(64, T_EXEC, false, 3, 2), slotOf))
  {
    BenignKeeps(IDLE, Arm(true), slotOf);
    var armed := Step(IDLE, Arm(true), slotOf);
    BenignKeeps(armed, ReqInit(64, true, true, true, id, false, 1, 1, false), slotOf);
    var taken := Step(armed, ReqInit(64, true, true, true, id, false, 1, 1, false), slotOf);
    BenignKeeps(taken, Arm(false), slotOf);
    var disarmed := Step(taken, Arm(false), slotOf);
    assert Has(disarmed, slotOf(64), 64);
    OwnIffNotStillOpen(disarmed, ReqInit(64, true, true, true, id, false, 2, 2, false), T_EXEC, 3, slotOf);
  }

  /**
   RDMA: the send completion of a response, on another CPU, may give the nvmet_req back before the posting of that
   response returns. The next command on it has its record by then, and the first one's RSP_SENT goes into that.
   */
  lemma LatePostingMisattributes(slotOf: u64 -> SlotNo, id: CmdId)
    ensures var armed := Step(IDLE, Arm(true), slotOf);
            var first := Step(armed, ReqInit(64, true, true, true, id, false, 1, 1, false), slotOf);
            var done := Step(first, Stamp(64, T_SEND_DONE, true, 2, 1), slotOf);
            var second := Step(done, ReqInit(64, true, true, true, id, false, 3, 3, false), slotOf);
            && Inv(second, slotOf) && AllOwn(second)
            && !AllOwn(Step(second, Stamp(64, T_RSP_SENT, false, 4, 1), slotOf))
  {
    var armed := Step(IDLE, Arm(true), slotOf);
    var a, b := ReqInit(64, true, true, true, id, false, 1, 1, false), ReqInit(64, true, true, true, id, false, 3, 3, false);
    BenignKeeps(IDLE, Arm(true), slotOf);
    var first := Step(armed, a, slotOf);
    Reopened(armed, a, slotOf);
    var done := Step(first, Stamp(64, T_SEND_DONE, true, 2, 1), slotOf);
    BenignKeeps(first, Stamp(64, T_SEND_DONE, true, 2, 1), slotOf);
    var second := Step(done, b, slotOf);
    assert done.armed && done.begun == 1;
    Reopened(done, b, slotOf);
    OwnIffPunctual(second, Stamp(64, T_RSP_SENT, false, 4, 1), slotOf);
  }

  /** A sampled command of the recording has its record, and its nvmet_req carries it. */
  lemma Reopened(s: State, h: Hook, slotOf: u64 -> SlotNo)
    requires Inv(s, slotOf) && h.WellFormed() && h.ReqInit? && !Outside(s, h) && h.sample
    ensures var after := Step(s, h, slotOf);
            && Inv(after, slotOf) && AllOwn(after) && after.armed && after.begun == s.begun + 1
            && Has(after, slotOf(h.req), h.req) && h.req in after.carries && after.carries[h.req] == s.begun + 1
            && (forall i :: 0 <= i < EVENTS && i != T_CMD_ARR && i != T_CMD_PROC ==>
                  after.open[slotOf(h.req)].rec.ts[i] == 0)
  {
    BenignKeeps(s, h, slotOf);
    InvIsOwn(Step(s, h, slotOf), slotOf);
    BeginsNext(s, h, slotOf);
    InitIs(s, h, slotOf);
  }
}
