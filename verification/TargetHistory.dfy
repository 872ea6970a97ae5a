/**
 What a target record holds. TargetSlots shows that every stamp belongs to the record's command; here the record itself
 is read off the hooks alone: which nvmet_req has one, what nvmet_req_init put in it, and the time of each event.
 */
module TargetHistory {
  import opened Records
  import opened TargetSlots

  predicate AllWellFormed(hooks: seq<Hook>) {
    forall i :: 0 <= i < |hooks| ==> hooks[i].WellFormed()
  }

  ghost predicate AllBenign(hooks: seq<Hook>, slotOf: u64 -> SlotNo)
    requires AllWellFormed(hooks)
  {
    forall i :: 0 <= i < |hooks| ==> Benign(RunOf(hooks[..i], slotOf), hooks[i], slotOf)
  }

  // ---- what the hooks say ----

  predicate About(h: Hook, req: u64) {
    !h.Arm? && h.req == req
  }

  function Armed(hooks: seq<Hook>): bool {
    var n := |hooks| - 1;
    if hooks == [] then false else if hooks[n].Arm? then hooks[n].on else Armed(hooks[..n])
  }

  /** nvmet_req_init with a command that the recording takes. */
  predicate Takes(hooks: seq<Hook>, h: Hook) {
    h.ReqInit? && Armed(hooks) && h.ioQueue && h.ours
  }

  /** The command that the nvmet_req was last given. */
  function Given(hooks: seq<Hook>, req: u64): Option<Hook> {
    var n := |hooks| - 1;
    if hooks == [] then None
    else if hooks[n].ReqInit? && hooks[n].req == req then Some(hooks[n])
    else Given(hooks[..n], req)
  }

  /**
   The time of an event of that command. The arrival and nvmet_req_init itself come with the command; of a `once` event
   the first time stands, of the others the last.
   */
  function TimeOf(hooks: seq<Hook>, req: u64, event: nat): u64 {
    var n := |hooks| - 1;
    if hooks == [] then 0
    else if !About(hooks[n], req) then TimeOf(hooks[..n], req, event)
    else
      match hooks[n]
      case ReqInit(_, _, _, _, _, _, arrival, now, _) =>
        if event == T_CMD_ARR then arrival else if event == T_CMD_PROC then now else 0
      case Stamp(_, stamped, once, now, _) =>
        if stamped == event && !(once && TimeOf(hooks[..n], req, event) != 0) then now
        else TimeOf(hooks[..n], req, event)
      case Finish(_, stamped, now, _, _) => if stamped == event then now else TimeOf(hooks[..n], req, event)
  }

  /** The record of the nvmet_req's command. */
  function RecordOf(hooks: seq<Hook>, req: u64): Rec {
    var ts: Stamps := seq(EVENTS, event requires 0 <= event < EVENTS => TimeOf(hooks, req, event));
    match Given(hooks, req)
    case Some(ReqInit(_, _, _, _, id, write, _, _, _)) =>
      Target(Tcp, if write then {Write} else {}, id, 0, ts, 0, 0, 0, 0)
    case _ => Target(Tcp, {}, CmdId(0, 0, 0, 0, 0, 0, 0), 0, ts, 0, 0, 0, 0)
  }

  /**
   The nvmet_req has a record: its last command was taken and sampled, no response of it went out, and no other sampled
   command took the slot.
   */
  predicate Recorded(hooks: seq<Hook>, req: u64, slotOf: u64 -> SlotNo) {
    var n := |hooks| - 1;
    if hooks == [] then false
    else if About(hooks[n], req) && hooks[n].ReqInit? then Takes(hooks[..n], hooks[n]) && hooks[n].sample
    else
      && Recorded(hooks[..n], req, slotOf)
      && !(About(hooks[n], req) && hooks[n].Finish?)
      && !(Takes(hooks[..n], hooks[n]) && hooks[n].sample && slotOf(hooks[n].req) == slotOf(req))
  }

  function WithReused(r: Rec): Rec {
    r.(flags := r.flags + {Reused})
  }

  /** What goes to the ring buffer: records whose response goes out, and those whose nvmet_req is taken again. */
  function SentBy(hooks: seq<Hook>, slotOf: u64 -> SlotNo): seq<Rec> {
    var n := |hooks| - 1;
    if hooks == [] then []
    else
      var h, sent := hooks[n], SentBy(hooks[..n], slotOf);
      if h.Finish? && !h.full && Recorded(hooks[..n], h.req, slotOf) then sent + [RecordOf(hooks, h.req)]
      else if Takes(hooks[..n], h) && !h.full && Recorded(hooks[..n], h.req, slotOf) then
        sent + [WithReused(RecordOf(hooks[..n], h.req))]
      else sent
  }

  // ---- and what the records hold ----

  function Recs(entries: seq<Entry>): seq<Rec> {
    seq(|entries|, i requires 0 <= i < |entries| => entries[i].rec)
  }

  /** State and hooks agree on one nvmet_req. */
  ghost predicate Told(s: State, hooks: seq<Hook>, req: u64, slotOf: u64 -> SlotNo) {
    && (Has(s, slotOf(req), req) <==> Recorded(hooks, req, slotOf))
    && (Has(s, slotOf(req), req) ==> s.open[slotOf(req)].rec == RecordOf(hooks, req) && Given(hooks, req).Some?)
  }

  ghost predicate AllTold(s: State, hooks: seq<Hook>, slotOf: u64 -> SlotNo) {
    && s.armed == Armed(hooks) && Recs(s.sent) == SentBy(hooks, slotOf)
    && forall req: u64 :: req != 0 ==> Told(s, hooks, req, slotOf)
  }

  /** A hook on another nvmet_req says nothing of this one's command. */
  lemma OtherReq(hooks: seq<Hook>, h: Hook, req: u64)
    requires !About(h, req)
    ensures RecordOf(hooks + [h], req) == RecordOf(hooks, req) && Given(hooks + [h], req) == Given(hooks, req)
  {
    var all := hooks + [h];
    assert all[..|hooks|] == hooks;
    assert forall e :: 0 <= e < EVENTS ==> RecordOf(all, req).ts[e] == RecordOf(hooks, req).ts[e];
  }

  lemma GivenNow(hooks: seq<Hook>, h: Hook)
    requires h.ReqInit?
    ensures Given(hooks + [h], h.req) == Some(h)
    ensures RecordOf(hooks + [h], h.req) == FreshRec(h.id, h.write, h.arrival, h.now)
  {
    var all := hooks + [h];
    assert all[..|hooks|] == hooks && all[|hooks|] == h;
    var opening := FreshRec(h.id, h.write, h.arrival, h.now);
    assert forall e :: 0 <= e < EVENTS ==> RecordOf(all, h.req).ts[e] == opening.ts[e];
  }

  /** A stamping hook changes one event, to its own time. */
  lemma StampedNow(hooks: seq<Hook>, h: Hook, e: Entry)
    requires h.Stamp? || h.Finish?
    requires h.event < EVENTS && e.rec == RecordOf(hooks, h.req)
    ensures RecordOf(hooks + [h], h.req) == Stamped(e, h.event, h.Stamp? && h.once, h.now, h.who).rec
    ensures Given(hooks + [h], h.req) == Given(hooks, h.req)
  {
    var all := hooks + [h];
    assert all[..|hooks|] == hooks && all[|hooks|] == h;
    var x := Stamped(e, h.event, h.Stamp? && h.once, h.now, h.who).rec;
    forall k | 0 <= k < EVENTS ensures RecordOf(all, h.req).ts[k] == x.ts[k] {
      assert e.rec.ts[k] == TimeOf(hooks, h.req, k);
      assert e.rec.ts[h.event] == TimeOf(hooks, h.req, h.event);
    }
  }

  lemma RecordedNext(hooks: seq<Hook>, h: Hook, req: u64, slotOf: u64 -> SlotNo)
    ensures Recorded(hooks + [h], req, slotOf) <==>
            if About(h, req) && h.ReqInit? then Takes(hooks, h) && h.sample
            else Recorded(hooks, req, slotOf) && !(About(h, req) && h.Finish?) &&
                 !(Takes(hooks, h) && h.sample && slotOf(h.req) == slotOf(req))
  {
    assert (hooks + [h])[..|hooks|] == hooks;
  }

  lemma ToldNext(s: State, hooks: seq<Hook>, h: Hook, req: u64, slotOf: u64 -> SlotNo)
    requires Inv(s, slotOf) && h.WellFormed() && Benign(s, h, slotOf) && AllTold(s, hooks, slotOf) && req != 0
    ensures Told(Step(s, h, slotOf), hooks + [h], req, slotOf)
  {
    assert Told(s, hooks, req, slotOf);
    RecordedNext(hooks, h, req, slotOf);
    if !About(h, req) {
      OtherReq(hooks, h, req);
      if h.ReqInit? && !Outside(s, h) { InitIs(s, h, slotOf); }
    } else if h.ReqInit? {
      GivenNow(hooks, h);
      if !Outside(s, h) { InitIs(s, h, slotOf); }
    } else if Has(s, slotOf(req), req) {
      StampedNow(hooks, h, s.open[slotOf(req)]);
    }
  }

  lemma RecsAppend(entries: seq<Entry>, e: Entry)
    ensures Recs(entries + [e]) == Recs(entries) + [e.rec]
  {
  }

  lemma SentNext(s: State, hooks: seq<Hook>, h: Hook, slotOf: u64 -> SlotNo)
    requires Inv(s, slotOf) && h.WellFormed() && Benign(s, h, slotOf) && AllTold(s, hooks, slotOf)
    ensures Recs(Step(s, h, slotOf).sent) == SentBy(hooks + [h], slotOf)
  {
    var all := hooks + [h];
    assert all[..|hooks|] == hooks && all[|hooks|] == h;
    if h.Finish? || Takes(hooks, h) {
      assert Told(s, hooks, h.req, slotOf);
      if Has(s, slotOf(h.req), h.req) && !h.full {
        var was := s.open[slotOf(h.req)];
        if h.Finish? {
          StampedNow(hooks, h, was);
          RecsAppend(s.sent, Stamped(was, h.event, false, h.now, h.who));
        } else {
          InitIs(s, h, slotOf);
          RecsAppend(s.sent, was.(rec := WithReused(was.rec)));
        }
      }
    }
  }

  lemma ToldAll(s: State, hooks: seq<Hook>, h: Hook, slotOf: u64 -> SlotNo)
    requires Inv(s, slotOf) && h.WellFormed() && Benign(s, h, slotOf) && AllTold(s, hooks, slotOf)
    ensures AllTold(Step(s, h, slotOf), hooks + [h], slotOf)
  {
    SentNext(s, hooks, h, slotOf);
    ArmedNext(s, hooks, h, slotOf);
    forall req: u64 | req != 0 ensures Told(Step(s, h, slotOf), hooks + [h], req, slotOf) {
      ToldNext(s, hooks, h, req, slotOf);
    }
  }

  lemma ArmedNext(s: State, hooks: seq<Hook>, h: Hook, slotOf: u64 -> SlotNo)
    requires h.WellFormed() && s.armed == Armed(hooks)
    ensures Step(s, h, slotOf).armed == Armed(hooks + [h])
  {
    assert (hooks + [h])[..|hooks|] == hooks;
    if h.ReqInit? && !Outside(s, h) { InitIs(s, h, slotOf); }
  }

  lemma BenignBefore(hooks: seq<Hook>, slotOf: u64 -> SlotNo)
    requires AllWellFormed(hooks) && AllBenign(hooks, slotOf) && hooks != []
    ensures var n := |hooks| - 1;
            && AllWellFormed(hooks[..n]) && AllBenign(hooks[..n], slotOf) && hooks == hooks[..n] + [hooks[n]]
            && hooks[n].WellFormed() && Benign(RunOf(hooks[..n], slotOf), hooks[n], slotOf)
  {
    var before := hooks[..|hooks| - 1];
    forall i | 0 <= i < |before| ensures Benign(RunOf(before[..i], slotOf), before[i], slotOf) {
      assert before[..i] == hooks[..i];
    }
  }

  /**
   Over every run of benign hooks the records are those of the history: who has one, with which id, flags and stamps;
   and the ring buffer got exactly the records that the history names, in order, as they were when they left.
   */
  lemma {:induction false} RecordsAreHistory(hooks: seq<Hook>, slotOf: u64 -> SlotNo)
    requires AllWellFormed(hooks) && AllBenign(hooks, slotOf)
    ensures AllTold(RunOf(hooks, slotOf), hooks, slotOf)
  {
    if hooks != [] {
      var before := hooks[..|hooks| - 1];
      BenignBefore(hooks, slotOf);
      RecordsAreHistory(before, slotOf);
      StampsAreOwn(before, slotOf);
      ToldAll(RunOf(before, slotOf), before, hooks[|hooks| - 1], slotOf);
    }
  }
}
