/**
 The end of an RDMA command's record (bpf/nvme_rdma_target.bpf.c): the posting of the response returns on one CPU, its
 send completion is handled on another, in any order and at the same time. Each end stamps the record, then sets its
 bit in `parts` atomically; the one that finds both bits set emits the record. The two run here as interleaved steps,
 each one access to shared memory.
 */
module RdmaResponse {
  import opened Records

  /** Where one end is in its hook (rsp_part_done and tgt_emit included). */
  datatype Pc =
    | Enter     // the shortcut: is any record in flight?
    | Lookup    // tgt_rec()
    | Stamp     // a read's C2H_SENT (posting), or SEND_DONE (completion)
    | Stamp2    // RSP_SENT (posting only)
    | Find      // rsp_part_done: tgt_entry()
    | SetBit    // __sync_fetch_and_or(&e->parts)
    | EmitFind  // tgt_emit: tgt_entry()
    | Output    // the record goes to the ring buffer
    | Clear     // e->req = 0
    | Uncount   // ntp_inflight_add(-1)
    | Done
  {
    /** This end has set its bit. */
    predicate SetAlready() {
      Emitting() || Done?
    }

    predicate Emitting() {
      EmitFind? || Output? || Clear? || Uncount?
    }

    predicate Stamped() {
      Find? || SetBit? || SetAlready()
    }
  }

  /** The stamps of the record that the two ends write. */
  datatype Stamps3 = Stamps3(c2hSent: u64, rspSent: u64, sendDone: u64)

  /**
   `occupied`: the slot's req is the command's. `counted`: ntp_inflight still includes the record; `others` is what it
   includes besides. `outputs` went to the ring buffer, `drops` did not because it was full. `late` counts writes of the
   two ends to the entry after it was handed over.
   */
  datatype Sys = Sys(read: bool, occupied: bool, postedBit: bool, sendBit: bool, ts: Stamps3, outputs: seq<Stamps3>,
                     drops: seq<Stamps3>, counted: bool, others: nat, late: nat, post: Pc, send: Pc)

  /** What was handed to the ring buffer, taken or not. */
  function Handed(x: Sys): seq<Stamps3> {
    x.outputs + x.drops
  }

  predicate InFlight(x: Sys) {
    x.counted || x.others > 0
  }

  function Wrote(x: Sys): Sys {
    if Handed(x) != [] then x.(late := x.late + 1) else x
  }

  /** tgt_emit, shared by both ends: the entry's state after the step, and where the end goes. */
  function EmitStep(x: Sys, pc: Pc, full: bool): (Sys, Pc)
    requires pc.Emitting()
  {
    match pc
    case EmitFind => (x, if x.occupied then Output else Done)
    case Output => (if full then x.(drops := x.drops + [x.ts]) else x.(outputs := x.outputs + [x.ts]), Clear)
    case Clear => (x.(occupied := false), Uncount)
    case Uncount => (x.(counted := false), Done)
  }

  /** One step of on_queue_resp_exit. */
  function PostStep(x: Sys, now: u64, full: bool): Sys {
    match x.post
    case Enter => x.(post := if InFlight(x) then Lookup else Done)
    case Lookup => x.(post := if x.occupied then Stamp else Done)
    case Stamp => if x.read then Wrote(x).(ts := x.ts.(c2hSent := now), post := Stamp2) else x.(post := Stamp2)
    case Stamp2 => Wrote(x).(ts := x.ts.(rspSent := now), post := Find)
    case Find => x.(post := if x.occupied then SetBit else Done)
    case SetBit => Wrote(x).(postedBit := true, post := if x.sendBit then EmitFind else Done)
    case Done => x
    case _ => var (y, pc) := EmitStep(x, x.post, full); y.(post := pc)
  }

  /** One step of on_send_done. */
  function SendStep(x: Sys, now: u64, full: bool): Sys {
    match x.send
    case Enter => x.(send := if InFlight(x) then Lookup else Done)
    case Lookup => x.(send := if x.occupied then Stamp else Done)
    case Stamp =>
      if x.ts.sendDone == 0 then Wrote(x).(ts := x.ts.(sendDone := now), send := Find) else x.(send := Find)
    case Stamp2 => x.(send := Find)
    case Find => x.(send := if x.occupied then SetBit else Done)
    case SetBit => Wrote(x).(sendBit := true, send := if x.postedBit then EmitFind else Done)
    case Done => x
    case _ => var (y, pc) := EmitStep(x, x.send, full); y.(send := pc)
  }

  /** Who moves next: one of the two ends, with the time it reads and the ring buffer's state, or the rest of the machine. */
  datatype Move = Post(now: u64, full: bool) | Send(now: u64, full: bool) | Rest(others: nat)

  function Step(x: Sys, m: Move): Sys {
    match m
    case Post(now, full) => PostStep(x, now, full)
    case Send(now, full) => SendStep(x, now, full)
    case Rest(n) => x.(others := n)
  }

  /** A record with neither end seen yet, whatever else is in flight. */
  function Start(read: bool, others: nat): Sys {
    Sys(read, true, false, false, Stamps3(0, 0, 0), [], [], true, others, 0, Enter, Enter)
  }

  ghost predicate Complete(read: bool, ts: Stamps3) {
    ts.rspSent != 0 && ts.sendDone != 0 && (read ==> ts.c2hSent != 0)
  }

  ghost predicate Inv(x: Sys) {
    && (x.postedBit <==> x.post.SetAlready()) && (x.sendBit <==> x.send.SetAlready())
    && (x.post.Stamped() ==> x.ts.rspSent != 0) && (x.post.Stamped() || x.post.Stamp2? ==> x.read ==> x.ts.c2hSent != 0)
    && (x.send.Stamped() ==> x.ts.sendDone != 0) && !x.send.Stamp2?
    && x.late == 0
    // until both bits are set nobody emits, and the record stays
    && (!(x.postedBit && x.sendBit) ==>
          x.occupied && x.counted && Handed(x) == [] && !x.post.Emitting() && !x.send.Emitting())
    // then exactly one end emits, and the other is through
    && (x.postedBit && x.sendBit ==> (x.post.Done? || x.send.Done?) && EmittedSoFar(x, Emitter(x)))
  }

  function Emitter(x: Sys): Pc {
    if x.post.Done? then x.send else x.post
  }

  ghost predicate EmittedSoFar(x: Sys, pc: Pc) {
    match pc
    case EmitFind => x.occupied && x.counted && Handed(x) == []
    case Output => x.occupied && x.counted && Handed(x) == []
    case Clear => x.occupied && x.counted && Handed(x) == [x.ts]
    case Uncount => !x.occupied && x.counted && Handed(x) == [x.ts]
    case Done => !x.occupied && !x.counted && Handed(x) == [x.ts]
    case _ => false
  }

  lemma PostKeeps(x: Sys, now: u64, full: bool)
    requires Inv(x) && now != 0
    ensures Inv(PostStep(x, now, full)) && PostStep(x, now, full).read == x.read
  {
  }

  lemma SendKeeps(x: Sys, now: u64, full: bool)
    requires Inv(x) && now != 0
    ensures Inv(SendStep(x, now, full)) && SendStep(x, now, full).read == x.read
  {
  }

  lemma StepKeeps(x: Sys, m: Move)
    requires Inv(x) && (m.Rest? || m.now != 0)
    ensures Inv(Step(x, m)) && Step(x, m).read == x.read
  {
    match m
    case Post(now, full) => PostKeeps(x, now, full);
    case Send(now, full) => SendKeeps(x, now, full);
    case Rest(_) =>
  }

  function RunOf(read: bool, others: nat, moves: seq<Move>): Sys {
    if moves == [] then Start(read, others)
    else Step(RunOf(read, others, moves[..|moves| - 1]), moves[|moves| - 1])
  }

  ghost predicate Timed(moves: seq<Move>) {
    forall i :: 0 <= i < |moves| ==> moves[i].Rest? || moves[i].now != 0
  }

  lemma {:induction false} RunKeeps(read: bool, others: nat, moves: seq<Move>)
    requires Timed(moves)
    ensures Inv(RunOf(read, others, moves)) && RunOf(read, others, moves).read == read
  {
    if moves != [] {
      RunKeeps(read, others, moves[..|moves| - 1]);
      StepKeeps(RunOf(read, others, moves[..|moves| - 1]), moves[|moves| - 1]);
    }
  }

  /**
   Every interleaving: the record is handed to the ring buffer at most once, only when complete, and not written
   afterwards; and once both ends are through it has been emitted or counted as dropped, exactly once, and its slot is
   free.
   */
  lemma EmittedExactlyOnce(read: bool, others: nat, moves: seq<Move>)
    requires Timed(moves)
    ensures var x := RunOf(read, others, moves);
            && |x.outputs| + |x.drops| <= 1 && x.late == 0
            && (forall o :: o in x.outputs ==> Complete(read, o) && o == x.ts)
            && (x.post.Done? && x.send.Done? ==> |x.outputs| + |x.drops| == 1 && !x.occupied && !x.counted)
  {
    RunKeeps(read, others, moves);
    HandedOnce(RunOf(read, others, moves));
  }

  lemma HandedOnce(x: Sys)
    requires Inv(x)
    ensures |x.outputs| + |x.drops| <= 1 && x.late == 0
    ensures forall o :: o in x.outputs ==> Complete(x.read, o) && o == x.ts
    ensures x.post.Done? && x.send.Done? ==> |x.outputs| + |x.drops| == 1 && !x.occupied && !x.counted
  {
    assert |Handed(x)| == |x.outputs| + |x.drops|;
    forall o | o in x.outputs ensures o in Handed(x) {}
  }

  // ---- what the stamps are ----

  /** The moves of one end so far, and the time that the k-th of them read (0: not yet). */
  function Posts(moves: seq<Move>): nat {
    if moves == [] then 0 else Posts(moves[..|moves| - 1]) + if moves[|moves| - 1].Post? then 1 else 0
  }

  function Sends(moves: seq<Move>): nat {
    if moves == [] then 0 else Sends(moves[..|moves| - 1]) + if moves[|moves| - 1].Send? then 1 else 0
  }

  function PostTime(moves: seq<Move>, k: nat): u64 {
    if moves == [] then 0
    else
      var n := |moves| - 1;
      if moves[n].Post? && Posts(moves[..n]) + 1 == k then moves[n].now else PostTime(moves[..n], k)
  }

  function SendTime(moves: seq<Move>, k: nat): u64 {
    if moves == [] then 0
    else
      var n := |moves| - 1;
      if moves[n].Send? && Sends(moves[..n]) + 1 == k then moves[n].now else SendTime(moves[..n], k)
  }

  lemma {:induction false} NotYet(moves: seq<Move>, k: nat)
    ensures Posts(moves) < k ==> PostTime(moves, k) == 0
    ensures Sends(moves) < k ==> SendTime(moves, k) == 0
  {
    if moves != [] { NotYet(moves[..|moves| - 1], k); }
  }

  /** Before it sets its bit, an end goes from step to step whatever the other does. */
  predicate PostAt(pc: Pc, n: nat) {
    if n == 0 then pc.Enter? else if n == 1 then pc.Lookup? else if n == 2 then pc.Stamp? else if n == 3 then pc.Stamp2?
    else pc.Stamped()
  }

  predicate SendAt(pc: Pc, n: nat) {
    if n == 0 then pc.Enter? else if n == 1 then pc.Lookup? else if n == 2 then pc.Stamp? else pc.Stamped()
  }

  ghost predicate TimesTold(x: Sys, moves: seq<Move>) {
    && PostAt(x.post, Posts(moves)) && SendAt(x.send, Sends(moves))
    && x.ts == Stamps3(if x.read then PostTime(moves, 3) else 0, PostTime(moves, 4), SendTime(moves, 3))
  }

  lemma TimesNext(x: Sys, moves: seq<Move>, m: Move)
    requires Inv(x) && TimesTold(x, moves) && (m.Rest? || m.now != 0)
    ensures TimesTold(Step(x, m), moves + [m])
  {
    assert (moves + [m])[..|moves|] == moves;
    NotYet(moves, 3);
    NotYet(moves, 4);
  }

  lemma {:induction false} TimesThroughout(read: bool, others: nat, moves: seq<Move>)
    requires Timed(moves)
    ensures TimesTold(RunOf(read, others, moves), moves)
  {
    if moves != [] {
      var n := |moves| - 1;
      var before := moves[..n];
      TimesThroughout(read, others, before);
      RunKeeps(read, others, before);
      TimesNext(RunOf(read, others, before), before, moves[n]);
      assert moves == before + [moves[n]];
    }
  }

  /**
   Every interleaving: RSP_SENT is the time that the posting read last before it set its bit, a read's C2H_SENT the one
   before, SEND_DONE the one of the completion, whoever emits the record.
   */
  lemma StampsAreHistory(read: bool, others: nat, moves: seq<Move>)
    requires Timed(moves)
    ensures var x := RunOf(read, others, moves);
            var told := Stamps3(if read then PostTime(moves, 3) else 0, PostTime(moves, 4), SendTime(moves, 3));
            x.ts == told && forall o :: o in x.outputs ==> o == told
  {
    TimesThroughout(read, others, moves);
    EmittedExactlyOnce(read, others, moves);
    RunKeeps(read, others, moves);
  }

  /** The work an end has left. */
  function Left(pc: Pc): nat {
    match pc
    case Enter => 10
    case Lookup => 9
    case Stamp => 8
    case Stamp2 => 7
    case Find => 6
    case SetBit => 5
    case EmitFind => 4
    case Output => 3
    case Clear => 2
    case Uncount => 1
    case Done => 0
  }

  lemma EmitAdvances(x: Sys, pc: Pc, full: bool)
    requires pc.Emitting()
    ensures Left(EmitStep(x, pc, full).1) < Left(pc)
  {
  }

  /** Neither end ever waits for the other: each of its steps brings it closer to its end. */
  lemma PostAdvances(x: Sys, now: u64, full: bool)
    requires !x.post.Done?
    ensures Left(PostStep(x, now, full).post) < Left(x.post)
  {
    if x.post.Emitting() { EmitAdvances(x, x.post, full); }
  }

  lemma SendAdvances(x: Sys, now: u64, full: bool)
    requires !x.send.Done?
    ensures Left(SendStep(x, now, full).send) < Left(x.send)
  {
    if x.send.Emitting() { EmitAdvances(x, x.send, full); }
  }
}
