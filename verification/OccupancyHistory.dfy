/**
 When a command counts. Occupancy shows that a queue's numbers are the numbers of commands that carry a flag; here each
 flag is read off the operations alone: who was dispatched, sent, completed, or arrived, was responded to and answered,
 and in which order.
 */
module OccupancyHistory {
  import opened Records
  import opened Occupancy

  predicate HostOp(op: Op) {
    op.Dispatch? || op.Sent? || op.Complete?
  }

  predicate TargetOp(op: Op) {
    op.Arrive? || op.Respond? || op.Answered?
  }

  /** The operation does not come behind i. */
  predicate NoneAfter(ops: seq<Op>, i: nat, op: Op) {
    forall k :: i < k < |ops| ==> ops[k] != op
  }

  // ---- the host ----

  /** Request `a` came to the queue with operation i, had not been counted then, and has not completed since. */
  predicate Underway(ops: seq<Op>, a: u64, q: u64, i: nat) {
    && i < |ops| && ops[i] == Dispatch(a, q) && NoneAfter(ops, i, Complete(a))
    && forall k :: 0 <= k < i && ops[k].Dispatch? && ops[k].addr == a ==> exists c :: k < c < i && ops[c] == Complete(a)
  }

  ghost predicate InFlight(ops: seq<Op>, a: u64, q: u64) {
    exists i: nat :: Underway(ops, a, q, i)
  }

  ghost predicate Unsent(ops: seq<Op>, a: u64, q: u64) {
    exists i: nat :: Underway(ops, a, q, i) && NoneAfter(ops, i, Sent(a))
  }

  // ---- the target ----

  /** The nvmet_req `a` took the queue's command with operation i, no other since, and it is not answered. */
  predicate Open(ops: seq<Op>, a: u64, q: u64, i: nat) {
    && i < |ops| && ops[i] == Arrive(a, q) && NoneAfter(ops, i, Answered(a))
    && forall k :: i < k < |ops| ==> !(ops[k].Arrive? && ops[k].addr == a)
  }

  ghost predicate Outstanding(ops: seq<Op>, a: u64, q: u64) {
    exists i: nat :: Open(ops, a, q, i)
  }

  ghost predicate RespQueued(ops: seq<Op>, a: u64, q: u64) {
    exists i: nat, k: nat :: Open(ops, a, q, i) && i < k < |ops| && ops[k] == Respond(a)
  }

  // ---- one operation more ----

  lemma StillUnderway(ops: seq<Op>, op: Op, a: u64, q: u64, i: nat)
    requires i < |ops|
    ensures Underway(ops + [op], a, q, i) <==> Underway(ops, a, q, i) && op != Complete(a)
  {
    var all := ops + [op];
    assert all[|ops|] == op;
    assert forall k :: 0 <= k < |ops| ==> all[k] == ops[k];
    if Underway(all, a, q, i) {
      forall k | 0 <= k < i && ops[k].Dispatch? && ops[k].addr == a ensures exists c :: k < c < i && ops[c] == Complete(a) {
        assert all[k].Dispatch?;
        var c :| k < c < i && all[c] == Complete(a);
        assert ops[c] == Complete(a);
      }
    }
    if Underway(ops, a, q, i) && op != Complete(a) {
      forall k | 0 <= k < i && all[k].Dispatch? && all[k].addr == a ensures exists c :: k < c < i && all[c] == Complete(a) {
        assert ops[k].Dispatch?;
        var c :| k < c < i && ops[c] == Complete(a);
        assert all[c] == Complete(a);
      }
    }
  }

  /** A dispatch that no completion followed: then the first such since the last completion is the one under way. */
  lemma {:induction false} SomeUnderway(ops: seq<Op>, a: u64, k: nat) returns (q: u64, i: nat)
    requires k < |ops| && ops[k].Dispatch? && ops[k].addr == a && NoneAfter(ops, k, Complete(a))
    ensures Underway(ops, a, q, i)
    decreases k
  {
    if j :| 0 <= j < k && ops[j].Dispatch? && ops[j].addr == a && forall c :: j < c < k ==> ops[c] != Complete(a) {
      q, i := SomeUnderway(ops, a, j);
    } else {
      q, i := ops[k].queue, k;
    }
  }

  /** What the map holds for `a` is what the operations say. */
  ghost predicate HostTold(ops: seq<Op>, a: u64) {
    && Nested(RunOf(ops))
    && (forall q :: InFlight(ops, a, q) <==> a in Outer(RunOf(ops), q))
    && (forall q :: Unsent(ops, a, q) <==> a in Inner(RunOf(ops), q))
  }

  lemma RunSnoc(ops: seq<Op>, op: Op)
    ensures RunOf(ops + [op]) == After(RunOf(ops), op)
  {
    assert (ops + [op])[..|ops|] == ops;
  }

  /** Operations that are not on `a`, or dispatch it again, leave what is said of it. */
  lemma HostKept(ops: seq<Op>, op: Op, a: u64, q: u64)
    requires op != Complete(a) && op != Sent(a) && !Underway(ops + [op], a, q, |ops|)
    ensures InFlight(ops + [op], a, q) <==> InFlight(ops, a, q)
    ensures Unsent(ops + [op], a, q) <==> Unsent(ops, a, q)
  {
    var all := ops + [op];
    assert all[|ops|] == op;
    forall i: nat | i < |ops| ensures Underway(all, a, q, i) <==> Underway(ops, a, q, i)
                              ensures NoneAfter(all, i, Sent(a)) <==> NoneAfter(ops, i, Sent(a)) {
      StillUnderway(ops, op, a, q, i);
      NoneAfterSnoc(ops, op, i, Sent(a));
    }
    if InFlight(all, a, q) { var i: nat :| Underway(all, a, q, i); assert i < |ops|; assert Underway(ops, a, q, i); }
    if InFlight(ops, a, q) { var i: nat :| Underway(ops, a, q, i); assert Underway(all, a, q, i); }
    if Unsent(all, a, q) { var i: nat :| Underway(all, a, q, i) && NoneAfter(all, i, Sent(a)); assert i < |ops|; assert Underway(ops, a, q, i); }
    if Unsent(ops, a, q) { var i: nat :| Underway(ops, a, q, i) && NoneAfter(ops, i, Sent(a)); assert Underway(all, a, q, i); }
  }

  lemma NoneAfterSnoc(ops: seq<Op>, op: Op, i: nat, of: Op)
    requires i < |ops|
    ensures NoneAfter(ops + [op], i, of) <==> NoneAfter(ops, i, of) && op != of
  {
    var all := ops + [op];
    assert all[|ops|] == op;
    assert forall k :: 0 <= k < |ops| ==> all[k] == ops[k];
  }

  lemma OthersTold(ops: seq<Op>, op: Op, a: u64)
    requires HostTold(ops, a) && HostOp(op) && op.addr != a
    ensures HostTold(ops + [op], a)
  {
    RunSnoc(ops, op);
    forall q ensures InFlight(ops + [op], a, q) <==> a in Outer(RunOf(ops + [op]), q)
             ensures Unsent(ops + [op], a, q) <==> a in Inner(RunOf(ops + [op]), q) {
      assert (ops + [op])[|ops|] == op;
      HostKept(ops, op, a, q);
    }
  }

  lemma DispatchTold(ops: seq<Op>, op: Op)
    requires op.Dispatch? && HostTold(ops, op.addr)
    ensures HostTold(ops + [op], op.addr)
  {
    var a, all, m := op.addr, ops + [op], RunOf(ops);
    RunSnoc(ops, op);
    assert all[|ops|] == op;
    assert forall k :: 0 <= k < |ops| ==> all[k] == ops[k];
    if a in m {
      assert a in Outer(m, m[a].queue);
      var i: nat :| Underway(ops, a, m[a].queue, i);
      forall q ensures !Underway(all, a, q, |ops|) {
        assert all[i].Dispatch? && all[i].addr == a;
        assert forall c :: i < c < |ops| ==> all[c] != Complete(a);
      }
      forall q ensures InFlight(all, a, q) <==> a in Outer(RunOf(all), q)
               ensures Unsent(all, a, q) <==> a in Inner(RunOf(all), q) {
        HostKept(ops, op, a, q);
      }
    } else {
      FreshDispatch(ops, op);
    }
  }

  lemma FreshDispatch(ops: seq<Op>, op: Op)
    requires op.Dispatch? && HostTold(ops, op.addr) && op.addr !in RunOf(ops)
    ensures HostTold(ops + [op], op.addr)
  {
    var a, all, n := op.addr, ops + [op], |ops|;
    RunSnoc(ops, op);
    assert all[n] == op;
    assert forall k :: 0 <= k < n ==> all[k] == ops[k];
    forall k | 0 <= k < n && all[k].Dispatch? && all[k].addr == a ensures exists c :: k < c < n && all[c] == Complete(a) {
      if forall c :: k < c < n ==> ops[c] != Complete(a) {
        var q, i := SomeUnderway(ops, a, k);
        assert InFlight(ops, a, q);
      }
    }
    assert Underway(all, a, op.queue, n) && NoneAfter(all, n, Sent(a));
    forall q, i: nat | i < n ensures !Underway(all, a, q, i) {
      StillUnderway(ops, op, a, q, i);
      if Underway(ops, a, q, i) { assert InFlight(ops, a, q); }
    }
    forall q ensures InFlight(all, a, q) <==> q == op.queue
             ensures Unsent(all, a, q) <==> q == op.queue {
      if InFlight(all, a, q) { var i: nat :| Underway(all, a, q, i); assert i == n; }
    }
  }

  lemma SentTold(ops: seq<Op>, a: u64)
    requires HostTold(ops, a)
    ensures HostTold(ops + [Sent(a)], a)
  {
    var all, op := ops + [Sent(a)], Sent(a);
    RunSnoc(ops, op);
    assert all[|ops|] == op;
    forall q ensures InFlight(all, a, q) <==> InFlight(ops, a, q)
             ensures !Unsent(all, a, q) {
      forall i: nat | i < |ops| ensures Underway(all, a, q, i) <==> Underway(ops, a, q, i)
                                ensures !NoneAfter(all, i, Sent(a)) {
        StillUnderway(ops, op, a, q, i);
        NoneAfterSnoc(ops, op, i, Sent(a));
      }
      if InFlight(all, a, q) { var i: nat :| Underway(all, a, q, i); assert i < |ops|; assert Underway(ops, a, q, i); }
      if InFlight(ops, a, q) { var i: nat :| Underway(ops, a, q, i); assert Underway(all, a, q, i); }
    }
  }

  lemma CompleteTold(ops: seq<Op>, a: u64)
    requires HostTold(ops, a)
    ensures HostTold(ops + [Complete(a)], a)
  {
    var all, op := ops + [Complete(a)], Complete(a);
    RunSnoc(ops, op);
    assert all[|ops|] == op;
    forall q, i: nat ensures !Underway(all, a, q, i) {
      if i < |ops| { StillUnderway(ops, op, a, q, i); }
    }
  }

  lemma {:induction false} HostToldThroughout(ops: seq<Op>, a: u64)
    requires forall i :: 0 <= i < |ops| ==> HostOp(ops[i])
    ensures HostTold(ops, a)
  {
    if ops != [] {
      var rest, op := ops[..|ops| - 1], ops[|ops| - 1];
      HostToldThroughout(rest, a);
      assert ops == rest + [op];
      if op.addr != a { OthersTold(rest, op, a); }
      else {
        match op
        case Dispatch(_, _) => DispatchTold(rest, op);
        case Sent(_) => SentTold(rest, a);
        case Complete(_) => CompleteTold(rest, a);
      }
    }
  }

  /**
   The host's numbers, in every run: a request is in flight on a queue exactly if it was dispatched to it and has not
   completed since, a re-dispatch on the way changing nothing; and unsent exactly if it was not sent since either.
   */
  lemma HostCountsHistory(ops: seq<Op>, a: u64, q: u64)
    requires forall i :: 0 <= i < |ops| ==> HostOp(ops[i])
    ensures a in Outer(RunOf(ops), q) <==> InFlight(ops, a, q)
    ensures a in Inner(RunOf(ops), q) <==> Unsent(ops, a, q)
  {
    HostToldThroughout(ops, a);
  }

  // ---- the same for the target ----

  lemma StillOpen(ops: seq<Op>, op: Op, a: u64, q: u64, i: nat)
    requires i < |ops|
    ensures Open(ops + [op], a, q, i) <==> Open(ops, a, q, i) && op != Answered(a) && !(op.Arrive? && op.addr == a)
  {
    var all := ops + [op];
    assert all[|ops|] == op;
    assert forall k :: 0 <= k < |ops| ==> all[k] == ops[k];
  }

  ghost predicate Responded(ops: seq<Op>, a: u64, i: nat) {
    exists k: nat :: i < k < |ops| && ops[k] == Respond(a)
  }

  lemma RespondedSnoc(ops: seq<Op>, op: Op, a: u64, i: nat)
    requires i < |ops|
    ensures Responded(ops + [op], a, i) <==> Responded(ops, a, i) || op == Respond(a)
  {
    var all := ops + [op];
    assert all[|ops|] == op;
    if Responded(ops, a, i) { var k: nat :| i < k < |ops| && ops[k] == Respond(a); assert all[k] == Respond(a); }
  }

  ghost predicate TargetTold(ops: seq<Op>, a: u64) {
    && Nested(RunOf(ops))
    && (forall q :: Outstanding(ops, a, q) <==> a in Outer(RunOf(ops), q))
    && (forall q, i: nat :: Open(ops, a, q, i) ==> (Responded(ops, a, i) <==> a in Inner(RunOf(ops), q)))
  }

  lemma ArriveTold(ops: seq<Op>, op: Op)
    requires op.Arrive? && TargetTold(ops, op.addr)
    ensures TargetTold(ops + [op], op.addr)
  {
    var a, all, n := op.addr, ops + [op], |ops|;
    RunSnoc(ops, op);
    assert all[n] == op;
    assert Open(all, a, op.queue, n);
    forall q, i: nat | Open(all, a, q, i) ensures i == n && q == op.queue {
      if i < n { StillOpen(ops, op, a, q, i); }
    }
    assert !Responded(all, a, n);
  }

  /** Anything but a new arrival on `a` or its answer: the same commands are open, some perhaps responded to. */
  lemma OpenTold(ops: seq<Op>, op: Op, a: u64)
    requires TargetOp(op) && TargetTold(ops, a) && op != Answered(a) && !(op.Arrive? && op.addr == a)
    ensures TargetTold(ops + [op], a)
  {
    var all := ops + [op];
    RunSnoc(ops, op);
    assert all[|ops|] == op;
    forall q, i: nat ensures Open(all, a, q, i) <==> Open(ops, a, q, i) {
      if i < |ops| { StillOpen(ops, op, a, q, i); }
    }
    forall q, i: nat | Open(all, a, q, i) ensures Responded(all, a, i) <==> a in Inner(RunOf(all), q) {
      assert Open(ops, a, q, i) && Outstanding(ops, a, q);
      RespondedSnoc(ops, op, a, i);
    }
    forall q ensures Outstanding(all, a, q) <==> Outstanding(ops, a, q) {
      if Outstanding(all, a, q) { var i: nat :| Open(all, a, q, i); assert Open(ops, a, q, i); }
      if Outstanding(ops, a, q) { var i: nat :| Open(ops, a, q, i); assert Open(all, a, q, i); }
    }
  }

  lemma AnsweredTold(ops: seq<Op>, a: u64)
    requires TargetTold(ops, a)
    ensures TargetTold(ops + [Answered(a)], a)
  {
    var all := ops + [Answered(a)];
    RunSnoc(ops, Answered(a));
    assert all[|ops|] == Answered(a);
    forall q, i: nat ensures !Open(all, a, q, i) {
      if i < |ops| { StillOpen(ops, Answered(a), a, q, i); }
    }
  }

  lemma {:induction false} TargetToldThroughout(ops: seq<Op>, a: u64)
    requires forall i :: 0 <= i < |ops| ==> TargetOp(ops[i])
    ensures TargetTold(ops, a)
  {
    if ops != [] {
      var rest, op := ops[..|ops| - 1], ops[|ops| - 1];
      TargetToldThroughout(rest, a);
      assert ops == rest + [op];
      if op.Arrive? && op.addr == a { ArriveTold(rest, op); }
      else if op == Answered(a) { AnsweredTold(rest, a); }
      else { OpenTold(rest, op, a); }
    }
  }

  /**
   The target's numbers, in every run: a command is outstanding on a queue exactly if its nvmet_req took it there last
   and it was not answered since; and its response is queued exactly if it was also responded to since.
   */
  lemma TargetCountsHistory(ops: seq<Op>, a: u64, q: u64)
    requires forall i :: 0 <= i < |ops| ==> TargetOp(ops[i])
    ensures a in Outer(RunOf(ops), q) <==> Outstanding(ops, a, q)
    ensures a in Inner(RunOf(ops), q) <==> RespQueued(ops, a, q)
  {
    TargetToldThroughout(ops, a);
    if a in Inner(RunOf(ops), q) {
      assert a in Outer(RunOf(ops), q);
      var i: nat :| Open(ops, a, q, i);
      assert Responded(ops, a, i);
    }
    if RespQueued(ops, a, q) {
      var i: nat, k: nat :| Open(ops, a, q, i) && i < k < |ops| && ops[k] == Respond(a);
      assert Responded(ops, a, i);
    }
  }
}
