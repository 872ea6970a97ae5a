/**
 Exact queue occupancy (filter.track_queues; bpf/host.bpf.h, bpf/target.bpf.h). Per queue two numbers are kept by
 increments and decrements: on the target, commands outstanding and responses queued; on the host, commands in flight
 and commands not yet sent. Each is shown to equal, at any time, the number of counted commands that still carry the
 matching flag. `outer` stands for OUTSTANDING / INFLIGHT, `inner` for RESP_QUEUED / UNSENT.
 */
module Occupancy {
  import opened Records

  /** struct tcounted / struct counted: the flags still to be decremented */
  datatype Counted = Counted(queue: u64, outer: bool, inner: bool)

  /** struct tqstat / struct qstat */
  datatype Qstat = Qstat(outer: int, inner: int)

  type Commands = map<u64, Counted>

  /** The commands of a queue that carry a flag. */
  function Outer(m: Commands, q: u64): set<u64> {
    set a | a in m && m[a].queue == q && m[a].outer
  }

  function Inner(m: Commands, q: u64): set<u64> {
    set a | a in m && m[a].queue == q && m[a].inner
  }

  // ---- what the hooks do to the counted commands ----

  datatype Op =
    /** target: nvmet_req_init, count_resp_queued, tgt_uncount */
    | Arrive(addr: u64, queue: u64) | Respond(addr: u64) | Answered(addr: u64)
    /** host: host_queue_rq, the command capsule sent, host_complete */
    | Dispatch(addr: u64, queue: u64) | Sent(addr: u64) | Complete(addr: u64)

  function After(m: Commands, op: Op): Commands {
    match op
    case Arrive(a, q) => m[a := Counted(q, true, false)]
    case Respond(a) => if a in m then m[a := m[a].(inner := true)] else m
    case Answered(a) => m - {a}
    case Dispatch(a, q) => if a in m then m else m[a := Counted(q, true, true)]
    case Sent(a) => if a in m then m[a := m[a].(inner := false)] else m
    case Complete(a) => m - {a}
  }

  function RunOf(ops: seq<Op>): Commands {
    if ops == [] then map[] else After(RunOf(ops[..|ops| - 1]), ops[|ops| - 1])
  }

  ghost predicate Nested(m: Commands) {
    forall a :: a in m ==> m[a].outer
  }

  /** In every run, re-dispatch, repeated completion and reuse included: a queue's inner count is within its outer. */
  lemma {:induction false} InnerWithinOuter(ops: seq<Op>, q: u64)
    ensures Nested(RunOf(ops))
    ensures Inner(RunOf(ops), q) <= Outer(RunOf(ops), q)
    ensures |Inner(RunOf(ops), q)| <= |Outer(RunOf(ops), q)|
  {
    if ops != [] { InnerWithinOuter(ops[..|ops| - 1], q); }
    Smaller(Inner(RunOf(ops), q), Outer(RunOf(ops), q));
  }

  lemma Smaller(a: set<u64>, b: set<u64>)
    requires a <= b
    ensures |a| <= |b|
  {
    assert b == a + (b - a);
  }

  // ---- counting by one command at a time ----

  function One(b: bool): nat {
    if b then 1 else 0
  }

  predicate IsOuter(m: Commands, a: u64, q: u64) {
    a in m && m[a].queue == q && m[a].outer
  }

  predicate IsInner(m: Commands, a: u64, q: u64) {
    a in m && m[a].queue == q && m[a].inner
  }

  lemma OneDiffers(s: set<u64>, t: set<u64>, a: u64)
    requires s - {a} == t - {a}
    ensures |t| == |s| - One(a in s) + One(a in t)
  {
    assert a in s ==> s == (s - {a}) + {a};
    assert a in t ==> t == (t - {a}) + {a};
    assert a !in s ==> s == s - {a};
    assert a !in t ==> t == t - {a};
  }

  /** Two states that differ in one command differ by that command's flags in every queue's numbers. */
  lemma CountsDiffer(m: Commands, n: Commands, a: u64, q: u64)
    requires m - {a} == n - {a}
    ensures |Outer(n, q)| == |Outer(m, q)| - One(IsOuter(m, a, q)) + One(IsOuter(n, a, q))
    ensures |Inner(n, q)| == |Inner(m, q)| - One(IsInner(m, a, q)) + One(IsInner(n, a, q))
  {
    forall b | b != a ensures b in m <==> b in n {
      assert b in m - {a} <==> b in n - {a};
    }
    forall b | b != a && b in m ensures m[b] == n[b] {
      assert (m - {a})[b] == (n - {a})[b];
    }
    assert Outer(m, q) - {a} == Outer(n, q) - {a};
    assert Inner(m, q) - {a} == Inner(n, q) - {a};
    OneDiffers(Outer(m, q), Outer(n, q), a);
    OneDiffers(Inner(m, q), Inner(n, q), a);
  }

  lemma Replaced(m: Commands, a: u64, c: Counted)
    ensures (m - {a})[a := c] == m[a := c]
  {
  }

  // ---- the maps ----

  /** ntp_clamp_u16() */
  function Clamp(v: int): u16 {
    if v < 0 then 0 else if v > 0xffff then 0xffff else v
  }

  class QueueCounts {
    var counted: Commands
    var stats: map<u64, Qstat>

    /** The numbers are exact. */
    ghost predicate Valid()
      reads this
    {
      && Nested(counted)
      && (forall a :: a in counted ==> counted[a].queue in stats)
      && (forall q :: q in stats ==> stats[q] == Qstat(|Outer(counted, q)|, |Inner(counted, q)|))
    }

    /** So in every state of the object no number is negative, and unsent <= inflight, resp_queue <= outstanding. */
    lemma NumbersNest(q: u64)
      requires Valid() && q in stats
      ensures 0 <= stats[q].inner <= stats[q].outer
    {
      Smaller(Inner(counted, q), Outer(counted, q));
    }

    constructor ()
      ensures Valid() && counted == map[]
    {
      counted, stats := map[], map[];
    }

    /** get_tqstat() / get_qstat() */
    method GetStat(q: u64)
      requires Valid()
      modifies this`stats
      ensures Valid() && q in stats
    {
      if q !in stats {
        assert Outer(counted, q) == {} && Inner(counted, q) == {};
        stats := stats[q := Qstat(0, 0)];
      }
    }

    /** One command's flags change, and its queue's numbers with them. */
    method Change(a: u64, ghost now: Commands, q: u64, outer: int, inner: int)
      requires Valid() && q in stats && counted - {a} == now - {a}
      requires a in counted ==> counted[a].queue == q
      requires a in now ==> now[a].queue == q
      requires outer == One(IsOuter(now, a, q)) - One(IsOuter(counted, a, q))
      requires inner == One(IsInner(now, a, q)) - One(IsInner(counted, a, q))
      modifies this`stats
      ensures stats.Keys == old(stats).Keys
      ensures forall r :: r in stats ==> stats[r] == Qstat(|Outer(now, r)|, |Inner(now, r)|)
    {
      forall r ensures |Outer(now, r)| == |Outer(counted, r)| + (if r == q then outer else 0) &&
                       |Inner(now, r)| == |Inner(counted, r)| + (if r == q then inner else 0) {
        CountsDiffer(counted, now, a, r);
      }
      stats := stats[q := Qstat(stats[q].outer + outer, stats[q].inner + inner)];
    }

    /** uncount(), with `forget` */
    method Forget(a: u64)
      requires Valid()
      modifies this
      ensures Valid() && counted == old(counted) - {a}
      ensures old(stats).Keys == stats.Keys
    {
      if a in counted {
        var c := counted[a];
        Change(a, counted - {a}, c.queue, if c.outer then -1 else 0, if c.inner then -1 else 0);
        counted := counted - {a};
      }
    }

    /** A command counted from here on. */
    method Count(a: u64, c: Counted)
      requires Valid() && a !in counted && c.queue in stats && c.outer
      modifies this
      ensures Valid() && counted == old(counted)[a := c]
    {
      Change(a, counted[a := c], c.queue, if c.outer then 1 else 0, if c.inner then 1 else 0);
      counted := counted[a := c];
    }

    /** nvmet_req_init: what the slot's previous command left is dropped; the record gets the numbers of the others. */
    method OnArrive(a: u64, q: u64) returns (outstanding: u16, respQueue: u16)
      requires Valid()
      modifies this
      ensures Valid() && counted == After(old(counted), Arrive(a, q))
      ensures outstanding == Clamp(|Outer(old(counted) - {a}, q)|)
      ensures respQueue == Clamp(|Inner(old(counted) - {a}, q)|)
    {
      GetStat(q);
      Forget(a);
      outstanding, respQueue := Clamp(stats[q].outer), Clamp(stats[q].inner);
      Replaced(old(counted), a, Counted(q, true, false));
      Count(a, Counted(q, true, false));
    }

    /** count_resp_queued(): a response counted already is not counted again. */
    method OnRespond(a: u64)
      requires Valid()
      modifies this
      ensures Valid() && counted == After(old(counted), Respond(a))
    {
      if a in counted && !counted[a].inner {
        var c := counted[a].(inner := true);
        Change(a, counted[a := c], c.queue, 0, 1);
        counted := counted[a := c];
      }
    }

    method OnAnswered(a: u64)
      requires Valid()
      modifies this
      ensures Valid() && counted == After(old(counted), Answered(a))
    {
      Forget(a);
    }

    /** host_queue_rq: a request dispatched again is counted still, and then gets no numbers. */
    method OnDispatch(a: u64, q: u64) returns (unsent: u16, inflight: u16)
      requires Valid()
      modifies this
      ensures Valid() && counted == After(old(counted), Dispatch(a, q))
      ensures a in old(counted) ==> unsent == 0 && inflight == 0
      ensures a !in old(counted) ==>
                unsent == Clamp(|Inner(old(counted), q)|) && inflight == Clamp(|Outer(old(counted), q)|)
    {
      unsent, inflight := 0, 0;
      GetStat(q);
      if a !in counted {
        unsent, inflight := Clamp(stats[q].inner), Clamp(stats[q].outer);
        Count(a, Counted(q, true, true));
      }
    }

    /** uncount(CNT_UNSENT) when the command capsule went out */
    method OnSent(a: u64)
      requires Valid()
      modifies this
      ensures Valid() && counted == After(old(counted), Sent(a))
    {
      if a in counted {
        var c := counted[a].(inner := false);
        Change(a, counted[a := c], c.queue, 0, if counted[a].inner then -1 else 0);
        counted := counted[a := c];
      }
    }

    method OnComplete(a: u64)
      requires Valid()
      modifies this
      ensures Valid() && counted == After(old(counted), Complete(a))
    {
      Forget(a);
    }
  }
}
