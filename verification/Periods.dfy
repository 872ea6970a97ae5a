/** Periods of work on a command's data, one after the other from the start of its data phase, and what lies between. */
module Periods {
  import opened Records
  import opened StageModel

  datatype Period = Period(from: nat, to: nat)

  /** Where the last period ends (the start, before any). */
  function End(start: nat, ps: seq<Period>): nat {
    if ps == [] then start else ps[|ps| - 1].to
  }

  /** The periods do not overlap and lie behind the start, in order. */
  predicate Disjoint(start: nat, ps: seq<Period>) {
    if ps == [] then true
    else
      var n := |ps| - 1;
      Disjoint(start, ps[..n]) && End(start, ps[..n]) <= ps[n].from <= ps[n].to
  }

  function Busy(ps: seq<Period>): int {
    if ps == [] then 0 else Busy(ps[..|ps| - 1]) + ps[|ps| - 1].to - ps[|ps| - 1].from
  }

  /** The sum of the gaps between the periods, the one before the first included. */
  function Gaps(start: nat, ps: seq<Period>): int {
    if ps == [] then 0
    else
      var n := |ps| - 1;
      Gaps(start, ps[..n]) + ps[n].from - End(start, ps[..n])
  }

  lemma Append(start: nat, ps: seq<Period>, p: Period)
    ensures Disjoint(start, ps + [p]) <==> Disjoint(start, ps) && End(start, ps) <= p.from <= p.to
    ensures Busy(ps + [p]) == Busy(ps) + p.to - p.from
    ensures End(start, ps + [p]) == p.to
  {
    assert (ps + [p])[..|ps|] == ps;
  }

  /** Work and gaps fill the span exactly. */
  lemma {:induction false} SpanIs(start: nat, ps: seq<Period>)
    requires Disjoint(start, ps)
    ensures start <= End(start, ps)
    ensures Busy(ps) + Gaps(start, ps) == End(start, ps) - start
    ensures Busy(ps) >= 0 && Gaps(start, ps) >= 0
  {
    if ps != [] { SpanIs(start, ps[..|ps| - 1]); }
  }

  /** Spelled out: any two periods of a data phase are apart, and all lie inside it. */
  lemma {:induction false} PairwiseApart(start: nat, ps: seq<Period>, i: nat, j: nat)
    requires Disjoint(start, ps) && i <= j < |ps|
    ensures start <= ps[i].from <= ps[i].to <= ps[j].to <= End(start, ps)
    ensures i < j ==> ps[i].to <= ps[j].from
  {
    var n := |ps| - 1;
    SpanIs(start, ps[..n]);
    if j < n {
      PairwiseApart(start, ps[..n], i, j);
    } else if i < j {
      PairwiseApart(start, ps[..n], i, n - 1);
    }
  }

  /**
   What the stage model makes of such a record: the cap on the busy time does not act, the transport's part is exactly
   the time in the periods and the wait exactly the time between them. Without any time in a period there is no phase.
   */
  lemma PhaseOfPeriods(start: u64, done: u64, next: u64, busyNs: u64, ps: seq<Period>)
    requires Disjoint(start, ps) && ps != [] && done == End(start, ps) && busyNs == Busy(ps) && done <= next
    requires start != 0
    ensures busyNs <= done - start
    ensures DataPhase(start, done, next, busyNs) ==
            if Busy(ps) == 0 then NoPhase else Phase.Phase(Busy(ps), Gaps(start, ps))
  {
    SpanIs(start, ps);
  }
}
