/** What the joiner (src/join.c) does to its two waiting sequences and its counters, and whole runs of it. */
module JoinSpec {
  import opened Records
  import opened Waiting

  /** struct ntp_join_stats */
  datatype Stats = Stats(added: nat, evicted: nat, expired: nat, matched: nat, unmatched: nat)

  datatype Joiner = Joiner(targets: seq<Rec>, hosts: seq<Rec>, maxPerKey: nat, st: Stats)

  const NO_STATS := Stats(0, 0, 0, 0, 0)

  function NewJoiner(maxPerKey: nat): Joiner {
    Joiner([], [], maxPerKey, NO_STATS)
  }

  /** The key's bucket holds as many records as it may (0: unbounded). */
  predicate Full(q: seq<Rec>, r: Rec, max: nat) {
    max > 0 && |Filter(q, KeyIs(KeyOf(r.id)))| == max
  }

  /** table_push(): append, after dropping the oldest record of a full bucket. */
  function Push(q: seq<Rec>, r: Rec, max: nat): seq<Rec> {
    (if Full(q, r, max) then RemoveFirst(q, KeyIs(KeyOf(r.id))) else q) + [r]
  }

  function Dropped(q: seq<Rec>, r: Rec, max: nat): seq<Rec> {
    if Full(q, r, max) && First(q, KeyIs(KeyOf(r.id))).Some?
    then [First(q, KeyIs(KeyOf(r.id))).value] else []
  }

  datatype Op =
    | AddTarget(t: Rec)
    | Match(h: Rec)
    | TargetArrives(t: Rec)
    | HostArrives(h: Rec)
    | Release(before: int)
    | Expire(before: int)
  {
    predicate Typed() {
      match this
      case AddTarget(t) => t.Target?
      case TargetArrives(t) => t.Target?
      case Match(h) => h.Host?
      case HostArrives(h) => h.Host?
      case _ => true
    }

    predicate Online() {
      TargetArrives? || HostArrives?
    }

    /** What a recording does: records arrive, and ticks release hosts and expire targets. */
    predicate Recording() {
      Online() || Release? || Expire?
    }
  }

  /** A host record that leaves the joiner goes to the statistics, with its target record or without. */
  datatype Call = Call(h: Rec, t: Option<Rec>)

  /** A run: the joiner, the calls made so far, and the records dropped on the way. */
  datatype Run = Run(j: Joiner, calls: seq<Call>, evictedHosts: seq<Rec>, evictedTargets: seq<Rec>,
                     expiredTargets: seq<Rec>)

  function Unmatched(hosts: seq<Rec>): (calls: seq<Call>)
    ensures |calls| == |hosts| && forall i :: 0 <= i < |hosts| ==> calls[i] == Call(hosts[i], None)
  {
    seq(|hosts|, i requires 0 <= i < |hosts| => Call(hosts[i], None))
  }

  lemma UnmatchedSnoc(hosts: seq<Rec>, h: Rec)
    ensures Unmatched(hosts + [h]) == Unmatched(hosts) + [Call(h, None)]
  {
  }

  lemma {:induction false} UnmatchedCount(a: seq<Rec>, c: Call)
    ensures multiset(Unmatched(a))[c] == if c.t == None then multiset(a)[c.h] else 0
  {
    if a != [] {
      var rest, h := a[..|a| - 1], a[|a| - 1];
      assert a == rest + [h];
      UnmatchedSnoc(rest, h);
      UnmatchedCount(rest, c);
    }
  }

  /** The calls without a target are as many as the hosts, whatever the order. */
  lemma UnmatchedMultiset(a: seq<Rec>, b: seq<Rec>)
    requires multiset(a) == multiset(b)
    ensures multiset(Unmatched(a)) == multiset(Unmatched(b))
  {
    forall c ensures multiset(Unmatched(a))[c] == multiset(Unmatched(b))[c] {
      UnmatchedCount(a, c);
      UnmatchedCount(b, c);
    }
  }

  lemma UnmatchedSplit(a: seq<Rec>, b: seq<Rec>, all: seq<Rec>)
    requires multiset(all) == multiset(a) + multiset(b)
    ensures multiset(Unmatched(all)) == multiset(Unmatched(a)) + multiset(Unmatched(b))
  {
    forall c ensures multiset(Unmatched(all))[c] == multiset(Unmatched(a))[c] + multiset(Unmatched(b))[c] {
      UnmatchedCount(a, c);
      UnmatchedCount(b, c);
      UnmatchedCount(all, c);
    }
  }

  function AddTargetStep(r: Run, t: Rec): Run {
    var j := r.j;
    var dropped := Dropped(j.targets, t, j.maxPerKey);
    r.(j := j.(targets := Push(j.targets, t, j.maxPerKey),
               st := j.st.(added := j.st.added + 1, evicted := j.st.evicted + |dropped|)),
       evictedTargets := r.evictedTargets + dropped)
  }

  /** The host record takes the oldest target record of its command. */
  function Joined(r: Run, h: Rec, t: Rec): Run {
    var j := r.j;
    r.(j := j.(targets := RemoveFirst(j.targets, IdIs(h.id)), st := j.st.(matched := j.st.matched + 1)),
       calls := r.calls + [Call(h, Some(t))])
  }

  function Step(r: Run, op: Op): Run {
    var j := r.j;
    match op
    case AddTarget(t) => AddTargetStep(r, t)
    case Match(h) =>
      var t := First(j.targets, IdIs(h.id));
      if t.Some? then Joined(r, h, t.value)
      else r.(j := j.(st := j.st.(unmatched := j.st.unmatched + 1)), calls := r.calls + [Call(h, None)])
    case TargetArrives(t) =>
      var h := First(j.hosts, IdIs(t.id));
      if h.Some? then
        r.(j := j.(hosts := RemoveFirst(j.hosts, IdIs(t.id)),
                   st := j.st.(added := j.st.added + 1, matched := j.st.matched + 1)),
           calls := r.calls + [Call(h.value, Some(t))])
      else AddTargetStep(r, t)
    case HostArrives(h) =>
      var t := First(j.targets, IdIs(h.id));
      if t.Some? then Joined(r, h, t.value)
      else
        var dropped := Dropped(j.hosts, h, j.maxPerKey);
        r.(j := j.(hosts := Push(j.hosts, h, j.maxPerKey),
                   st := j.st.(unmatched := j.st.unmatched + |dropped|)),
           evictedHosts := r.evictedHosts + dropped)
    case Release(before) =>
      var aged := Filter(j.hosts, Before(before));
      r.(j := j.(hosts := Filter(j.hosts, Not(Before(before))), st := j.st.(unmatched := j.st.unmatched + |aged|)),
         calls := r.calls + Unmatched(aged))
    case Expire(before) =>
      var aged := Filter(j.targets, Before(before));
      r.(j := j.(targets := Filter(j.targets, Not(Before(before))), st := j.st.(expired := j.st.expired + |aged|)),
         expiredTargets := r.expiredTargets + aged)
  }

  /** What an operation does to the joiner itself. */
  function After(j: Joiner, op: Op): Joiner {
    Step(Run(j, [], [], [], []), op).j
  }

  function RunOf(max: nat, ops: seq<Op>): Run {
    if ops == [] then Run(NewJoiner(max), [], [], [], [])
    else Step(RunOf(max, ops[..|ops| - 1]), ops[|ops| - 1])
  }

  lemma RunSnoc(max: nat, ops: seq<Op>, op: Op)
    ensures RunOf(max, ops + [op]) == Step(RunOf(max, ops), op)
  {
    assert (ops + [op])[..|ops|] == ops;
  }

  // ---- what went in and what came out ----

  function HostsIn(ops: seq<Op>): seq<Rec> {
    if ops == [] then []
    else
      var op := ops[|ops| - 1];
      HostsIn(ops[..|ops| - 1]) + if op.Match? || op.HostArrives? then [op.h] else []
  }

  function TargetsIn(ops: seq<Op>): seq<Rec> {
    if ops == [] then []
    else
      var op := ops[|ops| - 1];
      TargetsIn(ops[..|ops| - 1]) + if op.AddTarget? || op.TargetArrives? then [op.t] else []
  }

  function HostsOut(calls: seq<Call>): seq<Rec> {
    if calls == [] then [] else HostsOut(calls[..|calls| - 1]) + [calls[|calls| - 1].h]
  }

  function TargetsOut(calls: seq<Call>): seq<Rec> {
    if calls == [] then []
    else
      var c := calls[|calls| - 1];
      TargetsOut(calls[..|calls| - 1]) + if c.t.Some? then [c.t.value] else []
  }

  lemma OutSnoc(calls: seq<Call>, c: Call)
    ensures HostsOut(calls + [c]) == HostsOut(calls) + [c.h]
    ensures TargetsOut(calls + [c]) == TargetsOut(calls) + if c.t.Some? then [c.t.value] else []
  {
    assert (calls + [c])[..|calls|] == calls;
  }

  lemma {:induction false} OutUnmatched(calls: seq<Call>, hosts: seq<Rec>)
    ensures HostsOut(calls + Unmatched(hosts)) == HostsOut(calls) + hosts
    ensures TargetsOut(calls + Unmatched(hosts)) == TargetsOut(calls)
  {
    if hosts == [] {
      assert calls + Unmatched(hosts) == calls;
    } else {
      var rest, h := hosts[..|hosts| - 1], hosts[|hosts| - 1];
      assert hosts == rest + [h];
      UnmatchedSnoc(rest, h);
      assert calls + Unmatched(hosts) == (calls + Unmatched(rest)) + [Call(h, None)];
      OutSnoc(calls + Unmatched(rest), Call(h, None));
      OutUnmatched(calls, rest);
    }
  }

  // ---- conservation ----

  ghost predicate Conserved(r: Run, hostsIn: seq<Rec>, targetsIn: seq<Rec>) {
    var st := r.j.st;
    // the counters are exact
    && st.added == |targetsIn|
    && st.matched == |TargetsOut(r.calls)|
    && st.evicted == |r.evictedTargets|
    && st.expired == |r.expiredTargets|
    && st.unmatched == |r.calls| - |TargetsOut(r.calls)| + |r.evictedHosts|
    && |HostsOut(r.calls)| == |r.calls|
    // every record is in exactly one place
    && multiset(hostsIn) == multiset(HostsOut(r.calls)) + multiset(r.j.hosts) + multiset(r.evictedHosts)
    && multiset(targetsIn) ==
       multiset(TargetsOut(r.calls)) + multiset(r.j.targets) + multiset(r.evictedTargets) + multiset(r.expiredTargets)
  }

  lemma PushConserves(q: seq<Rec>, r: Rec, max: nat)
    ensures multiset(q) + multiset{r} == multiset(Push(q, r, max)) + multiset(Dropped(q, r, max))
    ensures |Push(q, r, max)| == |q| + 1 - |Dropped(q, r, max)|
  {
    var k := KeyIs(KeyOf(r.id));
    if Full(q, r, max) {
      FirstOfOwn(q, k);
      RemoveFirstMultiset(q, k);
    }
  }

  lemma DroppedOne(q: seq<Rec>, r: Rec, max: nat)
    ensures |Dropped(q, r, max)| == if Full(q, r, max) then 1 else 0
  {
    FirstOfOwn(q, KeyIs(KeyOf(r.id)));
  }

  lemma MatchConserves(r: Run, h: Rec, hs: seq<Rec>, ts: seq<Rec>)
    requires Conserved(r, hs, ts) && First(r.j.targets, IdIs(h.id)).Some?
    ensures Conserved(Joined(r, h, First(r.j.targets, IdIs(h.id)).value), hs + [h], ts)
  {
    var t := First(r.j.targets, IdIs(h.id));
    RemoveFirstMultiset(r.j.targets, IdIs(h.id));
    OutSnoc(r.calls, Call(h, t));
  }

  /** One record in, at most one out: the books of a waiting sequence before and after a push. */
  lemma Trade(all: multiset<Rec>, out: multiset<Rec>, q: seq<Rec>, gone: seq<Rec>, r: Rec, max: nat)
    requires all == out + multiset(q) + multiset(gone)
    ensures all + multiset{r} == out + multiset(Push(q, r, max)) + multiset(gone + Dropped(q, r, max))
  {
    var q', d := Push(q, r, max), Dropped(q, r, max);
    PushConserves(q, r, max);
    assert multiset(gone + d) == multiset(gone) + multiset(d);
    var lhs, rhs := all + multiset{r}, out + multiset(q') + multiset(gone + d);
    forall x ensures lhs[x] == rhs[x] {
      assert (multiset(q) + multiset{r})[x] == (multiset(q') + multiset(d))[x];
    }
  }

  lemma AddConserves(r: Run, t: Rec, hs: seq<Rec>, ts: seq<Rec>)
    requires Conserved(r, hs, ts)
    ensures Conserved(AddTargetStep(r, t), hs, ts + [t])
  {
    PushConserves(r.j.targets, t, r.j.maxPerKey);
    Trade(multiset(ts), multiset(TargetsOut(r.calls)) + multiset(r.expiredTargets), r.j.targets, r.evictedTargets, t,
          r.j.maxPerKey);
    assert multiset(ts + [t]) == multiset(ts) + multiset{t};
  }

  lemma HostArrivalConserves(r: Run, h: Rec, hs: seq<Rec>, ts: seq<Rec>)
    requires Conserved(r, hs, ts)
    ensures Conserved(Step(r, HostArrives(h)), hs + [h], ts)
  {
    if First(r.j.targets, IdIs(h.id)).Some? {
      MatchConserves(r, h, hs, ts);
    } else {
      PushConserves(r.j.hosts, h, r.j.maxPerKey);
      Trade(multiset(hs), multiset(HostsOut(r.calls)), r.j.hosts, r.evictedHosts, h, r.j.maxPerKey);
      assert multiset(hs + [h]) == multiset(hs) + multiset{h};
    }
  }

  lemma LateTargetConserves(r: Run, t: Rec, hs: seq<Rec>, ts: seq<Rec>)
    requires Conserved(r, hs, ts) && First(r.j.hosts, IdIs(t.id)).Some?
    ensures Conserved(Step(r, TargetArrives(t)), hs, ts + [t])
  {
    var h := First(r.j.hosts, IdIs(t.id)).value;
    RemoveFirstMultiset(r.j.hosts, IdIs(t.id));
    OutSnoc(r.calls, Call(h, Some(t)));
  }

  lemma ReleaseConserves(r: Run, before: int, hs: seq<Rec>, ts: seq<Rec>)
    requires Conserved(r, hs, ts)
    ensures Conserved(Step(r, Release(before)), hs, ts)
  {
    var aged := Filter(r.j.hosts, Before(before));
    FilterSplits(r.j.hosts, Before(before));
    OutUnmatched(r.calls, aged);
    assert multiset(HostsOut(r.calls) + aged) == multiset(HostsOut(r.calls)) + multiset(aged);
  }

  lemma ExpireConserves(r: Run, before: int, hs: seq<Rec>, ts: seq<Rec>)
    requires Conserved(r, hs, ts)
    ensures Conserved(Step(r, Expire(before)), hs, ts)
  {
    var aged := Filter(r.j.targets, Before(before));
    FilterSplits(r.j.targets, Before(before));
    assert multiset(r.expiredTargets + aged) == multiset(r.expiredTargets) + multiset(aged);
  }

  /**
   Over every run: targets_added = matched + evicted + expired + pending and hosts arrived = matched +
   host_unmatched + waiting, and behind the numbers each record is in exactly one of those places.
   */
  lemma {:induction false} Conservation(max: nat, ops: seq<Op>)
    ensures var r := RunOf(max, ops);
            && Conserved(r, HostsIn(ops), TargetsIn(ops))
            && r.j.st.added == r.j.st.matched + r.j.st.evicted + r.j.st.expired + |r.j.targets|
            && |HostsIn(ops)| == r.j.st.matched + r.j.st.unmatched + |r.j.hosts|
  {
    ConservedRun(max, ops);
    var r := RunOf(max, ops);
    assert |multiset(HostsIn(ops))| == |HostsIn(ops)|;
    assert |multiset(TargetsIn(ops))| == |TargetsIn(ops)|;
  }

  lemma MatchStepConserves(r: Run, h: Rec, hs: seq<Rec>, ts: seq<Rec>)
    requires Conserved(r, hs, ts)
    ensures Conserved(Step(r, Match(h)), hs + [h], ts)
  {
    if First(r.j.targets, IdIs(h.id)).Some? {
      MatchConserves(r, h, hs, ts);
    } else {
      OutSnoc(r.calls, Call(h, None));
      assert multiset(hs + [h]) == multiset(hs) + multiset{h};
      assert TargetsOut(r.calls) + [] == TargetsOut(r.calls);
    }
  }

  lemma StepConserves(r: Run, op: Op, hs: seq<Rec>, ts: seq<Rec>)
    requires Conserved(r, hs, ts)
    ensures op.AddTarget? || op.TargetArrives? ==> Conserved(Step(r, op), hs, ts + [op.t])
    ensures op.Match? || op.HostArrives? ==> Conserved(Step(r, op), hs + [op.h], ts)
    ensures op.Release? || op.Expire? ==> Conserved(Step(r, op), hs, ts)
  {
    match op {
      case AddTarget(t) => AddConserves(r, t, hs, ts);
      case Match(h) => MatchStepConserves(r, h, hs, ts);
      case TargetArrives(t) =>
        if First(r.j.hosts, IdIs(t.id)).Some? {
          LateTargetConserves(r, t, hs, ts);
        } else {
          AddConserves(r, t, hs, ts);
        }
      case HostArrives(h) => HostArrivalConserves(r, h, hs, ts);
      case Release(before) => ReleaseConserves(r, before, hs, ts);
      case Expire(before) => ExpireConserves(r, before, hs, ts);
    }
  }

  lemma {:induction false} ConservedRun(max: nat, ops: seq<Op>)
    ensures Conserved(RunOf(max, ops), HostsIn(ops), TargetsIn(ops))
  {
    if ops != [] {
      var before := ops[..|ops| - 1];
      ConservedRun(max, before);
      assert HostsIn(before) + [] == HostsIn(before) && TargetsIn(before) + [] == TargetsIn(before);
      StepConserves(RunOf(max, before), ops[|ops| - 1], HostsIn(before), TargetsIn(before));
    }
  }

  // ---- no command waits on both sides ----

  ghost predicate OneSided(j: Joiner) {
    forall h, t :: h in j.hosts && t in j.targets ==> h.id != t.id
  }

  lemma OneSidedKept(r: Run, op: Op)
    requires OneSided(r.j) && !op.AddTarget?
    ensures OneSided(Step(r, op).j)
  {
    match op
    case TargetArrives(t) =>
      InFirst(r.j.hosts, IdIs(t.id));
      InFirst(r.j.targets, KeyIs(KeyOf(t.id)));
    case HostArrives(h) =>
      InFirst(r.j.targets, IdIs(h.id));
      InFirst(r.j.hosts, KeyIs(KeyOf(h.id)));
    case Match(h) =>
      InFirst(r.j.targets, IdIs(h.id));
    case Release(before) =>
      InFilter(r.j.hosts, Not(Before(before)));
    case Expire(before) =>
      InFilter(r.j.targets, Not(Before(before)));
  }

  /** However records come, go and age: a command waits as hosts or as targets, never as both. */
  lemma {:induction false} NeverBothWait(max: nat, ops: seq<Op>)
    requires forall i :: 0 <= i < |ops| ==> !ops[i].AddTarget?
    ensures OneSided(RunOf(max, ops).j)
  {
    if ops != [] {
      NeverBothWait(max, ops[..|ops| - 1]);
      OneSidedKept(RunOf(max, ops[..|ops| - 1]), ops[|ops| - 1]);
    }
  }

  /** Conservation, for one bucket: no key ever holds more records than the bound. */
  lemma {:induction false} BoundedPerKey(max: nat, ops: seq<Op>, k: nat)
    requires max > 0
    ensures |Filter(RunOf(max, ops).j.targets, KeyIs(k))| <= max
    ensures |Filter(RunOf(max, ops).j.hosts, KeyIs(k))| <= max
  {
    if ops != [] {
      BoundedPerKey(max, ops[..|ops| - 1], k);
      MaxPerKeyKept(max, ops[..|ops| - 1]);
      var j, op := RunOf(max, ops[..|ops| - 1]).j, ops[|ops| - 1];
      match op {
        case AddTarget(t) => PushBounded(j.targets, t, max, k);
        case Match(h) => TakeBounded(j.targets, h.id, k);
        case TargetArrives(t) => TakeBounded(j.hosts, t.id, k); PushBounded(j.targets, t, max, k);
        case HostArrives(h) => TakeBounded(j.targets, h.id, k); PushBounded(j.hosts, h, max, k);
        case _ => AgeBounded(j.hosts, op.before, k); AgeBounded(j.targets, op.before, k);
      }
    }
  }

  lemma {:induction false} MaxPerKeyKept(max: nat, ops: seq<Op>)
    ensures RunOf(max, ops).j.maxPerKey == max
  {
    if ops != [] { MaxPerKeyKept(max, ops[..|ops| - 1]); }
  }

  lemma PushBounded(q: seq<Rec>, r: Rec, max: nat, k: nat)
    requires max > 0 && |Filter(q, KeyIs(k))| <= max
    ensures |Filter(Push(q, r, max), KeyIs(k))| <= max
  {
    var own := KeyIs(KeyOf(r.id));
    var left := if Full(q, r, max) then RemoveFirst(q, own) else q;
    FilterSnoc(left, r, KeyIs(k));
    if k == KeyOf(r.id) {
      FirstOfOwn(q, own);
    } else {
      RemoveElsewhere(q, own, KeyIs(k));
    }
  }

  lemma TakeBounded(q: seq<Rec>, id: CmdId, k: nat)
    ensures |Filter(RemoveFirst(q, IdIs(id)), KeyIs(k))| <= |Filter(q, KeyIs(k))|
  {
    if k == KeyOf(id) {
      FirstWithin(q, IdIs(id), KeyIs(k));
    } else {
      RemoveElsewhere(q, IdIs(id), KeyIs(k));
    }
  }

  lemma AgeBounded(q: seq<Rec>, before: int, k: nat)
    ensures |Filter(Filter(q, Not(Before(before))), KeyIs(k))| <= |Filter(q, KeyIs(k))|
  {
    FilterTwice(q, Not(Before(before)), KeyIs(k), Both(KeyIs(k), Not(Before(before))));
    FilterTwice(q, KeyIs(k), Not(Before(before)), Both(KeyIs(k), Not(Before(before))));
    FilterSplits(Filter(q, KeyIs(k)), Before(before));
  }

  // ---- ticks ----

  /** Only host records wait as hosts, and only target records as targets. */
  lemma {:induction false} WaitTyped(max: nat, ops: seq<Op>)
    requires forall i :: 0 <= i < |ops| ==> ops[i].Typed()
    ensures forall h :: h in RunOf(max, ops).j.hosts ==> h.Host?
    ensures forall t :: t in RunOf(max, ops).j.targets ==> t.Target?
  {
    if ops != [] {
      var n := |ops| - 1;
      WaitTyped(max, ops[..n]);
      StaysTyped(RunOf(max, ops[..n]), ops[n]);
    }
  }

  lemma StaysTyped(r: Run, op: Op)
    requires op.Typed() && (forall h :: h in r.j.hosts ==> h.Host?) && (forall t :: t in r.j.targets ==> t.Target?)
    ensures forall h :: h in Step(r, op).j.hosts ==> h.Host?
    ensures forall t :: t in Step(r, op).j.targets ==> t.Target?
  {
    var j := r.j;
    match op
    case AddTarget(t) => InFirst(j.targets, KeyIs(KeyOf(t.id)));
    case Match(h) => InFirst(j.targets, IdIs(h.id));
    case TargetArrives(t) => InFirst(j.hosts, IdIs(t.id)); InFirst(j.targets, KeyIs(KeyOf(t.id)));
    case HostArrives(h) => InFirst(j.targets, IdIs(h.id)); InFirst(j.hosts, KeyIs(KeyOf(h.id)));
    case Release(before) => InFilter(j.hosts, Not(Before(before)));
    case Expire(before) => InFilter(j.targets, Not(Before(before)));
  }

  lemma InUnmatched(hosts: seq<Rec>, h: Rec)
    ensures Call(h, None) in Unmatched(hosts) <==> h in hosts
  {
    if h in hosts {
      var i :| 0 <= i < |hosts| && hosts[i] == h;
      assert Unmatched(hosts)[i] == Call(h, None);
    }
  }

  /**
   In every run a release is decided by one stamp: a host stops waiting exactly if its request was done (BLK_DONE)
   before the limit, and goes to the statistics without a target.
   */
  lemma ReleaseTakesTheOlder(max: nat, ops: seq<Op>, before: int, h: Rec)
    requires forall i :: 0 <= i < |ops| ==> ops[i].Typed()
    ensures var r, t := RunOf(max, ops), RunOf(max, ops + [Release(before)]);
            && (h in t.j.hosts <==> h in r.j.hosts && h.ts[H_BLK_DONE] >= before)
            && |r.calls| <= |t.calls| && t.calls[..|r.calls|] == r.calls
            && (Call(h, None) in t.calls[|r.calls|..] <==> h in r.j.hosts && h.ts[H_BLK_DONE] < before)
            && t.j.targets == r.j.targets
  {
    var r := RunOf(max, ops);
    WaitTyped(max, ops);
    RunSnoc(max, ops, Release(before));
    InFilter(r.j.hosts, Before(before));
    InFilter(r.j.hosts, Not(Before(before)));
    var t, aged := Step(r, Release(before)), Filter(r.j.hosts, Before(before));
    assert t.calls[|r.calls|..] == Unmatched(aged);
    InUnmatched(aged, h);
  }

  /** And an expiry by another: a target stops waiting exactly if its command arrived (CMD_ARR) before the limit. */
  lemma ExpiryTakesTheOlder(max: nat, ops: seq<Op>, before: int, x: Rec)
    requires forall i :: 0 <= i < |ops| ==> ops[i].Typed()
    ensures var r, t := RunOf(max, ops), RunOf(max, ops + [Expire(before)]);
            && (x in t.j.targets <==> x in r.j.targets && x.ts[T_CMD_ARR] >= before)
            && t.j.hosts == r.j.hosts && t.calls == r.calls
  {
    var r := RunOf(max, ops);
    WaitTyped(max, ops);
    RunSnoc(max, ops, Expire(before));
    InFilter(r.j.targets, Not(Before(before)));
    assert Step(r, Expire(before)).j.targets == Filter(r.j.targets, Not(Before(before)));
    assert x in r.j.targets ==> x.Target?;
    assert Not(Before(before)).Picks(x) <==> Age(x) >= before;
  }
}
