/**
 Aggregation (src/stats.c): each host record, with its target record or without, goes into one group; a group holds
 counters and one vector of samples per component, stage and queue metric. What a group holds is a function of the
 calls made with its key.
 */
module Aggregation {
  import opened Records
  import opened StageModel
  import opened JoinSpec
  import opened Summary

  /** struct ntp_group_key; None and "" where the grouping leaves a field out. */
  datatype GroupKey = GroupKey(isWrite: Option<bool>, bytes: nat, session: string)

  datatype Grouping = Grouping(byType: bool, bySize: bool, bySession: bool)

  function SkipDigits(s: string, i: nat): (j: nat)
    requires i <= |s|
    ensures i <= j <= |s|
    decreases |s| - i
  {
    if i < |s| && '0' <= s[i] <= '9' then SkipDigits(s, i + 1) else i
  }

  /** ntp_session_name(): nvme1c2n3 names the namespace nvme1n3. */
  function SessionName(disk: string): string {
    if "nvme" <= disk then
      var c := SkipDigits(disk, 4);
      if c + 1 < |disk| && disk[c] == 'c' && '0' <= disk[c + 1] <= '9' then
        var n := SkipDigits(disk, c + 1);
        if n < |disk| && disk[n] == 'n' then disk[..c] + disk[n..] else disk
      else disk
    else disk
  }

  function KeyFor(grp: Grouping, h: Rec): GroupKey {
    GroupKey(if grp.byType then Some(Write in h.flags) else None,
             if grp.bySize then h.bytes else 0,
             if grp.bySession && h.Host? then SessionName(h.disk) else "")
  }

  /** What a group counts or samples. */
  datatype Metric =
    | Records | BadHost | BadTarget | Joined | PostEstimated
    | OfComp(c: Comp) | OfStage(s: Stage)
    | HostUnsent | HostInflight | TgtOutstanding | TgtRespQueue
  {
    /** Kept as a vector of samples; the others are counters. */
    predicate Vector() {
      OfComp? || OfStage? || HostUnsent? || HostInflight? || TgtOutstanding? || TgtRespQueue?
    }
  }

  function Sample(o: Option<int>): seq<int> {
    if o.Some? then [o.value] else []
  }

  function If(b: bool, v: int): seq<int> {
    if b then [v] else []
  }

  /** What one call adds to a metric: nothing, or one sample. */
  function Adds(call: Call, m: Metric): (s: seq<int>)
    ensures |s| <= 1
  {
    AddsOf(call, BreakdownOf(call.h, call.t).0, BreakdownOf(call.h, call.t).1, m)
  }

  function AddsOf(call: Call, err: Err, b: Breakdown, m: Metric): (s: seq<int>)
    ensures |s| <= 1
  {
    match m
    case Records => [1]
    case BadHost => If(err == IncompleteHost, 1)
    case BadTarget => If(err == IncompleteTarget, 1)
    case Joined => If(b.joined, 1)
    case PostEstimated => If(b.postEstimated, 1)
    case OfComp(c) => Sample(b.comp.At(c))
    case OfStage(s) => Sample(b.stage.At(s))
    case HostUnsent => If(err != IncompleteHost && Queues in call.h.flags, call.h.qFirst)
    case HostInflight => If(err != IncompleteHost && Queues in call.h.flags, call.h.qSecond)
    case TgtOutstanding => If(b.joined && call.t.Some? && Queues in call.t.value.flags,
                              if call.t.Some? then call.t.value.qFirst else 0)
    case TgtRespQueue => If(b.joined && call.t.Some? && Queues in call.t.value.flags,
                            if call.t.Some? then call.t.value.qSecond else 0)
  }

  function AddsTo(grp: Grouping, k: GroupKey, call: Call, m: Metric): seq<int> {
    if KeyFor(grp, call.h) == k then Adds(call, m) else []
  }

  /** What calls add, one after the other. */
  function Gather(calls: seq<Call>, adds: Call -> seq<int>): seq<int> {
    if calls == [] then [] else Gather(calls[..|calls| - 1], adds) + adds(calls[|calls| - 1])
  }

  lemma GatherSnoc(calls: seq<Call>, call: Call, adds: Call -> seq<int>)
    ensures Gather(calls + [call], adds) == Gather(calls, adds) + adds(call)
  {
    assert (calls + [call])[..|calls|] == calls;
  }

  /** The samples of a metric in a group, in the order of the calls. */
  function Samples(grp: Grouping, k: GroupKey, calls: seq<Call>, m: Metric): seq<int> {
    Gather(calls, call => AddsTo(grp, k, call, m))
  }

  lemma SamplesSnoc(grp: Grouping, k: GroupKey, calls: seq<Call>, call: Call, m: Metric)
    ensures Samples(grp, k, calls + [call], m) == Samples(grp, k, calls, m) + AddsTo(grp, k, call, m)
  {
    GatherSnoc(calls, call, c => AddsTo(grp, k, c, m));
  }

  // ---- what every group keeps ----

  function Count(grp: Grouping, k: GroupKey, calls: seq<Call>, m: Metric): nat {
    |Samples(grp, k, calls, m)|
  }

  lemma {:induction false} SumConcat(a: seq<int>, b: seq<int>)
    ensures Sum(a + b) == Sum(a) + Sum(b)
  {
    if b == [] {
      assert a + b == a;
    } else {
      assert (a + b)[..|a + b| - 1] == a + b[..|b| - 1];
      SumConcat(a, b[..|b| - 1]);
    }
  }

  /** The sum of a component's samples in a group. */
  function Total(grp: Grouping, k: GroupKey, calls: seq<Call>, c: Comp): int {
    Sum(Samples(grp, k, calls, OfComp(c)))
  }

  lemma SumSample(o: Option<int>)
    ensures Sum(Sample(o)) == Val(o)
  {
    if o.Some? { assert [o.value][..0] == []; }
  }

  lemma TotalSnoc(grp: Grouping, k: GroupKey, calls: seq<Call>, call: Call, c: Comp)
    ensures Total(grp, k, calls + [call], c) ==
            Total(grp, k, calls, c) +
            if KeyFor(grp, call.h) == k then Val(BreakdownOf(call.h, call.t).1.comp.At(c)) else 0
  {
    SamplesSnoc(grp, k, calls, call, OfComp(c));
    SumConcat(Samples(grp, k, calls, OfComp(c)), AddsTo(grp, k, call, OfComp(c)));
    SumAdded(grp, k, call, c);
  }

  lemma SumAdded(grp: Grouping, k: GroupKey, call: Call, c: Comp)
    ensures Sum(AddsTo(grp, k, call, OfComp(c))) ==
            if KeyFor(grp, call.h) == k then Val(BreakdownOf(call.h, call.t).1.comp.At(c)) else 0
  {
    SumSample(BreakdownOf(call.h, call.t).1.comp.At(c));
  }

  /** The components that are not details (see ntp_comps in src/model.c). */
  const MAIN: seq<Comp> :=
    [BlkSub, TrSub, Net, TgtRx, TgtSub, TgtWait, TgtData, TgtBe, TgtCmpl, HostRx, HostWait, HostData, TrCmpl, BlkCmpl,
     Remote]

  function SumAt(m: Comps, cs: seq<Comp>): int {
    if cs == [] then 0 else Val(m.At(cs[0])) + SumAt(m, cs[1..])
  }

  function TotalOver(grp: Grouping, k: GroupKey, calls: seq<Call>, cs: seq<Comp>): int {
    if cs == [] then 0 else Total(grp, k, calls, cs[0]) + TotalOver(grp, k, calls, cs[1..])
  }

  lemma SumStep(m: Comps, cs: seq<Comp>, i: nat)
    requires i < |cs|
    ensures SumAt(m, cs[i..]) == Val(m.At(cs[i])) + SumAt(m, cs[i + 1..])
  {
    assert cs[i..][1..] == cs[i + 1..];
  }

  lemma SumFive(m: Comps, cs: seq<Comp>, i: nat)
    requires i + 5 <= |cs|
    ensures SumAt(m, cs[i..]) == Val(m.At(cs[i])) + Val(m.At(cs[i + 1])) + Val(m.At(cs[i + 2])) +
                                 Val(m.At(cs[i + 3])) + Val(m.At(cs[i + 4])) + SumAt(m, cs[i + 5..])
  {
    SumStep(m, cs, i);
    SumStep(m, cs, i + 1);
    SumStep(m, cs, i + 2);
    SumStep(m, cs, i + 3);
    SumStep(m, cs, i + 4);
  }

  lemma MainSumOf(m: Comps, cs: seq<Comp>)
    requires |cs| == 15
    requires cs[0] == BlkSub && cs[1] == TrSub && cs[2] == Net && cs[3] == TgtRx && cs[4] == TgtSub
    requires cs[5] == TgtWait && cs[6] == TgtData && cs[7] == TgtBe && cs[8] == TgtCmpl && cs[9] == HostRx
    requires cs[10] == HostWait && cs[11] == HostData && cs[12] == TrCmpl && cs[13] == BlkCmpl && cs[14] == Remote
    ensures SumAt(m, cs) == MainSum(m)
  {
    assert cs[0..] == cs && cs[15..] == [];
    SumFive(m, cs, 0);
    SumFive(m, cs, 5);
    SumFive(m, cs, 10);
  }

  lemma {:induction false} TotalOverSnoc(grp: Grouping, k: GroupKey, calls: seq<Call>, call: Call, cs: seq<Comp>)
    ensures TotalOver(grp, k, calls + [call], cs) ==
            TotalOver(grp, k, calls, cs) +
            if KeyFor(grp, call.h) == k then SumAt(BreakdownOf(call.h, call.t).1.comp, cs) else 0
  {
    if cs != [] {
      TotalSnoc(grp, k, calls, call, cs[0]);
      TotalOverSnoc(grp, k, calls, call, cs[1..]);
    }
  }

  lemma {:induction false} TotalOverNothing(grp: Grouping, k: GroupKey, cs: seq<Comp>)
    ensures TotalOver(grp, k, [], cs) == 0
  {
    if cs != [] { TotalOverNothing(grp, k, cs[1..]); }
  }

  lemma CallCounts(call: Call)
    ensures |Adds(call, Records)| == 1
    ensures |Adds(call, OfComp(E2E))| == 1 - |Adds(call, BadHost)|
    ensures |Adds(call, OfStage(S3to5))| == |Adds(call, Joined)|
    ensures |Adds(call, OfComp(Remote))| == 1 - |Adds(call, BadHost)| - |Adds(call, Joined)|
    ensures Val(BreakdownOf(call.h, call.t).1.comp.At(E2E)) == MainSum(BreakdownOf(call.h, call.t).1.comp)
  {
    Additive(call.h, call.t);
    var b := BreakdownOf(call.h, call.t).1;
    assert b.comp.At(E2E) == b.comp.e2e && b.comp.At(Remote) == b.comp.remote && b.stage.At(S3to5) == b.stage.s3to5;
  }

  lemma CallTotal(call: Call)
    ensures SumAt(BreakdownOf(call.h, call.t).1.comp, MAIN) == Val(BreakdownOf(call.h, call.t).1.comp.At(E2E))
  {
    CallCounts(call);
    MainSumIs(BreakdownOf(call.h, call.t).1.comp);
  }

  lemma MainSumIs(m: Comps)
    ensures SumAt(m, MAIN) == MainSum(m)
  {
    MainSumOf(m, MAIN);
  }

  /** Over any calls, in every group: which metrics have a sample for which records. */
  lemma {:induction false} GroupCounts(grp: Grouping, k: GroupKey, calls: seq<Call>)
    ensures Count(grp, k, calls, OfComp(E2E)) == Count(grp, k, calls, Records) - Count(grp, k, calls, BadHost)
    ensures Count(grp, k, calls, OfStage(S3to5)) == Count(grp, k, calls, Joined)
    ensures Count(grp, k, calls, OfComp(Remote)) ==
            Count(grp, k, calls, Records) - Count(grp, k, calls, BadHost) - Count(grp, k, calls, Joined)
  {
    if calls != [] {
      var before, call := calls[..|calls| - 1], calls[|calls| - 1];
      assert calls == before + [call];
      GroupCounts(grp, k, before);
      CallCounts(call);
      SamplesSnoc(grp, k, before, call, OfComp(E2E));
      SamplesSnoc(grp, k, before, call, OfComp(Remote));
      SamplesSnoc(grp, k, before, call, OfStage(S3to5));
      SamplesSnoc(grp, k, before, call, Records);
      SamplesSnoc(grp, k, before, call, BadHost);
      SamplesSnoc(grp, k, before, call, Joined);
    }
  }

  /** The totals of the main components of a group add up to its total end-to-end time. */
  lemma {:induction false} GroupTotals(grp: Grouping, k: GroupKey, calls: seq<Call>)
    ensures TotalOver(grp, k, calls, MAIN) == Total(grp, k, calls, E2E)
  {
    if calls == [] {
      TotalOverNothing(grp, k, MAIN);
    } else {
      var before, call := calls[..|calls| - 1], calls[|calls| - 1];
      assert calls == before + [call];
      GroupTotals(grp, k, before);
      CallTotal(call);
      TotalSnoc(grp, k, before, call, E2E);
      TotalOverSnoc(grp, k, before, call, MAIN);
    }
  }

  // ---- the order of the calls does not matter ----

  lemma {:induction false} GatherWithout(calls: seq<Call>, j: nat, adds: Call -> seq<int>)
    requires j < |calls|
    ensures multiset(Gather(calls, adds)) ==
            multiset(Gather(calls[..j] + calls[j + 1..], adds)) + multiset(adds(calls[j]))
  {
    var n := |calls| - 1;
    if j == n {
      assert calls[..j] + calls[j + 1..] == calls[..n];
    } else {
      var front, last := calls[..n], calls[n];
      GatherWithout(front, j, adds);
      var rest := front[..j] + front[j + 1..];
      WithoutKeepsLast(calls, j);
      GatherSnoc(rest, last, adds);
      MoveLast(Gather(front, adds), Gather(rest, adds), adds(calls[j]), adds(last));
    }
  }

  lemma WithoutKeepsLast(calls: seq<Call>, j: nat)
    requires j < |calls| - 1
    ensures var front := calls[..|calls| - 1];
            calls[..j] + calls[j + 1..] == (front[..j] + front[j + 1..]) + [calls[|calls| - 1]]
  {
  }

  lemma MoveLast(all: seq<int>, rest: seq<int>, taken: seq<int>, last: seq<int>)
    requires multiset(all) == multiset(rest) + multiset(taken)
    ensures multiset(all + last) == multiset(rest + last) + multiset(taken)
  {
  }

  lemma OneLess(a: seq<Call>, j: nat)
    requires j < |a|
    ensures multiset(a[..j] + a[j + 1..]) == multiset(a) - multiset{a[j]}
    ensures |a[..j] + a[j + 1..]| == |a| - 1
  {
    assert a == a[..j] + [a[j]] + a[j + 1..];
  }

  lemma {:induction false} GatherOfMultiset(a: seq<Call>, b: seq<Call>, adds: Call -> seq<int>)
    requires multiset(a) == multiset(b)
    ensures multiset(Gather(a, adds)) == multiset(Gather(b, adds))
  {
    assert |multiset(a)| == |a| && |multiset(b)| == |b|;
    if a != [] {
      var n, call := |a| - 1, a[|a| - 1];
      assert call in multiset(b);
      var j :| 0 <= j < |b| && b[j] == call;
      var rest := b[..j] + b[j + 1..];
      OneLess(a, n);
      OneLess(b, j);
      assert a[..n] + a[n + 1..] == a[..n];
      GatherOfMultiset(a[..n], rest, adds);
      GatherWithout(b, j, adds);
    }
  }

  /** The same calls in another order: every group counts the same and every summary is the same. */
  lemma ReportOfMultiset(grp: Grouping, k: GroupKey, a: seq<Call>, b: seq<Call>, m: Metric)
    requires multiset(a) == multiset(b)
    ensures Count(grp, k, a, m) == Count(grp, k, b, m)
    ensures StatOf(Samples(grp, k, a, m)) == StatOf(Samples(grp, k, b, m))
  {
    GatherOfMultiset(a, b, call => AddsTo(grp, k, call, m));
    var x, y := Samples(grp, k, a, m), Samples(grp, k, b, m);
    assert |multiset(x)| == |x| && |multiset(y)| == |y|;
    SummaryOfMultiset(x, y);
  }

  // ---- which group, and the queue metrics ----

  /** Two host records share a group exactly if they agree on everything that the grouping asks for. */
  lemma SameGroupIff(grp: Grouping, a: Rec, b: Rec)
    requires a.Host? && b.Host?
    ensures KeyFor(grp, a) == KeyFor(grp, b) <==>
            && (grp.byType ==> (Write in a.flags <==> Write in b.flags))
            && (grp.bySize ==> a.bytes == b.bytes)
            && (grp.bySession ==> SessionName(a.disk) == SessionName(b.disk))
  {
  }

  predicate Digits(s: string) {
    forall i :: 0 <= i < |s| ==> '0' <= s[i] <= '9'
  }

  lemma {:induction false} SkipsDigits(s: string, i: nat, j: nat)
    requires i <= j < |s| && (forall k :: i <= k < j ==> '0' <= s[k] <= '9') && !('0' <= s[j] <= '9')
    ensures SkipDigits(s, i) == j
    decreases j - i
  {
    if i < j { SkipsDigits(s, i + 1, j); }
  }

  lemma SessionOf(disk: string, c: nat, n: nat)
    requires 4 <= c && c + 1 < n < |disk| && "nvme" <= disk && disk[c] == 'c' && disk[n] == 'n'
    requires forall k :: 4 <= k < c || c < k < n ==> '0' <= disk[k] <= '9'
    ensures SessionName(disk) == disk[..c] + disk[n..]
  {
    SkipsDigits(disk, 4, c);
    SkipsDigits(disk, c + 1, n);
  }

  /** The paths of a namespace, whatever the controller, are one session: the namespace's own name. */
  lemma PathsAreOneSession(subsystem: string, controller: string, rest: string)
    requires Digits(subsystem) && Digits(controller) && controller != ""
    ensures SessionName("nvme" + subsystem + "c" + controller + "n" + rest) == "nvme" + subsystem + "n" + rest
  {
    var head, tail := "nvme" + subsystem, "n" + rest;
    var disk := "nvme" + subsystem + "c" + controller + "n" + rest;
    var c, n := |head|, |head| + 1 + |controller|;
    assert disk[..c] == head && disk[n..] == tail;
    assert forall k :: 4 <= k < c ==> disk[k] == subsystem[k - 4];
    assert forall k :: c < k < n ==> disk[k] == controller[k - c - 1];
    SessionOf(disk, c, n);
    assert head + tail == "nvme" + subsystem + "n" + rest;
  }

  /** Pairwise, the first of two metrics is at most the second. */
  ghost predicate Nested(a: seq<int>, b: seq<int>) {
    |a| == |b| && forall i :: 0 <= i < |a| ==> a[i] <= b[i]
  }

  /** The numbers in the records nest, as they do when the queues are counted. */
  predicate QueuesNest(call: Call) {
    && call.h.qFirst <= call.h.qSecond
    && (call.t.Some? ==> call.t.value.qSecond <= call.t.value.qFirst)
  }

  lemma NestedConcat(a: seq<int>, b: seq<int>, c: seq<int>, d: seq<int>)
    requires Nested(a, b) && Nested(c, d)
    ensures Nested(a + c, b + d)
  {
  }

  /** What a call adds to the two metrics of a side: to both or to neither. */
  lemma AddsNest(call: Call, err: Err, b: Breakdown)
    requires QueuesNest(call)
    ensures Nested(AddsOf(call, err, b, HostUnsent), AddsOf(call, err, b, HostInflight))
    ensures Nested(AddsOf(call, err, b, TgtRespQueue), AddsOf(call, err, b, TgtOutstanding))
  {
  }

  lemma SamplesNest(grp: Grouping, k: GroupKey, calls: seq<Call>, call: Call, m: Metric, n: Metric)
    requires Nested(Samples(grp, k, calls, m), Samples(grp, k, calls, n)) && Nested(Adds(call, m), Adds(call, n))
    ensures Nested(Samples(grp, k, calls + [call], m), Samples(grp, k, calls + [call], n))
  {
    SamplesSnoc(grp, k, calls, call, m);
    SamplesSnoc(grp, k, calls, call, n);
    NestedConcat(Samples(grp, k, calls, m), Samples(grp, k, calls, n), AddsTo(grp, k, call, m), AddsTo(grp, k, call, n));
  }

  /** So in every group the unsent commands are among those in flight, and queued responses among the unanswered. */
  lemma {:induction false} QueueSamplesNest(grp: Grouping, k: GroupKey, calls: seq<Call>)
    requires forall i :: 0 <= i < |calls| ==> QueuesNest(calls[i])
    ensures Nested(Samples(grp, k, calls, HostUnsent), Samples(grp, k, calls, HostInflight))
    ensures Nested(Samples(grp, k, calls, TgtRespQueue), Samples(grp, k, calls, TgtOutstanding))
  {
    if calls != [] {
      var rest, call := calls[..|calls| - 1], calls[|calls| - 1];
      assert calls == rest + [call];
      QueueSamplesNest(grp, k, rest);
      AddsNest(call, BreakdownOf(call.h, call.t).0, BreakdownOf(call.h, call.t).1);
      SamplesNest(grp, k, rest, call, HostUnsent, HostInflight);
      SamplesNest(grp, k, rest, call, TgtRespQueue, TgtOutstanding);
    }
  }
}
