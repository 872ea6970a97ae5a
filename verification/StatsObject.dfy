/** The statistics object of src/stats.c: groups found by linear search, counters and vectors updated in place. */
module StatsObject {
  import opened Records
  import opened StageModel
  import opened JoinSpec
  import opened Aggregation
  import opened Summary
  import opened StageCode

  const COMPS := 21
  const STAGES := 5
  const QUEUES := 4

  /** The position of a component in enum ntp_comp, and back. */
  function CompNo(c: Comp): (i: nat)
    ensures i < COMPS && CompAt(i) == c
  {
    match c
    case BlkSub => 0
    case TrSub => 1
    case Net => 2
    case TgtRx => 3
    case TgtSub => 4
    case TgtWait => 5
    case TgtData => 6
    case TgtBe => 7
    case TgtCmpl => 8
    case HostRx => 9
    case HostWait => 10
    case HostData => 11
    case TrCmpl => 12
    case BlkCmpl => 13
    case Remote => 14
    case E2E => 15
    case TgtBeSub => 16
    case TgtDev => 17
    case TgtBeCmpl => 18
    case CmplIpi => 19
    case NetData => 20
  }

  function CompAt(i: nat): Comp
    requires i < COMPS
  {
    if i == 0 then BlkSub
    else if i == 1 then TrSub
    else if i == 2 then Net
    else if i == 3 then TgtRx
    else if i == 4 then TgtSub
    else if i == 5 then TgtWait
    else if i == 6 then TgtData
    else if i == 7 then TgtBe
    else if i == 8 then TgtCmpl
    else if i == 9 then HostRx
    else if i == 10 then HostWait
    else if i == 11 then HostData
    else if i == 12 then TrCmpl
    else if i == 13 then BlkCmpl
    else if i == 14 then Remote
    else if i == 15 then E2E
    else if i == 16 then TgtBeSub
    else if i == 17 then TgtDev
    else if i == 18 then TgtBeCmpl
    else if i == 19 then CmplIpi
    else NetData
  }

  lemma CompNoAt(i: nat)
    requires i < COMPS
    ensures CompNo(CompAt(i)) == i
  {
  }

  function StageNo(s: Stage): (i: nat)
    ensures i < STAGES && StageAt(i) == s
  {
    match s
    case S1 => 0
    case S2 => 1
    case S3to5 => 2
    case S6 => 3
    case S7to9 => 4
  }

  function StageAt(i: nat): Stage
    requires i < STAGES
  {
    if i == 0 then S1 else if i == 1 then S2 else if i == 2 then S3to5 else if i == 3 then S6 else S7to9
  }

  /** The position of a queue metric. */
  function QueueNo(m: Metric): (i: nat)
    requires m.Vector() && !m.OfComp? && !m.OfStage?
    ensures i < QUEUES
  {
    match m
    case HostUnsent => 0
    case HostInflight => 1
    case TgtOutstanding => 2
    case TgtRespQueue => 3
  }

  /** struct ntp_group: counters, and the vectors in the order of their enums. */
  datatype Group = Group(key: GroupKey, records: nat, joined: nat, badHost: nat, badTarget: nat, postEstimated: nat,
                         comp: seq<seq<int>>, stage: seq<seq<int>>, queue: seq<seq<int>>)
  {
    predicate Shaped() {
      |comp| == COMPS && |stage| == STAGES && |queue| == QUEUES
    }

    function Vec(m: Metric): seq<int>
      requires Shaped() && m.Vector()
    {
      if m.OfComp? then comp[CompNo(m.c)]
      else if m.OfStage? then stage[StageNo(m.s)]
      else queue[QueueNo(m)]
    }

    function WithVec(m: Metric, v: seq<int>): (g: Group)
      requires Shaped() && m.Vector()
      ensures g.Shaped() && g.Vec(m) == v
    {
      if m.OfComp? then this.(comp := comp[CompNo(m.c) := v])
      else if m.OfStage? then this.(stage := stage[StageNo(m.s) := v])
      else this.(queue := queue[QueueNo(m) := v])
    }

    function Counter(m: Metric): nat
      requires !m.Vector()
    {
      match m
      case Records => records
      case Joined => joined
      case BadHost => badHost
      case BadTarget => badTarget
      case PostEstimated => postEstimated
    }

    /** The group holds what the calls with its key add up to, the samples in whatever order sorting left them. */
    ghost predicate Holds(grp: Grouping, calls: seq<Call>) {
      && Shaped()
      && (forall m: Metric :: !m.Vector() ==> Counter(m) == Count(grp, key, calls, m))
      && (forall m: Metric :: m.Vector() ==> multiset(Vec(m)) == multiset(Samples(grp, key, calls, m)))
    }
  }

  function EmptyGroup(k: GroupKey): Group {
    Group(k, 0, 0, 0, 0, 0, seq(COMPS, _ => []), seq(STAGES, _ => []), [[], [], [], []])
  }

  /** The two loops that push what a breakdown holds. */
  method PushComps(vecs: seq<seq<int>>, m: Comps) returns (out: seq<seq<int>>)
    requires |vecs| == COMPS
    ensures |out| == COMPS
    ensures forall c: Comp :: out[CompNo(c)] == vecs[CompNo(c)] + Sample(m.At(c))
  {
    out := vecs;
    for i := 0 to COMPS
      invariant |out| == COMPS
      invariant forall c: Comp :: out[CompNo(c)] == vecs[CompNo(c)] + if CompNo(c) < i then Sample(m.At(c)) else []
    {
      CompNoAt(i);
      if m.At(CompAt(i)).Some? {
        out := out[i := out[i] + [m.At(CompAt(i)).value]];
      }
    }
  }

  method PushStages(vecs: seq<seq<int>>, s: Stages) returns (out: seq<seq<int>>)
    requires |vecs| == STAGES
    ensures |out| == STAGES
    ensures forall k: Stage :: out[StageNo(k)] == vecs[StageNo(k)] + Sample(s.At(k))
  {
    out := vecs;
    for i := 0 to STAGES
      invariant |out| == STAGES
      invariant forall k: Stage :: out[StageNo(k)] == vecs[StageNo(k)] + if StageNo(k) < i then Sample(s.At(k)) else []
    {
      if s.At(StageAt(i)).Some? {
        out := out[i := out[i] + [s.At(StageAt(i)).value]];
      }
    }
  }

  /** What a call adds to every counter and vector of a group. */
  ghost predicate Pushed(g: Group, u: Group, call: Call, err: Err, b: Breakdown) {
    && u.key == g.key && g.Shaped() && u.Shaped()
    && (forall m: Metric :: !m.Vector() ==> u.Counter(m) == g.Counter(m) + |AddsOf(call, err, b, m)|)
    && (forall m: Metric :: m.Vector() ==> u.Vec(m) == g.Vec(m) + AddsOf(call, err, b, m))
  }

  /** Exact occupancy, where it was tracked. */
  method PushQueues(queue: seq<seq<int>>, h: Rec, t: Option<Rec>, err: Err, b: Breakdown) returns (q: seq<seq<int>>)
    requires |queue| == QUEUES && err != IncompleteHost && (b.joined ==> t.Some?)
    ensures |q| == QUEUES
    ensures forall m: Metric :: m.Vector() && !m.OfComp? && !m.OfStage? ==>
              q[QueueNo(m)] == queue[QueueNo(m)] + AddsOf(Call(h, t), err, b, m)
  {
    q := queue;
    if Queues in h.flags {
      q := q[0 := q[0] + [h.qFirst]];
      q := q[1 := q[1] + [h.qSecond]];
    }
    if b.joined && Queues in t.value.flags {
      q := q[2 := q[2] + [t.value.qFirst]];
      q := q[3 := q[3] + [t.value.qSecond]];
    }
  }

  method CountIn(g: Group, h: Rec, t: Option<Rec>, err: Err, b: Breakdown) returns (u: Group)
    requires err == IncompleteHost ==> !b.joined && !b.postEstimated
    ensures forall m: Metric :: !m.Vector() ==> u.Counter(m) == g.Counter(m) + |AddsOf(Call(h, t), err, b, m)|
    ensures u.key == g.key && u.comp == g.comp && u.stage == g.stage && u.queue == g.queue
  {
    u := g.(records := g.records + 1);
    if err == IncompleteHost {
      u := u.(badHost := u.badHost + 1);
      return;
    }
    if err == IncompleteTarget { u := u.(badTarget := u.badTarget + 1); }
    if b.joined { u := u.(joined := u.joined + 1); }
    if b.postEstimated { u := u.(postEstimated := u.postEstimated + 1); }
  }

  /** The rest of ntp_stats_add(), on the group it found. */
  method Updated(g: Group, h: Rec, t: Option<Rec>, err: Err, b: Breakdown) returns (u: Group)
    requires g.Shaped()
    requires err == IncompleteHost ==> b.comp == NOTHING && b.stage == NO_STAGES && !b.joined && !b.postEstimated
    requires b.joined ==> t.Some?
    ensures Pushed(g, u, Call(h, t), err, b)
  {
    u := CountIn(g, h, t, err, b);
    if err != IncompleteHost {
      var comp := PushComps(u.comp, b.comp);
      var stage := PushStages(u.stage, b.stage);
      var queue := PushQueues(u.queue, h, t, err, b);
      u := u.(comp := comp, stage := stage, queue := queue);
    }
  }

  lemma IncompleteIsEmpty(h: Rec, t: Option<Rec>)
    ensures var (err, b) := BreakdownOf(h, t);
            && (err == IncompleteHost ==> b.comp == NOTHING && b.stage == NO_STAGES && !b.joined && !b.postEstimated)
            && (b.joined ==> t.Some?)
  {
  }

  /** One group per key that a call had, each holding exactly what the calls with its key add up to. */
  ghost predicate AllHold(groups: seq<Group>, grp: Grouping, calls: seq<Call>) {
    && (forall i, j :: 0 <= i < j < |groups| ==> groups[i].key != groups[j].key)
    && (forall i :: 0 <= i < |groups| ==> groups[i].Holds(grp, calls))
    && (forall c :: c in calls ==> HasKey(groups, KeyFor(grp, c.h)))
  }

  ghost predicate HasKey(groups: seq<Group>, k: GroupKey) {
    exists i :: 0 <= i < |groups| && groups[i].key == k
  }

  /** The search of group_for(). */
  method FindGroup(groups: seq<Group>, k: GroupKey) returns (i: nat)
    ensures i <= |groups| && (i < |groups| ==> groups[i].key == k)
    ensures i == |groups| ==> !HasKey(groups, k)
  {
    i := 0;
    while i < |groups|
      invariant i <= |groups| && forall j :: 0 <= j < i ==> groups[j].key != k
    {
      if groups[i].key == k {
        return;
      }
      i := i + 1;
    }
  }

  class NtpStats {
    const grouping: Grouping
    var groups: seq<Group>
    ghost var calls: seq<Call>

    ghost predicate Valid()
      reads this
    {
      && AllHold(groups, grouping, calls) && AllRecords(groups) == |calls|
      && NoneEmpty(groups)
    }

    constructor (grouping: Grouping)
      ensures Valid() && calls == [] && groups == [] && this.grouping == grouping
    {
      this.grouping, groups, calls := grouping, [], [];
    }

    /** group_for(): the group with the record's key, or a new one at the end. */
    method GroupFor(h: Rec) returns (i: nat)
      requires Valid()
      modifies this`groups
      ensures AllHold(groups, grouping, calls) && AllRecords(groups) == |calls|
      ensures i < |groups| && groups[i].key == KeyFor(grouping, h)
      ensures forall j :: 0 <= j < |groups| && j != i ==> groups[j].records > 0
    {
      var k := KeyFor(grouping, h);
      i := FindGroup(groups, k);
      if i == |groups| {
        NewGroupHolds(grouping, calls, k, groups);
        AllRecordsSnoc(groups, EmptyGroup(k));
        groups := groups + [EmptyGroup(k)];
      }
    }

    /** ntp_stats_add(), with the breakdown it asks for. */
    method AddBroken(h: Rec, t: Option<Rec>, err: Err, b: Breakdown)
      requires Valid() && (err, b) == BreakdownOf(h, t)
      modifies this
      ensures Valid() && calls == old(calls) + [Call(h, t)]
    {
      var i := GroupFor(h);
      groups := AddedTo(groups, i, h, t, err, b, grouping, calls);
      calls := calls + [Call(h, t)];
    }

    method Add(h: Rec, t: Option<Rec>)
      requires Valid()
      modifies this
      ensures Valid() && calls == old(calls) + [Call(h, t)]
    {
      var (err, b) := BreakdownOf(h, t);
      AddBroken(h, t, err, b);
    }

    /** The same through the code's own breakdown, where 64-bit arithmetic is exact. */
    method AddComputed(h: Rec, t: Option<Rec>)
      requires Valid() && Bounded(h) && (t.Some? ==> Bounded(t.value))
      modifies this
      ensures Valid() && calls == old(calls) + [Call(h, t)]
    {
      var model := new NtpBreakdown();
      var err := model.Compute(h, t);
      AddBroken(h, t, err, Breakdown(model.ioClass, model.joined, model.postEstimated, model.comp, model.stage));
    }

    /** A report summarizes a vector of a group: it sorts it in place, and later calls may still add to it. */
    method Summarize(i: nat, m: Metric) returns (out: Stat)
      requires Valid() && i < |groups| && m.Vector()
      modifies this`groups
      ensures Valid() && |groups| == |old(groups)| && groups[i].key == old(groups[i].key)
      ensures out == StatOf(Samples(grouping, groups[i].key, calls, m))
    {
      groups, out := Resorted(groups, i, m, grouping, calls);
    }
  }

  ghost predicate NoneEmpty(groups: seq<Group>) {
    forall i :: 0 <= i < |groups| ==> groups[i].records > 0
  }

  method AddedTo(groups: seq<Group>, i: nat, h: Rec, t: Option<Rec>, err: Err, b: Breakdown, ghost grp: Grouping,
                 ghost calls: seq<Call>) returns (after: seq<Group>)
    requires AllHold(groups, grp, calls) && i < |groups| && groups[i].key == KeyFor(grp, h)
    requires (err, b) == BreakdownOf(h, t)
    requires forall j :: 0 <= j < |groups| && j != i ==> groups[j].records > 0
    ensures AllHold(after, grp, calls + [Call(h, t)]) && AllRecords(after) == AllRecords(groups) + 1
    ensures NoneEmpty(after)
  {
    var g := groups[i];
    assert g.Holds(grp, calls);
    IncompleteIsEmpty(h, t);
    var u := Updated(g, h, t, err, b);
    AddHolds(groups, i, u, grp, calls, Call(h, t));
    after := groups[i := u];
  }

  method Resorted(groups: seq<Group>, i: nat, m: Metric, ghost grp: Grouping, ghost calls: seq<Call>)
    returns (after: seq<Group>, out: Stat)
    requires AllHold(groups, grp, calls) && NoneEmpty(groups) && i < |groups| && m.Vector()
    ensures AllHold(after, grp, calls) && AllRecords(after) == AllRecords(groups) && NoneEmpty(after)
    ensures |after| == |groups| && after[i].key == groups[i].key
    ensures out == StatOf(Samples(grp, groups[i].key, calls, m))
  {
    var g := groups[i];
    assert g.Holds(grp, calls);
    SummaryOfMultiset(g.Vec(m), Samples(grp, g.key, calls, m));
    var v;
    v, out := SortAndSummarize(g.Vec(m));
    ResortHolds(g, m, v, grp, calls);
    ReplaceHolds(groups, i, g.WithVec(m, v), grp, calls);
    after := groups[i := g.WithVec(m, v)];
  }

  lemma ResortHolds(g: Group, m: Metric, v: seq<int>, grp: Grouping, calls: seq<Call>)
    requires g.Holds(grp, calls) && m.Vector() && multiset(v) == multiset(g.Vec(m))
    ensures g.WithVec(m, v).Holds(grp, calls) && g.WithVec(m, v).key == g.key
    ensures g.WithVec(m, v).records == g.records
  {
    var u := g.WithVec(m, v);
    forall n: Metric | n.Vector() ensures multiset(u.Vec(n)) == multiset(g.Vec(n)) {
      VecElsewhere(g, m, n, v);
    }
    forall n: Metric | !n.Vector() ensures u.Counter(n) == g.Counter(n) {}
  }

  lemma VecElsewhere(g: Group, m: Metric, n: Metric, v: seq<int>)
    requires g.Shaped() && m.Vector() && n.Vector()
    ensures g.WithVec(m, v).Vec(n) == if m == n then v else g.Vec(n)
  {
    if m.OfComp? && n.OfComp? { assert CompAt(CompNo(m.c)) == m.c && CompAt(CompNo(n.c)) == n.c; }
    if m.OfStage? && n.OfStage? { assert StageAt(StageNo(m.s)) == m.s && StageAt(StageNo(n.s)) == n.s; }
  }

  lemma ReplaceHolds(groups: seq<Group>, i: nat, u: Group, grp: Grouping, calls: seq<Call>)
    requires AllHold(groups, grp, calls) && i < |groups| && u.key == groups[i].key && u.records == groups[i].records
    requires u.Holds(grp, calls)
    ensures AllHold(groups[i := u], grp, calls) && AllRecords(groups[i := u]) == AllRecords(groups)
  {
    var after := groups[i := u];
    AllRecordsUpdate(groups, i, u);
    forall c | c in calls ensures HasKey(after, KeyFor(grp, c.h)) {
      var j :| 0 <= j < |groups| && groups[j].key == KeyFor(grp, c.h);
      assert after[j].key == KeyFor(grp, c.h);
    }
  }

  lemma AddHolds(groups: seq<Group>, i: nat, u: Group, grp: Grouping, calls: seq<Call>, call: Call)
    requires AllHold(groups, grp, calls) && i < |groups| && groups[i].key == KeyFor(grp, call.h)
    requires Pushed(groups[i], u, call, BreakdownOf(call.h, call.t).0, BreakdownOf(call.h, call.t).1)
    ensures AllHold(groups[i := u], grp, calls + [call])
    ensures AllRecords(groups[i := u]) == AllRecords(groups) + 1 && u.records > 0
  {
    assert u.Counter(Records) == groups[i].Counter(Records) + 1;
    HoldsAfter(groups[i], u, grp, calls, call);
    UpdateHolds(groups, i, u, grp, calls, call);
    AllRecordsUpdate(groups, i, u);
  }

  lemma UpdateHolds(groups: seq<Group>, i: nat, u: Group, grp: Grouping, calls: seq<Call>, call: Call)
    requires AllHold(groups, grp, calls) && i < |groups| && groups[i].key == u.key == KeyFor(grp, call.h)
    requires u.Holds(grp, calls + [call])
    ensures AllHold(groups[i := u], grp, calls + [call])
  {
    var after := groups[i := u];
    forall j | 0 <= j < |after| ensures after[j].Holds(grp, calls + [call]) {
      if j != i { HoldsElsewhere(groups[j], grp, calls, call); }
    }
    forall c | c in calls + [call] ensures HasKey(after, KeyFor(grp, c.h)) {
      if c in calls {
        var j :| 0 <= j < |groups| && groups[j].key == KeyFor(grp, c.h);
        assert after[j].key == KeyFor(grp, c.h);
      } else {
        assert after[i].key == KeyFor(grp, c.h);
      }
    }
  }

  lemma HoldsAfter(g: Group, u: Group, grp: Grouping, calls: seq<Call>, call: Call)
    requires g.Holds(grp, calls) && g.key == KeyFor(grp, call.h)
    requires Pushed(g, u, call, BreakdownOf(call.h, call.t).0, BreakdownOf(call.h, call.t).1)
    ensures u.Holds(grp, calls + [call])
  {
    forall m ensures Samples(grp, g.key, calls + [call], m) == Samples(grp, g.key, calls, m) + Adds(call, m) {
      SamplesSnoc(grp, g.key, calls, call, m);
    }
  }

  lemma HoldsElsewhere(g: Group, grp: Grouping, calls: seq<Call>, call: Call)
    requires g.Holds(grp, calls) && g.key != KeyFor(grp, call.h)
    ensures g.Holds(grp, calls + [call])
  {
    forall m ensures Samples(grp, g.key, calls + [call], m) == Samples(grp, g.key, calls, m) {
      SamplesSnoc(grp, g.key, calls, call, m);
    }
  }

  lemma EmptyHolds(grp: Grouping, calls: seq<Call>, k: GroupKey)
    requires forall c :: c in calls ==> KeyFor(grp, c.h) != k
    ensures EmptyGroup(k).Holds(grp, calls)
  {
    forall m ensures Samples(grp, k, calls, m) == [] {
      NoSamples(grp, k, calls, m);
    }
  }

  lemma NewGroupHolds(grp: Grouping, calls: seq<Call>, k: GroupKey, groups: seq<Group>)
    requires AllHold(groups, grp, calls) && !HasKey(groups, k)
    ensures AllHold(groups + [EmptyGroup(k)], grp, calls)
  {
    var after := groups + [EmptyGroup(k)];
    EmptyHolds(grp, calls, k);
    forall c | c in calls ensures HasKey(after, KeyFor(grp, c.h)) {
      var j :| 0 <= j < |groups| && groups[j].key == KeyFor(grp, c.h);
      assert after[j].key == KeyFor(grp, c.h);
    }
    forall j | 0 <= j < |after| ensures after[j].Holds(grp, calls) {
      assert j < |groups| ==> groups[j].Holds(grp, calls);
    }
  }

  lemma {:induction false} NoSamples(grp: Grouping, k: GroupKey, calls: seq<Call>, m: Metric)
    requires forall c :: c in calls ==> KeyFor(grp, c.h) != k
    ensures Samples(grp, k, calls, m) == []
  {
    if calls != [] {
      var before, call := calls[..|calls| - 1], calls[|calls| - 1];
      assert calls == before + [call];
      NoSamples(grp, k, before, m);
      SamplesSnoc(grp, k, before, call, m);
    }
  }

  // ---- two reports ----

  /** The same groups, in each every counter and every summary the same. */
  ghost predicate SameNumbers(a: seq<Group>, b: seq<Group>) {
    && (forall k :: HasKey(a, k) <==> HasKey(b, k))
    && (forall i, j :: 0 <= i < |a| && 0 <= j < |b| && a[i].key == b[j].key ==> Agree(a[i], b[j]))
  }

  ghost predicate Agree(g: Group, h: Group) {
    && g.Shaped() && h.Shaped()
    && (forall m: Metric :: !m.Vector() ==> g.Counter(m) == h.Counter(m))
    && (forall m: Metric :: m.Vector() ==> StatOf(g.Vec(m)) == StatOf(h.Vec(m)))
  }

  lemma KeysOf(a: seq<Group>, b: seq<Group>, grp: Grouping, callsA: seq<Call>, callsB: seq<Call>, k: GroupKey)
    requires AllHold(a, grp, callsA) && AllHold(b, grp, callsB) && NoneEmpty(a) && multiset(callsA) == multiset(callsB)
    requires HasKey(a, k)
    ensures HasKey(b, k)
  {
    var i :| 0 <= i < |a| && a[i].key == k;
    assert a[i].Holds(grp, callsA) && a[i].Counter(Records) == Count(grp, k, callsA, Records);
    if forall c :: c in callsA ==> KeyFor(grp, c.h) != k {
      NoSamples(grp, k, callsA, Records);
    }
    var c :| c in callsA && KeyFor(grp, c.h) == k;
    assert c in multiset(callsA) && c in callsB;
  }

  lemma AgreeOn(g: Group, h: Group, grp: Grouping, callsA: seq<Call>, callsB: seq<Call>)
    requires g.Holds(grp, callsA) && h.Holds(grp, callsB) && g.key == h.key && multiset(callsA) == multiset(callsB)
    ensures Agree(g, h)
  {
    forall m: Metric ensures !m.Vector() ==> g.Counter(m) == h.Counter(m)
                     ensures m.Vector() ==> StatOf(g.Vec(m)) == StatOf(h.Vec(m)) {
      ReportOfMultiset(grp, g.key, callsA, callsB, m);
      if m.Vector() {
        SummaryOfMultiset(g.Vec(m), Samples(grp, g.key, callsA, m));
        SummaryOfMultiset(h.Vec(m), Samples(grp, h.key, callsB, m));
      }
    }
  }

  /** The same calls, in whatever order: two statistics report the same numbers. */
  lemma SameCallsSameNumbers(a: seq<Group>, b: seq<Group>, grp: Grouping, callsA: seq<Call>, callsB: seq<Call>)
    requires AllHold(a, grp, callsA) && AllHold(b, grp, callsB) && NoneEmpty(a) && NoneEmpty(b)
    requires multiset(callsA) == multiset(callsB)
    ensures SameNumbers(a, b)
  {
    forall k ensures HasKey(a, k) <==> HasKey(b, k) {
      if HasKey(a, k) { KeysOf(a, b, grp, callsA, callsB, k); }
      if HasKey(b, k) { KeysOf(b, a, grp, callsB, callsA, k); }
    }
    forall i, j | 0 <= i < |a| && 0 <= j < |b| && a[i].key == b[j].key ensures Agree(a[i], b[j]) {
      AgreeOn(a[i], b[j], grp, callsA, callsB);
    }
  }

  // ---- all groups together ----

  function AllRecords(groups: seq<Group>): nat {
    if groups == [] then 0 else AllRecords(groups[..|groups| - 1]) + groups[|groups| - 1].records
  }

  lemma AllRecordsSnoc(groups: seq<Group>, g: Group)
    ensures AllRecords(groups + [g]) == AllRecords(groups) + g.records
  {
    assert (groups + [g])[..|groups|] == groups;
  }

  lemma {:induction false} AllRecordsUpdate(groups: seq<Group>, i: nat, u: Group)
    requires i < |groups|
    ensures AllRecords(groups[i := u]) == AllRecords(groups) - groups[i].records + u.records
  {
    var n := |groups| - 1;
    if i < n {
      assert groups[i := u][..n] == groups[..n][i := u];
      AllRecordsUpdate(groups[..n], i, u);
    } else {
      assert groups[i := u][..n] == groups[..n];
    }
  }
}
