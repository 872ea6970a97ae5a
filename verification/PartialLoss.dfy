/**
 Online and offline joining still agree on a command identity when records of it were lost on the way, as long as the
 loss did not matter to it: a host record released early, or a target record evicted or expired, to which no counterpart
 came later. One identity's fate does not touch another's.
 */
module PartialLoss {
  import opened Records
  import opened Waiting
  import opened JoinSpec
  import opened OnlineOffline

  /** What has become of an identity so far. */
  datatype Fate =
    | Whole       // nothing of it was lost
    | HostLeft    // a host record was released, and no target record has come since
    | TargetLost  // a target record was evicted or expired, and no host record has come since
    | Spoiled     // a counterpart came too late, or a host record was evicted, which no statistics get

  function HostsEvicted(r: Run, op: Op): seq<Rec> {
    if op.HostArrives? && First(r.j.targets, IdIs(op.h.id)) == None then Dropped(r.j.hosts, op.h, r.j.maxPerKey) else []
  }

  function HostsReleased(r: Run, op: Op): seq<Rec> {
    if op.Release? then Filter(r.j.hosts, Before(op.before)) else []
  }

  function TargetsGone(r: Run, op: Op): seq<Rec> {
    if op.Expire? then Filter(r.j.targets, Before(op.before))
    else if op.TargetArrives? && First(r.j.hosts, IdIs(op.t.id)) == None then Dropped(r.j.targets, op.t, r.j.maxPerKey)
    else []
  }

  function Next(r: Run, op: Op, was: Fate, c: CmdId): Fate {
    if was.Spoiled? || Filter(HostsEvicted(r, op), IdIs(c)) != [] then Spoiled
    else if was.HostLeft? && op.TargetArrives? && op.t.id == c then Spoiled
    else if was.TargetLost? && op.HostArrives? && op.h.id == c then Spoiled
    else if Filter(HostsReleased(r, op), IdIs(c)) != [] then HostLeft
    else if Filter(TargetsGone(r, op), IdIs(c)) != [] then TargetLost
    else was
  }

  function FateOf(max: nat, ops: seq<Op>, c: CmdId): Fate {
    if ops == [] then Whole
    else
      var before := ops[..|ops| - 1];
      Next(RunOf(max, before), ops[|ops| - 1], FateOf(max, before, c), c)
  }

  /** What holds of an identity's calls and waiting records, given the hosts and targets of it that came. */
  ghost predicate Met(r: Run, c: CmdId, hs: seq<Rec>, ts: seq<Rec>, fate: Fate) {
    match fate
    case Whole => JoinedInOrder(r, c, hs, ts, true)
    case HostLeft =>
      && |ts| <= |hs| && CallsOf(r.calls, c, true) == Zip(hs, ts) && Filter(r.j.targets, IdIs(c)) == []
      && multiset(CallsOf(r.calls, c, false)) + multiset(Unmatched(Filter(r.j.hosts, IdIs(c)))) ==
         multiset(Unmatched(hs[|ts|..]))
    case TargetLost =>
      && |hs| <= |ts| && CallsOf(r.calls, c, true) == Zip(hs, ts) && Filter(r.j.hosts, IdIs(c)) == []
      && CallsOf(r.calls, c, false) == []
    case Spoiled => true
  }

  // ---- an operation, seen from one identity ----

  lemma PushNoted(q: seq<Rec>, r: Rec, max: nat, c: CmdId)
    requires Filter(Dropped(q, r, max), IdIs(c)) == []
    ensures Filter(Push(q, r, max), IdIs(c)) == Filter(q, IdIs(c)) + if r.id == c then [r] else []
  {
    var own := KeyIs(KeyOf(r.id));
    var left := if Full(q, r, max) then RemoveFirst(q, own) else q;
    FilterSnoc(left, r, IdIs(c));
    if Full(q, r, max) {
      InFilter(Dropped(q, r, max), IdIs(c));
      if First(q, own).Some? { assert First(q, own).value in Dropped(q, r, max); }
      RemoveAnother(q, own, IdIs(c));
    }
  }

  lemma HostSeen(r: Run, h: Rec, c: CmdId)
    requires Filter(HostsEvicted(r, HostArrives(h)), IdIs(c)) == []
    ensures var s, ts, hs := Step(r, HostArrives(h)), Filter(r.j.targets, IdIs(c)), Filter(r.j.hosts, IdIs(c));
            && CallsOf(s.calls, c, false) == CallsOf(r.calls, c, false)
            && if h.id == c && ts != [] then
                 && CallsOf(s.calls, c, true) == CallsOf(r.calls, c, true) + [Call(h, Some(ts[0]))]
                 && Filter(s.j.targets, IdIs(c)) == ts[1..] && Filter(s.j.hosts, IdIs(c)) == hs
               else
                 && CallsOf(s.calls, c, true) == CallsOf(r.calls, c, true) && Filter(s.j.targets, IdIs(c)) == ts
                 && Filter(s.j.hosts, IdIs(c)) == hs + if h.id == c then [h] else []
  {
    var t := First(r.j.targets, IdIs(h.id));
    TakeSeen(r.j.targets, h.id, c);
    if t.Some? {
      CallsOfSnoc(r.calls, Call(h, t), c, true);
      CallsOfSnoc(r.calls, Call(h, t), c, false);
    } else {
      PushNoted(r.j.hosts, h, r.j.maxPerKey, c);
    }
  }

  lemma TargetSeen(r: Run, t: Rec, c: CmdId)
    ensures var s, ts, hs := Step(r, TargetArrives(t)), Filter(r.j.targets, IdIs(c)), Filter(r.j.hosts, IdIs(c));
            && CallsOf(s.calls, c, false) == CallsOf(r.calls, c, false)
            && if t.id == c && hs != [] then
                 && CallsOf(s.calls, c, true) == CallsOf(r.calls, c, true) + [Call(hs[0], Some(t))]
                 && Filter(s.j.hosts, IdIs(c)) == hs[1..] && Filter(s.j.targets, IdIs(c)) == ts
               else
                 && CallsOf(s.calls, c, true) == CallsOf(r.calls, c, true) && Filter(s.j.hosts, IdIs(c)) == hs
                 && (Filter(TargetsGone(r, TargetArrives(t)), IdIs(c)) == [] ==>
                       Filter(s.j.targets, IdIs(c)) == ts + if t.id == c then [t] else [])
  {
    var h := First(r.j.hosts, IdIs(t.id));
    TakeSeen(r.j.hosts, t.id, c);
    InFirst(r.j.hosts, IdIs(t.id));
    if h.Some? {
      CallsOfSnoc(r.calls, Call(h.value, Some(t)), c, true);
      CallsOfSnoc(r.calls, Call(h.value, Some(t)), c, false);
    } else if Filter(TargetsGone(r, TargetArrives(t)), IdIs(c)) == [] {
      PushNoted(r.j.targets, t, r.j.maxPerKey, c);
    }
  }

  lemma ReleaseSeen(r: Run, before: int, c: CmdId)
    ensures var s, gone := Step(r, Release(before)), Filter(Filter(r.j.hosts, Before(before)), IdIs(c));
            && CallsOf(s.calls, c, true) == CallsOf(r.calls, c, true) && s.j.targets == r.j.targets
            && CallsOf(s.calls, c, false) == CallsOf(r.calls, c, false) + Unmatched(gone)
            && s.j.hosts == Filter(r.j.hosts, Not(Before(before)))
  {
    var aged := Filter(r.j.hosts, Before(before));
    CallsOfUnmatched(r.calls, aged, c, true);
    CallsOfUnmatched(r.calls, aged, c, false);
  }

  // ---- one step ----

  lemma HostMet(r: Run, h: Rec, c: CmdId, hs: seq<Rec>, ts: seq<Rec>, was: Fate)
    requires Met(r, c, hs, ts, was)
    ensures Met(Step(r, HostArrives(h)), c, if h.id == c then hs + [h] else hs, ts, Next(r, HostArrives(h), was, c))
  {
    if Next(r, HostArrives(h), was, c) != Spoiled {
      HostSeen(r, h, c);
      var waiting := Filter(r.j.hosts, IdIs(c));
      assert waiting + [] == waiting;
      if h.id == c {
        OneMoreHost(hs, ts, h);
        if was.HostLeft? {
          assert (hs + [h])[|ts|..] == hs[|ts|..] + [h];
          MoreWait(CallsOf(r.calls, c, false), waiting, hs[|ts|..], h);
        }
      }
    }
  }

  /** One more host, of those that came and of those that wait. */
  lemma MoreWait(calls: seq<Call>, waiting: seq<Rec>, all: seq<Rec>, h: Rec)
    requires multiset(calls) + multiset(Unmatched(waiting)) == multiset(Unmatched(all))
    ensures multiset(calls) + multiset(Unmatched(waiting + [h])) == multiset(Unmatched(all + [h]))
  {
    UnmatchedSnoc(waiting, h);
    UnmatchedSnoc(all, h);
  }

  /** Some of those that wait become calls. */
  lemma SomeGo(calls: seq<Call>, gone: seq<Call>, waiting: seq<Call>, left: seq<Call>, all: multiset<Call>)
    requires multiset(calls) + multiset(waiting) == all && multiset(waiting) == multiset(gone) + multiset(left)
    ensures multiset(calls + gone) + multiset(left) == all
  {
  }

  lemma TargetMet(r: Run, t: Rec, c: CmdId, hs: seq<Rec>, ts: seq<Rec>, was: Fate)
    requires Met(r, c, hs, ts, was)
    ensures Met(Step(r, TargetArrives(t)), c, hs, if t.id == c then ts + [t] else ts, Next(r, TargetArrives(t), was, c))
  {
    if Next(r, TargetArrives(t), was, c) != Spoiled {
      TargetSeen(r, t, c);
      if t.id == c { OneMoreTarget(hs, ts, t); }
      if Filter(TargetsGone(r, TargetArrives(t)), IdIs(c)) != [] {
        GoneWaited(r, TargetArrives(t), c);
      }
    }
  }

  /** A target record that goes was waiting. */
  lemma GoneWaited(r: Run, op: Op, c: CmdId)
    requires Filter(TargetsGone(r, op), IdIs(c)) != []
    ensures Filter(r.j.targets, IdIs(c)) != []
  {
    var g := Filter(TargetsGone(r, op), IdIs(c))[0];
    InFilter(TargetsGone(r, op), IdIs(c));
    assert g in Filter(TargetsGone(r, op), IdIs(c));
    if op.Expire? {
      InFilter(r.j.targets, Before(op.before));
    } else {
      InFirst(r.j.targets, KeyIs(KeyOf(op.t.id)));
    }
    InFilter(r.j.targets, IdIs(c));
    assert g in Filter(r.j.targets, IdIs(c));
  }

  lemma ReleaseMet(r: Run, before: int, c: CmdId, hs: seq<Rec>, ts: seq<Rec>, was: Fate)
    requires Met(r, c, hs, ts, was)
    ensures Met(Step(r, Release(before)), c, hs, ts, Next(r, Release(before), was, c))
  {
    var gone := Filter(Filter(r.j.hosts, Before(before)), IdIs(c));
    if gone == [] {
      NoneReleased(r, before, c, hs, ts, was);
    } else if !was.Spoiled? {
      SomeReleased(r, before, c, hs, ts, was);
    }
  }

  lemma NoneReleased(r: Run, before: int, c: CmdId, hs: seq<Rec>, ts: seq<Rec>, was: Fate)
    requires Met(r, c, hs, ts, was) && Filter(Filter(r.j.hosts, Before(before)), IdIs(c)) == []
    ensures Met(Step(r, Release(before)), c, hs, ts, was)
  {
    ReleaseSeen(r, before, c);
    AgedOfOwn(r.j.hosts, Before(before), IdIs(c));
    assert CallsOf(r.calls, c, false) + Unmatched([]) == CallsOf(r.calls, c, false);
  }

  lemma SomeReleased(r: Run, before: int, c: CmdId, hs: seq<Rec>, ts: seq<Rec>, was: Fate)
    requires Met(r, c, hs, ts, was) && !was.Spoiled? && Filter(Filter(r.j.hosts, Before(before)), IdIs(c)) != []
    ensures Met(Step(r, Release(before)), c, hs, ts, HostLeft)
  {
    var gone := Filter(Filter(r.j.hosts, Before(before)), IdIs(c));
    var waiting, left := Filter(r.j.hosts, IdIs(c)), Filter(Filter(r.j.hosts, Not(Before(before))), IdIs(c));
    AgedOfOwn(r.j.hosts, Before(before), IdIs(c));
    WereWaiting(waiting, gone, left);
    UnmatchedSplit(gone, left, waiting);
    HostsAhead(r, c, hs, ts, was);
    SomeGo(CallsOf(r.calls, c, false), Unmatched(gone), Unmatched(waiting), Unmatched(left),
           multiset(Unmatched(hs[|ts|..])));
    ReleaseSeen(r, before, c);
  }

  /** While a host record of it waits, an identity is in one state, whatever was released before. */
  lemma HostsAhead(r: Run, c: CmdId, hs: seq<Rec>, ts: seq<Rec>, was: Fate)
    requires Met(r, c, hs, ts, was) && !was.Spoiled? && Filter(r.j.hosts, IdIs(c)) != []
    ensures Met(r, c, hs, ts, HostLeft)
  {
  }

  lemma WereWaiting(waiting: seq<Rec>, gone: seq<Rec>, left: seq<Rec>)
    requires multiset(waiting) == multiset(gone) + multiset(left) && gone != []
    ensures waiting != []
  {
    assert gone[0] in multiset(waiting);
  }

  lemma ExpireMet(r: Run, before: int, c: CmdId, hs: seq<Rec>, ts: seq<Rec>, was: Fate)
    requires Met(r, c, hs, ts, was)
    ensures Met(Step(r, Expire(before)), c, hs, ts, Next(r, Expire(before), was, c))
  {
    AgedOfOwn(r.j.targets, Before(before), IdIs(c));
    if Filter(TargetsGone(r, Expire(before)), IdIs(c)) != [] { GoneWaited(r, Expire(before), c); }
  }

  /** Over every recording, whatever was lost. */
  lemma {:induction false} MetThroughout(max: nat, ops: seq<Op>, c: CmdId)
    requires forall i :: 0 <= i < |ops| ==> ops[i].Recording()
    ensures Met(RunOf(max, ops), c, Filter(HostsIn(ops), IdIs(c)), Filter(TargetsIn(ops), IdIs(c)), FateOf(max, ops, c))
  {
    if ops != [] {
      var before, op := ops[..|ops| - 1], ops[|ops| - 1];
      var r, fate := RunOf(max, before), FateOf(max, before, c);
      var hs, ts := Filter(HostsIn(before), IdIs(c)), Filter(TargetsIn(before), IdIs(c));
      MetThroughout(max, before, c);
      assert HostsIn(before) + [] == HostsIn(before) && TargetsIn(before) + [] == TargetsIn(before);
      match op {
        case HostArrives(h) => FilterSnoc(HostsIn(before), h, IdIs(c)); HostMet(r, h, c, hs, ts, fate);
        case TargetArrives(t) => FilterSnoc(TargetsIn(before), t, IdIs(c)); TargetMet(r, t, c, hs, ts, fate);
        case Release(b) => ReleaseMet(r, b, c, hs, ts, fate);
        case Expire(b) => ExpireMet(r, b, c, hs, ts, fate);
      }
    }
  }

  // ---- the two ways of joining ----

  lemma AfterLastRelease(max: nat, ops: seq<Op>, c: CmdId)
    requires forall i :: 0 <= i < |ops| ==> ops[i].Recording()
    requires FateOf(max, ops, c) != Spoiled
    requires forall h :: h in HostsIn(ops) ==> Age(h) < U64_MAX
    ensures var r, hs, ts := RunOf(max, ops + [Release(U64_MAX)]), Filter(HostsIn(ops), IdIs(c)), Filter(TargetsIn(ops), IdIs(c));
            && CallsOf(r.calls, c, true) == Zip(hs, ts)
            && multiset(CallsOf(r.calls, c, false)) == multiset(Unmatched(hs[Min(|hs|, |ts|)..]))
  {
    var r, hs, ts := RunOf(max, ops), Filter(HostsIn(ops), IdIs(c)), Filter(TargetsIn(ops), IdIs(c));
    MetThroughout(max, ops, c);
    RunSnoc(max, ops, Release(U64_MAX));
    forall h | h in r.j.hosts ensures Age(h) < U64_MAX {
      WaitersCameIn(max, ops, h);
    }
    OnlineOffline.LastRelease(r);
    CallsOfUnmatched(r.calls, r.j.hosts, c, true);
    CallsOfUnmatched(r.calls, r.j.hosts, c, false);
  }

  /** An identity that was not spoiled gets the same calls online and offline, its pairs in the same order. */
  lemma SameCallsOf(max: nat, ops: seq<Op>, c: CmdId)
    requires forall i :: 0 <= i < |ops| ==> ops[i].Recording()
    requires FateOf(max, ops, c) != Spoiled
    requires forall h :: h in HostsIn(ops) ==> Age(h) < U64_MAX
    ensures var online, offline := RunOf(max, ops + [Release(U64_MAX)]).calls, OfflineRun(TargetsIn(ops), HostsIn(ops)).calls;
            && CallsOf(online, c, true) == CallsOf(offline, c, true)
            && multiset(CallsOf(online, c, false)) == multiset(CallsOf(offline, c, false))
  {
    AfterLastRelease(max, ops, c);
    OfflineInOrder(TargetsIn(ops), HostsIn(ops), c);
  }

  /**
   So the statistics get the same calls whenever no identity was spoiled, whatever was evicted, expired or released
   early on the way.
   */
  lemma SameCallsUnlessSpoiled(max: nat, ops: seq<Op>)
    requires forall i :: 0 <= i < |ops| ==> ops[i].Recording()
    requires forall c :: FateOf(max, ops, c) != Spoiled
    requires forall h :: h in HostsIn(ops) ==> Age(h) < U64_MAX
    ensures multiset(RunOf(max, ops + [Release(U64_MAX)]).calls) ==
            multiset(OfflineRun(TargetsIn(ops), HostsIn(ops)).calls)
  {
    var online, offline := RunOf(max, ops + [Release(U64_MAX)]).calls, OfflineRun(TargetsIn(ops), HostsIn(ops)).calls;
    forall call: Call ensures multiset(online)[call] == multiset(offline)[call] {
      SameCallsOf(max, ops, call.h.id);
      CountInCalls(online, call);
      CountInCalls(offline, call);
    }
  }

  /** In particular if the counters say that nothing was lost at all. */
  lemma {:induction false} NothingLostIsWhole(max: nat, ops: seq<Op>, c: CmdId)
    requires forall i :: 0 <= i < |ops| ==> ops[i].Recording()
    requires NothingLost(RunOf(max, ops))
    ensures FateOf(max, ops, c) == Whole
  {
    if ops != [] {
      var before, op := ops[..|ops| - 1], ops[|ops| - 1];
      CountersGrow(RunOf(max, before), op);
      NothingLostIsWhole(max, before, c);
      NothingGoes(RunOf(max, before), op);
    }
  }

  lemma NothingGoes(r: Run, op: Op)
    requires op.Recording() && NothingLost(r) && NothingLost(Step(r, op))
    ensures HostsEvicted(r, op) == [] && HostsReleased(r, op) == [] && TargetsGone(r, op) == []
  {
  }

  /** A host record released before its target record comes: spoiled, and the two ways of joining do differ. */
  lemma SpoiledDiffers(max: nat, h: Rec, t: Rec)
    requires h.id == t.id && Age(h) < U64_MAX
    ensures var ops := [HostArrives(h), Release(U64_MAX), TargetArrives(t)];
            FateOf(max, ops, h.id) == Spoiled && RunOf(max, ops).calls == [Call(h, None)]
    ensures OfflineRun([t], [h]).calls == [Call(h, Some(t))]
  {
    ReleasedFirst(max, h);
    var o2, o3 := [HostArrives(h), Release(U64_MAX)], [HostArrives(h), Release(U64_MAX), TargetArrives(t)];
    assert o3[..2] == o2;
    JoinedOffline(h, t);
  }

  lemma ReleasedFirst(max: nat, h: Rec)
    requires Age(h) < U64_MAX
    ensures var ops, r := [HostArrives(h), Release(U64_MAX)], RunOf(max, [HostArrives(h), Release(U64_MAX)]);
            FateOf(max, ops, h.id) == HostLeft && r.j.hosts == [] && r.calls == [Call(h, None)]
  {
    var o1, o2 := [HostArrives(h)], [HostArrives(h), Release(U64_MAX)];
    assert o2[..1] == o1;
    FirstHost(max, h);
    OnlyOne(h, IdIs(h.id));
    OnlyOne(h, Before(U64_MAX));
    OnlyOne(h, Not(Before(U64_MAX)));
  }

  lemma FirstHost(max: nat, h: Rec)
    ensures var r := RunOf(max, [HostArrives(h)]);
            r.j.hosts == [h] && r.calls == [] && FateOf(max, [HostArrives(h)], h.id) == Whole
  {
    var none: seq<Op> := [];
    var o1 := [HostArrives(h)];
    assert o1[..0] == none;
    assert RunOf(max, none) == Run(NewJoiner(max), [], [], [], []) && FateOf(max, none, h.id) == Whole;
    assert RunOf(max, o1) == Step(RunOf(max, none), HostArrives(h));
  }

  lemma JoinedOffline(h: Rec, t: Rec)
    requires h.id == t.id
    ensures OfflineRun([t], [h]).calls == [Call(h, Some(t))]
  {
    OfflineLoad([t]);
    OnlyOne(t, IdIs(h.id));
    OfflineSnoc([t], [], h);
    assert [] + [h] == [h];
  }

  lemma OnlyOne(r: Rec, sel: Sel)
    ensures Filter([r], sel) == (if sel.Picks(r) then [r] else [])
    ensures First([r], sel) == if sel.Picks(r) then Some(r) else None
  {
    assert [r][1..] == [];
  }
}
