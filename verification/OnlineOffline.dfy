/**
 The two ways of joining agree. Online (src/record.c) records come interleaved and either side may wait;
 offline (src/offline.c) every target record is added first and the host records are matched after.
 Either way the i-th host record of a command identity meets the i-th target record of that identity.
 */
module OnlineOffline {
  import opened Records
  import opened Waiting
  import opened JoinSpec

  function Min(a: nat, b: nat): nat {
    if a <= b then a else b
  }

  /** The calls made for one command identity, joined or not, in order. */
  function CallsOf(calls: seq<Call>, c: CmdId, joined: bool): seq<Call> {
    if calls == [] then []
    else
      var last := calls[|calls| - 1];
      CallsOf(calls[..|calls| - 1], c, joined) + if last.h.id == c && last.t.Some? == joined then [last] else []
  }

  lemma CallsOfSnoc(calls: seq<Call>, call: Call, c: CmdId, joined: bool)
    ensures CallsOf(calls + [call], c, joined) ==
            CallsOf(calls, c, joined) + if call.h.id == c && call.t.Some? == joined then [call] else []
  {
    assert (calls + [call])[..|calls|] == calls;
  }

  /** The i-th host with the i-th target. */
  function Zip(hs: seq<Rec>, ts: seq<Rec>): (z: seq<Call>)
    ensures |z| == Min(|hs|, |ts|)
    ensures forall i :: 0 <= i < |z| ==> z[i] == Call(hs[i], Some(ts[i]))
  {
    seq(Min(|hs|, |ts|), i requires 0 <= i < Min(|hs|, |ts|) => Call(hs[i], Some(ts[i])))
  }

  /** The specification of a join, for one identity: what was joined, what was not, what still waits. */
  ghost predicate JoinedInOrder(r: Run, c: CmdId, hs: seq<Rec>, ts: seq<Rec>, hostsWait: bool) {
    var m := Min(|hs|, |ts|);
    && CallsOf(r.calls, c, true) == Zip(hs, ts)
    && Filter(r.j.targets, IdIs(c)) == ts[m..]
    && Filter(r.j.hosts, IdIs(c)) == (if hostsWait then hs[m..] else [])
    && CallsOf(r.calls, c, false) == (if hostsWait then [] else Unmatched(hs[m..]))
  }

  ghost predicate NothingEvicted(r: Run) {
    r.evictedHosts == [] && r.evictedTargets == []
  }

  /** The joiner's counters say that every record that came was joined or still waits. */
  predicate NothingLost(r: Run) {
    r.j.st.evicted == 0 && r.j.st.expired == 0 && r.j.st.unmatched == 0
  }

  // ---- taking and pushing, seen from one identity ----

  lemma TakeSeen(q: seq<Rec>, id: CmdId, c: CmdId)
    ensures id == c ==> First(q, IdIs(id)) == (var f := Filter(q, IdIs(c)); if f == [] then None else Some(f[0]))
    ensures Filter(RemoveFirst(q, IdIs(id)), IdIs(c)) ==
            var f := Filter(q, IdIs(c)); if id == c && f != [] then f[1..] else f
  {
    if id == c {
      FirstOfOwn(q, IdIs(c));
    } else {
      RemoveElsewhere(q, IdIs(id), IdIs(c));
    }
  }

  lemma PushSeen(q: seq<Rec>, r: Rec, max: nat, c: CmdId)
    requires Dropped(q, r, max) == []
    ensures Filter(Push(q, r, max), IdIs(c)) == Filter(q, IdIs(c)) + if r.id == c then [r] else []
  {
    assert !Full(q, r, max) by { FirstOfOwn(q, KeyIs(KeyOf(r.id))); }
    FilterSnoc(q, r, IdIs(c));
  }

  /** One more host of the identity: it meets the next target, or it is one more to wait. */
  lemma OneMoreHost(hs: seq<Rec>, ts: seq<Rec>, h: Rec)
    ensures var m, more := Min(|hs|, |ts|), hs + [h];
            if |hs| < |ts| then
              && Zip(more, ts) == Zip(hs, ts) + [Call(h, Some(ts[m]))]
              && hs[m..] == [] && ts[m..] != [] && ts[m..][0] == ts[m]
              && more[Min(|more|, |ts|)..] == [] && ts[Min(|more|, |ts|)..] == ts[m..][1..]
            else
              && Zip(more, ts) == Zip(hs, ts) && ts[m..] == []
              && more[Min(|more|, |ts|)..] == hs[m..] + [h] && ts[Min(|more|, |ts|)..] == []
  {
  }

  lemma OneMoreTarget(hs: seq<Rec>, ts: seq<Rec>, t: Rec)
    ensures var m, more := Min(|hs|, |ts|), ts + [t];
            if |ts| < |hs| then
              && Zip(hs, more) == Zip(hs, ts) + [Call(hs[m], Some(t))]
              && ts[m..] == [] && hs[m..] != [] && hs[m..][0] == hs[m]
              && more[Min(|hs|, |more|)..] == [] && hs[Min(|hs|, |more|)..] == hs[m..][1..]
            else
              && Zip(hs, more) == Zip(hs, ts) && hs[m..] == []
              && more[Min(|hs|, |more|)..] == ts[m..] + [t] && hs[Min(|hs|, |more|)..] == []
  {
  }

  // ---- online ----

  lemma HostMeets(r: Run, h: Rec, c: CmdId, hs: seq<Rec>, ts: seq<Rec>)
    requires JoinedInOrder(r, c, hs, ts, true)
    requires NothingEvicted(Step(r, HostArrives(h)))
    ensures JoinedInOrder(Step(r, HostArrives(h)), c, if h.id == c then hs + [h] else hs, ts, true)
  {
    var t := First(r.j.targets, IdIs(h.id));
    TakeSeen(r.j.targets, h.id, c);
    OneMoreHost(hs, ts, h);
    if t.Some? {
      CallsOfSnoc(r.calls, Call(h, t), c, true);
      CallsOfSnoc(r.calls, Call(h, t), c, false);
    } else {
      PushSeen(r.j.hosts, h, r.j.maxPerKey, c);
    }
  }

  lemma TargetMeets(r: Run, t: Rec, c: CmdId, hs: seq<Rec>, ts: seq<Rec>)
    requires JoinedInOrder(r, c, hs, ts, true)
    requires NothingEvicted(Step(r, TargetArrives(t)))
    ensures JoinedInOrder(Step(r, TargetArrives(t)), c, hs, if t.id == c then ts + [t] else ts, true)
  {
    var h := First(r.j.hosts, IdIs(t.id));
    TakeSeen(r.j.hosts, t.id, c);
    InFirst(r.j.hosts, IdIs(t.id));
    OneMoreTarget(hs, ts, t);
    if h.Some? {
      CallsOfSnoc(r.calls, Call(h.value, Some(t)), c, true);
      CallsOfSnoc(r.calls, Call(h.value, Some(t)), c, false);
    } else {
      PushSeen(r.j.targets, t, r.j.maxPerKey, c);
    }
  }

  /** The counters never decrease. */
  lemma CountersGrow(r: Run, op: Op)
    ensures NothingLost(Step(r, op)) ==> NothingLost(r)
  {
  }

  /** A tick that released and expired nothing changed nothing. */
  lemma QuietTick(r: Run, op: Op)
    requires (op.Release? || op.Expire?) && NothingLost(Step(r, op))
    ensures Step(r, op) == r
  {
    var q := if op.Release? then r.j.hosts else r.j.targets;
    assert Filter(q, Before(op.before)) == [];
    InFilter(q, Before(op.before));
    FilterAll(q, Not(Before(op.before)));
    assert r.calls + Unmatched([]) == r.calls && r.expiredTargets + [] == r.expiredTargets;
  }

  /**
   Every interleaving joins each identity in order, and only one side of it waits: in every recording, ticks included,
   that has lost nothing.
   */
  lemma {:induction false} OnlineInOrder(max: nat, ops: seq<Op>, c: CmdId)
    requires forall i :: 0 <= i < |ops| ==> ops[i].Recording()
    requires NothingLost(RunOf(max, ops))
    ensures JoinedInOrder(RunOf(max, ops), c, Filter(HostsIn(ops), IdIs(c)), Filter(TargetsIn(ops), IdIs(c)), true)
  {
    if ops != [] {
      var before, op := ops[..|ops| - 1], ops[|ops| - 1];
      var r, hs, ts := RunOf(max, before), Filter(HostsIn(before), IdIs(c)), Filter(TargetsIn(before), IdIs(c));
      CountersGrow(r, op);
      OnlineInOrder(max, before, c);
      if op.HostArrives? {
        NoneLost(max, ops);
        FilterSnoc(HostsIn(before), op.h, IdIs(c));
        assert TargetsIn(ops) == TargetsIn(before);
        HostMeets(r, op.h, c, hs, ts);
      } else if op.TargetArrives? {
        NoneLost(max, ops);
        FilterSnoc(TargetsIn(before), op.t, IdIs(c));
        assert HostsIn(ops) == HostsIn(before);
        TargetMeets(r, op.t, c, hs, ts);
      } else {
        QuietTick(r, op);
        assert HostsIn(ops) == HostsIn(before) && TargetsIn(ops) == TargetsIn(before);
      }
    }
  }

  // ---- offline ----

  function AddOps(targets: seq<Rec>): seq<Op> {
    if targets == [] then [] else AddOps(targets[..|targets| - 1]) + [AddTarget(targets[|targets| - 1])]
  }

  function MatchOps(hosts: seq<Rec>): seq<Op> {
    if hosts == [] then [] else MatchOps(hosts[..|hosts| - 1]) + [Match(hosts[|hosts| - 1])]
  }

  /** load_run(): an unbounded joiner, all targets, then all hosts. */
  function OfflineRun(targets: seq<Rec>, hosts: seq<Rec>): Run {
    RunOf(0, AddOps(targets) + MatchOps(hosts))
  }

  lemma {:induction false} OfflineLoad(targets: seq<Rec>)
    ensures OfflineRun(targets, []).j.targets == targets
    ensures OfflineRun(targets, []).j.hosts == [] && OfflineRun(targets, []).calls == []
    ensures OfflineRun(targets, []).j.maxPerKey == 0
  {
    assert AddOps(targets) + MatchOps([]) == AddOps(targets);
    if targets != [] {
      var rest, t := targets[..|targets| - 1], targets[|targets| - 1];
      OfflineLoad(rest);
      assert AddOps(rest) + MatchOps([]) == AddOps(rest);
      RunSnoc(0, AddOps(rest), AddTarget(t));
      assert targets == rest + [t];
    }
  }

  lemma MatchMeets(r: Run, h: Rec, c: CmdId, hs: seq<Rec>, ts: seq<Rec>)
    requires JoinedInOrder(r, c, hs, ts, false)
    ensures JoinedInOrder(Step(r, Match(h)), c, if h.id == c then hs + [h] else hs, ts, false)
  {
    var t := First(r.j.targets, IdIs(h.id));
    TakeSeen(r.j.targets, h.id, c);
    OneMoreHost(hs, ts, h);
    UnmatchedSnoc(hs[Min(|hs|, |ts|)..], h);
    CallsOfSnoc(r.calls, Call(h, t), c, true);
    CallsOfSnoc(r.calls, Call(h, t), c, false);
  }

  lemma OfflineSnoc(targets: seq<Rec>, hosts: seq<Rec>, h: Rec)
    ensures OfflineRun(targets, hosts + [h]) == Step(OfflineRun(targets, hosts), Match(h))
  {
    assert (hosts + [h])[..|hosts|] == hosts;
    assert AddOps(targets) + MatchOps(hosts + [h]) == (AddOps(targets) + MatchOps(hosts)) + [Match(h)];
    RunSnoc(0, AddOps(targets) + MatchOps(hosts), Match(h));
  }

  lemma OfflineLoaded(targets: seq<Rec>, c: CmdId)
    ensures JoinedInOrder(OfflineRun(targets, []), c, [], Filter(targets, IdIs(c)), false)
  {
    OfflineLoad(targets);
  }

  lemma {:induction false} OfflineInOrder(targets: seq<Rec>, hosts: seq<Rec>, c: CmdId)
    ensures JoinedInOrder(OfflineRun(targets, hosts), c, Filter(hosts, IdIs(c)), Filter(targets, IdIs(c)), false)
  {
    if hosts == [] {
      OfflineLoaded(targets, c);
    } else {
      var rest, h := hosts[..|hosts| - 1], hosts[|hosts| - 1];
      assert hosts == rest + [h];
      OfflineInOrder(targets, rest, c);
      OfflineSnoc(targets, rest, h);
      FilterSnoc(rest, h, IdIs(c));
      MatchMeets(OfflineRun(targets, rest), h, c, Filter(rest, IdIs(c)), Filter(targets, IdIs(c)));
    }
  }

  // ---- the two together ----

  /** The joined pairs are the same, identity by identity and in the same order. */
  lemma SamePairs(max: nat, ops: seq<Op>, c: CmdId)
    requires forall i :: 0 <= i < |ops| ==> ops[i].Recording()
    requires NothingLost(RunOf(max, ops))
    ensures CallsOf(RunOf(max, ops).calls, c, true) ==
            CallsOf(OfflineRun(TargetsIn(ops), HostsIn(ops)).calls, c, true) ==
            Zip(Filter(HostsIn(ops), IdIs(c)), Filter(TargetsIn(ops), IdIs(c)))
  {
    OnlineInOrder(max, ops, c);
    OfflineInOrder(TargetsIn(ops), HostsIn(ops), c);
  }

  /** Hosts that leave unmatched are calls without a target, and no others. */
  lemma {:induction false} CallsOfUnmatched(calls: seq<Call>, hosts: seq<Rec>, c: CmdId, joined: bool)
    ensures CallsOf(calls + Unmatched(hosts), c, joined) ==
            if joined then CallsOf(calls, c, true) else CallsOf(calls, c, false) + Unmatched(Filter(hosts, IdIs(c)))
  {
    if hosts == [] {
      assert calls + Unmatched(hosts) == calls;
    } else {
      var rest, h := hosts[..|hosts| - 1], hosts[|hosts| - 1];
      CallsOfUnmatched(calls, rest, c, joined);
      OneMoreUnmatched(calls, hosts);
      CallsOfSnoc(calls + Unmatched(rest), Call(h, None), c, joined);
      OwnUnmatched(CallsOf(calls, c, false), hosts, c);
    }
  }

  lemma OwnUnmatched(calls: seq<Call>, hosts: seq<Rec>, c: CmdId)
    requires hosts != []
    ensures var rest, h := hosts[..|hosts| - 1], hosts[|hosts| - 1];
            calls + Unmatched(Filter(hosts, IdIs(c))) ==
            (calls + Unmatched(Filter(rest, IdIs(c)))) + if h.id == c then [Call(h, None)] else []
  {
    var rest, h := hosts[..|hosts| - 1], hosts[|hosts| - 1];
    assert hosts == rest + [h];
    FilterSnoc(rest, h, IdIs(c));
    UnmatchedSnoc(Filter(rest, IdIs(c)), h);
  }

  lemma OneMoreUnmatched(calls: seq<Call>, hosts: seq<Rec>)
    requires hosts != []
    ensures calls + Unmatched(hosts) ==
            (calls + Unmatched(hosts[..|hosts| - 1])) + [Call(hosts[|hosts| - 1], None)]
  {
    assert hosts == hosts[..|hosts| - 1] + [hosts[|hosts| - 1]];
    UnmatchedSnoc(hosts[..|hosts| - 1], hosts[|hosts| - 1]);
  }

  lemma {:induction false} CountInCalls(calls: seq<Call>, call: Call)
    ensures multiset(calls)[call] == multiset(CallsOf(calls, call.h.id, call.t.Some?))[call]
  {
    if calls != [] {
      var n := |calls| - 1;
      CountInCalls(calls[..n], call);
      assert calls == calls[..n] + [calls[n]];
    }
  }

  /** The last release lets every waiting host go. */
  lemma LastRelease(r: Run)
    requires forall h :: h in r.j.hosts ==> Age(h) < U64_MAX
    ensures var s := Step(r, Release(U64_MAX));
            s.calls == r.calls + Unmatched(r.j.hosts) && s.j.hosts == [] && s.j.targets == r.j.targets
  {
    FilterAll(r.j.hosts, Before(U64_MAX));
    FilterNone(r.j.hosts, Not(Before(U64_MAX)));
  }

  lemma ReleaseEnds(r: Run, c: CmdId, hs: seq<Rec>, ts: seq<Rec>)
    requires JoinedInOrder(r, c, hs, ts, true)
    requires forall h :: h in r.j.hosts ==> Age(h) < U64_MAX
    ensures JoinedInOrder(Step(r, Release(U64_MAX)), c, hs, ts, false)
  {
    LastRelease(r);
    CallsOfUnmatched(r.calls, r.j.hosts, c, true);
    CallsOfUnmatched(r.calls, r.j.hosts, c, false);
    assert [] + Unmatched(hs[Min(|hs|, |ts|)..]) == Unmatched(hs[Min(|hs|, |ts|)..]);
  }

  /** Once the recording has ended and the last hosts are released, all of them are. */
  lemma ReleasedAll(max: nat, ops: seq<Op>, c: CmdId)
    requires forall i :: 0 <= i < |ops| ==> ops[i].Recording()
    requires NothingLost(RunOf(max, ops))
    requires forall h :: h in HostsIn(ops) ==> Age(h) < U64_MAX
    ensures JoinedInOrder(RunOf(max, ops + [Release(U64_MAX)]), c,
                          Filter(HostsIn(ops), IdIs(c)), Filter(TargetsIn(ops), IdIs(c)), false)
  {
    RunSnoc(max, ops, Release(U64_MAX));
    OnlineInOrder(max, ops, c);
    forall h | h in RunOf(max, ops).j.hosts ensures Age(h) < U64_MAX {
      WaitersCameIn(max, ops, h);
    }
    ReleaseEnds(RunOf(max, ops), c, Filter(HostsIn(ops), IdIs(c)), Filter(TargetsIn(ops), IdIs(c)));
  }

  lemma WaitersCameIn(max: nat, ops: seq<Op>, h: Rec)
    requires h in RunOf(max, ops).j.hosts
    ensures h in HostsIn(ops)
  {
    ConservedRun(max, ops);
    assert h in multiset(HostsIn(ops));
  }

  /**
   Online equals offline: whatever the interleaving of arrivals and ticks, if the counters say that nothing was evicted,
   expired or released early, then after the final release the statistics have received exactly the calls that
   `report` makes from the same records, each host with the same target or with none.
   */
  lemma OnlineEqualsOffline(max: nat, ops: seq<Op>)
    requires forall i :: 0 <= i < |ops| ==> ops[i].Recording()
    requires NothingLost(RunOf(max, ops))
    requires forall h :: h in HostsIn(ops) ==> Age(h) < U64_MAX
    ensures multiset(RunOf(max, ops + [Release(U64_MAX)]).calls) ==
            multiset(OfflineRun(TargetsIn(ops), HostsIn(ops)).calls)
  {
    var online, offline := RunOf(max, ops + [Release(U64_MAX)]).calls, OfflineRun(TargetsIn(ops), HostsIn(ops)).calls;
    forall call: Call ensures multiset(online)[call] == multiset(offline)[call] {
      ReleasedAll(max, ops, call.h.id);
      OfflineInOrder(TargetsIn(ops), HostsIn(ops), call.h.id);
      CountInCalls(online, call);
      CountInCalls(offline, call);
    }
  }

  /** The joiner's own counters tell whether anything was evicted. */
  lemma NoneLost(max: nat, ops: seq<Op>)
    requires NothingLost(RunOf(max, ops))
    ensures NothingEvicted(RunOf(max, ops))
  {
    ConservedRun(max, ops);
    var r := RunOf(max, ops);
    assert |TargetsOut(r.calls)| <= |r.calls| by { TargetsOutShorter(r.calls); }
  }

  lemma {:induction false} TargetsOutShorter(calls: seq<Call>)
    ensures |TargetsOut(calls)| <= |calls|
  {
    if calls != [] { TargetsOutShorter(calls[..|calls| - 1]); }
  }
}
