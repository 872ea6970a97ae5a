/**
 A recording (src/record.c) from its records to its report: the session object feeds the joiner and the statistics,
 and what it reports at the end is what `ntprof report` makes of the same records.
 */
module Session {
  import opened Records
  import opened Waiting
  import opened JoinSpec
  import opened OnlineOffline
  import opened PartialLoss
  import opened JoinerObject
  import opened StatsObject
  import opened Aggregation
  import opened Summary
  import opened TraceFile
  import opened RecordLayout

  /** How many records of one key a recording's joiner lets wait. */
  const TARGETS_PER_KEY := 64

  /** The records that arrived, in the order in which they came. */
  function Arrivals(ops: seq<Op>): seq<Rec> {
    if ops == [] then []
    else
      var op := ops[|ops| - 1];
      Arrivals(ops[..|ops| - 1]) + if op.HostArrives? then [op.h] else if op.TargetArrives? then [op.t] else []
  }

  /** What a struct from the ring buffer does to the joiner. */
  ghost function ArrivalOf(data: seq<byte>): Op
    requires Image(data)
  {
    if data[0] == KIND_HOST then HostArrives(Decode(data)) else TargetArrives(Decode(data))
  }

  ghost predicate AllRecording(ops: seq<Op>) {
    forall i :: 0 <= i < |ops| ==> ops[i].Recording() && ops[i].Typed()
  }

  /** What the file and the operations of a session have to do with the structs it was handed. */
  ghost predicate FiledAs(ops: seq<Op>, images: seq<seq<byte>>, header: seq<byte>, file: seq<byte>, writing: bool) {
    && AllRecording(ops) && Images(images) && Arrivals(ops) == DecodeAll(images)
    && file == if writing then header + WriteRecords(images, FILE_VERSION) else []
  }

  lemma ArrivalsSnoc(ops: seq<Op>, op: Op)
    requires AllRecording(ops) && op.Recording() && op.Typed()
    ensures AllRecording(ops + [op])
    ensures Arrivals(ops + [op]) ==
            Arrivals(ops) + if op.HostArrives? then [op.h] else if op.TargetArrives? then [op.t] else []
  {
    assert (ops + [op])[..|ops|] == ops;
  }

  lemma TickFiled(ops: seq<Op>, op: Op, images: seq<seq<byte>>, header: seq<byte>, file: seq<byte>, writing: bool)
    requires FiledAs(ops, images, header, file, writing) && (op.Release? || op.Expire?)
    ensures FiledAs(ops + [op], images, header, file, writing)
  {
    ArrivalsSnoc(ops, op);
    assert Arrivals(ops) + [] == Arrivals(ops);
  }

  lemma {:induction false} WriteSnoc(images: seq<seq<byte>>, data: seq<byte>)
    requires Images(images) && Image(data)
    ensures Images(images + [data])
    ensures WriteRecords(images + [data], FILE_VERSION) == WriteRecords(images, FILE_VERSION) + data
  {
    var all := images + [data];
    if images == [] {
      assert all == [data] && all[1..] == [];
      assert Written(data, FILE_VERSION) + [] == data;
    } else {
      assert all[1..] == images[1..] + [data];
      WriteSnoc(images[1..], data);
      Regroup(Written(images[0], FILE_VERSION), WriteRecords(images[1..], FILE_VERSION), data);
    }
  }

  lemma ArrivalFiled(ops: seq<Op>, op: Op, images: seq<seq<byte>>, data: seq<byte>, header: seq<byte>, file: seq<byte>,
                     writing: bool)
    requires FiledAs(ops, images, header, file, writing) && Image(data) && op == ArrivalOf(data)
    ensures FiledAs(ops + [op], images + [data], header, if writing then file + data else file, writing)
  {
    ArrivalsSnoc(ops, op);
    WriteSnoc(images, data);
    assert DecodeAll(images + [data]) == DecodeAll(images) + [Decode(data)];
    Regroup(header, WriteRecords(images, FILE_VERSION), data);
  }

  class RecordSession {
    const joiner: NtpJoiner
    const total: NtpStats
    const writing: bool
    const header: seq<byte>
    var file: seq<byte>  // what the writer has written
    var hostRecords: nat
    var targetRecords: nat
    var malformed: nat
    ghost var ops: seq<Op>
    ghost var images: seq<seq<byte>>

    /** The joiner and the statistics are in order and do not share storage. */
    ghost predicate Parts()
      reads joiner, joiner.Repr, total
    {
      joiner.Valid() && total.Valid() && total !in joiner.Repr && this !in joiner.Repr
    }

    ghost predicate Valid()
      reads this, joiner, joiner.Repr, total
    {
      Running() && Filed()
    }

    /** The file, when one is written, holds the structs that arrived. */
    ghost predicate Filed()
      reads this`ops, this`images, this`file
    {
      FiledAs(ops, images, header, file, writing)
    }

    /** The session is where the run of its operations is; the statistics have received that run's calls. */
    ghost predicate Running()
      reads this, joiner, joiner.Repr, total
    {
      && Parts()
      && joiner.View() == RunOf(TARGETS_PER_KEY, ops).j
      && multiset(total.calls) == multiset(RunOf(TARGETS_PER_KEY, ops).calls)
      && hostRecords == |HostsIn(ops)| && targetRecords == |TargetsIn(ops)|
    }

    constructor (grouping: Grouping, writing: bool, header: seq<byte>)
      ensures Valid() && fresh(joiner) && fresh(joiner.Repr) && fresh(total) && ops == [] && images == []
      ensures this.writing == writing && this.header == header && total.grouping == grouping
    {
      joiner := new NtpJoiner(TARGETS_PER_KEY);
      total := new NtpStats(grouping);
      this.writing, this.header := writing, header;
      file := if writing then header else [];
      hostRecords, targetRecords, malformed, ops, images := 0, 0, 0, [], [];
    }

    /** add_host() */
    method AddHost(h: Rec, t: Option<Rec>)
      requires Parts()
      modifies total
      ensures Parts() && joiner.Repr == old(joiner.Repr) && joiner.View() == old(joiner.View())
      ensures total.calls == old(total.calls) + [Call(h, t)]
    {
      total.Add(h, t);
    }

    method JoinHost(h: Rec) returns (t: Option<Rec>)
      requires Parts()
      modifies joiner, joiner.Repr
      ensures Parts() && fresh(joiner.Repr - old(joiner.Repr)) && total.calls == old(total.calls)
      ensures joiner.View() == After(old(joiner.View()), HostArrives(h))
      ensures t == First(old(joiner.View()).targets, IdIs(h.id))
    {
      t := joiner.HostArrives(h);
    }

    method JoinTarget(t: Rec) returns (h: Option<Rec>)
      requires Parts()
      modifies joiner, joiner.Repr
      ensures Parts() && fresh(joiner.Repr - old(joiner.Repr)) && total.calls == old(total.calls)
      ensures joiner.View() == After(old(joiner.View()), TargetArrives(t))
      ensures h == First(old(joiner.View()).hosts, IdIs(t.id))
    {
      h := joiner.TargetArrives(t);
    }

    /** The branch of on_record() for a host record. */
    method Host(h: Rec)
      requires Parts()
      modifies joiner, joiner.Repr, total
      ensures Parts() && fresh(joiner.Repr - old(joiner.Repr))
      ensures joiner.View() == After(old(joiner.View()), HostArrives(h))
      ensures multiset(total.calls) ==
              multiset(old(total.calls)) + multiset(CallsOf(old(joiner.View()), HostArrives(h)))
    {
      JoinCalls(joiner.View(), h);
      var t := JoinHost(h);
      if t.Some? {
        AddHost(h, t);
      }
    }

    /** The branch of on_record() for a target record. */
    method Target(t: Rec)
      requires Parts()
      modifies joiner, joiner.Repr, total
      ensures Parts() && fresh(joiner.Repr - old(joiner.Repr))
      ensures joiner.View() == After(old(joiner.View()), TargetArrives(t))
      ensures multiset(total.calls) ==
              multiset(old(total.calls)) + multiset(CallsOf(old(joiner.View()), TargetArrives(t)))
    {
      JoinCalls(joiner.View(), t);
      var h := JoinTarget(t);
      if h.Some? {
        AddHost(h.value, Some(t));
      }
    }

    /** The run gains the operation that has just been done, from joiner j and calls `calls`. */
    ghost method Note(op: Op, j: Joiner, calls: seq<Call>)
      requires Parts() && j == RunOf(TARGETS_PER_KEY, ops).j
      requires multiset(calls) == multiset(RunOf(TARGETS_PER_KEY, ops).calls)
      requires joiner.View() == After(j, op)
      requires multiset(total.calls) == multiset(calls) + multiset(CallsOf(j, op))
      requires hostRecords == |HostsIn(ops)| + if op.Match? || op.HostArrives? then 1 else 0
      requires targetRecords == |TargetsIn(ops)| + if op.AddTarget? || op.TargetArrives? then 1 else 0
      modifies this`ops
      ensures Running() && ops == old(ops) + [op]
    {
      Advance(ops, op, j, calls);
      ops := ops + [op];
    }

    method OnHost(h: Rec)
      requires Running()
      modifies this`hostRecords, this`targetRecords, this`ops, joiner, joiner.Repr, total
      ensures Running() && fresh(joiner.Repr - old(joiner.Repr)) && ops == old(ops) + [HostArrives(h)]
    {
      ghost var j, calls := joiner.View(), total.calls;
      Host(h);
      hostRecords := hostRecords + 1;
      Note(HostArrives(h), j, calls);
    }

    method OnTarget(t: Rec)
      requires Running()
      modifies this`hostRecords, this`targetRecords, this`ops, joiner, joiner.Repr, total
      ensures Running() && fresh(joiner.Repr - old(joiner.Repr)) && ops == old(ops) + [TargetArrives(t)]
    {
      ghost var j, calls := joiner.View(), total.calls;
      Target(t);
      targetRecords := targetRecords + 1;
      Note(TargetArrives(t), j, calls);
    }

    /** on_record(): a struct from the ring buffer, or something else. */
    method OnRecord(data: seq<byte>)
      requires Valid()
      modifies this, joiner, joiner.Repr, total
      ensures Valid() && fresh(joiner.Repr - old(joiner.Repr))
      ensures if Image(data) then
                && images == old(images) + [data] && malformed == old(malformed)
                && ops == old(ops) + [ArrivalOf(data)]
              else
                images == old(images) && malformed == old(malformed) + 1 && ops == old(ops)
    {
      ghost var op := if Image(data) then ArrivalOf(data) else Expire(0);
      if Image(data) { ArrivalFiled(ops, op, images, data, header, file, writing); }
      var known := Arrive(data);
      if known {
        Write(data);
      } else {
        malformed := malformed + 1;
      }
    }

    /** Its branches. */
    method Arrive(data: seq<byte>) returns (known: bool)
      requires Running()
      modifies this`hostRecords, this`targetRecords, this`ops, joiner, joiner.Repr, total
      ensures Running() && fresh(joiner.Repr - old(joiner.Repr))
      ensures known == Image(data)
      ensures ops == if known then old(ops) + [ArrivalOf(data)] else old(ops)
    {
      known := true;
      if |data| == HOST_REC && data[0] == KIND_HOST {
        OnHost(Decode(data));
      } else if |data| == TGT_REC && data[0] == KIND_TARGET {
        OnTarget(Decode(data));
      } else {
        known := false;
      }
    }

    /** ntp_writer_add(), if the session writes a file */
    method Write(data: seq<byte>)
      requires Running()
      modifies this`file, this`images
      ensures Running() && images == old(images) + [data]
      ensures file == if writing then old(file) + data else old(file)
    {
      if writing {
        file := file + data;
      }
      images := images + [data];
    }

    /** The release of waiting hosts, at a tick (src/record.c:316) or at the end (358): each goes to add_unmatched(). */
    method ReleaseHosts(before: int)
      requires Parts()
      modifies joiner, joiner.Repr, total
      ensures Parts() && fresh(joiner.Repr - old(joiner.Repr))
      ensures joiner.View() == After(old(joiner.View()), Release(before))
      ensures multiset(total.calls) ==
              multiset(old(total.calls)) + multiset(CallsOf(old(joiner.View()), Release(before)))
    {
      ghost var j := joiner.View();
      var released := Released(before);
      AddUnmatched(released);
      ReleaseCalls(j, before, released);
    }

    method AddUnmatched(released: seq<Rec>)
      requires Parts()
      modifies total
      ensures Parts() && joiner.Repr == old(joiner.Repr) && joiner.View() == old(joiner.View())
      ensures total.calls == old(total.calls) + Unmatched(released)
    {
      AddEach(total, released);
    }

    static method AddEach(total: NtpStats, released: seq<Rec>)
      requires total.Valid()
      modifies total
      ensures total.Valid() && total.calls == old(total.calls) + Unmatched(released)
    {
      var i := 0;
      while i < |released|
        invariant i <= |released| && total.Valid()
        invariant total.calls == CallsWith(old(total.calls), released, i)
      {
        OneMoreCall(total.calls, old(total.calls), released, i);
        total.Add(released[i], None);
        i := i + 1;
      }
      assert released[..i] == released;
    }

    static ghost function CallsWith(calls: seq<Call>, released: seq<Rec>, i: nat): seq<Call>
      requires i <= |released|
    {
      calls + Unmatched(released[..i])
    }

    static lemma OneMoreCall(now: seq<Call>, calls: seq<Call>, released: seq<Rec>, i: nat)
      requires i < |released| && now == CallsWith(calls, released, i)
      ensures now + [Call(released[i], None)] == CallsWith(calls, released, i + 1)
    {
      UnmatchedSnoc(released[..i], released[i]);
      assert released[..i + 1] == released[..i] + [released[i]];
    }

    static lemma ReleaseCalls(j: Joiner, before: int, released: seq<Rec>)
      requires multiset(released) == multiset(Filter(j.hosts, Before(before)))
      ensures multiset(Unmatched(released)) == multiset(CallsOf(j, Release(before)))
    {
      UnmatchedMultiset(released, Filter(j.hosts, Before(before)));
    }

    static lemma JoinCalls(j: Joiner, r: Rec)
      ensures var t := First(j.targets, IdIs(r.id));
              CallsOf(j, HostArrives(r)) == if t.Some? then [Call(r, t)] else []
      ensures var h := First(j.hosts, IdIs(r.id));
              CallsOf(j, TargetArrives(r)) == if h.Some? then [Call(h.value, Some(r))] else []
    {
    }

    method Released(before: int) returns (released: seq<Rec>)
      requires Parts()
      modifies joiner, joiner.Repr
      ensures Parts() && fresh(joiner.Repr - old(joiner.Repr)) && total.calls == old(total.calls)
      ensures joiner.View() == After(old(joiner.View()), Release(before))
      ensures multiset(released) == multiset(Filter(old(joiner.View()).hosts, Before(before)))
    {
      released := joiner.ReleaseHosts(before);
    }

    method ExpireTargets(before: int)
      requires Parts()
      modifies joiner, joiner.Repr
      ensures Parts() && fresh(joiner.Repr - old(joiner.Repr)) && total.calls == old(total.calls)
      ensures joiner.View() == After(old(joiner.View()), Expire(before))
    {
      var _ := joiner.Expire(before);
    }

    method OnRelease(before: int)
      requires Valid()
      modifies this`ops, joiner, joiner.Repr, total
      ensures Valid() && fresh(joiner.Repr - old(joiner.Repr)) && ops == old(ops) + [Release(before)]
    {
      TickFiled(ops, Release(before), images, header, file, writing);
      ReleaseTick(before);
    }

    method ReleaseTick(before: int)
      requires Running()
      modifies this`ops, joiner, joiner.Repr, total
      ensures Running() && fresh(joiner.Repr - old(joiner.Repr)) && ops == old(ops) + [Release(before)]
    {
      ghost var j, calls := joiner.View(), total.calls;
      ReleaseHosts(before);
      Note(Release(before), j, calls);
    }

    method OnExpire(before: int)
      requires Valid()
      modifies this`ops, joiner, joiner.Repr
      ensures Valid() && fresh(joiner.Repr - old(joiner.Repr)) && ops == old(ops) + [Expire(before)]
    {
      TickFiled(ops, Expire(before), images, header, file, writing);
      ExpireTick(before);
    }

    method ExpireTick(before: int)
      requires Running()
      modifies this`ops, joiner, joiner.Repr
      ensures Running() && fresh(joiner.Repr - old(joiner.Repr)) && ops == old(ops) + [Expire(before)]
    {
      ghost var j, calls := joiner.View(), total.calls;
      ExpireTargets(before);
      Note(Expire(before), j, calls);
    }

    /** The calls an operation makes: those its step appends to a run. */
    static function CallsOf(j: Joiner, op: Op): seq<Call> {
      Step(Run(j, [], [], [], []), op).calls
    }

    static lemma CallsAppended(r: Run, op: Op)
      ensures Step(r, op).calls == r.calls + CallsOf(r.j, op)
      ensures Step(r, op).j == After(r.j, op)
    {
    }

    /** What holds before an operation holds, for the run with it, after. */
    static lemma Advance(ops: seq<Op>, op: Op, j: Joiner, calls: seq<Call>)
      requires j == RunOf(TARGETS_PER_KEY, ops).j
      requires multiset(calls) == multiset(RunOf(TARGETS_PER_KEY, ops).calls)
      ensures After(j, op) == RunOf(TARGETS_PER_KEY, ops + [op]).j
      ensures multiset(calls) + multiset(CallsOf(j, op)) == multiset(RunOf(TARGETS_PER_KEY, ops + [op]).calls)
      ensures |HostsIn(ops + [op])| == |HostsIn(ops)| + if op.Match? || op.HostArrives? then 1 else 0
      ensures |TargetsIn(ops + [op])| == |TargetsIn(ops)| + if op.AddTarget? || op.TargetArrives? then 1 else 0
    {
      RunSnoc(TARGETS_PER_KEY, ops, op);
      CallsAppended(RunOf(TARGETS_PER_KEY, ops), op);
      assert (ops + [op])[..|ops|] == ops;
    }
  }

  /** After the final release the totals hold each host record exactly once, except exactly those evicted (join.c:235). */
  lemma FinalTotals(max: nat, ops: seq<Op>)
    requires forall h :: h in HostsIn(ops) ==> Age(h) < U64_MAX
    ensures var r := RunOf(max, ops + [Release(U64_MAX)]);
            && r.j.hosts == []
            && multiset(HostsIn(ops)) == multiset(HostsOut(r.calls)) + multiset(r.evictedHosts)
            && |HostsIn(ops)| == |r.calls| + |r.evictedHosts|
  {
    var all, r := ops + [Release(U64_MAX)], RunOf(max, ops + [Release(U64_MAX)]);
    ConservedRun(max, all);
    ReleaseTakesNone(ops);
    NoneWaits(max, ops);
    assert |multiset(HostsIn(ops))| == |HostsIn(ops)|;
  }

  lemma ReleaseTakesNone(ops: seq<Op>)
    ensures HostsIn(ops + [Release(U64_MAX)]) == HostsIn(ops)
  {
    assert (ops + [Release(U64_MAX)])[..|ops|] == ops;
  }

  lemma NoneWaits(max: nat, ops: seq<Op>)
    requires forall h :: h in HostsIn(ops) ==> Age(h) < U64_MAX
    ensures RunOf(max, ops + [Release(U64_MAX)]).j.hosts == []
  {
    RunSnoc(max, ops, Release(U64_MAX));
    var j := RunOf(max, ops).j;
    forall h | h in j.hosts ensures Age(h) < U64_MAX {
      WaitersCameIn(max, ops, h);
    }
    FilterNone(j.hosts, Not(Before(U64_MAX)));
  }

  /**
   The report of a recording in which no identity was spoiled equals the report made offline from the same records:
   in every group each counter is the same, and so is every component's, stage's and queue's summary.
   */
  lemma SameReport(max: nat, ops: seq<Op>, grp: Grouping, k: GroupKey, m: Metric)
    requires forall i :: 0 <= i < |ops| ==> ops[i].Recording()
    requires forall c :: FateOf(max, ops, c) != Spoiled
    requires forall h :: h in HostsIn(ops) ==> Age(h) < U64_MAX
    ensures var online, offline := RunOf(max, ops + [Release(U64_MAX)]).calls,
                                   OfflineRun(TargetsIn(ops), HostsIn(ops)).calls;
            && Count(grp, k, online, m) == Count(grp, k, offline, m)
            && StatOf(Samples(grp, k, online, m)) == StatOf(Samples(grp, k, offline, m))
  {
    SameCallsUnlessSpoiled(max, ops);
    ReportOfMultiset(grp, k, RunOf(max, ops + [Release(U64_MAX)]).calls,
                     OfflineRun(TargetsIn(ops), HostsIn(ops)).calls, m);
  }
}
