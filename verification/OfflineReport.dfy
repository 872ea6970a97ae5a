/**
 load_run() (src/offline.c): read every file of a run, its targets into the joiner and its hosts into an array, then
 join; and what that makes of the file that a recording wrote.
 */
module OfflineReport {
  import opened Records
  import opened Waiting
  import opened JoinSpec
  import opened OnlineOffline
  import opened PartialLoss
  import opened JoinerObject
  import opened StatsObject
  import opened Aggregation
  import opened Session
  import opened TraceFile
  import opened RecordLayout

  function TargetsOf(recs: seq<Rec>): seq<Rec> {
    if recs == [] then []
    else TargetsOf(recs[..|recs| - 1]) + if recs[|recs| - 1].Target? then [recs[|recs| - 1]] else []
  }

  function HostsOf(recs: seq<Rec>): seq<Rec> {
    if recs == [] then []
    else HostsOf(recs[..|recs| - 1]) + if recs[|recs| - 1].Host? then [recs[|recs| - 1]] else []
  }

  /** The joiner once the first loop has read the first i records. */
  ghost function Loaded(recs: seq<Rec>, i: nat): Joiner
    requires i <= |recs|
  {
    RunOf(0, AddOps(TargetsOf(recs[..i]))).j
  }

  lemma LoadedSnoc(recs: seq<Rec>, i: nat)
    requires i < |recs|
    ensures Loaded(recs, i + 1) ==
            if recs[i].Host? then Loaded(recs, i) else After(Loaded(recs, i), AddTarget(recs[i]))
    ensures HostsOf(recs[..i + 1]) == HostsOf(recs[..i]) + if recs[i].Host? then [recs[i]] else []
  {
    assert recs[..i + 1][..i] == recs[..i];
    var targets, r := TargetsOf(recs[..i]), recs[i];
    if r.Host? {
      assert TargetsOf(recs[..i + 1]) == targets;
    } else {
      assert TargetsOf(recs[..i + 1]) == targets + [r];
      assert (targets + [r])[..|targets|] == targets;
      RunSnoc(0, AddOps(targets), AddTarget(r));
      SameJoiner(RunOf(0, AddOps(targets)), AddTarget(r));
    }
  }

  lemma SameJoiner(r: Run, op: Op)
    ensures Step(r, op).j == After(r.j, op)
  {
  }

  /** One turn of the first loop. */
  method LoadOne(joiner: NtpJoiner, hosts: seq<Rec>, recs: seq<Rec>, i: nat) returns (hosts': seq<Rec>)
    requires joiner.Valid() && i < |recs|
    requires joiner.View() == Loaded(recs, i) && hosts == HostsOf(recs[..i])
    modifies joiner.Repr
    ensures joiner.Valid() && fresh(joiner.Repr - old(joiner.Repr))
    ensures joiner.View() == Loaded(recs, i + 1) && hosts' == HostsOf(recs[..i + 1])
  {
    LoadedSnoc(recs, i);
    hosts' := hosts;
    if recs[i].Host? {
      hosts' := hosts + [recs[i]];
    } else {
      joiner.AddTarget(recs[i]);
    }
  }

  /** The first loop: the joiner ends up as after adding the run's target records in order. */
  method Load(joiner: NtpJoiner, recs: seq<Rec>) returns (hosts: seq<Rec>)
    requires joiner.Valid() && joiner.View() == NewJoiner(0)
    modifies joiner, joiner.Repr
    ensures joiner.Valid() && fresh(joiner.Repr - old(joiner.Repr))
    ensures joiner.View() == Loaded(recs, |recs|)
    ensures hosts == HostsOf(recs)
  {
    hosts := [];
    var i := 0;
    assert recs[..i] == [];
    while i < |recs|
      invariant i <= |recs|
      invariant joiner.Valid() && fresh(joiner.Repr - old(joiner.Repr))
      invariant joiner.View() == Loaded(recs, i)
      invariant hosts == HostsOf(recs[..i])
    {
      hosts := LoadOne(joiner, hosts, recs, i);
      i := i + 1;
    }
    assert recs[..i] == recs;
  }

  /** The run once the second loop has joined the first i hosts. */
  ghost function Offline(targets: seq<Rec>, hosts: seq<Rec>, i: nat): Run
    requires i <= |hosts|
  {
    OfflineRun(targets, hosts[..i])
  }

  lemma MatchSnoc(targets: seq<Rec>, hosts: seq<Rec>, i: nat)
    requires i < |hosts|
    ensures var r := Offline(targets, hosts, i);
            && Offline(targets, hosts, i + 1).j == After(r.j, Match(hosts[i]))
            && Offline(targets, hosts, i + 1).calls ==
               r.calls + [Call(hosts[i], First(r.j.targets, IdIs(hosts[i].id)))]
  {
    assert hosts[..i + 1] == hosts[..i] + [hosts[i]];
    OfflineSnoc(targets, hosts[..i], hosts[i]);
    MatchCalls(Offline(targets, hosts, i), hosts[i]);
  }

  lemma MatchCalls(r: Run, h: Rec)
    ensures Step(r, Match(h)).j == After(r.j, Match(h))
    ensures Step(r, Match(h)).calls == r.calls + [Call(h, First(r.j.targets, IdIs(h.id)))]
  {
  }

  /** One turn of the second loop. */
  method MatchOne(joiner: NtpJoiner, stats: NtpStats, hosts: seq<Rec>, i: nat, ghost targets: seq<Rec>)
    requires joiner.Valid() && stats.Valid() && stats !in joiner.Repr && i < |hosts|
    requires joiner.View() == Offline(targets, hosts, i).j && stats.calls == Offline(targets, hosts, i).calls
    modifies joiner, joiner.Repr, stats
    ensures joiner.Valid() && stats.Valid() && stats !in joiner.Repr && fresh(joiner.Repr - old(joiner.Repr))
    ensures joiner.View() == Offline(targets, hosts, i + 1).j
    ensures stats.calls == Offline(targets, hosts, i + 1).calls
  {
    MatchSnoc(targets, hosts, i);
    var t := joiner.Match(hosts[i]);
    stats.Add(hosts[i], t);
  }

  /** The second loop, over the hosts in the order they were read. */
  method MatchAll(joiner: NtpJoiner, stats: NtpStats, hosts: seq<Rec>, ghost targets: seq<Rec>)
    requires joiner.Valid() && stats.Valid() && stats !in joiner.Repr
    requires joiner.View() == Offline(targets, hosts, 0).j && stats.calls == Offline(targets, hosts, 0).calls
    modifies joiner, joiner.Repr, stats
    ensures stats.Valid() && stats.calls == Offline(targets, hosts, |hosts|).calls
  {
    var i := 0;
    while i < |hosts|
      invariant i <= |hosts|
      invariant joiner.Valid() && stats.Valid() && stats !in joiner.Repr && fresh(joiner.Repr - old(joiner.Repr))
      invariant joiner.View() == Offline(targets, hosts, i).j
      invariant stats.calls == Offline(targets, hosts, i).calls
    {
      MatchOne(joiner, stats, hosts, i, targets);
      i := i + 1;
    }
  }

  lemma LoadedIsOffline(recs: seq<Rec>)
    ensures OfflineRun(TargetsOf(recs), []).j == Loaded(recs, |recs|) && OfflineRun(TargetsOf(recs), []).calls == []
  {
    OfflineLoad(TargetsOf(recs));
    assert recs[..|recs|] == recs;
    assert AddOps(TargetsOf(recs)) + MatchOps([]) == AddOps(TargetsOf(recs));
  }

  // ---- the files ----

  /** on_host() and on_target() never stop the reading. */
  const ACCEPT: Callback := _ => 0

  lemma {:induction false} DeliveredImages(b: seq<byte>, version: nat, before: seq<seq<byte>>, callback: Callback)
    ensures Images(ReadRecords(b, version, before, callback).delivered)
    decreases |b|
  {
    if |b| >= REC_HDR && Known(b[0]) && |b| >= SizeIn(version, b[0]) {
      var size := SizeIn(version, b[0]);
      var rec := Extended(b[..size], b[0]);
      assert rec[0] == b[0] && Image(rec);
      DeliveredImages(b[size..], version, before + [rec], callback);
    }
  }

  lemma DeliversImages(file: seq<byte>)
    ensures Images(ReadFileSpec(file, ACCEPT).delivered)
  {
    if GoodHeader(file) { DeliveredImages(file[HEADER..], VersionOf(file), [], ACCEPT); }
  }

  /** The records in a file. */
  ghost function RecordsIn(file: seq<byte>): seq<Rec> {
    DeliversImages(file);
    DecodeAll(ReadFileSpec(file, ACCEPT).delivered)
  }

  ghost function RecordsOf(files: seq<seq<byte>>): seq<Rec> {
    if files == [] then [] else RecordsOf(files[..|files| - 1]) + RecordsIn(files[|files| - 1])
  }

  ghost predicate Readable(files: seq<seq<byte>>) {
    forall i :: 0 <= i < |files| ==> ReadFileSpec(files[i], ACCEPT).ret == 0
  }

  /** The loop over the files: their records one after the other, or a failure as soon as one cannot be read. */
  method ReadRun(files: seq<seq<byte>>) returns (ok: bool, recs: seq<Rec>)
    ensures ok <==> Readable(files)
    ensures ok ==> recs == RecordsOf(files)
  {
    recs := [];
    for i := 0 to |files|
      invariant Readable(files[..i]) && recs == RecordsOf(files[..i])
    {
      var out := ReadFile(files[i], ACCEPT);
      if out.ret != 0 {
        return false, recs;
      }
      DeliversImages(files[i]);
      recs := recs + DecodeAll(out.delivered);
      assert files[..i + 1][..i] == files[..i];
    }
    assert files[..|files|] == files;
    ok := true;
  }

  /** The calls that `ntprof report` makes of a run's files. */
  ghost function CallsFor(files: seq<seq<byte>>): seq<Call> {
    OfflineRun(TargetsOf(RecordsOf(files)), HostsOf(RecordsOf(files))).calls
  }

  /** load_run(): of files that can be read, the statistics receive exactly the calls of an offline run, in order. */
  method LoadRun(files: seq<seq<byte>>, grouping: Grouping) returns (ok: bool, stats: NtpStats)
    ensures ok <==> Readable(files)
    ensures fresh(stats) && stats.Valid() && stats.grouping == grouping
    ensures stats.calls == if ok then CallsFor(files) else []
  {
    stats := new NtpStats(grouping);
    var recs;
    ok, recs := ReadRun(files);
    if ok {
      JoinRun(recs, stats);
    }
  }

  /** The joiner's part of it. */
  method JoinRun(recs: seq<Rec>, stats: NtpStats)
    requires stats.Valid() && stats.calls == []
    modifies stats
    ensures stats.Valid() && stats.calls == OfflineRun(TargetsOf(recs), HostsOf(recs)).calls
  {
    var joiner := new NtpJoiner(0);
    var hosts := Load(joiner, recs);
    LoadedIsOffline(recs);
    assert hosts[..0] == [] && hosts[..|hosts|] == hosts;
    MatchAll(joiner, stats, hosts, TargetsOf(recs));
  }

  // ---- the file that a recording wrote ----

  lemma {:induction false} SplitArrivals(ops: seq<Op>)
    requires AllRecording(ops)
    ensures TargetsOf(Arrivals(ops)) == TargetsIn(ops) && HostsOf(Arrivals(ops)) == HostsIn(ops)
  {
    if ops != [] {
      var before, op := ops[..|ops| - 1], ops[|ops| - 1];
      SplitArrivals(before);
      if op.Online() {
        var r := if op.HostArrives? then op.h else op.t;
        assert Arrivals(ops) == Arrivals(before) + [r];
        assert Arrivals(ops)[..|Arrivals(before)|] == Arrivals(before);
      } else {
        assert Arrivals(ops) == Arrivals(before);
      }
    }
  }

  lemma NotOlder(recs: seq<Rec>)
    ensures forall i :: 0 <= i < |recs| ==> Older(recs[i], FILE_VERSION) == recs[i]
  {
  }

  /** A session's file can be read, and holds the records that arrived, bit for bit what the joiner was given. */
  lemma FileOfSession(ops: seq<Op>, images: seq<seq<byte>>, header: seq<byte>, file: seq<byte>)
    requires FiledAs(ops, images, header, file, true)
    requires |header| == HEADER && GoodHeader(header) && VersionOf(header) == FILE_VERSION
    ensures Readable([file]) && RecordsOf([file]) == Arrivals(ops)
  {
    FileOfRecords(header, images, ACCEPT);
    NotOlder(DecodeAll(images));
    assert [file][..0] == [];
    assert RecordsOf([file]) == RecordsOf([]) + RecordsIn(file);
    assert RecordsIn(file) == DecodeAll(images);
  }

  /**
   End to end, from bytes to numbers: when a recording has ended in which no command identity was spoiled, by a
   counterpart that came after the loss or by an evicted host record, `ntprof report` over the file that it wrote finds
   the same groups, and in each of them every counter and every summary that the recording reports itself, however host
   and target records and ticks interleaved.
   */
  method ReportOfFile(s: RecordSession, ghost ops: seq<Op>) returns (ok: bool, stats: NtpStats)
    requires s.Valid() && s.writing && s.ops == ops + [Release(U64_MAX)]
    requires |s.header| == HEADER && GoodHeader(s.header) && VersionOf(s.header) == FILE_VERSION
    requires forall c :: FateOf(TARGETS_PER_KEY, ops, c) != Spoiled
    requires forall h :: h in HostsIn(ops) ==> Age(h) < U64_MAX
    ensures ok && stats.Valid()
    ensures SameNumbers(s.total.groups, stats.groups)
  {
    SessionCalls(s.ops, ops, s.images, s.header, s.file);
    ghost var callsA, a := s.total.calls, s.total.groups;
    ok, stats := LoadRun([s.file], s.total.grouping);
    SameCallsSameNumbers(a, stats.groups, stats.grouping, callsA, stats.calls);
  }

  lemma SessionCalls(all: seq<Op>, ops: seq<Op>, images: seq<seq<byte>>, header: seq<byte>, file: seq<byte>)
    requires FiledAs(all, images, header, file, true) && all == ops + [Release(U64_MAX)]
    requires |header| == HEADER && GoodHeader(header) && VersionOf(header) == FILE_VERSION
    requires forall c :: FateOf(TARGETS_PER_KEY, ops, c) != Spoiled
    requires forall h :: h in HostsIn(ops) ==> Age(h) < U64_MAX
    ensures Readable([file])
    ensures multiset(RunOf(TARGETS_PER_KEY, all).calls) == multiset(CallsFor([file]))
  {
    FileOfSession(all, images, header, file);
    SplitArrivals(all);
    assert all[..|ops|] == ops;
    assert HostsIn(all) == HostsIn(ops) && TargetsIn(all) == TargetsIn(ops);
    forall i | 0 <= i < |ops| ensures ops[i].Recording() {
      assert all[i] == ops[i];
    }
    SameCallsUnlessSpoiled(TARGETS_PER_KEY, ops);
  }
}
