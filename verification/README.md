# A verified model of ntprof

ntprof samples NVMe-oF commands on the host and on the target, builds one record of timestamps per side in BPF hooks,
joins the two records of a command, splits its latency into components and stages, and reports statistics. This
project models that path in Dafny, from the hook that opens a record to the numbers in the report, and proves what
each part keeps.

`dafny verify dfyconfig.toml` checks everything. One module per file:

| part | modules |
|---|---|
| values shared by all | `Records` |
| waiting records, the joiner's runs | `Waiting`, `JoinSpec`, `OnlineOffline`, `PartialLoss` |
| the hash table and the joiner object | `JoinTable`, `JoinerObject` (Joiner.dfy) |
| a recording, `ntprof report` | `Session`, `OfflineReport` |
| the stage model, exact and in 64-bit arithmetic; the command's path | `StageModel`, `StageCode`, `StagePath` |
| statistics | `Summary`, `Aggregation`, `StatsObject` |
| record files and the structs in them | `TraceFile`, `RecordLayout`, `RecordImage` |
| the sampling hash, the SPDK arrival ring | `SampleHash`, `ArrivalRing` |
| the life of a record in BPF, and what it holds | `TargetSlots`, `TargetHistory`, `TargetObject`, `HostObject`, `HostHistory`, `RdmaResponse` |
| queue occupancy | `Occupancy`, `OccupancyHistory` |
| data phases of TCP writes | `Periods`, `WritePhase`, `WriteHistory`, `WritePhaseCases`, `TargetRxObject` |
| data phases of TCP reads | `ReadPhase`, `ReadHistory`, `ReadPhaseCases`, `HostRxObject` |

Code that updates state in place is a class or a method with loops, proved against a function of the old state (a run,
a step, a breakdown); the whole-run properties are lemmas about that function. What such a run leaves in a record is
stated a second time without it, as a function of the events alone (the `...History` modules), and the two are proved
equal over every run. A host or target record is a `Rec`;
timestamps are numbers below 2^64 and 0 means "not seen", as in the records. Hooks are steps; their environment (which
command an `nvmet_req` carries, what a tracepoint read, the clock) comes in as arguments.

The main results, hardest first:

- **Online equals offline.** Whatever the interleaving of host records, target records and ticks: as long as the
  joiner's counters say that nothing was evicted, expired or released early, the pairs joined while recording are,
  command by command and in order, those of "add all targets, then match the hosts" (`OnlineOffline.SamePairs`), and
  after the final release the statistics received the same calls (`OnlineEqualsOffline`). Losses do not matter to a
  command identity either unless a counterpart came after its loss, or a host record of it was evicted
  (`PartialLoss.SameCallsOf`, `SameCallsUnlessSpoiled`). From bytes to numbers: if no identity was spoiled so, reading
  the file that the session object wrote, decoding its structs, joining and aggregating them gives the groups, counters
  and summaries that the session object reports itself (`OfflineReport.ReportOfFile`, `SessionCalls`).
- **Stamps come from their own command.** `TargetSlots.StampsAreOwn` over all runs. The two guards that decide it are
  exact: a hook must fire while its nvmet_req still carries its command (`OwnIffPunctual`), and a command outside the
  recording must not get an nvmet_req with a record still open (`OwnIffNotStillOpen`). The table with its in-flight
  shortcut refines this (`TargetObject`).
- **Emission on two CPUs** exactly once, complete, and untouched afterwards (`RdmaResponse.EmittedExactlyOnce`).
- **Data phases**, over all threads, CPUs and records. The periods timed for a write are exactly the successful copies of
  its data between its header and its execution, and those of a read exactly the stretches in which receive calls copied
  its data, both as functions of the events, over every run (`WriteHistory.RecordsAreHistory`,
  `ReadHistory.RecordsAreHistory`). In orderly runs they are disjoint and inside the phase, and the wait that the model
  reports is exactly the time between them (`WaitIsBetweenCopies` of both). The hypotheses are about what threads and
  copies do, not about the periods; what the hook would have to check to do without them is exact
  (`InPhaseIffHarmless` of both).
- **Records hold their history.** Over every run, which requests have a record, each of its stamps, and what went to the
  ring buffer in which order are functions of the hooks alone (`TargetHistory.RecordsAreHistory`,
  `HostHistory.RecordsAreHistory`, `RdmaResponse.StampsAreHistory`); so are the commands that a queue counts
  (`OccupancyHistory`).
- **The stage model** is the path of the command: a record is used exactly if every moment on its path was seen
  (`StagePath.UsedIffSeen`), each component is the time on its own legs (`ComponentsArePath`) and each stage that of its
  components (`StagesArePath`). It adds up for every record, joined or not, without overflow, and does not depend on the
  clocks.

Where the code is subtler than it looks:

- A waiting host record evicted at src/join.c:235 counts as unmatched and never reaches the statistics.
  `Session.FinalTotals` has it as an exact term, and the equality of the reports asks that none was.
- `host_entry(0)` matches a free slot, so a cleared cid entry leads a hook to write into a free record
  (bpf/host.bpf.h:131-136, 427). `HostObject.HostBpf.OnStampByCid` follows it and changes no open record.
- A read displaced within one receive call and resumed after the other read's completion counts from the call's entry
  (bpf/nvme_tcp_host.bpf.c:377-389), so that its busy time can exceed its span: `ReadPhaseCases.DisplacedReadRestarts`,
  and exactly when: `ReadPhaseCases.ResumeIff`. The cap in `data_phase` then still keeps the wait at or above 0
  (`StageModel.DataPhase`).
- A thread that migrates loses the event "rather than misattributed" (bpf/common.bpf.h:100-108) unless it comes back to
  a CPU where an earlier copy or call of its own was left unfinished: the tag still matches, and the old start is taken.
  `WritePhaseCases.MigratedBackOverlaps` and `ReadPhaseCases.MigratedBackOverlaps` are such runs; while threads stay on
  their CPU during a copy or call it cannot happen (`StayingIsEnough` of both phases).
- A write's first data header parsed inside a timed copy is harmless exactly if that copy starts inside an skb
  (`WritePhase.HeaderInsideCopy`).
- `nvmet_req_init` returns before it ends a record still open under its key when the recording is not armed, or for
  a command on the admin queue or of another transport; the next stamp is then another command's:
  `TargetSlots.DisarmedMisattributes`.
- On RDMA the posting of a response can return after the nvmet_req has been given to the next command, whose record then
  gets the first one's RSP_SENT: `TargetSlots.LatePostingMisattributes`. src/model.c:304-307 drops such a posting when
  it lies behind the record's own send completion.
- A file cut inside a record's first 8 bytes reads as a clean end, behind them as an error (src/trace_file.c:101-122);
  `TraceFile.CutFile` states both.
- Without a valid START the five stages add up to the end-to-end time minus the block layer's completion part, because
  stage S1 needs both its components (`StageModel.StagesAddUp`).
- A request dispatched again while still counted gets 0 as both its queue numbers (`Occupancy.QueueCounts.OnDispatch`).

## Model

| member | source | states |
|---|---|---|
| OnlineOffline.SamePairs | src/offline.c:45-67 | for every interleaving of arrivals and ticks that lost nothing, the pairs joined online equal those joined offline, per identity and in order: the i-th host with the i-th target |
| OnlineOffline.OnlineInOrder | src/join.c:218-264 | the invariant behind it, over every recording that lost nothing: what was joined, what waits on which side, per identity, as a function of what arrived |
| OnlineOffline.QuietTick | src/record.c:315-318 | a release or expiry after which the counters still show nothing lost has changed nothing |
| OnlineOffline.ReleasedAll | src/record.c:358 | after the final release the online run meets the offline specification, unmatched hosts included |
| OnlineOffline.OnlineEqualsOffline | src/record.c:81-98 | if the joiner's counters show nothing evicted, expired or released early, the multiset of calls to the statistics equals the offline one |
| OnlineOffline.NoneLost | src/join.c:202-264 | counters of 0 imply that no record was evicted on either side |
| OnlineOffline.OfflineInOrder | src/join.c:202-216 | the same specification for add-all-then-match, with the unmatched hosts reported |
| OnlineOffline.WaitersCameIn | src/join.c:229-237 | a waiting host record is one that arrived |
| PartialLoss.MetThroughout | src/join.c:218-264 | over every recording, whatever was lost, what is known of each identity that no counterpart reached too late: its pairs, its unmatched calls and what still waits |
| PartialLoss.SameCallsOf | src/join.c:218-264 | an identity that was not spoiled gets the same calls online and offline, its pairs in the same order |
| PartialLoss.SameCallsUnlessSpoiled | src/record.c:81-98 | if no identity was spoiled, the statistics get the same calls, whatever was evicted, expired or released early |
| PartialLoss.NothingLostIsWhole | src/join.c:202-264 | counters of 0 imply that no identity was even touched |
| PartialLoss.SpoiledDiffers | src/join.c:250-257 | a host record released before its target record comes: the two ways of joining differ |
| JoinSpec.Conservation | src/join.c:202-264 | over every run: added = matched + evicted + expired + pending, hosts = matched + unmatched + waiting, and as multisets each record is in exactly one place |
| JoinSpec.NeverBothWait | src/join.c:218-237 | in every run without add_target no identity waits as a host and as a target |
| JoinSpec.BoundedPerKey | src/join.c:93-123 | in every run no key holds more than max_per_key records on either side |
| JoinSpec.ReleaseTakesTheOlder | src/join.c:239-257 | in every run a release takes a waiting host exactly if its BLK_DONE is before the limit, and makes its call without a target |
| JoinSpec.ExpiryTakesTheOlder | src/join.c:259-264 | in every run an expiry takes a waiting target exactly if its CMD_ARR is before the limit |
| Waiting.KeyAndCommandIdentify | src/join.c:38-45 | key_of and same_command together decide equality of identities: a bucket match is an identity match |
| JoinTable.Table.constructor | src/join.c:47-55 | an empty table represents the empty sequence |
| JoinTable.Table.Lookup | src/join.c:80-90 | finds the key's bucket in its chain exactly if there is one, else the chain's end |
| JoinTable.Table.Push | src/join.c:92-123 | appends to the represented sequence, dropping the key's oldest record exactly if its bucket is full; keeps the table's invariant (unique keys, right chains, no empty bucket, len <= cap, len <= max, pending) |
| JoinTable.Table.MakeRoom | src/join.c:106-119 | evicts the oldest of a full bucket, else doubles the storage of a bucket that has filled it, up to the bound |
| JoinTable.Table.FindCommand | src/join.c:130-131 | the loop finds the first record of the command, or none |
| JoinTable.Table.Take | src/join.c:125-142 | returns and removes the oldest record of that identity over the whole table; the rest keeps its order |
| JoinTable.Table.SweepBucket | src/join.c:152-177 | one bucket loses exactly its aged records, which fire in order, and leaves its chain exactly if none is left |
| JoinTable.Table.Expire | src/join.c:144-180 | removes exactly the older records and keeps the order of the rest; the callbacks are exactly those records, per key in order |
| JoinTable.Bucket.Append | src/join.c:120-121 | the array holds one record more at the end |
| JoinTable.Bucket.RemoveAt | src/join.c:107-108 | after the move within the array it holds the others in order |
| JoinTable.Bucket.Grow | src/join.c:111-119 | the larger array holds the same records |
| JoinTable.Bucket.Compact | src/join.c:156-170 | in the same array the kept records are at the front in order; the aged ones went to the callback in order |
| JoinerObject.NtpJoiner.constructor | src/join.c:182-193 | a new joiner waits for nothing and has counted nothing |
| JoinerObject.NtpJoiner.AddTarget | src/join.c:202-206 | the object refines the run step, counters included |
| JoinerObject.NtpJoiner.Match | src/join.c:208-216 | returns the oldest target of the command; refines the run step |
| JoinerObject.NtpJoiner.TargetArrives | src/join.c:218-227 | returns the oldest waiting host of the command, else the target waits; refines the run step |
| JoinerObject.NtpJoiner.HostArrives | src/join.c:229-237 | returns the oldest waiting target of the command, else the host waits, and an evicted one counts as unmatched |
| JoinerObject.NtpJoiner.ReleaseHosts | src/join.c:239-257 | releases exactly the hosts that completed before, per key in order; refines the run step |
| JoinerObject.NtpJoiner.Expire | src/join.c:259-264 | drops exactly the older targets and returns their number |
| JoinerObject.NtpJoiner.Waiting | src/join.c:266-270 | the table's counters equal the numbers of waiting records |
| Session.RecordSession.constructor | src/record.c:61-69 | a new session: nothing joined, nothing counted, the file holds its header |
| Session.RecordSession.OnRecord | src/record.c:81-105 | a struct of known kind and size is joined, counted and appended to the file; anything else counts as malformed and changes nothing; the session stays where the run of its operations is, and its file holds the structs that arrived |
| Session.RecordSession.OnHost | src/record.c:86-92 | the branch for a host record keeps joiner, counters and calls where the run is |
| Session.RecordSession.OnTarget | src/record.c:93-98 | the branch for a target record keeps joiner, counters and calls where the run is |
| Session.RecordSession.OnRelease | src/record.c:316-316 | released hosts reach the statistics as unmatched, each once |
| Session.RecordSession.OnExpire | src/record.c:317-317 | expiry changes the joiner only |
| Session.FinalTotals | src/record.c:358 | after the final release the totals hold each host record exactly once, minus exactly those evicted, for BLK_DONE below 2^64-1 |
| Session.SameReport | src/record.c:71-105 | if no identity was spoiled, in every group each counter and summary of the recording equals the offline one |
| OfflineReport.Load | src/offline.c:22-43 | host records go to the array in order, target records into the joiner |
| OfflineReport.MatchAll | src/offline.c:60-66 | the matching loop makes exactly the offline run's calls, in order |
| OfflineReport.ReadRun | src/offline.c:51-59 | the records of all files in order, or a failure exactly if one of them cannot be read |
| OfflineReport.LoadRun | src/offline.c:45-67 | from the files' bytes: fails exactly if one cannot be read, else the statistics are those of the offline run over their records |
| OfflineReport.FileOfSession | src/record.c:103-103 | the file of a session can be read and holds the records that arrived, in order |
| OfflineReport.SessionCalls | src/record.c:81-105 | for a session in which no identity was spoiled before the final release, the calls made from its file are the calls it made |
| OfflineReport.ReportOfFile | src/offline.c:45-67 | loading the file that such a session wrote gives statistics with the same groups, and in each the same counters and summaries, as the session's own |
| StageModel.DataPhase | src/model.c:158-175 | when there is a data phase, and that busy and wait are never negative and add up to its span |
| StageModel.Additive | src/model.c:379-418 | for every host record, any or no target record: the main components sum to E2E exactly; error codes, joined and validity agree |
| StageModel.StagesAddUp | src/model.c:346-377 | joined, the five stages sum to E2E, less the block layer's completion exactly if START is not valid |
| StageModel.UnusableTargetFallsBack | src/model.c:400-416 | an unusable target record gives exactly the host-only breakdown |
| StageModel.ClockIndependent | src/model.c:118-418 | shifting all set host stamps by one offset and all set target stamps by another changes nothing in the breakdown |
| StagePath.ComponentsArePath | src/model.c:209-344 | for every complete host record, any or no target record: each main component is valid exactly if it has a leg on the command's path, and is the time on its legs; E2E is the whole path |
| StagePath.WalksThePath | src/model.c:209-344 | all main components at once, for every class and transport, joined or not |
| StagePath.StagesArePath | src/model.c:346-377 | each stage is the time on the legs of its components; when it is valid |
| StagePath.BackendIsPath | src/model.c:139-156 | the three backend details are the legs between EXEC and COMPLETE, valid together exactly if the drive's events were seen in time, and make up TGT_BE |
| StagePath.IpiIsPath | src/model.c:123-136 | CMPL_IPI is the time from RSP_PROC to NVME_DONE, where that was seen |
| StagePath.NetDataIsTransfer | src/model.c:296-344 | NET_DATA is a read's time from posting to send completion or a write's fetch, over RDMA with a used target record only |
| StagePath.CompleteIffSeen | src/model.c:67-111 | a host record is complete exactly if every moment on its own path was seen |
| StagePath.UsedIffSeen | src/model.c:379-418 | a target record is used exactly if it is of the host's kind and every moment on the path through it was seen; over RDMA the posting may be missing if the completion was seen |
| StageCode.Sub64 | src/model.c:118-121 | the wrapping subtraction is the exact difference for stamps below 2^59 |
| StageCode.NtpBreakdown.CommonHost | src/model.c:123-136 | the in-place update computes the exact components |
| StageCode.NtpBreakdown.DataPhase | src/model.c:158-175 | the code's data phase is the specified one, within range |
| StageCode.NtpBreakdown.HostSide | src/model.c:209-238 | the host's components for every class, also RDMA's |
| StageCode.NtpBreakdown.TargetSide | src/model.c:241-273 | the split of the remote time for every TCP class, no sum overflows |
| StageCode.NtpBreakdown.RdmaTargetSide | src/model.c:296-343 | used exactly if usable; the split, the class change and the estimate flag, no sum overflows |
| StageCode.NtpBreakdown.StageOf | src/model.c:346-358 | a stage is valid exactly if all parts are, and is their sum plus the valid extras, without overflow |
| StageCode.NtpBreakdown.StageSums | src/model.c:360-377 | the five stages from their tables of parts |
| StageCode.NtpBreakdown.Compute | src/model.c:379-418 | for all records with stamps below 2^59 every value and intermediate sum fits int64 and the result is the exact breakdown |
| ArrivalRing.TenHalvingsClose | bpf/spdk.bpf.h:194-214 | ten halvings close the interval for every ring content and every x |
| ArrivalRing.SearchIsScan | bpf/spdk.bpf.h:194-214 | ten (or more) halvings give what a linear scan from the newest entry gives |
| ArrivalRing.NineHalvingsMiss | bpf/spdk.bpf.h:194-214 | with nine there is a ring and an x for which the answer is wrong |
| ArrivalRing.SpdkRing.Own | bpf/spdk.bpf.h:159-169 | a ring taken over from another thread starts empty, one's own keeps its entries |
| ArrivalRing.SpdkRing.Add | bpf/spdk.bpf.h:171-180 | appends to the log; the wrapped arrays hold its last 512 entries |
| ArrivalRing.SpdkRing.Find | bpf/spdk.bpf.h:182-214 | the unrolled search over the wrapped arrays returns the latest retained entry at or before x, or 0 |
| SampleHash.Bijective | bpf/ntprof.h:214-220 | the finaliser has a two-sided inverse on 64-bit words |
| SampleHash.NoCollision | bpf/ntprof.h:212-221 | for fixed cid and nlb two commands hash alike exactly if their slba is the same |
| SampleHash.CidAndLengthCount | bpf/ntprof.h:212-221 | for the same slba, two commands hash alike exactly if cid and nlb are the same |
| SampleHash.Hash | bpf/ntprof.h:212-221 | the hash is a 64-bit word |
| TraceFile.ReadFile | src/trace_file.c:64-135 | the read loop with its reused, zero-filled buffer delivers what the format says, for every byte sequence and callback |
| TraceFile.ReadOne | src/trace_file.c:101-122 | one record: clean end, error, or the record with later fields zero |
| TraceFile.RoundTrip | src/trace_file.c:49-53 | what a writer of version 2 to 5 wrote comes back in order, with the fields that version had |
| TraceFile.CutFile | src/trace_file.c:101-122 | a file cut inside a record yields exactly the complete ones before it, and an error exactly if the cut is behind the record header |
| TraceFile.FieldKeptOrZero | src/trace_file.c:104-122 | a field that the version had keeps its value, a later one reads as 0 |
| TraceFile.AddedLater | bpf/ntprof.h:61-87 | which timestamps of which version come back and which are 0 |
| TraceFile.CurrentIsExact | src/trace_file.c:49-53 | the current version loses nothing |
| RecordLayout.Decode | bpf/ntprof.h:25-28 | the record in a struct image is of the kind that the image's first byte says |
| RecordLayout.DecodeReread | bpf/ntprof.h:61-87 | a record read back from a file of any version is the one written, less exactly the events and times that version did not have |
| RecordLayout.FileOfRecords | src/trace_file.c:64-135 | the same for whole files of versions 2 to 5: every record in its place |
| RecordImage.DecodeEncode | bpf/ntprof.h:90-156 | the struct laid out field after field is read as the record it was made of, for every record whose fields fit |
| RecordImage.RecordThroughFile | src/trace_file.c:64-135 | the same through a file of any version, less exactly what that version did not have |
| Summary.SummaryOrdered | src/stats.c:27-49 | min <= p10 <= ... <= p99.9 <= max, min and max are the extreme samples |
| Summary.QuantileBetween | src/stats.c:39-48 | a quantile lies between its two closest ranks after rounding |
| Summary.QuantileInterpolates | src/stats.c:27-49 | the quantile is the linear interpolation at its position between the closest ranks, rounded half up |
| Summary.SharesOfSummary | src/stats.c:9-49 | p10 to p99.9 split the samples, in whatever order, into the shares that their names say |
| Summary.QuantilesAscend | src/stats.c:39-48 | a higher quantile is never below a lower one |
| Summary.SummaryOfMultiset | src/stats.c:27-49 | the summary depends on the multiset of the samples only |
| Summary.I64Vec.Push | src/util.c:143-149 | a push adds one sample, also after the vector was sorted |
| Summary.SortAndSummarize | src/stats.c:27-49 | the sorted vector has the same samples, and the summary is theirs |
| Summary.I64Vec.Summarize | src/stats.c:27-49 | sorting keeps the multiset; the result is the summary of everything pushed, across alternating pushes and summaries |
| Aggregation.GroupCounts | src/stats.c:151-186 | per group over any calls: E2E samples = records - bad_host, S3_S5 samples = joined, REMOTE samples = records - bad_host - joined |
| Aggregation.GroupTotals | src/stats.c:151-186 | per group the summed totals of the main components equal the summed E2E total |
| Aggregation.ReportOfMultiset | src/stats.c:151-186 | counters and summaries do not depend on the order of the calls |
| Aggregation.SameGroupIff | src/stats.c:130-149 | two host records share a group exactly if they agree on what the grouping asks for |
| Aggregation.PathsAreOneSession | src/stats.c:51-69 | the paths of a namespace through any controller are one session |
| Aggregation.QueueSamplesNest | src/stats.c:151-186 | in every group the queue numbers are paired per record, unsent with in flight and queued responses with outstanding commands, so that they nest as the records' do |
| StatsObject.NtpStats.GroupFor | src/stats.c:130-149 | finds or appends the record's group; keys stay unique |
| StatsObject.NtpStats.Add | src/stats.c:151-186 | every group holds exactly the samples and counts of its calls, none is empty, and the records over all groups are the calls made |
| StatsObject.NtpStats.AddComputed | src/stats.c:151-186 | the same through the code's own 64-bit breakdown, for stamps below 2^59 |
| StatsObject.NtpStats.Summarize | src/stats.c:27-49 | the summary of a group's vector is that of the samples of its calls, and sorting it leaves the statistics valid for further calls |
| StatsObject.SameCallsSameNumbers | src/stats.c:130-186 | the same calls in any order give the same groups, counters and summaries |
| TargetSlots.OwnIffPunctual | bpf/target.bpf.h:115-126 | a hook that stamps or emits leaves every record with its own command's stamps exactly if it fires while its nvmet_req carries its command, or writes nothing that is kept |
| TargetSlots.OwnIffNotStillOpen | bpf/target.bpf.h:183-228 | nvmet_req_init leaves the next stamp in its own command's record, whatever event and time, exactly if it does not give a still recorded nvmet_req to a command outside the recording |
| TargetSlots.BenignKeeps | bpf/target.bpf.h:183-261 | such hooks keep the invariant: own stamps, open records = SAMPLED - EMITTED - RB_DROPS - STALE, every record in its slot |
| TargetSlots.StampsAreOwn | bpf/target.bpf.h:183-275 | over every run of such hooks, with reuse, missed final events, collisions and unsampled commands, emitted records included |
| TargetSlots.StampsAreOwnWhileArmed | bpf/target.bpf.h:183-261 | in particular while armed, with admin and other transports' commands among them, if no nvmet_req changes sides and every hook is punctual |
| TargetSlots.DisarmedMisattributes | bpf/target.bpf.h:193-196 | a run in which a record gets another command's stamp after disarming |
| TargetSlots.LatePostingMisattributes | bpf/nvme_rdma_target.bpf.c:159-174 | a run in which a posting that returns late stamps the next command's record |
| TargetHistory.RecordsAreHistory | bpf/target.bpf.h:183-355 | over every run of benign hooks: which nvmet_req has a record, its id and write flag, CMD_ARR, CMD_PROC and every later stamp (the first time for a once event, else the last), and the emitted records in order, as functions of the hooks |
| TargetObject.TargetBpf.OnStamp | bpf/target.bpf.h:115-126 | with the in-flight shortcut the hook behaves as without it; ntp_inflight equals the occupied slots |
| TargetObject.TargetBpf.OnReqInit | bpf/target.bpf.h:183-261 | the slot table, its counters and its shortcut refine the step |
| TargetObject.TargetBpf.EmitReused | bpf/target.bpf.h:221-228 | a record still open under the key is flagged and emitted first, and none is open afterwards |
| TargetObject.TargetBpf.Emit | bpf/target.bpf.h:339-350 | the record is sent or counted as dropped, its slot freed and ntp_inflight decremented, exactly if the key has one |
| TargetObject.TargetBpf.OnFinish | bpf/target.bpf.h:352-355 | stamp and emit refine the step |
| HostObject.HostBalance | bpf/host.bpf.h:325-361 | over every run: open records = SAMPLED - EMITTED - RB_DROPS - STALE, each in its request's slot |
| HostHistory.RecordsAreHistory | bpf/host.bpf.h:131-431 | over every run: which request has a record, which request a queue and a cid mean, every stamp of every record, and the emitted records in order with BLK_DONE and the inline-data flag, as functions of the hooks |
| HostObject.HostBpf.OnStamp | bpf/host.bpf.h:131-142 | with the in-flight shortcut as without it |
| HostObject.HostBpf.OnStampByCid | bpf/host.bpf.h:144-153 | a hook that knows queue and cid stamps the request last set up under them; a cleared entry changes no open record |
| HostObject.HostBpf.OnSetup | bpf/host.bpf.h:325-361 | takes the slot and the index entry; STALE or ntp_inflight moves, never both |
| HostObject.HostBpf.OnBlkDone | bpf/host.bpf.h:402-431 | emits or drops the record once, clears its own index entry only, frees the slot |
| RdmaResponse.RunKeeps | bpf/nvme_rdma_target.bpf.c:147-190 | the invariant of the two ends over every interleaving of their memory accesses |
| RdmaResponse.EmittedExactlyOnce | bpf/nvme_rdma_target.bpf.c:147-190 | every interleaving hands the record over at most once, only with RSP_SENT and SEND_DONE (for a read C2H_SENT) stamped, never writes afterwards, and has emitted it or counted it as dropped exactly once when both ends are through |
| RdmaResponse.StampsAreHistory | bpf/nvme_rdma_target.bpf.c:159-190 | every interleaving: C2H_SENT, RSP_SENT and SEND_DONE, in the slot and in what was emitted, are the times that their own ends read |
| RdmaResponse.PostAdvances | bpf/nvme_rdma_target.bpf.c:159-174 | the posting end never waits for the other |
| RdmaResponse.SendAdvances | bpf/nvme_rdma_target.bpf.c:176-190 | nor does the completion |
| Occupancy.InnerWithinOuter | bpf/host.bpf.h:167-182 | in every run unsent commands are in flight, and queued responses outstanding |
| Occupancy.QueueCounts.NumbersNest | bpf/target.bpf.h:141-167 | in every state of the counters: never negative, unsent <= inflight, resp_queue <= outstanding |
| Occupancy.CountsDiffer | bpf/target.bpf.h:141-167 | one command's change of flags changes each queue's numbers by exactly those flags |
| OccupancyHistory.HostCountsHistory | bpf/host.bpf.h:167-182 | over every run a request is counted in flight exactly if it was dispatched and has not completed since, and unsent exactly if it was not sent since either |
| OccupancyHistory.TargetCountsHistory | bpf/target.bpf.h:141-167 | over every run a command is counted outstanding exactly if it is the last that arrived on its nvmet_req and is not answered, and its response queued exactly if it was responded to since |
| Occupancy.QueueCounts.OnArrive | bpf/target.bpf.h:198-210 | the counters stay exact over nvmet_req reuse; the record gets the numbers of the other commands, clamped |
| Occupancy.QueueCounts.OnRespond | bpf/target.bpf.h:158-167 | a response is counted once, however often the hook fires |
| Occupancy.QueueCounts.OnAnswered | bpf/target.bpf.h:141-156 | an answered command leaves both counters, once |
| Occupancy.QueueCounts.OnDispatch | bpf/host.bpf.h:228-255 | a re-dispatched command is not counted twice; the snapshot excludes the command itself |
| Occupancy.QueueCounts.OnSent | bpf/host.bpf.h:167-182 | a sent command leaves the unsent counter, once |
| Occupancy.QueueCounts.OnComplete | bpf/host.bpf.h:371-380 | a completed command leaves both counters, once; a repeated completion changes nothing |
| Periods.SpanIs | src/model.c:158-175 | disjoint periods and the gaps between them fill the span exactly |
| Periods.PairwiseApart | bpf/nvme_tcp_target.bpf.c:90-138 | any two timed periods are apart and inside the phase |
| Periods.PhaseOfPeriods | src/model.c:158-175 | for such periods the cap in data_phase never acts and the wait is the sum of the gaps |
| WritePhase.InPhaseIffHarmless | bpf/nvme_tcp_target.bpf.c:90-138 | an event leaves all records in phase exactly if a copy that it counts does not start before the header's parsing or the end of the last copy counted, or counts from the header |
| WritePhase.HeaderInsideCopy | bpf/nvme_tcp_target.bpf.c:244-261 | a first header parsed inside a timed copy is harmless exactly if the copy starts inside an skb |
| WritePhase.OrderlyKeeps | bpf/nvme_tcp_target.bpf.c:57-138 | an event keeps all records in phase, and contexts and history linked, if the end of a copy of a recorded command's data, where a copy of the thread is still running in the CPU's context, is that copy's own, copies of that command's data follow each other and its first header is not inside a copy that begins with an skb; other copies are free |
| WritePhase.StayingIsEnough | bpf/common.bpf.h:100-123 | a thread that ends its copy on the CPU where it began finds its own context or another thread's |
| WritePhase.PeriodsInPhase | bpf/nvme_tcp_target.bpf.c:57-138 | over every run on any threads and CPUs: disjoint periods inside [DATA_PROC, DATA_DONE] |
| WritePhase.WaitIsGaps | src/model.c:195-202 | of the recorded periods: DATA_DONE <= EXEC, h2c_busy_ns within the span, TGT_WAIT exactly the sum of the gaps |
| WriteHistory.EndAddsPeriod | bpf/nvme_tcp_target.bpf.c:124-134 | every end of a copy that counts adds exactly its period to exactly its record; any other end changes no record |
| WriteHistory.RecordsAreHistory | bpf/nvme_tcp_target.bpf.c:57-138 | over every run, orderly or not: each record's stamps, busy time, number of copies and periods are those of the successful timed copies of its command's data between header and execution, as functions of the events |
| WriteHistory.OwnCopyCounts | bpf/nvme_tcp_target.bpf.c:90-138 | in an orderly run a copy that counts began when the thread's own last copy did |
| WriteHistory.WaitIsBetweenCopies | src/model.c:195-202 | in an orderly run TGT_DATA is the time in those copies and TGT_WAIT exactly the time between them, from the header on |
| WritePhaseCases.MigratedBackOverlaps | bpf/common.bpf.h:100-123 | a run in which a thread comes back to a CPU with its old tag and its periods overlap |
| TargetRxObject.TargetRx.constructor | bpf/nvme_tcp_target.bpf.c:43-50 | empty contexts and an empty table are the start of a run |
| TargetRxObject.TargetRx.OnCopy | bpf/nvme_tcp_target.bpf.c:57-68 | on the CPU's context, with ntp_inflight's shortcut, the hook does the event |
| TargetRxObject.TargetRx.OnCopyDone | bpf/nvme_tcp_target.bpf.c:90-138 | on context and slot table the hook does the event |
| TargetRxObject.TargetRx.OnH2c | bpf/nvme_tcp_target.bpf.c:244-261 | the first header after the R2T sets flag and DATA_PROC of the record in its slot |
| TargetRxObject.TargetRx.OnExec | bpf/target.bpf.h:265-275 | EXEC is stamped once |
| TargetRxObject.TargetRx.OnR2tSent | bpf/nvme_tcp_target.bpf.c:294-296 | R2T_SENT is stamped once |
| TargetRxObject.TargetRx.OnOpen | bpf/target.bpf.h:234-244 | the slot is taken, ntp_inflight stays the number of occupied slots |
| TargetRxObject.TargetRx.OnEmit | bpf/target.bpf.h:339-350 | the slot is freed, ntp_inflight stays the number of occupied slots |
| ReadPhase.InPhaseIffHarmless | bpf/host.bpf.h:203-212 | an event leaves all reads in phase exactly if a period that it ends does not start before the read's first data or the end of its last period |
| ReadPhase.OrderlyKeeps | bpf/nvme_tcp_host.bpf.c:297-393 | an event keeps all reads in phase, and contexts and history linked, if a hook that ends or begins a read's period finds its own call's context, calls with one read's data do not overlap, a read copied in the call is not copied again once the context was cleared, and no request gets a new record while a call names it |
| ReadPhase.ReadsInPhase | bpf/nvme_tcp_host.bpf.c:297-393 | over every run of receive calls on any threads and CPUs that switch between reads: each read's periods are disjoint and inside [C2H_PROC, C2H_DONE] |
| ReadPhase.WaitIsGaps | src/model.c:177-185 | of the recorded periods: c2h_busy_ns within the span; HOST_WAIT exactly the sum of the gaps, or no phase exactly if no time was counted or the data went on after RSP_PROC |
| ReadHistory.CopyDoes | bpf/nvme_tcp_host.bpf.c:346-393 | a copy that turns to other data ends the named read's period: exactly that period is added to exactly that read, and the read turned to gets its first stamp |
| ReadHistory.CompleteDoes | bpf/host.bpf.h:371-390 | a completion ends the period of its own read only, and stamps RSP_PROC |
| ReadHistory.ExitDoes | bpf/nvme_tcp_host.bpf.c:310-321 | the end of a call ends the named read's period, and changes no other read |
| ReadHistory.RecordsAreHistory | bpf/nvme_tcp_host.bpf.c:297-393 | over every run, orderly or not: each read's stamps, busy time, number of periods and the periods themselves are those in which receive calls copied its data (from its first copy, a switch or, resumed, the call's entry, to the switch, completion or exit), as functions of the events |
| ReadHistory.OwnCallCounts | bpf/nvme_tcp_host.bpf.c:310-321 | in an orderly run a period that ends is of the call that the thread is in |
| ReadHistory.WaitIsBetweenCopies | src/model.c:177-185 | in an orderly run HOST_DATA is the time in those periods and HOST_WAIT exactly the time between them, from the first copy on |
| ReadPhase.StayingIsEnough | bpf/common.bpf.h:100-123 | while threads in a receive call stay on their CPU, whatever other threads copy or complete, hooks find their own call's context or none, in every later state too |
| ReadPhaseCases.ResumeIff | bpf/nvme_tcp_host.bpf.c:376-391 | a read that a call resumes with no read named is in phase at its end exactly if it had no data yet or nothing of it lies behind the call's entry |
| ReadPhaseCases.DisplacedReadRestarts | bpf/nvme_tcp_host.bpf.c:371-391 | for any two reads a run in which the displaced one is counted twice |
| ReadPhaseCases.StaleContextIff | bpf/nvme_tcp_host.bpf.c:310-321 | the end of a call under any matching tag is harmless exactly if the named period does not start too early; under its own context always |
| ReadPhaseCases.MigratedBackOverlaps | bpf/common.bpf.h:100-123 | a run in which a thread comes back to a CPU with its old tag and a read's periods overlap |
| HostRxObject.HostRx.constructor | bpf/host.bpf.h:114-123 | empty contexts and tables are the start of a run |
| HostRxObject.HostRx.OnRecvSkb | bpf/nvme_tcp_host.bpf.c:297-307 | with its idle shortcut the hook does the event on the CPU's context |
| HostRxObject.HostRx.DataDone | bpf/host.bpf.h:203-212 | ends the period of the read that the context names, if it still has its record |
| HostRxObject.HostRx.OnCopyData | bpf/nvme_tcp_host.bpf.c:346-393 | shortcut, tag, skb and PDU tests, index lookup with its cleared entries, switch and start of a period: the hook does the event |
| HostRxObject.HostRx.OnHostComplete | bpf/host.bpf.h:371-390 | RSP_PROC is stamped and the named read's period ended |
| HostRxObject.HostRx.OnRecvSkbExit | bpf/nvme_tcp_host.bpf.c:310-321 | the period is ended and the tag cleared, if the tag is the thread's |
| HostRxObject.HostRx.OnSetupCmd | bpf/host.bpf.h:325-361 | slot and index entry are taken, ntp_inflight stays the number of occupied slots |
| HostRxObject.HostRx.OnBlkDone | bpf/host.bpf.h:402-431 | slot freed and its own index entry cleared |

## Left out

- Loading and attaching BPF programs, SPDK process discovery, fork, signals and deadlines: code of the kernel, libbpf and the OS.
- Report and dump formatting, option parsing, configuration files: they compute nothing that the properties speak of.
- The SPDK and RDMA host objects beyond what the shared headers show: field copies and single stamps.
- Failures of BPF map lookups, full maps and allocation failures: assumed not to happen.
- skb timestamp plausibility: arrival times are arguments.
- JoinTable.Table.SweepBucket: a chain is a sequence of buckets, so that relinking is removal from a sequence.
- JoinTable.Table.Expire: as SweepBucket.
- Session.RecordSession.OnRecord: sessions with a joiner, as role "both" has; the statistics of the running interval and failing writes are left out.
- Session.RecordSession.OnHost: the interval statistics, which get the same call, are left out.
- OfflineReport.Load: the records of the files are read before it, not by its callbacks one by one.
- OfflineReport.LoadRun: of the headers only what decides whether a file can be read.
- OfflineReport.ReportOfFile: the command's refusal of files without a host's header, and what it prints.
- StatsObject.NtpStats.Add: first and last timestamps, transport and SPDK marks of a group, which are plain copies; the breakdown is the exact one, AddComputed has the code's.
- Aggregation.PathsAreOneSession: a name is not cut to the length of the key's buffer.
- Means and rates are floating point; sums are exact instead. 64-bit wrap-around of the statistics' counters.
- Summary.Quantile: exact rational arithmetic; the code computes the position and the interpolation in double.
- Summary.SortAndSummarize: as I64Vec.Summarize.
- Summary.I64Vec.Summarize: qsort is a sort function with a proved specification, not the C library's algorithm.
- StageCode.NtpBreakdown.Compute: stamps below 2^59; beyond it the code's differences may wrap.
- ArrivalRing.SpdkRing.Add: entries come with ascending times, as a thread's clock gives them; the search relies on it.
- TraceFile.RoundTrip: for a reader that accepts every record; ReadFile covers one that stops or fails. Opening, writing and closing errors of files are left out.
- TargetSlots.StampsAreOwn: a hook is one step; only the RDMA response pair is split into memory accesses. A record carries the fields that the properties need (no size, no queue numbers).
- TargetHistory.RecordsAreHistory: as StampsAreOwn; the transport is fixed, and runs that are not benign have no such history.
- HostObject.HostBpf.OnSetup: the decision to sample and the fields copied into the record are its argument.
- Occupancy.QueueCounts.OnArrive: counters are unbounded integers; the code's are 32-bit. Host and target use one class, since their bookkeeping differs only in the names.
- TargetRxObject.TargetRx.OnCopyDone: which command's data the queue is receiving, read from kernel structures, is an argument.
- HostRxObject.HostRx.OnCopyData: the PDU's type and cid, read from kernel structures, are arguments; C2H_ARR and C2H_LAST_ARR, which copy the skb's arrival, are left out.
- RdmaResponse.EmittedExactlyOnce: the slot is not taken by another record meanwhile, and each end fires once; what happens otherwise is TargetSlots' subject.
