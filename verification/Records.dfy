/** The records of bpf/ntprof.h: one per side of a sampled command, and what names a command on the wire. */
module Records {

  type u16 = x: int | 0 <= x < 0x1_0000
  type u64 = x: int | 0 <= x < 0x1_0000_0000_0000_0000

  const U64_MAX: u64 := 0xffff_ffff_ffff_ffff

  datatype Option<+T> = None | Some(value: T)

  /** struct ntp_cmd_id, without its padding. */
  datatype CmdId = CmdId(slba: u64, nsid: nat, cntlid: u16, qid: u16, cid: u16, nlb: u16, opcode: nat)

  datatype Transport = Tcp | Rdma

  /** The NTP_F_* bits of a record header. */
  datatype Flag = Write | InlineData | R2T | DataSuccess | MultiR2T | Queues | RdmaRead | Spdk | Reused

  /** Both sides have sixteen events; a stamp of 0 says that the event was not seen. */
  const EVENTS := 16

  type Stamps = s: seq<u64> | |s| == EVENTS witness NO_STAMPS
  const NO_STAMPS: seq<u64> := [0, 0, 0, 0, 0, 0, 0, 0, 0, 0, 0, 0, 0, 0, 0, 0]

  // enum ntp_host_ts
  const H_START := 0
  const H_QUEUE_RQ := 1
  const H_CMD_SENT := 2
  const H_R2T_ARR := 3
  const H_R2T_PROC := 4
  const H_DATA_START := 5
  const H_DATA_SENT := 6
  const H_C2H_ARR := 7
  const H_C2H_PROC := 8
  const H_RSP_ARR := 9
  const H_RSP_PROC := 10
  const H_NVME_DONE := 11
  const H_BLK_DONE := 12
  const H_SEND_DONE := 13
  const H_C2H_LAST_ARR := 14
  const H_C2H_DONE := 15

  // enum ntp_tgt_ts
  const T_CMD_ARR := 0
  const T_CMD_PROC := 1
  const T_R2T_QUEUED := 2
  const T_R2T_SENT := 3
  const T_DATA_ARR := 4
  const T_DATA_PROC := 5
  const T_EXEC := 6
  const T_BE_ISSUE := 7
  const T_BE_DONE := 8
  const T_COMPLETE := 9
  const T_RSP_QUEUED := 10
  const T_C2H_SENT := 11
  const T_RSP_SENT := 12
  const T_SEND_DONE := 13
  const T_DATA_LAST_ARR := 14
  const T_DATA_DONE := 15

  /**
   struct ntp_host_rec and struct ntp_tgt_rec. `busyNs` is c2h_busy_ns or h2c_busy_ns, `skbs` the
   number of periods summed in it; `qFirst`/`qSecond` are q_unsent/q_inflight or
   q_outstanding/q_resp_queue.
   */
  datatype Rec =
    | Host(transport: Transport, flags: set<Flag>, id: CmdId, bytes: nat, ts: Stamps, busyNs: u64, skbs: nat,
           qFirst: u16, qSecond: u16, disk: string)
    | Target(transport: Transport, flags: set<Flag>, id: CmdId, bytes: nat, ts: Stamps, busyNs: u64, skbs: nat,
             qFirst: u16, qSecond: u16)

  /** The stamp that ages a waiting record: BLK_DONE of a host's, CMD_ARR of a target's. */
  function Age(r: Rec): u64 {
    if r.Host? then r.ts[H_BLK_DONE] else r.ts[T_CMD_ARR]
  }
}
