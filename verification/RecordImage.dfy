/**
 A record as the kernel lays it out: the fields of struct ntp_host_rec and struct ntp_tgt_rec (bpf/ntprof.h) one after
 the other. Reading such an image gives the record back, so RecordLayout takes every field from its own place.
 */
module RecordImage {
  import opened Records
  import opened TraceFile
  import opened RecordLayout

  const DISK_NAME := 32  // NTP_DISK_NAME_LEN

  /** The n bytes of a little-endian number. */
  function Le(v: nat, n: nat): (b: seq<byte>)
    ensures |b| == n
  {
    if n == 0 then [] else [v % 256] + Le(v / 256, n - 1)
  }

  lemma {:induction false} LeIs(v: nat, n: nat)
    requires v < Pow256(n)
    ensures Value(Le(v, n)) == v
  {
    if n > 0 { LeIs(v / 256, n - 1); }
  }

  lemma LeWidths()
    ensures Pow256(1) == 0x100 && Pow256(2) == 0x1_0000 && Pow256(4) == 0x1_0000_0000
    ensures Pow256(8) == 0x1_0000_0000_0000_0000
  {
    WidthsAre();
    assert Pow256(1) == 256 * Pow256(0);
    assert Pow256(4) == 256 * (256 * Pow256(2));
  }

  // ---- the parts ----

  function BitOf(flags: set<Flag>, f: Flag, at: nat): nat {
    if f in flags then at else 0
  }

  function FlagBits(flags: set<Flag>): nat {
    BitOf(flags, Write, 1) + BitOf(flags, InlineData, 2) + BitOf(flags, R2T, 4) + BitOf(flags, DataSuccess, 8) +
    BitOf(flags, MultiR2T, 16) + BitOf(flags, Queues, 32) + BitOf(flags, RdmaRead, 64) + BitOf(flags, Spdk, 128) +
    BitOf(flags, Reused, 256)
  }

  /** The bits of a number, from the last one on. */
  lemma BitsOf(v: nat, b: seq<nat>)
    requires |b| == 9 && forall i :: 0 <= i < 9 ==> b[i] <= 1
    requires v == b[0] + 2 * b[1] + 4 * b[2] + 8 * b[3] + 16 * b[4] + 32 * b[5] + 64 * b[6] + 128 * b[7] + 256 * b[8]
    ensures v % 2 == b[0] && (v / 2) % 2 == b[1] && (v / 4) % 2 == b[2] && (v / 8) % 2 == b[3]
    ensures (v / 16) % 2 == b[4] && (v / 32) % 2 == b[5] && (v / 64) % 2 == b[6] && (v / 128) % 2 == b[7]
    ensures v / 256 == b[8]
  {
    var w := b[4] + 2 * b[5] + 4 * b[6] + 8 * b[7] + 16 * b[8];
    FourBits(v, b[0], b[1], b[2], b[3], w);
    FourBits(w, b[4], b[5], b[6], b[7], b[8]);
    assert v / 32 == w / 2 && v / 64 == w / 4 && v / 128 == w / 8 && v / 256 == w / 16;
  }

  lemma FourBits(v: nat, b0: nat, b1: nat, b2: nat, b3: nat, w: nat)
    requires b0 <= 1 && b1 <= 1 && b2 <= 1 && b3 <= 1 && v == b0 + 2 * b1 + 4 * b2 + 8 * b3 + 16 * w
    ensures v % 2 == b0 && (v / 2) % 2 == b1 && (v / 4) % 2 == b2 && (v / 8) % 2 == b3 && v / 16 == w
  {
    var w3 := b3 + 2 * w;
    var w2 := b2 + 2 * w3;
    var w1 := b1 + 2 * w2;
    Half(v, b0, w1);
    Half(w1, b1, w2);
    Half(w2, b2, w3);
    Half(w3, b3, w);
    Halves(v);
  }

  lemma Half(v: nat, b: nat, w: nat)
    requires b <= 1 && v == b + 2 * w
    ensures v % 2 == b && v / 2 == w
  {
  }

  lemma Halves(v: nat)
    ensures v / 4 == v / 2 / 2 && v / 8 == v / 2 / 2 / 2 && v / 16 == v / 2 / 2 / 2 / 2
  {
  }

  function Digit(flags: set<Flag>, f: Flag): nat {
    if f in flags then 1 else 0
  }

  lemma BitIs(v: nat, at: nat, f: Flag, flags: set<Flag>)
    requires at > 0 && (v / at) % 2 == Digit(flags, f)
    ensures Bit(v, at, f) == flags * {f}
  {
  }

  lemma FlagsBack(flags: set<Flag>)
    ensures FlagBits(flags) < 0x200 && FlagsOf(FlagBits(flags)) == flags
  {
    var v := FlagBits(flags);
    BitsOf(v, [Digit(flags, Write), Digit(flags, InlineData), Digit(flags, R2T), Digit(flags, DataSuccess),
               Digit(flags, MultiR2T), Digit(flags, Queues), Digit(flags, RdmaRead), Digit(flags, Spdk),
               Digit(flags, Reused)]);
    BitIs(v, 1, Write, flags);
    BitIs(v, 2, InlineData, flags);
    BitIs(v, 4, R2T, flags);
    BitIs(v, 8, DataSuccess, flags);
    BitIs(v, 16, MultiR2T, flags);
    BitIs(v, 32, Queues, flags);
    BitIs(v, 64, RdmaRead, flags);
    BitIs(v, 128, Spdk, flags);
    BitIs(v, 256, Reused, flags);
    AllFlags(flags);
  }

  lemma AllFlags(flags: set<Flag>)
    ensures flags == flags * {Write} + flags * {InlineData} + flags * {R2T} + flags * {DataSuccess} +
                     flags * {MultiR2T} + flags * {Queues} + flags * {RdmaRead} + flags * {Spdk} + flags * {Reused}
  {
    forall f | f in flags
      ensures f in {Write, InlineData, R2T, DataSuccess, MultiR2T, Queues, RdmaRead, Spdk, Reused} {
      match f
      case Write => case InlineData => case R2T => case DataSuccess => case MultiR2T =>
      case Queues => case RdmaRead => case Spdk => case Reused =>
    }
  }

  /** struct ntp_rec_hdr */
  function HeaderImage(kind: byte, r: Rec, cpu: nat): (b: seq<byte>)
    ensures |b| == REC_HDR
  {
    [kind, if r.transport == Rdma then 2 else 1] + Le(FlagBits(r.flags), 2) + Le(cpu, 4)
  }

  /** struct ntp_cmd_id */
  function IdImage(id: CmdId): (b: seq<byte>)
    ensures |b| == 24
  {
    Le(id.slba, 8) + Le(id.nsid, 4) + Le(id.cntlid, 2) + Le(id.qid, 2) + Le(id.cid, 2) + Le(id.nlb, 2) +
    Le(id.opcode, 1) + Zeros(3)
  }

  function StampImage(ts: seq<u64>): (b: seq<byte>)
    ensures |b| == 8 * |ts|
  {
    if ts == [] then [] else StampImage(ts[..|ts| - 1]) + Le(ts[|ts| - 1], 8)
  }

  /** A name and the zeros behind it. */
  function NameImage(name: string, n: nat): (b: seq<byte>)
    requires Nameable(name) && |name| <= n
    ensures |b| == n
  {
    if name == "" then Zeros(n) else [name[0] as int] + NameImage(name[1..], n - 1)
  }

  predicate Nameable(name: string) {
    forall i :: 0 <= i < |name| ==> 0 < name[i] as int < 256
  }

  /** The fields fit their widths. */
  predicate Fits(r: Rec) {
    && r.id.nsid < 0x1_0000_0000 && r.id.opcode < 256 && r.bytes < 0x1_0000_0000 && r.skbs < 0x1_0000_0000
    && (r.Host? ==> Nameable(r.disk) && |r.disk| < DISK_NAME)
  }

  /** The CPU and the controller's number are in the struct; no record has them here. */
  function HostTail(r: Rec, instance: nat): (b: seq<byte>)
    requires r.Host? && Fits(r)
    ensures |b| == HOST_TS - 32
  {
    Le(r.bytes, 4) + Le(instance, 4) + Le(r.qFirst, 2) + Le(r.qSecond, 2) + Zeros(4) + NameImage(r.disk, DISK_NAME)
  }

  function TargetTail(r: Rec): (b: seq<byte>)
    ensures |b| == TGT_TS - 32
  {
    Le(r.bytes, 4) + Le(r.qFirst, 2) + Le(r.qSecond, 2)
  }

  function PhaseImage(r: Rec): (b: seq<byte>)
    ensures |b| == 16
  {
    Le(r.busyNs, 8) + Le(r.skbs, 4) + Zeros(4)
  }

  function Encode(r: Rec, cpu: nat, instance: nat): (b: seq<byte>)
    requires Fits(r)
    ensures Image(b)
  {
    if r.Host? then
      HeaderImage(KIND_HOST, r, cpu) + IdImage(r.id) + HostTail(r, instance) + StampImage(r.ts) + PhaseImage(r)
    else
      HeaderImage(KIND_TARGET, r, cpu) + IdImage(r.id) + TargetTail(r) + StampImage(r.ts) + PhaseImage(r)
  }

  // ---- and back ----

  /** The part lies in the image at this offset. */
  ghost predicate Lies(image: seq<byte>, at: nat, part: seq<byte>) {
    at + |part| <= |image| && image[at..at + |part|] == part
  }

  lemma LiesWithin(image: seq<byte>, at: nat, part: seq<byte>, k: nat, inner: seq<byte>)
    requires Lies(image, at, part) && Lies(part, k, inner)
    ensures Lies(image, at + k, inner)
  {
    forall i | 0 <= i < |inner| ensures image[at + k..at + k + |inner|][i] == inner[i] {
      assert inner[i] == part[k..k + |inner|][i] == part[k + i];
      assert part[k + i] == image[at..at + |part|][k + i] == image[at + k + i];
    }
  }

  /** A number in its place is read as what was written. */
  lemma Reads(image: seq<byte>, at: nat, v: nat, n: nat)
    requires Lies(image, at, Le(v, n)) && v < Pow256(n)
    ensures Field(image, at, n) == v
  {
    LeIs(v, n);
  }

  lemma IdParts(id: CmdId)
    ensures var b := IdImage(id);
            && Lies(b, 0, Le(id.slba, 8)) && Lies(b, 8, Le(id.nsid, 4)) && Lies(b, 12, Le(id.cntlid, 2))
            && Lies(b, 14, Le(id.qid, 2)) && Lies(b, 16, Le(id.cid, 2)) && Lies(b, 18, Le(id.nlb, 2))
            && Lies(b, 20, Le(id.opcode, 1))
  {
  }

  lemma IdBack(image: seq<byte>, id: CmdId)
    requires |image| >= TGT_TS && Lies(image, 8, IdImage(id)) && id.nsid < 0x1_0000_0000 && id.opcode < 256
    ensures IdIn(image) == id
  {
    var b := IdImage(id);
    IdParts(id);
    LeWidths();
    LiesWithin(image, 8, b, 0, Le(id.slba, 8)); Reads(image, 8, id.slba, 8);
    LiesWithin(image, 8, b, 8, Le(id.nsid, 4)); Reads(image, 16, id.nsid, 4);
    LiesWithin(image, 8, b, 12, Le(id.cntlid, 2)); Reads(image, 20, id.cntlid, 2);
    LiesWithin(image, 8, b, 14, Le(id.qid, 2)); Reads(image, 22, id.qid, 2);
    LiesWithin(image, 8, b, 16, Le(id.cid, 2)); Reads(image, 24, id.cid, 2);
    LiesWithin(image, 8, b, 18, Le(id.nlb, 2)); Reads(image, 26, id.nlb, 2);
    LiesWithin(image, 8, b, 20, Le(id.opcode, 1)); Reads(image, 28, id.opcode, 1);
  }

  lemma HeaderBack(image: seq<byte>, kind: byte, r: Rec, cpu: nat)
    requires Lies(image, 0, HeaderImage(kind, r, cpu))
    ensures image[0] == kind && TransportOf(image[1]) == r.transport && FlagsOf(U16At(image, 2)) == r.flags
  {
    var b := HeaderImage(kind, r, cpu);
    assert image[0] == image[0..8][0] && image[1] == image[0..8][1];
    assert Lies(b, 2, Le(FlagBits(r.flags), 2));
    LiesWithin(image, 0, b, 2, Le(FlagBits(r.flags), 2));
    LeWidths();
    FlagsBack(r.flags);
    Reads(image, 2, FlagBits(r.flags), 2);
  }

  lemma {:induction false} StampParts(ts: seq<u64>, e: nat)
    requires e < |ts|
    ensures Lies(StampImage(ts), 8 * e, Le(ts[e], 8))
  {
    var n := |ts| - 1;
    var b, before := StampImage(ts), StampImage(ts[..n]);
    if e < n {
      StampParts(ts[..n], e);
      assert b[8 * e..8 * e + 8] == before[8 * e..8 * e + 8];
    }
  }

  lemma StampsBack(image: seq<byte>, at: nat, ts: Stamps)
    requires Lies(image, at, StampImage(ts))
    ensures StampsAt(image, at) == ts
  {
    LeWidths();
    forall e | 0 <= e < EVENTS ensures U64At(image, at + 8 * e) == ts[e] {
      StampParts(ts, e);
      LiesWithin(image, at, StampImage(ts), 8 * e, Le(ts[e], 8));
      Reads(image, at + 8 * e, ts[e], 8);
    }
  }

  lemma {:induction false} NameBack(name: string, n: nat)
    requires Nameable(name) && |name| < n
    ensures CString(NameImage(name, n)) == name
  {
    var b := NameImage(name, n);
    if name != "" {
      NameBack(name[1..], n - 1);
      assert b[1..] == NameImage(name[1..], n - 1);
      assert b[0] as char == name[0];
    }
  }

  lemma PhaseBack(image: seq<byte>, at: nat, r: Rec)
    requires Lies(image, at, PhaseImage(r)) && r.skbs < 0x1_0000_0000
    ensures U64At(image, at) == r.busyNs && Field(image, at + 8, 4) == r.skbs
  {
    var b := PhaseImage(r);
    LeWidths();
    assert Lies(b, 0, Le(r.busyNs, 8)) && Lies(b, 8, Le(r.skbs, 4));
    LiesWithin(image, at, b, 0, Le(r.busyNs, 8)); Reads(image, at, r.busyNs, 8);
    LiesWithin(image, at, b, 8, Le(r.skbs, 4)); Reads(image, at + 8, r.skbs, 4);
  }

  lemma HostTailParts(r: Rec, instance: nat)
    requires r.Host? && Fits(r)
    ensures var b := HostTail(r, instance);
            && Lies(b, 0, Le(r.bytes, 4)) && Lies(b, 8, Le(r.qFirst, 2)) && Lies(b, 10, Le(r.qSecond, 2))
            && Lies(b, 16, NameImage(r.disk, DISK_NAME))
  {
  }

  lemma HostTailBack(image: seq<byte>, r: Rec, instance: nat)
    requires r.Host? && Fits(r) && |image| == HOST_REC && Lies(image, 32, HostTail(r, instance))
    ensures Field(image, 32, 4) == r.bytes && U16At(image, 40) == r.qFirst && U16At(image, 42) == r.qSecond
    ensures CString(image[48..HOST_TS]) == r.disk
  {
    var b := HostTail(r, instance);
    HostTailParts(r, instance);
    LeWidths();
    LiesWithin(image, 32, b, 0, Le(r.bytes, 4)); Reads(image, 32, r.bytes, 4);
    LiesWithin(image, 32, b, 8, Le(r.qFirst, 2)); Reads(image, 40, r.qFirst, 2);
    LiesWithin(image, 32, b, 10, Le(r.qSecond, 2)); Reads(image, 42, r.qSecond, 2);
    LiesWithin(image, 32, b, 16, NameImage(r.disk, DISK_NAME));
    NameBack(r.disk, DISK_NAME);
  }

  lemma TargetTailBack(image: seq<byte>, r: Rec)
    requires Fits(r) && Lies(image, 32, TargetTail(r))
    ensures Field(image, 32, 4) == r.bytes && U16At(image, 36) == r.qFirst && U16At(image, 38) == r.qSecond
  {
    var b := TargetTail(r);
    LeWidths();
    assert Lies(b, 0, Le(r.bytes, 4)) && Lies(b, 4, Le(r.qFirst, 2)) && Lies(b, 6, Le(r.qSecond, 2));
    LiesWithin(image, 32, b, 0, Le(r.bytes, 4)); Reads(image, 32, r.bytes, 4);
    LiesWithin(image, 32, b, 4, Le(r.qFirst, 2)); Reads(image, 36, r.qFirst, 2);
    LiesWithin(image, 32, b, 6, Le(r.qSecond, 2)); Reads(image, 38, r.qSecond, 2);
  }

  lemma FiveParts(a: seq<byte>, b: seq<byte>, c: seq<byte>, d: seq<byte>, e: seq<byte>)
    ensures var all := a + b + c + d + e;
            && Lies(all, 0, a) && Lies(all, |a|, b) && Lies(all, |a| + |b|, c)
            && Lies(all, |a| + |b| + |c|, d) && Lies(all, |a| + |b| + |c| + |d|, e)
  {
  }

  /** The kernel's struct image of a record is read as that record, field by field. */
  lemma DecodeEncode(r: Rec, cpu: nat, instance: nat)
    requires Fits(r)
    ensures Decode(Encode(r, cpu, instance)) == r
  {
    var image := Encode(r, cpu, instance);
    if r.Host? {
      FiveParts(HeaderImage(KIND_HOST, r, cpu), IdImage(r.id), HostTail(r, instance), StampImage(r.ts), PhaseImage(r));
      HeaderBack(image, KIND_HOST, r, cpu);
      IdBack(image, r.id);
      HostTailBack(image, r, instance);
      StampsBack(image, HOST_TS, r.ts);
      PhaseBack(image, 208, r);
    } else {
      FiveParts(HeaderImage(KIND_TARGET, r, cpu), IdImage(r.id), TargetTail(r), StampImage(r.ts), PhaseImage(r));
      HeaderBack(image, KIND_TARGET, r, cpu);
      IdBack(image, r.id);
      TargetTailBack(image, r);
      StampsBack(image, TGT_TS, r.ts);
      PhaseBack(image, 168, r);
    }
  }

  /** Through a file of any version: the record, less what that version did not have. */
  lemma RecordThroughFile(r: Rec, cpu: nat, instance: nat, version: nat)
    requires Fits(r)
    ensures var back := Reread(Encode(r, cpu, instance), version);
            Image(back) && Decode(back) == Older(r, version)
  {
    DecodeEncode(r, cpu, instance);
    DecodeReread(Encode(r, cpu, instance), version);
  }
}
