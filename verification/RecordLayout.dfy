/**
 The bytes of struct ntp_host_rec and struct ntp_tgt_rec (bpf/ntprof.h), read as a record: what the joiner and the
 statistics see of a struct image, and what is left of it when the image went through a file of an older version.
 */
module RecordLayout {
  import opened Records
  import opened TraceFile

  function Pow256(n: nat): nat {
    if n == 0 then 1 else 256 * Pow256(n - 1)
  }

  lemma {:induction false} ValueBelow(b: seq<byte>)
    ensures Value(b) < Pow256(|b|)
  {
    if b != [] { ValueBelow(b[1..]); }
  }

  lemma WidthsAre()
    ensures Pow256(2) == 0x1_0000 && Pow256(8) == 0x1_0000_0000_0000_0000
  {
    assert Pow256(2) == 256 * Pow256(1);
    assert Pow256(4) == 256 * (256 * Pow256(2));
    assert Pow256(8) == 256 * (256 * (256 * (256 * Pow256(4))));
  }

  function Field(image: seq<byte>, at: nat, len: nat): nat
    requires at + len <= |image|
  {
    Value(image[at..at + len])
  }

  function U16At(image: seq<byte>, at: nat): u16
    requires at + 2 <= |image|
  {
    ValueBelow(image[at..at + 2]);
    WidthsAre();
    Field(image, at, 2)
  }

  function U64At(image: seq<byte>, at: nat): u64
    requires at + 8 <= |image|
  {
    ValueBelow(image[at..at + 8]);
    WidthsAre();
    Field(image, at, 8)
  }

  /** struct ntp_cmd_id, which lies behind the record header in both structs. */
  function IdIn(image: seq<byte>): CmdId
    requires |image| >= TGT_TS
  {
    CmdId(U64At(image, 8), Field(image, 16, 4), U16At(image, 20), U16At(image, 22), U16At(image, 24), U16At(image, 26),
          Field(image, 28, 1))
  }

  function Bit(v: nat, at: nat, f: Flag): set<Flag>
    requires at > 0
  {
    if (v / at) % 2 == 1 then {f} else {}
  }

  /** The NTP_F_* bits. */
  function FlagsOf(v: nat): set<Flag> {
    Bit(v, 1, Write) + Bit(v, 2, InlineData) + Bit(v, 4, R2T) + Bit(v, 8, DataSuccess) + Bit(v, 16, MultiR2T) +
    Bit(v, 32, Queues) + Bit(v, 64, RdmaRead) + Bit(v, 128, Spdk) + Bit(v, 256, Reused)
  }

  function StampsAt(image: seq<byte>, at: nat): (ts: Stamps)
    requires at + 8 * EVENTS <= |image|
    ensures forall e :: 0 <= e < EVENTS ==> ts[e] == U64At(image, at + 8 * e)
  {
    seq(EVENTS, e requires 0 <= e < EVENTS => U64At(image, at + 8 * e))
  }

  /** A string that ends at its first 0. */
  function CString(b: seq<byte>): string {
    if b == [] || b[0] == 0 then "" else [b[0] as char] + CString(b[1..])
  }

  function TransportOf(v: nat): Transport {
    if v == 2 then Rdma else Tcp
  }

  function HostIn(image: seq<byte>): Rec
    requires |image| == HOST_REC
  {
    Host(TransportOf(image[1]), FlagsOf(U16At(image, 2)), IdIn(image), Field(image, 32, 4), StampsAt(image, HOST_TS),
         U64At(image, 208), Field(image, 216, 4), U16At(image, 40), U16At(image, 42), CString(image[48..HOST_TS]))
  }

  function TargetIn(image: seq<byte>): Rec
    requires |image| == TGT_REC
  {
    Target(TransportOf(image[1]), FlagsOf(U16At(image, 2)), IdIn(image), Field(image, 32, 4), StampsAt(image, TGT_TS),
           U64At(image, 168), Field(image, 176, 4), U16At(image, 36), U16At(image, 38))
  }

  function Decode(image: seq<byte>): (r: Rec)
    requires Image(image)
    ensures r.Host? <==> image[0] == KIND_HOST
  {
    if image[0] == KIND_HOST then HostIn(image) else TargetIn(image)
  }

  function DecodeAll(images: seq<seq<byte>>): (recs: seq<Rec>)
    requires Images(images)
    ensures |recs| == |images| && forall i :: 0 <= i < |recs| ==> recs[i] == Decode(images[i])
  {
    seq(|images|, i requires 0 <= i < |images| => Decode(images[i]))
  }

  // ---- through a file of an older version ----

  /** The first n stamps; the others not seen. */
  function FirstStamps(ts: Stamps, n: nat): (r: Stamps)
    ensures forall e :: 0 <= e < EVENTS ==> r[e] == if e < n then ts[e] else 0
  {
    seq(EVENTS, e requires 0 <= e < EVENTS => if e < n then ts[e] else 0)
  }

  /** What version `version` had of a record: the later events and the data phases' time came in 3, 4 and 5. */
  function Older(r: Rec, version: nat): Rec {
    if version >= if r.Host? then 4 else 5 then r
    else r.(ts := FirstStamps(r.ts, if r.Host? || version >= 3 then 14 else 13), busyNs := 0, skbs := 0)
  }

  /** A field written by that version is read as it was, a later one as 0. */
  lemma FieldReread(image: seq<byte>, version: nat, at: nat, len: nat)
    requires Image(image) && at + len <= |image|
    requires at + len <= SizeIn(version, image[0]) || at >= SizeIn(version, image[0])
    ensures |Reread(image, version)| == |image|
    ensures Field(Reread(image, version), at, len) ==
            if at + len <= SizeIn(version, image[0]) then Field(image, at, len) else 0
  {
    FieldKeptOrZero(image, version, at, len);
    if at + len > SizeIn(version, image[0]) { assert at >= SizeIn(version, image[0]); }
    else if at >= SizeIn(version, image[0]) { assert len == 0 && image[at..at + len] == []; }
  }

  lemma PrefixReread(image: seq<byte>, version: nat)
    requires Image(image)
    ensures var back := Reread(image, version);
            |back| == |image| && back[0] == image[0] && back[..SizeIn(version, image[0])] == image[..SizeIn(version, image[0])]
  {
  }

  lemma SameSlice(a: seq<byte>, b: seq<byte>, size: nat, at: nat, len: nat)
    requires size <= |a| && size <= |b| && a[..size] == b[..size] && at + len <= size
    ensures a[at..at + len] == b[at..at + len]
  {
    assert a[at..at + len] == a[..size][at..at + len];
    assert b[at..at + len] == b[..size][at..at + len];
  }

  lemma StampsReread(image: seq<byte>, version: nat, at: nat, n: nat)
    requires Image(image) && at + 8 * EVENTS <= |image|
    requires n <= EVENTS && SizeIn(version, image[0]) == if n < EVENTS then at + 8 * n else |image|
    ensures |Reread(image, version)| == |image|
    ensures StampsAt(Reread(image, version), at) == FirstStamps(StampsAt(image, at), n)
  {
    var back := Reread(image, version);
    PrefixReread(image, version);
    forall e | 0 <= e < EVENTS ensures U64At(back, at + 8 * e) == if e < n then U64At(image, at + 8 * e) else 0 {
      FieldReread(image, version, at + 8 * e, 8);
    }
  }

  lemma HeadReread(image: seq<byte>, version: nat)
    requires Image(image)
    ensures var back := Reread(image, version);
            && |back| == |image| && back[1] == image[1] && U16At(back, 2) == U16At(image, 2)
            && IdIn(back) == IdIn(image) && Field(back, 32, 4) == Field(image, 32, 4)
            && U16At(back, 36) == U16At(image, 36) && U16At(back, 38) == U16At(image, 38)
  {
    var back, size := Reread(image, version), SizeIn(version, image[0]);
    PrefixReread(image, version);
    assert back[1] == back[..size][1] == image[..size][1];
    SameSlice(back, image, size, 2, 2);
    SameSlice(back, image, size, 8, 8);
    SameSlice(back, image, size, 16, 4);
    SameSlice(back, image, size, 20, 2);
    SameSlice(back, image, size, 22, 2);
    SameSlice(back, image, size, 24, 2);
    SameSlice(back, image, size, 26, 2);
    SameSlice(back, image, size, 28, 1);
    SameSlice(back, image, size, 32, 4);
    SameSlice(back, image, size, 36, 2);
    SameSlice(back, image, size, 38, 2);
  }

  lemma HostReread(image: seq<byte>, version: nat)
    requires Image(image) && image[0] == KIND_HOST
    ensures |Reread(image, version)| == HOST_REC && HostIn(Reread(image, version)) == Older(HostIn(image), version)
  {
    var back, size := Reread(image, version), SizeIn(version, image[0]);
    HeadReread(image, version);
    PrefixReread(image, version);
    SameSlice(back, image, size, 40, 2);
    SameSlice(back, image, size, 42, 2);
    SameSlice(back, image, size, 48, 32);
    StampsReread(image, version, HOST_TS, if version >= 4 then EVENTS else 14);
    FieldReread(image, version, 208, 8);
    FieldReread(image, version, 216, 4);
    assert version >= 4 ==> FirstStamps(StampsAt(image, HOST_TS), EVENTS) == StampsAt(image, HOST_TS);
  }

  lemma TargetReread(image: seq<byte>, version: nat)
    requires Image(image) && image[0] == KIND_TARGET
    ensures |Reread(image, version)| == TGT_REC && TargetIn(Reread(image, version)) == Older(TargetIn(image), version)
  {
    HeadReread(image, version);
    var n := if version >= 5 then EVENTS else if version >= 3 then 14 else 13;
    StampsReread(image, version, TGT_TS, n);
    FieldReread(image, version, 168, 8);
    FieldReread(image, version, 176, 4);
    assert version >= 5 ==> FirstStamps(StampsAt(image, TGT_TS), EVENTS) == StampsAt(image, TGT_TS);
  }

  /** Read back from a file of any version, a record is the one written, less exactly what that version did not have. */
  lemma DecodeReread(image: seq<byte>, version: nat)
    requires Image(image)
    ensures Image(Reread(image, version)) && Decode(Reread(image, version)) == Older(Decode(image), version)
  {
    PrefixReread(image, version);
    if image[0] == KIND_HOST { HostReread(image, version); } else { TargetReread(image, version); }
  }

  /** A file of any version 2 to 5, as records: each comes back in its place, as that version had it. */
  lemma FileOfRecords(header: seq<byte>, images: seq<seq<byte>>, callback: Callback)
    requires |header| == HEADER && GoodHeader(header) && Images(images) && Accepting(callback)
    ensures var version := VersionOf(header);
            var out := ReadFileSpec(header + WriteRecords(images, version), callback);
            && out.ret == 0 && Images(out.delivered) && |out.delivered| == |images|
            && forall i :: 0 <= i < |images| ==>
                 DecodeAll(out.delivered)[i] == Older(DecodeAll(images)[i], version)
  {
    var version := VersionOf(header);
    RoundTrip(header, images, callback);
    var back := RereadAll(images, version);
    forall i | 0 <= i < |images| ensures Image(back[i]) && Decode(back[i]) == Older(Decode(images[i]), version) {
      DecodeReread(images[i], version);
    }
  }
}
