/**
 Record files (src/trace_file.c): a header, then the records as the writer's structs lie in memory. Later versions
 appended fields at the end of the structs, so an older record is a prefix of today's and the reader fills the rest
 with zeros. A record is its struct image here; its first byte is the kind.
 */
module TraceFile {

  type byte = x: int | 0 <= x < 256

  const HEADER := 184     // sizeof(struct ntp_file_header)
  const REC_HDR := 8      // sizeof(struct ntp_rec_hdr)
  const HOST_TS := 80     // offsetof(struct ntp_host_rec, ts)
  const TGT_TS := 40      // offsetof(struct ntp_tgt_rec, ts)
  const HOST_REC := 224   // sizeof(struct ntp_host_rec)
  const TGT_REC := 184    // sizeof(struct ntp_tgt_rec)
  const KIND_HOST := 1
  const KIND_TARGET := 2
  const FILE_VERSION := 5
  const MAGIC: seq<byte> := [78, 84, 80, 82, 79, 70, 50, 0]  // "NTPROF2"

  /** Little-endian value of a run of bytes. */
  function Value(b: seq<byte>): nat {
    if b == [] then 0 else b[0] + 256 * Value(b[1..])
  }

  function HostSize(version: nat): nat {
    if version >= 4 then HOST_REC else HOST_TS + 14 * 8
  }

  function TargetSize(version: nat): nat {
    if version >= 5 then TGT_REC else if version >= 3 then TGT_TS + 14 * 8 else TGT_TS + 13 * 8
  }

  predicate Known(kind: byte) {
    kind == KIND_HOST || kind == KIND_TARGET
  }

  /** The struct as this version of the program knows it, and as a file of some version holds it. */
  function FullSize(kind: byte): (n: nat)
    ensures REC_HDR < n <= HOST_REC
  {
    if kind == KIND_HOST then HOST_REC else TGT_REC
  }

  function SizeIn(version: nat, kind: byte): (n: nat)
    ensures REC_HDR < n <= FullSize(kind)
  {
    if kind == KIND_HOST then HostSize(version) else TargetSize(version)
  }

  function Zeros(n: nat): seq<byte> {
    seq(n, _ => 0)
  }

  /** What a reader hands on of a record read as `b`: the struct, the fields the file lacks zero. */
  function Extended(b: seq<byte>, kind: byte): seq<byte>
    requires |b| <= FullSize(kind)
  {
    b + Zeros(FullSize(kind) - |b|)
  }

  // ---- reading ----

  datatype Outcome = Outcome(delivered: seq<seq<byte>>, ret: int)

  /**
   What the reader's callback returns, given everything it has been handed so far, the last record included: so it may
   depend on whatever the callback keeps.
   */
  type Callback = seq<seq<byte>> -> int

  /**
   The records part of a file, read after `before` has been handed on. A non-zero return of the callback stops the
   reading. `delivered` is what is handed on from here.
   */
  function ReadRecords(b: seq<byte>, version: nat, before: seq<seq<byte>>, callback: Callback): Outcome
    decreases |b|
  {
    if |b| < REC_HDR then Outcome([], 0)
    else if !Known(b[0]) then Outcome([], -1)
    else
      var size := SizeIn(version, b[0]);
      if |b| < size then Outcome([], -1)
      else
        var rec := Extended(b[..size], b[0]);
        var r := callback(before + [rec]);
        if r != 0 then Outcome([rec], if r < 0 then -1 else 0)
        else
          var rest := ReadRecords(b[size..], version, before + [rec], callback);
          Outcome([rec] + rest.delivered, rest.ret)
  }

  function Word(b: seq<byte>, at: nat): nat
    requires at + 4 <= |b|
  {
    Value(b[at..at + 4])
  }

  function VersionOf(file: seq<byte>): nat
    requires |file| >= HEADER
  {
    Word(file, 8)
  }

  predicate GoodHeader(file: seq<byte>) {
    && |file| >= HEADER && file[..8] == MAGIC
    && 2 <= VersionOf(file) <= FILE_VERSION
    && Word(file, 12) == HEADER
    && Word(file, 16) == HostSize(VersionOf(file))
    && Word(file, 20) == TargetSize(VersionOf(file))
  }

  function ReadFileSpec(file: seq<byte>, callback: Callback): Outcome {
    if !GoodHeader(file) then Outcome([], -1)
    else ReadRecords(file[HEADER..], VersionOf(file), [], callback)
  }

  /** fread() of one item of `n` bytes into a buffer: nothing useful when fewer are left. */
  method Fread(file: seq<byte>, pos: nat, buf: array<byte>, off: nat, n: nat) returns (ok: bool, next: nat)
    requires pos <= |file| && off + n <= buf.Length
    modifies buf
    ensures pos <= next <= |file|
    ensures ok <==> pos + n <= |file|
    ensures ok ==> next == pos + n && buf[off..off + n] == file[pos..pos + n]
    ensures forall i :: 0 <= i < off ==> buf[i] == old(buf[i])
    ensures ok ==> forall i :: off + n <= i < buf.Length ==> buf[i] == old(buf[i])
  {
    ok := pos + n <= |file|;
    if !ok {
      return ok, |file|;
    }
    for i := 0 to n
      invariant forall k :: off <= k < off + i ==> buf[k] == file[pos + k - off]
      invariant forall k :: 0 <= k < off ==> buf[k] == old(buf[k])
      invariant forall k :: off + n <= k < buf.Length ==> buf[k] == old(buf[k])
    {
      buf[off + i] := file[pos + i];
    }
    next := pos + n;
  }

  /** One record into the reused buffer: the header, the rest zeroed, then what the file has of the body. */
  method ReadOne(file: seq<byte>, pos: nat, version: nat, buf: array<byte>)
    returns (got: bool, err: bool, next: nat)
    requires pos <= |file| && buf.Length == HOST_REC
    modifies buf
    ensures var b := file[pos..];
            if |b| < REC_HDR then !got && !err
            else if !Known(b[0]) || |b| < SizeIn(version, b[0]) then !got && err
            else got && !err && next == pos + SizeIn(version, b[0]) && next <= |file| &&
                 buf[..FullSize(b[0])] == Extended(b[..SizeIn(version, b[0])], b[0])
  {
    ghost var b := file[pos..];
    var ok, p := Fread(file, pos, buf, 0, REC_HDR);
    if !ok {
      return false, false, p;
    }
    assert buf[0] == buf[0..REC_HDR][0] == b[0];
    for i := REC_HDR to HOST_REC
      invariant forall k :: 0 <= k < REC_HDR ==> buf[k] == file[pos + k]
      invariant forall k :: REC_HDR <= k < i ==> buf[k] == 0
    {
      buf[i] := 0;
    }
    if !Known(buf[0]) {
      return false, true, p;
    }
    var size := SizeIn(version, buf[0]);
    ok, next := Fread(file, p, buf, REC_HDR, size - REC_HDR);
    got, err := ok, !ok;
    if ok {
      BufferIs(buf, file, pos, size);
    }
  }

  lemma BufferIs(buf: array<byte>, file: seq<byte>, pos: nat, size: nat)
    requires buf.Length == HOST_REC && REC_HDR <= size && pos + size <= |file|
    requires size <= FullSize(buf[0])
    requires forall k :: 0 <= k < REC_HDR ==> buf[k] == file[pos + k]
    requires buf[REC_HDR..size] == file[pos + REC_HDR..pos + size]
    requires forall k :: size <= k < HOST_REC ==> buf[k] == 0
    ensures buf[..FullSize(buf[0])] == Extended(file[pos..][..size], buf[0])
  {
    var full := FullSize(buf[0]);
    forall k | 0 <= k < full ensures buf[k] == Extended(file[pos..][..size], buf[0])[k] {
      if REC_HDR <= k < size {
        assert buf[REC_HDR..size][k - REC_HDR] == file[pos + REC_HDR..pos + size][k - REC_HDR];
      }
    }
  }

  /** `all` is what has been handed on and what the rest of the file gives. */
  ghost predicate Ahead(all: Outcome, file: seq<byte>, pos: nat, version: nat, delivered: seq<seq<byte>>,
                        callback: Callback)
    requires pos <= |file|
  {
    var rest := ReadRecords(file[pos..], version, delivered, callback);
    all == Outcome(delivered + rest.delivered, rest.ret)
  }

  /** One turn of the loop, for each way it can go. */
  lemma ReadNext(all: Outcome, file: seq<byte>, pos: nat, version: nat, delivered: seq<seq<byte>>, callback: Callback)
    requires pos <= |file| && Ahead(all, file, pos, version, delivered, callback)
    ensures var b := file[pos..];
            if |b| < REC_HDR then all == Outcome(delivered, 0)
            else if !Known(b[0]) || |b| < SizeIn(version, b[0]) then all == Outcome(delivered, -1)
            else
              var size := SizeIn(version, b[0]);
              var more := delivered + [Extended(b[..size], b[0])];
              var r := callback(more);
              if r == 0 then Ahead(all, file, pos + size, version, more, callback)
              else all == Outcome(more, if r < 0 then -1 else 0)
  {
    var b := file[pos..];
    assert delivered + [] == delivered;
    if |b| >= REC_HDR && Known(b[0]) && |b| >= SizeIn(version, b[0]) {
      var size := SizeIn(version, b[0]);
      var rec := Extended(b[..size], b[0]);
      var rest := ReadRecords(b[size..], version, delivered + [rec], callback);
      assert b[size..] == file[pos + size..];
      assert (delivered + [rec]) + rest.delivered == delivered + ([rec] + rest.delivered);
    }
  }

  /** The record that the callback is handed, or none. */
  method NextRecord(file: seq<byte>, pos: nat, version: nat, buf: array<byte>)
    returns (rec: seq<byte>, err: bool, next: nat)
    requires pos <= |file| && buf.Length == HOST_REC
    modifies buf
    ensures var b := file[pos..];
            if |b| < REC_HDR then rec == [] && !err
            else if !Known(b[0]) || |b| < SizeIn(version, b[0]) then rec == [] && err
            else !err && rec != [] && next == pos + SizeIn(version, b[0]) <= |file| &&
                 rec == Extended(b[..SizeIn(version, b[0])], b[0])
  {
    var got;
    got, err, next := ReadOne(file, pos, version, buf);
    rec := [];
    if got {
      rec := buf[..FullSize(buf[0])];
      assert buf[0] == rec[0] == file[pos];
    }
  }

  /** ntp_read_file() */
  method ReadFile(file: seq<byte>, callback: Callback) returns (out: Outcome)
    ensures out == ReadFileSpec(file, callback)
  {
    if !GoodHeader(file) {
      return Outcome([], -1);
    }
    var version := VersionOf(file);
    var buf := new byte[HOST_REC](_ => 0);
    var pos, ret, delivered := HEADER, 0, [];
    ghost var all := ReadFileSpec(file, callback);
    while ret == 0
      invariant HEADER <= pos <= |file|
      invariant ret == 0 ==> Ahead(all, file, pos, version, delivered, callback)
      invariant ret != 0 ==> all == Outcome(delivered, if ret < 0 then -1 else 0)
      decreases ret == 0, |file| - pos
    {
      ReadNext(all, file, pos, version, delivered, callback);
      var rec, err, next := NextRecord(file, pos, version, buf);
      if err {
        ret := -1;
      } else if rec == [] {
        break;
      } else {
        delivered := delivered + [rec];
        ret := callback(delivered);
        pos := next;
      }
    }
    out := Outcome(delivered, if ret < 0 then -1 else 0);
  }

  // ---- writing, and what comes back ----

  /** A record in memory: the full struct of its kind. */
  ghost predicate Image(rec: seq<byte>) {
    |rec| >= REC_HDR && Known(rec[0]) && |rec| == FullSize(rec[0])
  }

  ghost predicate Images(recs: seq<seq<byte>>) {
    forall i :: 0 <= i < |recs| ==> Image(recs[i])
  }

  /** What a writer of this version puts in the file: the part of the struct that existed then. */
  function Written(rec: seq<byte>, version: nat): (w: seq<byte>)
    requires Image(rec)
    ensures |w| == SizeIn(version, rec[0]) && w[0] == rec[0]
  {
    rec[..SizeIn(version, rec[0])]
  }

  function WriteRecords(recs: seq<seq<byte>>, version: nat): seq<byte>
    requires Images(recs)
  {
    if recs == [] then [] else Written(recs[0], version) + WriteRecords(recs[1..], version)
  }

  /** The record a reader should get back. */
  function Reread(rec: seq<byte>, version: nat): seq<byte>
    requires Image(rec)
  {
    Extended(Written(rec, version), rec[0])
  }

  function RereadAll(recs: seq<seq<byte>>, version: nat): (r: seq<seq<byte>>)
    requires Images(recs)
    ensures |r| == |recs| && forall i :: 0 <= i < |r| ==> r[i] == Reread(recs[i], version)
  {
    if recs == [] then [] else [Reread(recs[0], version)] + RereadAll(recs[1..], version)
  }

  ghost predicate Accepting(callback: Callback) {
    forall d :: callback(d) == 0
  }

  /** A complete record, then anything. */
  lemma ReadFirst(rec: seq<byte>, version: nat, more: seq<byte>, before: seq<seq<byte>>, callback: Callback)
    requires Image(rec) && Accepting(callback)
    ensures ReadRecords(Written(rec, version) + more, version, before, callback) ==
            var rest := ReadRecords(more, version, before + [Reread(rec, version)], callback);
            Outcome([Reread(rec, version)] + rest.delivered, rest.ret)
  {
    var w := Written(rec, version);
    var b := w + more;
    assert b[0] == rec[0] && b[..|w|] == w && b[|w|..] == more;
  }

  lemma Regroup<T>(a: seq<T>, b: seq<T>, c: seq<T>)
    ensures (a + b) + c == a + (b + c)
  {
  }

  /** Complete records, then anything: the records come back in order and the reading goes on behind them. */
  lemma {:induction false} ReadWritten(recs: seq<seq<byte>>, version: nat, tail: seq<byte>, before: seq<seq<byte>>,
                                       callback: Callback)
    requires Images(recs) && Accepting(callback)
    ensures ReadRecords(WriteRecords(recs, version) + tail, version, before, callback) ==
            var rest := ReadRecords(tail, version, before + RereadAll(recs, version), callback);
            Outcome(RereadAll(recs, version) + rest.delivered, rest.ret)
  {
    var all := RereadAll(recs, version);
    var rest := ReadRecords(tail, version, before + all, callback);
    if recs == [] {
      assert WriteRecords(recs, version) + tail == tail;
      assert all + rest.delivered == rest.delivered && before + all == before;
    } else {
      var w, more := Written(recs[0], version), WriteRecords(recs[1..], version) + tail;
      var first, others := [Reread(recs[0], version)], RereadAll(recs[1..], version);
      assert all == first + others;
      Regroup(w, WriteRecords(recs[1..], version), tail);
      Regroup(before, first, others);
      Regroup(first, others, rest.delivered);
      ReadFirst(recs[0], version, more, before, callback);
      ReadWritten(recs[1..], version, tail, before + first, callback);
    }
  }

  /** A file of any version 2 to 5, whatever mix of host and target records: all come back, in order, no error. */
  lemma RoundTrip(header: seq<byte>, recs: seq<seq<byte>>, callback: Callback)
    requires |header| == HEADER && GoodHeader(header) && Images(recs) && Accepting(callback)
    ensures var version := VersionOf(header);
            ReadFileSpec(header + WriteRecords(recs, version), callback) == Outcome(RereadAll(recs, version), 0)
  {
    var version := VersionOf(header);
    var body := WriteRecords(recs, version);
    HeaderStays(header, body);
    ReadWritten(recs, version, [], [], callback);
    assert body + [] == body;
    assert RereadAll(recs, version) + [] == RereadAll(recs, version);
  }

  lemma HeaderStays(header: seq<byte>, body: seq<byte>)
    requires |header| == HEADER && GoodHeader(header)
    ensures GoodHeader(header + body) && VersionOf(header + body) == VersionOf(header)
    ensures (header + body)[HEADER..] == body
  {
    var file := header + body;
    assert file[..8] == header[..8];
    assert file[8..12] == header[8..12] && file[12..16] == header[12..16];
    assert file[16..20] == header[16..20] && file[20..24] == header[20..24];
  }

  /**
   A file cut off inside a record: exactly the complete records before it come back, and it is an error exactly if
   the cut lies behind the record's header.
   */
  lemma CutFile(header: seq<byte>, recs: seq<seq<byte>>, last: seq<byte>, n: nat, callback: Callback)
    requires |header| == HEADER && GoodHeader(header) && Images(recs) && Image(last) && Accepting(callback)
    requires n < SizeIn(VersionOf(header), last[0])
    ensures var version := VersionOf(header);
            ReadFileSpec(header + (WriteRecords(recs, version) + Written(last, version)[..n]), callback) ==
            Outcome(RereadAll(recs, version), if n < REC_HDR then 0 else -1)
  {
    var version := VersionOf(header);
    var part := Written(last, version)[..n];
    var body := WriteRecords(recs, version) + part;
    HeaderStays(header, body);
    ReadWritten(recs, version, part, [], callback);
    assert ReadRecords(part, version, [] + RereadAll(recs, version), callback) == Outcome([], if n < REC_HDR then 0 else -1);
    assert RereadAll(recs, version) + [] == RereadAll(recs, version);
  }

  /** A field inside the part that the version wrote reads as it was; one added later reads as zero. */
  lemma FieldKeptOrZero(rec: seq<byte>, version: nat, at: nat, len: nat)
    requires Image(rec) && at + len <= |rec|
    ensures at + len <= SizeIn(version, rec[0]) ==>
              Value(Reread(rec, version)[at..at + len]) == Value(rec[at..at + len])
    ensures at >= SizeIn(version, rec[0]) ==> Value(Reread(rec, version)[at..at + len]) == 0
  {
    var back, size := Reread(rec, version), SizeIn(version, rec[0]);
    assert |back| == |rec|;
    if at + len <= size {
      assert back[at..at + len] == rec[at..at + len];
    } else if at >= size {
      assert back[at..at + len] == Zeros(len);
      ZeroValue(len);
    }
  }

  lemma {:induction false} ZeroValue(n: nat)
    ensures Value(Zeros(n)) == 0
  {
    if n > 0 {
      assert Zeros(n)[1..] == Zeros(n - 1);
      ZeroValue(n - 1);
    }
  }

  /** Which fields those are, version by version: the stamps and counters behind the ones of the older structs. */
  lemma AddedLater(rec: seq<byte>, version: nat, event: nat)
    requires Image(rec) && event < 16
    ensures rec[0] == KIND_HOST ==>
              var at := HOST_TS + 8 * event;
              Value(Reread(rec, version)[at..at + 8]) ==
              if version >= 4 || event < 14 then Value(rec[at..at + 8]) else 0
    ensures rec[0] == KIND_TARGET ==>
              var at := TGT_TS + 8 * event;
              Value(Reread(rec, version)[at..at + 8]) ==
              if version >= 5 || event < 13 || (version >= 3 && event == 13) then Value(rec[at..at + 8]) else 0
  {
    FieldKeptOrZero(rec, version, (if rec[0] == KIND_HOST then HOST_TS else TGT_TS) + 8 * event, 8);
  }

  /** Today's files lose nothing. */
  lemma CurrentIsExact(rec: seq<byte>)
    requires Image(rec)
    ensures Reread(rec, FILE_VERSION) == rec
  {
  }
}
