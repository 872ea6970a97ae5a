/**
 The SPDK arrival ring (bpf/spdk.bpf.h): the last 512 (time, value) pairs of a thread in two wrapped arrays, and a
 binary search of ten unrolled halvings that must find what a scan from the newest entry finds.
 */
module ArrivalRing {
  import opened Records

  const RING := 512

  datatype Entry = Entry(t: u64, v: u64)

  ghost predicate Ascending(log: seq<Entry>) {
    forall i, j :: 0 <= i <= j < |log| ==> log[i].t <= log[j].t
  }

  /** The entries a ring still holds. */
  function Retained(log: seq<Entry>): seq<Entry> {
    if |log| <= RING then log else log[|log| - RING..]
  }

  /** The value of the latest entry at or before x, or 0: a scan from the newest entry. */
  function Scan(log: seq<Entry>, x: u64): u64 {
    if log == [] then 0
    else if log[|log| - 1].t <= x then log[|log| - 1].v
    else Scan(log[..|log| - 1], x)
  }

  // ---- the halvings ----

  datatype Window = Window(lo: nat, hi: nat)

  function Halve(log: seq<Entry>, x: u64, w: Window): (h: Window)
    requires w.lo <= w.hi <= |log|
    ensures w.lo <= h.lo <= h.hi <= w.hi
    ensures h.hi - h.lo <= (w.hi - w.lo) / 2
  {
    var mid := (w.lo + w.hi) / 2;
    if w.lo < w.hi then
      if log[mid].t <= x then Window(mid + 1, w.hi) else Window(w.lo, mid)
    else w
  }

  function Halvings(log: seq<Entry>, x: u64, k: nat): (w: Window)
    ensures w.lo <= w.hi <= |log|
  {
    if k == 0 then Window(0, |log|) else Halve(log, x, Halvings(log, x, k - 1))
  }

  /** Entries left of the window are at or before x, entries right of it are after. */
  lemma {:induction false} Bracketed(log: seq<Entry>, x: u64, k: nat)
    requires Ascending(log)
    ensures forall i :: 0 <= i < Halvings(log, x, k).lo ==> log[i].t <= x
    ensures forall i :: Halvings(log, x, k).hi <= i < |log| ==> log[i].t > x
  {
    if k > 0 { Bracketed(log, x, k - 1); }
  }

  function Width(k: nat): nat {
    if k == 0 then RING else Width(k - 1) / 2
  }

  lemma {:induction false} WindowNarrows(log: seq<Entry>, x: u64, k: nat)
    requires |log| <= RING
    ensures Halvings(log, x, k).hi - Halvings(log, x, k).lo <= Width(k)
  {
    if k > 0 { WindowNarrows(log, x, k - 1); }
  }

  lemma {:induction false} WidthZero(k: nat)
    requires k >= 10
    ensures Width(k) == 0
  {
    if k == 10 {
      assert Width(4) == 32 && Width(8) == 2;
    } else {
      WidthZero(k - 1);
    }
  }

  /** Ten halvings, or more, close the window on every ring. */
  lemma TenHalvingsClose(log: seq<Entry>, x: u64, k: nat)
    requires |log| <= RING && k >= 10
    ensures Halvings(log, x, k).lo == Halvings(log, x, k).hi
  {
    WindowNarrows(log, x, k);
    WidthZero(k);
  }

  lemma {:induction false} ScanFinds(log: seq<Entry>, x: u64, n: nat)
    requires n <= |log|
    requires forall i :: 0 <= i < n ==> log[i].t <= x
    requires forall i :: n <= i < |log| ==> log[i].t > x
    ensures Scan(log, x) == if n == 0 then 0 else log[n - 1].v
  {
    if log != [] && n < |log| { ScanFinds(log[..|log| - 1], x, n); }
  }

  /** The search's answer from the window it ends with. */
  function Answer(log: seq<Entry>, w: Window): u64
    requires w.lo <= |log|
  {
    if w.lo == 0 then 0 else log[w.lo - 1].v
  }

  /** On every ring with ascending times the search finds what the scan finds. */
  lemma SearchIsScan(log: seq<Entry>, x: u64, k: nat)
    requires |log| <= RING && Ascending(log) && k >= 10
    ensures Answer(log, Halvings(log, x, k)) == Scan(log, x)
  {
    TenHalvingsClose(log, x, k);
    Bracketed(log, x, k);
    ScanFinds(log, x, Halvings(log, x, k).lo);
  }

  /** A window that starts at the first entry, searched for that entry's time, keeps its left half. */
  lemma LeftHalf(log: seq<Entry>, x: u64, k: nat, m: nat)
    requires Halvings(log, x, k) == Window(0, 2 * m) && m > 0 && log[m].t > x
    ensures Halvings(log, x, k + 1) == Window(0, m)
  {
  }

  /** Nine are not enough: a full ring, searched for the time of its oldest entry. */
  lemma NineHalvingsMiss()
    ensures exists log, x ::
              |log| == RING && Ascending(log) && Answer(log, Halvings(log, x, 9)) != Scan(log, x)
  {
    var log := seq(RING, i requires 0 <= i < RING => Entry(i + 1, i + 1));
    LeftHalf(log, 1, 0, 256);
    LeftHalf(log, 1, 1, 128);
    LeftHalf(log, 1, 2, 64);
    LeftHalf(log, 1, 3, 32);
    LeftHalf(log, 1, 4, 16);
    LeftHalf(log, 1, 5, 8);
    LeftHalf(log, 1, 6, 4);
    LeftHalf(log, 1, 7, 2);
    LeftHalf(log, 1, 8, 1);
    ScanFinds(log, 1, 1);
    assert Answer(log, Halvings(log, 1, 9)) == 0 && Scan(log, 1) == 1;
  }

  // ---- the ring ----

  class SpdkRing {
    var tid: u64
    var n: nat  // how many this thread has added
    const t: array<u64>
    const v: array<u64>
    ghost var log: seq<Entry>

    ghost predicate Valid()
      reads this, t, v
    {
      && t.Length == RING == v.Length && t != v
      && n == |log| && Ascending(log)
      && forall i :: 0 <= i < n && n - RING <= i ==> t[i % RING] == log[i].t && v[i % RING] == log[i].v
    }

    constructor (tid: u64)
      ensures Valid() && fresh(t) && fresh(v) && log == [] && this.tid == tid
    {
      this.tid, n, log := tid, 0, [];
      t := new u64[RING](_ => 0);
      v := new u64[RING](_ => 0);
    }

    /** spdk_ring_own(): what another thread left is forgotten. */
    method Own(caller: u64)
      requires Valid()
      modifies this
      ensures Valid() && tid == caller
      ensures log == if old(tid) == caller then old(log) else []
    {
      if tid != caller {
        tid, n, log := caller, 0, [];
      }
    }

    /** spdk_ring_add() */
    method Add(time: u64, value: u64)
      requires Valid() && (log != [] ==> log[|log| - 1].t <= time)
      modifies this`n, this`log, t, v
      ensures Valid() && log == old(log) + [Entry(time, value)]
    {
      var i := n % RING;
      t[i] := time;
      v[i] := value;
      assert forall k :: 0 <= k < n && n + 1 - RING <= k ==> k % RING != i;
      log := log + [Entry(time, value)];
      n := n + 1;
    }

    /** The slot of a retained entry. */
    method Slot(k: nat) returns (e: Entry)
      requires Valid() && k < n && n - RING <= k
      ensures e == log[k]
    {
      e := Entry(t[k % RING], v[k % RING]);
    }

    /** The unrolled loop over the wrapped slots. */
    method Search(size: nat, x: u64) returns (lo: nat, ghost halvings: nat)
      requires Valid() && size == |Retained(log)|
      ensures halvings == 10 && lo == Halvings(Retained(log), x, halvings).lo
    {
      var base := n - size;
      var hi := size;
      var i := 0;
      lo := 0;
      while i < 10
        invariant 0 <= i <= 10 && lo <= hi <= size
        invariant Window(lo, hi) == Halvings(Retained(log), x, i)
      {
        lo, hi := HalveOnce(base, lo, hi, x);
        i := i + 1;
      }
      halvings := i;
    }

    method HalveOnce(base: nat, lo: nat, hi: nat, x: u64) returns (lo2: nat, hi2: nat)
      requires Valid() && lo <= hi <= |Retained(log)| == n - base
      ensures Window(lo2, hi2) == Halve(Retained(log), x, Window(lo, hi))
    {
      lo2, hi2 := lo, hi;
      if lo < hi {
        var mid := (lo + hi) / 2;
        var e := Slot(base + mid);
        assert e == Retained(log)[mid];
        if e.t <= x {
          lo2 := mid + 1;
        } else {
          hi2 := mid;
        }
      }
    }

    /** spdk_ring_find(): the search over the wrapped slots equals the scan of what the ring retains. */
    method Find(caller: u64, x: u64) returns (r: u64)
      requires Valid()
      ensures r == if tid != caller || x == 0 then 0 else Scan(Retained(log), x)
    {
      if tid != caller || x == 0 {
        return 0;
      }
      var size := if n < RING then n else RING;
      var lo, halvings := Search(size, x);
      SearchIsScan(Retained(log), x, halvings);
      if lo > 0 {
        var e := Slot(n - size + lo - 1);
        r := e.v;
      } else {
        r := 0;
      }
    }
  }
}
