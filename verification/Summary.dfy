/**
 Sample vectors and their summaries (i64vec of src/util.c, ntp_summarize of src/stats.c), in exact arithmetic: the
 quantiles are thousandths of the way through the sorted samples, interpolated between the two closest ranks and
 rounded half up.
 */
module Summary {

  ghost predicate Sorted(s: seq<int>) {
    forall i, j :: 0 <= i <= j < |s| ==> s[i] <= s[j]
  }

  function Insert(x: int, s: seq<int>): seq<int> {
    if s == [] || x <= s[0] then [x] + s else [s[0]] + Insert(x, s[1..])
  }

  /** What qsort() makes of a vector. */
  function Sort(s: seq<int>): seq<int> {
    if s == [] then [] else Insert(s[0], Sort(s[1..]))
  }

  lemma {:induction false} InsertIs(x: int, s: seq<int>)
    requires Sorted(s)
    ensures Sorted(Insert(x, s)) && multiset(Insert(x, s)) == multiset{x} + multiset(s)
  {
    if s != [] && x > s[0] {
      InsertIs(x, s[1..]);
      assert s == [s[0]] + s[1..];
      var t := Insert(x, s[1..]);
      forall i | 0 <= i < |t| ensures s[0] <= t[i] {
        assert t[i] in multiset(t);
        assert t[i] == x || t[i] in s[1..];
      }
    }
  }

  lemma {:induction false} SortIs(s: seq<int>)
    ensures Sorted(Sort(s)) && multiset(Sort(s)) == multiset(s) && |Sort(s)| == |s|
  {
    if s != [] {
      SortIs(s[1..]);
      InsertIs(s[0], Sort(s[1..]));
      assert s == [s[0]] + s[1..];
      assert |multiset(Sort(s))| == |multiset(s)|;
    }
  }

  /** The sorted order of a multiset is unique. */
  lemma {:induction false} SortedUnique(a: seq<int>, b: seq<int>)
    requires Sorted(a) && Sorted(b) && multiset(a) == multiset(b)
    ensures a == b
  {
    assert |multiset(a)| == |a| && |multiset(b)| == |b|;
    if a != [] {
      SameHead(a, b);
      TailOf(a);
      TailOf(b);
      SortedUnique(a[1..], b[1..]);
      assert a == [a[0]] + a[1..] && b == [b[0]] + b[1..];
    }
  }

  lemma SameHead(a: seq<int>, b: seq<int>)
    requires Sorted(a) && Sorted(b) && multiset(a) == multiset(b) && a != [] && b != []
    ensures a[0] == b[0]
  {
    assert a[0] in multiset(b) && b[0] in multiset(a);
    assert a[0] in b && b[0] in a;
  }

  lemma TailOf(a: seq<int>)
    requires a != []
    ensures multiset(a[1..]) == multiset(a) - multiset{a[0]}
  {
    assert a == [a[0]] + a[1..];
  }

  lemma SortOfMultiset(a: seq<int>, b: seq<int>)
    requires multiset(a) == multiset(b)
    ensures Sort(a) == Sort(b)
  {
    SortIs(a);
    SortIs(b);
    SortedUnique(Sort(a), Sort(b));
  }

  // ---- quantiles ----

  /** p10, p50, p70, p80, p90, p95, p99, p99.9 */
  const QUANTILES: seq<nat> := [100, 500, 700, 800, 900, 950, 990, 999]

  /** The rank below a quantile's position, and how far (in thousandths) the position is behind it. */
  function Rank(n: nat, q: nat): nat
    requires n > 0
  {
    ((n - 1) * q) / 1000
  }

  function Thousandths(n: nat, q: nat): (f: nat)
    requires n > 0
    ensures f < 1000
  {
    ((n - 1) * q) % 1000
  }

  /** A part of a gap, rounded half up. */
  function PartOf(gap: nat, f: nat): nat {
    (2 * (gap * f) + 1000) / 2000
  }

  lemma MulMono(a: nat, b: nat, c: nat)
    requires a <= b
    ensures c * a <= c * b
  {
    assert c * b == c * a + c * (b - a);
  }

  lemma HalfUpMono(x: nat, y: nat)
    requires x <= y
    ensures (2 * x + 1000) / 2000 <= (2 * y + 1000) / 2000
  {
  }

  lemma PartWithin(gap: nat, f: nat)
    requires f < 1000
    ensures PartOf(gap, f) <= gap
  {
    MulMono(f, 999, gap);
    HalfUpMono(gap * f, gap * 999);
  }

  lemma PartMonotone(gap: nat, f: nat, g: nat)
    requires f <= g
    ensures PartOf(gap, f) <= PartOf(gap, g)
  {
    MulMono(f, g, gap);
    HalfUpMono(gap * f, gap * g);
  }

  function Quantile(v: seq<int>, q: nat): int
    requires v != [] && Sorted(v)
  {
    var lo := Rank(|v|, q);
    if lo + 1 >= |v| then v[|v| - 1] else v[lo] + PartOf(v[lo + 1] - v[lo], Thousandths(|v|, q))
  }

  /** Between the two closest ranks. */
  lemma QuantileBetween(v: seq<int>, q: nat)
    requires v != [] && Sorted(v) && q < 1000
    ensures var lo := Rank(|v|, q);
            lo < |v| && v[lo] <= Quantile(v, q) <= v[if lo + 1 < |v| then lo + 1 else lo]
  {
    RankBelow(|v|, q);
    var lo := Rank(|v|, q);
    if lo + 1 < |v| { PartWithin(v[lo + 1] - v[lo], Thousandths(|v|, q)); }
  }

  lemma RankBelow(n: nat, q: nat)
    requires n > 0 && q < 1000
    ensures Rank(n, q) < n
  {
    MulMono(q, 999, n - 1);
    ThousandthsBelow((n - 1) * q, n - 1);
  }

  lemma ThousandthsBelow(x: nat, y: nat)
    requires x <= y * 999
    ensures x / 1000 <= y
  {
  }

  /** A later quantile is at a later rank, or further behind the same one. */
  lemma PositionsAscend(n: nat, p: nat, q: nat)
    requires n > 0 && p <= q
    ensures Rank(n, p) <= Rank(n, q)
    ensures Rank(n, p) == Rank(n, q) ==> Thousandths(n, p) <= Thousandths(n, q)
  {
    MulMono(p, q, n - 1);
    DivModMono((n - 1) * p, (n - 1) * q);
  }

  lemma DivModMono(x: nat, y: nat)
    requires x <= y
    ensures x / 1000 <= y / 1000
    ensures x / 1000 == y / 1000 ==> x % 1000 <= y % 1000
  {
  }

  lemma QuantilesAscend(v: seq<int>, p: nat, q: nat)
    requires v != [] && Sorted(v) && p <= q < 1000
    ensures Quantile(v, p) <= Quantile(v, q)
  {
    var n := |v|;
    QuantileBetween(v, p);
    QuantileBetween(v, q);
    PositionsAscend(n, p, q);
    var a, b := Rank(n, p), Rank(n, q);
    if a == b {
      if a + 1 < n { PartMonotone(v[a + 1] - v[a], Thousandths(n, p), Thousandths(n, q)); }
    } else {
      assert a + 1 <= b;
    }
  }

  /** The position (n - 1) * q / 1000 lies behind rank r and before the next: there is no other such rank. */
  lemma RankUnique(n: nat, q: nat, r: nat)
    requires n > 0 && 1000 * r <= (n - 1) * q < 1000 * (r + 1)
    ensures Rank(n, q) == r && Thousandths(n, q) == (n - 1) * q - 1000 * r
  {
  }

  lemma PartIs(gap: nat, f: nat)
    ensures 1000 * PartOf(gap, f) - 500 <= gap * f < 1000 * PartOf(gap, f) + 500
  {
    var x := gap * f;
    assert PartOf(gap, f) == (2 * x + 1000) / 2000;
  }

  /**
   The value at the position, on the straight line between the samples around it, is at most half off the quantile.
   In thousandths, so that it is exact.
   */
  lemma QuantileInterpolates(v: seq<int>, q: nat, r: nat)
    requires v != [] && Sorted(v) && q < 1000 && 1000 * r <= (|v| - 1) * q < 1000 * (r + 1)
    ensures r < |v| && (r + 1 == |v| ==> Quantile(v, q) == v[r])
    ensures r + 1 < |v| ==>
              var line := 1000 * v[r] + (v[r + 1] - v[r]) * ((|v| - 1) * q - 1000 * r);
              1000 * Quantile(v, q) - 500 <= line < 1000 * Quantile(v, q) + 500
  {
    RankUnique(|v|, q, r);
    RankBelow(|v|, q);
    if r + 1 < |v| { PartIs(v[r + 1] - v[r], Thousandths(|v|, q)); }
  }

  // ---- shares of the samples ----

  function HowMany(s: seq<int>, p: int -> bool): nat {
    if s == [] then 0 else HowMany(s[1..], p) + if p(s[0]) then 1 else 0
  }

  lemma {:induction false} CountInsert(x: int, s: seq<int>, p: int -> bool)
    ensures HowMany(Insert(x, s), p) == HowMany(s, p) + if p(x) then 1 else 0
  {
    var t := Insert(x, s);
    if s == [] || x <= s[0] {
      assert t[0] == x && t[1..] == s;
    } else {
      assert t[0] == s[0] && t[1..] == Insert(x, s[1..]);
      CountInsert(x, s[1..], p);
    }
  }

  lemma {:induction false} CountSort(s: seq<int>, p: int -> bool)
    ensures HowMany(Sort(s), p) == HowMany(s, p)
  {
    if s != [] {
      CountSort(s[1..], p);
      CountInsert(s[0], Sort(s[1..]), p);
    }
  }

  lemma {:induction false} CountRun(s: seq<int>, p: int -> bool, a: nat, b: nat)
    requires a <= b <= |s| && forall i :: a <= i < b ==> p(s[i])
    ensures HowMany(s, p) >= b - a
  {
    if b > 0 {
      forall i | (if a == 0 then 0 else a - 1) <= i < b - 1 ensures p(s[1..][i]) { assert s[1..][i] == s[i + 1]; }
      CountRun(s[1..], p, if a == 0 then 0 else a - 1, b - 1);
    }
  }

  function UpTo(x: int): int -> bool {
    y => y <= x
  }

  function AtLeast(x: int): int -> bool {
    y => y >= x
  }

  /**
   What a quantile says of the samples, whatever their order: at most x are more than q thousandths of the others, and
   at least x the rest.
   */
  ghost predicate Shares(v: seq<int>, q: nat, x: int)
    requires v != [] && q < 1000
  {
    1000 * HowMany(v, UpTo(x)) > (|v| - 1) * q && 1000 * HowMany(v, AtLeast(x)) >= (|v| - 1) * (1000 - q)
  }

  lemma RanksLeft(n: nat, q: nat, up: nat, down: nat)
    requires n > 0 && q < 1000 && Rank(n, q) < n && up >= Rank(n, q) + 1 && down >= n - 1 - Rank(n, q)
    ensures 1000 * up > (n - 1) * q && 1000 * down >= (n - 1) * (1000 - q)
  {
    var p := (n - 1) * q;
    assert (n - 1) * (1000 - q) == 1000 * (n - 1) - p;
    assert Rank(n, q) == p / 1000;
  }

  lemma SharesOfSorted(w: seq<int>, q: nat)
    requires w != [] && Sorted(w) && q < 1000
    ensures Shares(w, q, Quantile(w, q))
  {
    var lo, x := Rank(|w|, q), Quantile(w, q);
    QuantileBetween(w, q);
    CountRun(w, UpTo(x), 0, lo + 1);
    CountRun(w, AtLeast(x), lo + 1, |w|);
    RanksLeft(|w|, q, HowMany(w, UpTo(x)), HowMany(w, AtLeast(x)));
  }

  /** The quantile of samples in any order. */
  function SampleQuantile(v: seq<int>, q: nat): int
    requires v != []
  {
    SortIs(v);
    Quantile(Sort(v), q)
  }

  lemma SharesOf(v: seq<int>, q: nat, x: int)
    requires v != [] && q < 1000 && x == SampleQuantile(v, q)
    ensures Shares(v, q, x)
  {
    SortIs(v);
    SharesOfSorted(Sort(v), q);
    CountSort(v, UpTo(x));
    CountSort(v, AtLeast(x));
  }

  // ---- summaries ----

  /** struct ntp_summary; the mean is kept as the sum it is computed from. */
  datatype Stat = Stat(n: nat, sum: int, min: int, max: int, q: seq<int>)

  function Sum(s: seq<int>): int {
    if s == [] then 0 else Sum(s[..|s| - 1]) + s[|s| - 1]
  }

  function StatOfSorted(v: seq<int>): (s: Stat)
    requires Sorted(v)
    ensures |s.q| == |QUANTILES|
  {
    if v == [] then Stat(0, 0, 0, 0, seq(|QUANTILES|, _ => 0))
    else Stat(|v|, Sum(v), v[0], v[|v| - 1],
              seq(|QUANTILES|, i requires 0 <= i < |QUANTILES| => Quantile(v, QUANTILES[i])))
  }

  function StatOf(v: seq<int>): Stat {
    SortIs(v);
    StatOfSorted(Sort(v))
  }

  /** min <= p10 <= ... <= p99.9 <= max, for every vector of samples. */
  lemma SummaryOrdered(v: seq<int>)
    requires v != []
    ensures var s := StatOf(v);
            && s.n == |v| && |s.q| == 8
            && s.min in v && s.max in v
            && (forall x :: x in v ==> s.min <= x <= s.max)
            && s.min <= s.q[0] && s.q[7] <= s.max
            && forall i, j :: 0 <= i <= j < 8 ==> s.q[i] <= s.q[j]
  {
    SortIs(v);
    var w := Sort(v);
    forall x ensures x in v <==> x in w { assert x in multiset(v) <==> x in multiset(w); }
    QuantileBetween(w, QUANTILES[0]);
    QuantileBetween(w, QUANTILES[7]);
    forall i, j | 0 <= i <= j < 8 ensures StatOf(v).q[i] <= StatOf(v).q[j] {
      QuantilesAscend(w, QUANTILES[i], QUANTILES[j]);
    }
  }

  lemma QuantileAt(v: seq<int>, i: nat)
    requires v != [] && i < 8
    ensures |QUANTILES| == |StatOf(v).q| == 8 && QUANTILES[i] < 1000
    ensures StatOf(v).q[i] == SampleQuantile(v, QUANTILES[i])
  {
    SortIs(v);
  }

  /** p10, p50, p70, p80, p90, p95, p99 and p99.9 are what their names say. */
  lemma SharesOfSummary(v: seq<int>, i: nat)
    requires v != [] && i < 8
    ensures |StatOf(v).q| == 8 && Shares(v, [100, 500, 700, 800, 900, 950, 990, 999][i], StatOf(v).q[i])
  {
    QuantileAt(v, i);
    SharesOf(v, QUANTILES[i], StatOf(v).q[i]);
  }

  /** A summary depends on the samples, not on the order in which they came. */
  lemma SummaryOfMultiset(a: seq<int>, b: seq<int>)
    requires multiset(a) == multiset(b)
    ensures StatOf(a) == StatOf(b)
  {
    SortOfMultiset(a, b);
  }

  /** struct i64vec: samples in any order; summarizing sorts them in place. */
  class I64Vec {
    var v: seq<int>
    ghost var pushed: seq<int>

    ghost predicate Valid()
      reads this
    {
      multiset(v) == multiset(pushed)
    }

    constructor ()
      ensures Valid() && pushed == []
    {
      v, pushed := [], [];
    }

    method Push(x: int)
      requires Valid()
      modifies this
      ensures Valid() && pushed == old(pushed) + [x]
    {
      v, pushed := v + [x], pushed + [x];
    }

    /** ntp_summarize(): however often it was summarized and pushed to before, the summary is of all samples pushed. */
    method Summarize() returns (out: Stat)
      requires Valid()
      modifies this`v
      ensures Valid() && Sorted(v)
      ensures out == StatOf(pushed)
    {
      SummaryOfMultiset(v, pushed);
      v, out := SortAndSummarize(v);
    }
  }

  /** The body of ntp_summarize(), on a vector's samples: their sorted order, and the summary. */
  method SortAndSummarize(v: seq<int>) returns (sorted: seq<int>, out: Stat)
    ensures Sorted(sorted) && multiset(sorted) == multiset(v)
    ensures out == StatOf(v)
  {
    SortIs(v);
    if |v| == 0 {
      return v, Stat(0, 0, 0, 0, seq(|QUANTILES|, _ => 0));
    }
    sorted := Sort(v);
    out := Summarized(sorted);
  }

  method Summarized(v: seq<int>) returns (out: Stat)
    requires v != [] && Sorted(v)
    ensures out == StatOfSorted(v)
  {
    var sum := SumUp(v);
    var q := [];
    for i := 0 to |QUANTILES|
      invariant |q| == i && forall k :: 0 <= k < i ==> q[k] == Quantile(v, QUANTILES[k])
    {
      var x := QuantileOf(v, QUANTILES[i]);
      q := q + [x];
    }
    out := Stat(|v|, sum, v[0], v[|v| - 1], q);
  }

  method SumUp(v: seq<int>) returns (sum: int)
    ensures sum == Sum(v)
  {
    sum := 0;
    for i := 0 to |v|
      invariant sum == Sum(v[..i])
    {
      assert v[..i + 1][..i] == v[..i];
      sum := sum + v[i];
    }
    assert v[..|v|] == v;
  }

  /** The body of the quantile loop. */
  method QuantileOf(v: seq<int>, q: nat) returns (x: int)
    requires v != [] && Sorted(v)
    ensures x == Quantile(v, q)
  {
    var pos := (|v| - 1) * q;
    var lo := pos / 1000;
    if lo + 1 >= |v| {
      x := v[|v| - 1];
    } else {
      x := v[lo] + (2 * ((v[lo + 1] - v[lo]) * (pos % 1000)) + 1000) / 2000;
    }
  }
}
