/**
 The joiner's waiting records as one sequence in arrival order. A bucket of the hash table is the
 subsequence under one key; the records of one command are the subsequence under one identity.
 */
module Waiting {
  import opened Records

  /** key_of(): three 16-bit fields packed into one word. */
  function KeyOf(id: CmdId): nat {
    id.cntlid * 0x1_0000_0000 + id.qid * 0x1_0000 + id.cid
  }

  /** same_command(): what the key leaves open. */
  predicate SameCommand(a: CmdId, b: CmdId) {
    a.opcode == b.opcode && a.nsid == b.nsid && a.slba == b.slba && a.nlb == b.nlb
  }

  /** The packing loses nothing: key and same_command together identify the command. */
  lemma KeyAndCommandIdentify(a: CmdId, b: CmdId)
    ensures KeyOf(a) == KeyOf(b) <==> a.cntlid == b.cntlid && a.qid == b.qid && a.cid == b.cid
    ensures KeyOf(a) == KeyOf(b) && SameCommand(a, b) <==> a == b
  {
  }

  /** Which records an operation is about. */
  datatype Sel = KeyIs(key: nat) | IdIs(id: CmdId) | Before(ns: int) | Not(of: Sel) | Both(fst: Sel, snd: Sel) {
    predicate Picks(r: Rec) {
      match this
      case KeyIs(k) => KeyOf(r.id) == k
      case IdIs(id) => r.id == id
      case Before(ns) => Age(r) < ns
      case Not(s) => !s.Picks(r)
      case Both(a, b) => a.Picks(r) && b.Picks(r)
    }
  }

  function Filter(q: seq<Rec>, sel: Sel): seq<Rec> {
    if q == [] then []
    else if sel.Picks(q[0]) then [q[0]] + Filter(q[1..], sel)
    else Filter(q[1..], sel)
  }

  /** The oldest record picked, if any. */
  function First(q: seq<Rec>, sel: Sel): Option<Rec> {
    if q == [] then None
    else if sel.Picks(q[0]) then Some(q[0])
    else First(q[1..], sel)
  }

  /** What is left once the oldest record picked is gone. */
  function RemoveFirst(q: seq<Rec>, sel: Sel): (rest: seq<Rec>)
    ensures |rest| == if First(q, sel).Some? then |q| - 1 else |q|
  {
    if q == [] then []
    else if sel.Picks(q[0]) then q[1..]
    else [q[0]] + RemoveFirst(q[1..], sel)
  }

  // ---- laws of the three ----

  lemma {:induction false} InFirst(q: seq<Rec>, sel: Sel)
    ensures var f := First(q, sel);
            && (f.Some? ==> f.value in q && sel.Picks(f.value))
            && (f.None? <==> forall r :: r in q ==> !sel.Picks(r))
    ensures forall r :: r in RemoveFirst(q, sel) ==> r in q
  {
    if q != [] { InFirst(q[1..], sel); }
  }

  lemma {:induction false} InFilter(q: seq<Rec>, sel: Sel)
    ensures forall r :: r in Filter(q, sel) <==> r in q && sel.Picks(r)
  {
    if q != [] { InFilter(q[1..], sel); }
  }

  lemma {:induction false} FilterConcat(a: seq<Rec>, b: seq<Rec>, sel: Sel)
    ensures Filter(a + b, sel) == Filter(a, sel) + Filter(b, sel)
  {
    if a == [] {
      assert a + b == b;
    } else {
      var ab := a + b;
      assert ab[0] == a[0] && ab[1..] == a[1..] + b;
      FilterConcat(a[1..], b, sel);
    }
  }

  lemma FilterSnoc(q: seq<Rec>, r: Rec, sel: Sel)
    ensures Filter(q + [r], sel) == if sel.Picks(r) then Filter(q, sel) + [r] else Filter(q, sel)
  {
    FilterConcat(q, [r], sel);
    assert Filter([r], sel) == if sel.Picks(r) then [r] else [] by {
      assert [r][1..] == [];
    }
  }

  /** Filtering twice keeps what both selections keep, in any selection that agrees with both. */
  lemma {:induction false} FilterTwice(q: seq<Rec>, a: Sel, b: Sel, both: Sel)
    requires forall r :: r in q ==> (both.Picks(r) <==> a.Picks(r) && b.Picks(r))
    ensures Filter(Filter(q, a), b) == Filter(q, both)
  {
    if q != [] {
      FilterTwice(q[1..], a, b, both);
      if a.Picks(q[0]) {
        assert Filter(q, a)[1..] == Filter(q[1..], a);
      }
    }
  }

  lemma {:induction false} FilterAll(q: seq<Rec>, sel: Sel)
    requires forall r :: r in q ==> sel.Picks(r)
    ensures Filter(q, sel) == q
  {
    if q != [] { FilterAll(q[1..], sel); }
  }

  lemma {:induction false} FilterNone(q: seq<Rec>, sel: Sel)
    requires forall r :: r in q ==> !sel.Picks(r)
    ensures Filter(q, sel) == []
  {
    if q != [] { FilterNone(q[1..], sel); }
  }

  /** A selection and its complement split the sequence. */
  lemma {:induction false} FilterSplits(q: seq<Rec>, sel: Sel)
    ensures multiset(q) == multiset(Filter(q, sel)) + multiset(Filter(q, Not(sel)))
    ensures |q| == |Filter(q, sel)| + |Filter(q, Not(sel))|
  {
    if q != [] {
      FilterSplits(q[1..], sel);
      assert q == [q[0]] + q[1..];
    }
  }

  /** The first of `sel` is the first of the records that a wider selection keeps. */
  lemma {:induction false} FirstWithin(q: seq<Rec>, sel: Sel, wide: Sel)
    requires forall r :: r in q && sel.Picks(r) ==> wide.Picks(r)
    ensures First(q, sel) == First(Filter(q, wide), sel)
    ensures Filter(RemoveFirst(q, sel), wide) == RemoveFirst(Filter(q, wide), sel)
  {
    if q != [] {
      FirstWithin(q[1..], sel, wide);
      if sel.Picks(q[0]) {
        assert Filter(q, wide)[1..] == Filter(q[1..], wide);
      } else {
        var rest := RemoveFirst(q[1..], sel);
        assert RemoveFirst(q, sel) == [q[0]] + rest;
        assert ([q[0]] + rest)[1..] == rest;
        if wide.Picks(q[0]) {
          assert Filter(q, wide)[1..] == Filter(q[1..], wide);
        }
      }
    }
  }

  /** Removing a record leaves every selection without that kind of record alone. */
  lemma {:induction false} RemoveElsewhere(q: seq<Rec>, sel: Sel, other: Sel)
    requires forall r :: r in q && sel.Picks(r) ==> !other.Picks(r)
    ensures Filter(RemoveFirst(q, sel), other) == Filter(q, other)
  {
    if q != [] && !sel.Picks(q[0]) {
      RemoveElsewhere(q[1..], sel, other);
      assert RemoveFirst(q, sel)[1..] == RemoveFirst(q[1..], sel);
    }
  }

  /** It is enough that the one removed is not of that kind. */
  lemma {:induction false} RemoveAnother(q: seq<Rec>, sel: Sel, other: Sel)
    requires First(q, sel).Some? ==> !other.Picks(First(q, sel).value)
    ensures Filter(RemoveFirst(q, sel), other) == Filter(q, other)
  {
    if q != [] && !sel.Picks(q[0]) {
      RemoveAnother(q[1..], sel, other);
      assert RemoveFirst(q, sel)[1..] == RemoveFirst(q[1..], sel);
    }
  }

  /** Ageing and selecting commute; nothing old selected, nothing selected goes. */
  lemma AgedOfOwn(q: seq<Rec>, aged: Sel, own: Sel)
    ensures multiset(Filter(q, own)) == multiset(Filter(Filter(q, aged), own)) + multiset(Filter(Filter(q, Not(aged)), own))
    ensures Filter(Filter(q, aged), own) == [] ==> Filter(Filter(q, Not(aged)), own) == Filter(q, own)
  {
    FilterTwice(q, aged, own, Both(own, aged));
    FilterTwice(q, own, aged, Both(own, aged));
    FilterTwice(q, Not(aged), own, Both(own, Not(aged)));
    FilterTwice(q, own, Not(aged), Both(own, Not(aged)));
    FilterSplits(Filter(q, own), aged);
    if Filter(Filter(q, aged), own) == [] {
      InFilter(Filter(q, own), aged);
      FilterAll(Filter(q, own), Not(aged));
    }
  }

  /** Removing the first of a sequence whose records are all picked is taking its tail. */
  lemma FirstOfAll(q: seq<Rec>, sel: Sel)
    requires forall r :: r in q ==> sel.Picks(r)
    ensures First(q, sel) == if q == [] then None else Some(q[0])
    ensures RemoveFirst(q, sel) == if q == [] then [] else q[1..]
  {
  }

  lemma {:induction false} RemoveNothing(q: seq<Rec>, sel: Sel)
    requires First(q, sel) == None
    ensures RemoveFirst(q, sel) == q
  {
    if q != [] { RemoveNothing(q[1..], sel); }
  }

  /** The first one by position: nothing picked in `a`, then r. */
  lemma {:induction false} FirstAt(a: seq<Rec>, r: Rec, b: seq<Rec>, sel: Sel)
    requires sel.Picks(r) && First(a, sel) == None
    ensures First(a + [r] + b, sel) == Some(r) && RemoveFirst(a + [r] + b, sel) == a + b
  {
    var q := a + [r] + b;
    if a == [] {
      assert q[0] == r && q[1..] == b && a + b == b;
    } else {
      var tail := a[1..];
      FirstAt(tail, r, b, sel);
      assert q[0] == a[0] && q[1..] == tail + [r] + b;
      assert [a[0]] + (tail + b) == a + b;
    }
  }

  /** First and RemoveFirst, seen from the records that the same selection keeps. */
  lemma FirstOfOwn(q: seq<Rec>, sel: Sel)
    ensures var f := Filter(q, sel);
            && First(q, sel) == (if f == [] then None else Some(f[0]))
            && Filter(RemoveFirst(q, sel), sel) == (if f == [] then [] else f[1..])
  {
    FirstWithin(q, sel, sel);
    InFilter(q, sel);
    FirstOfAll(Filter(q, sel), sel);
  }

  lemma {:induction false} RemoveFirstMultiset(q: seq<Rec>, sel: Sel)
    requires First(q, sel).Some?
    ensures multiset(q) == multiset(RemoveFirst(q, sel)) + multiset{First(q, sel).value}
  {
    assert q == [q[0]] + q[1..];
    if !sel.Picks(q[0]) { RemoveFirstMultiset(q[1..], sel); }
  }

  /** A sequence is known, as a multiset, from its restrictions to the single keys. */
  lemma SameByKey(a: seq<Rec>, b: seq<Rec>)
    requires forall k :: Filter(a, KeyIs(k)) == Filter(b, KeyIs(k))
    ensures multiset(a) == multiset(b)
  {
    forall r ensures multiset(a)[r] == multiset(b)[r] {
      CountInFilter(a, KeyIs(KeyOf(r.id)), r);
      CountInFilter(b, KeyIs(KeyOf(r.id)), r);
    }
  }

  lemma {:induction false} CountInFilter(q: seq<Rec>, sel: Sel, r: Rec)
    requires sel.Picks(r)
    ensures multiset(q)[r] == multiset(Filter(q, sel))[r]
  {
    if q != [] {
      CountInFilter(q[1..], sel, r);
      assert q == [q[0]] + q[1..];
    }
  }
}
