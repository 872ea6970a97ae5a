/**
 The joiner's hash table (src/join.c): an array of chains of buckets, one bucket per key with records,
 each holding its records oldest first. `queue` is what the table stands for: the waiting records in
 arrival order. A bucket holds exactly the records of its key in that order.
 */
module JoinTable {
  import opened Records
  import opened Waiting
  import JoinSpec

  const CHAINS := 0x1_0000

  type ChainNo = h: int | 0 <= h < CHAINS

  /** lookup()'s mixing of the key into a chain number. */
  function ChainOf(key: nat): ChainNo {
    var h0 := (key % 0x1_0000_0000_0000_0000) as bv64;
    var h1 := (h0 ^ (h0 >> 33)) * 0xff51afd7ed558ccd;
    ((h1 ^ (h1 >> 33)) as nat) % CHAINS
  }

  /** The records of one key: the first `len` of the array, oldest first. */
  class Bucket {
    const key: nat
    var data: array<Rec>  // its length is cap
    var len: nat
    ghost var recs: seq<Rec>

    ghost predicate Stored()
      reads this, data
    {
      len <= data.Length && recs == data[..len]
    }

    /** A bucket with room for one record; `r` only fills the storage. */
    constructor (key: nat, r: Rec)
      ensures this.key == key && Stored() && fresh(data) && data.Length == 1 && recs == []
    {
      this.key, len, recs := key, 0, [];
      data := new Rec[1](_ => r);
    }

    method Append(r: Rec)
      requires Stored() && len < data.Length
      modifies this`len, this`recs, data
      ensures Stored() && recs == old(recs) + [r]
    {
      data[len] := r;
      len, recs := len + 1, recs + [r];
    }

    /** memmove() of the records behind one that leaves. */
    method RemoveAt(i: nat)
      requires Stored() && i < len
      modifies this`len, this`recs, data
      ensures Stored() && recs == old(recs[..i] + recs[i + 1..]) && len == old(len) - 1
    {
      MoveDown(data, i, len);
      len := len - 1;
      recs := data[..len];
    }

    static method MoveDown(a: array<Rec>, i: nat, n: nat)
      requires i < n <= a.Length
      modifies a
      ensures a[..n - 1] == old(a[..i] + a[i + 1..n])
    {
      for j := i to n - 1
        invariant forall k :: 0 <= k < j ==> a[k] == if k < i then old(a[k]) else old(a[k + 1])
        invariant forall k :: j <= k < n ==> a[k] == old(a[k])
      {
        a[j] := a[j + 1];
      }
    }

    /** realloc() */
    method Grow(cap: nat)
      requires Stored() && 0 < data.Length < cap
      modifies this`data
      ensures Stored() && fresh(data) && data.Length == cap
    {
      var a, n, filler := data, len, data[0];
      var bigger := new Rec[cap](_ => filler);
      for i := 0 to n
        invariant len == n && data == a && recs == a[..n]
        invariant forall k :: 0 <= k < i ==> bigger[k] == a[k]
      {
        bigger[i] := a[i];
      }
      data := bigger;
    }

    /** The inner loop of table_expire(): the younger records move up in the array, the older go to the callback. */
    method Compact(before: int) returns (fired: seq<Rec>)
      requires Stored()
      modifies this`len, this`recs, data
      ensures Stored() && recs == Filter(old(recs), Not(Before(before)))
      ensures fired == Filter(old(recs), Before(before))
    {
      var keep;
      keep, fired := MoveUp(data, len, before);
      len := keep;
      recs := data[..keep];
    }

    static method MoveUp(a: array<Rec>, n: nat, before: int) returns (keep: nat, fired: seq<Rec>)
      requires n <= a.Length
      modifies a
      ensures keep <= n && a[..keep] == Filter(old(a[..n]), Not(Before(before)))
      ensures fired == Filter(old(a[..n]), Before(before))
    {
      keep, fired := 0, [];
      ghost var was := a[..n];
      for i := 0 to n
        invariant keep <= i && a[..keep] == Filter(was[..i], Not(Before(before)))
        invariant fired == Filter(was[..i], Before(before))
        invariant forall k :: i <= k < n ==> a[k] == was[k]
      {
        OneMore(was, i, before);
        var r := a[i];
        if Age(r) < before {
          fired := fired + [r];
        } else {
          a[keep] := r;
          keep := keep + 1;
          assert a[..keep] == a[..keep - 1] + [r];
        }
      }
      assert was[..n] == was;
    }

    static lemma OneMore(was: seq<Rec>, i: nat, before: int)
      requires i < |was|
      ensures Filter(was[..i + 1], Before(before)) ==
              Filter(was[..i], Before(before)) + if Age(was[i]) < before then [was[i]] else []
      ensures Filter(was[..i + 1], Not(Before(before))) ==
              Filter(was[..i], Not(Before(before))) + if Age(was[i]) < before then [] else [was[i]]
    {
      assert was[..i + 1] == was[..i] + [was[i]];
      FilterSnoc(was[..i], was[i], Before(before));
      FilterSnoc(was[..i], was[i], Not(Before(before)));
    }
  }

  ghost predicate NoDuplicates(s: seq<Bucket>) {
    forall i, j :: 0 <= i < j < |s| ==> s[i] != s[j]
  }

  function Without(s: seq<Bucket>, i: nat): seq<Bucket>
    requires i < |s|
  {
    s[..i] + s[i + 1..]
  }

  lemma WithoutOne(s: seq<Bucket>, i: nat)
    requires i < |s| && NoDuplicates(s)
    ensures NoDuplicates(Without(s, i))
    ensures forall b :: b in Without(s, i) <==> b in s && b != s[i]
  {
    var rest := Without(s, i);
    assert forall j :: 0 <= j < |rest| ==> rest[j] == s[if j < i then j else j + 1];
    forall b | b in s && b != s[i] ensures b in rest {
      var j :| 0 <= j < |s| && s[j] == b;
      assert rest[if j < i then j else j - 1] == b;
    }
  }

  class Table {
    const maxPerKey: nat
    const v: array<seq<Bucket>>
    const chain: nat -> ChainNo  // ChainOf(); nothing below depends on how it mixes
    var pending: nat
    ghost var store: map<nat, Bucket>
    ghost var queue: seq<Rec>
    ghost var owner: map<object, nat>  // whose storage an array is
    ghost var Repr: set<object>

    /** Every bucket is in the chain its key names, once, and a chain holds nothing else. */
    ghost predicate Chained()
      reads this`store, v
    {
      && v.Length == CHAINS
      && (forall k :: k in store ==> store[k].key == k && store[k] in v[chain(k)])
      && (forall h, b :: 0 <= h < CHAINS && b in v[h] ==> InPlace(h, b))
      && (forall h :: 0 <= h < CHAINS ==> NoDuplicates(v[h]))
    }

    ghost predicate InPlace(h: int, b: Bucket)
      reads this`store
    {
      b.key in store && store[b.key] == b && chain(b.key) == h
    }

    /** A bucket's storage is in order, within the bound. */
    ghost predicate Sound(b: Bucket)
      reads b, b.data
    {
      b.Stored() && 0 < b.data.Length && (maxPerKey > 0 ==> b.data.Length <= maxPerKey)
    }

    ghost predicate Owned(b: Bucket, k: nat)
      reads this`Repr, this`owner, b`data
    {
      b.data in Repr && b.data in owner && owner[b.data] == k
    }

    /** The buckets are linked, and no two share storage. */
    ghost predicate Storage()
      reads this`store, this`Repr, this`owner, Repr - {this}
    {
      && {this, v} <= Repr && store.Values <= Repr
      && Chained()
      && (forall k :: k in store ==> Owned(store[k], k) && Sound(store[k]))
    }

    /** A bucket holds exactly the waiting records of its key, oldest first; that of `but` is not looked at. */
    ghost predicate Contents(q: seq<Rec>, but: int)
      reads this`store, store.Values
    {
      && (forall k :: k in store && k != but ==> store[k].recs == Filter(q, KeyIs(k)) && store[k].recs != [])
      && (forall r :: r in q ==> KeyOf(r.id) in store)
    }

    /** Between the steps of one operation the bucket of `but` may be empty. */
    ghost predicate Consistent(but: int)
      reads this, Repr
    {
      && Storage() && Contents(queue, but)
      && (but in store ==> store[but].recs == Filter(queue, KeyIs(but)))
      && pending == |queue|
    }

    ghost predicate Valid()
      reads this, Repr
    {
      Consistent(-1)
    }

    constructor (maxPerKey: nat)
      ensures Valid() && fresh(Repr)
      ensures queue == [] && this.maxPerKey == maxPerKey
    {
      this.maxPerKey, chain := maxPerKey, ChainOf;
      v := new seq<Bucket>[CHAINS](_ => []);
      pending, store, queue, owner := 0, map[], [], map[];
      Repr := {this, v};
    }

    /** lookup(): where in its chain the bucket of a key is, or the chain's end. */
    method Lookup(key: nat) returns (i: nat)
      requires Valid()
      ensures i <= |v[chain(key)]|
      ensures i < |v[chain(key)]| <==> key in store
      ensures key in store ==> v[chain(key)][i] == store[key]
    {
      var buckets := v[chain(key)];
      i := 0;
      while i < |buckets| && buckets[i].key != key
        invariant i <= |buckets|
        invariant forall j :: 0 <= j < i ==> buckets[j].key != key
      {
        i := i + 1;
      }
      assert i < |buckets| ==> InPlace(chain(key), buckets[i]);
    }

    /** Link a bucket at the end of its key's chain. */
    method Link(b: Bucket)
      requires Chained() && b.key !in store
      modifies this`store, v
      ensures Chained() && store == old(store)[b.key := b]
    {
      var buckets := v[chain(b.key)];
      assert b !in buckets;
      v[chain(b.key)] := buckets + [b];
      store := store[b.key := b];
    }

    /** Take a bucket that has become empty out of its chain. */
    method Unlink(key: nat, i: nat)
      requires Chained() && key in store
      requires i < |v[chain(key)]| && v[chain(key)][i] == store[key]
      modifies this`store, v
      ensures Chained() && store == old(store) - {key}
      ensures v[chain(key)] == old(Without(v[chain(key)], i))
      ensures forall h :: 0 <= h < CHAINS && h != chain(key) ==> v[h] == old(v[h])
    {
      var buckets := v[chain(key)];
      WithoutOne(buckets, i);
      v[chain(key)] := Without(buckets, i);
      store := store - {key};
    }

    method NewBucket(key: nat, r: Rec) returns (b: Bucket)
      requires Valid() && key !in store
      modifies this`store, this`Repr, this`owner, v
      ensures Consistent(key) && store == old(store)[key := b] && Repr == old(Repr) + {b, b.data}
      ensures fresh(b) && fresh(b.data) && b.key == key && b.recs == [] && b.len < b.data.Length
    {
      b := new Bucket(key, r);
      FilterNone(queue, KeyIs(key));
      AddStorage(b);
    }

    method AddStorage(b: Bucket)
      requires Storage() && b.key !in store && Sound(b) && b !in Repr && b.data !in Repr
      modifies this`store, this`Repr, this`owner, v
      ensures Storage() && store == old(store)[b.key := b] && Repr == old(Repr) + {b, b.data}
    {
      Own(b);
      Link(b);
    }

    ghost method Own(b: Bucket)
      requires Storage() && b.data !in Repr
      modifies this`Repr, this`owner
      ensures Storage() && Owned(b, b.key) && Repr == old(Repr) + {b, b.data}
    {
      Repr, owner := Repr + {b, b.data}, owner[b.data := b.key];
    }

    /** q2 differs from q only in the records of one key, which are `recs` there. */
    static ghost predicate Rewritten(q: seq<Rec>, q2: seq<Rec>, key: nat, recs: seq<Rec>) {
      && (forall k :: Filter(q2, KeyIs(k)) == if k == key then recs else Filter(q, KeyIs(k)))
      && (forall r :: r in q2 ==> r in q || KeyOf(r.id) == key)
    }

    /** The table comes to stand for q2, now that the bucket holds what it has of it. */
    method Follow(b: Bucket, n: int, ghost q2: seq<Rec>)
      requires Storage() && b.key in store && store[b.key] == b && Contents(queue, b.key)
      requires Rewritten(queue, q2, b.key, b.recs)
      requires pending == |queue| && |q2| == |queue| + n
      modifies this`queue, this`pending
      ensures Consistent(b.key) && queue == q2
    {
      HoldsOf(b, q2);
      pending, queue := pending + n, q2;
      assert Storage() && Contents(queue, b.key);
    }

    lemma HoldsOf(b: Bucket, q2: seq<Rec>)
      requires b.key in store && store[b.key] == b && Contents(queue, b.key) && Rewritten(queue, q2, b.key, b.recs)
      ensures Contents(q2, b.key) && b.recs == Filter(q2, KeyIs(b.key))
    {
    }

    /** Append to a bucket that has room; `pending` follows. */
    method Append(b: Bucket, r: Rec)
      requires Consistent(b.key) && b.key in store && store[b.key] == b
      requires b.key == KeyOf(r.id) && b.len < b.data.Length
      modifies this`queue, this`pending, b`len, b`recs, b.data
      ensures Valid() && queue == old(queue) + [r]
    {
      SnocShapes(queue, r);
      AppendStored(b, r);
      Follow(b, 1, queue + [r]);
    }

    method AppendStored(b: Bucket, r: Rec)
      requires Storage() && b.key in store && store[b.key] == b && b.len < b.data.Length
      modifies b`len, b`recs, b.data
      ensures Storage() && b.recs == old(b.recs) + [r]
    {
      assert forall k :: k in store && k != b.key ==> Owned(store[k], k) && store[k] != b && store[k].data != b.data;
      b.Append(r);
    }

    /** A record leaves a bucket. */
    method Remove(b: Bucket, j: nat, ghost q2: seq<Rec>)
      requires Consistent(b.key) && b.key in store && store[b.key] == b && j < b.len
      requires |q2| == |queue| - 1 && Rewritten(queue, q2, b.key, b.recs[..j] + b.recs[j + 1..])
      modifies this`queue, this`pending, b`len, b`recs, b.data
      ensures Consistent(b.key) && queue == q2 && b.len == old(b.len) - 1
    {
      RemoveStored(b, j);
      Follow(b, -1, q2);
    }

    method RemoveStored(b: Bucket, j: nat)
      requires Storage() && b.key in store && store[b.key] == b && j < b.len
      modifies b`len, b`recs, b.data
      ensures Storage() && b.recs == old(b.recs[..j] + b.recs[j + 1..]) && b.len == old(b.len) - 1
    {
      assert forall k :: k in store && k != b.key ==> Owned(store[k], k) && store[k] != b && store[k].data != b.data;
      b.RemoveAt(j);
    }

    method CompactStored(b: Bucket, before: int) returns (fired: seq<Rec>)
      requires Storage() && b.key in store && store[b.key] == b
      modifies b`len, b`recs, b.data
      ensures Storage() && b.recs == Filter(old(b.recs), Not(Before(before)))
      ensures fired == Filter(old(b.recs), Before(before))
    {
      assert forall k :: k in store && k != b.key ==> Owned(store[k], k) && store[k] != b && store[k].data != b.data;
      fired := b.Compact(before);
    }

    /** Before an append: drop the oldest record of a full bucket, or double a bucket's capacity up to the bound. */
    method MakeRoom(b: Bucket) returns (dropped: bool)
      requires Valid() && b.key in store && store[b.key] == b
      modifies this`queue, this`pending, this`Repr, this`owner, b, b.data
      ensures Consistent(b.key) && b.len < b.data.Length && store == old(store)
      ensures fresh(Repr - old(Repr)) && (b.data == old(b.data) || fresh(b.data))
      ensures dropped <==> maxPerKey > 0 && |old(b.recs)| == maxPerKey
      ensures queue == if dropped then RemoveFirst(old(queue), KeyIs(b.key)) else old(queue)
    {
      dropped := maxPerKey > 0 && b.len == maxPerKey;
      if dropped {
        PushShapes(queue, b.key);
        assert b.recs[..0] + b.recs[1..] == b.recs[1..];
        Remove(b, 0, RemoveFirst(queue, KeyIs(b.key)));
      } else if b.len == b.data.Length {
        Grow(b);
      }
    }

    method Grow(b: Bucket)
      requires Valid() && b.key in store && store[b.key] == b
      requires b.len == b.data.Length && (maxPerKey > 0 ==> b.len < maxPerKey)
      modifies b`data, this`Repr, this`owner
      ensures Valid() && b.len < b.data.Length && fresh(b.data) && Repr == old(Repr) + {b.data}
    {
      var cap := b.data.Length * 2;
      if maxPerKey > 0 && cap > maxPerKey {
        cap := maxPerKey;
      }
      GrowStored(b, cap);
    }

    method GrowStored(b: Bucket, cap: nat)
      requires Storage() && b.key in store && store[b.key] == b && b.data.Length < cap
      requires maxPerKey > 0 ==> cap <= maxPerKey
      modifies b`data, this`Repr, this`owner
      ensures Storage() && b.data.Length == cap && fresh(b.data) && Repr == old(Repr) + {b.data}
    {
      assert forall k :: k in store && k != b.key ==> store[k] != b;
      b.Grow(cap);
      Repr, owner := Repr + {b.data}, owner[b.data := b.key];
    }

    method PushFirst(r: Rec)
      requires Valid() && KeyOf(r.id) !in store
      modifies this`queue, this`pending, this`store, this`Repr, this`owner, v
      ensures Valid() && fresh(Repr - old(Repr))
      ensures queue == old(queue) + [r]
    {
      var b := NewBucket(KeyOf(r.id), r);
      Append(b, r);
    }

    method PushNext(b: Bucket, r: Rec) returns (dropped: bool)
      requires Valid() && b.key == KeyOf(r.id) && b.key in store && store[b.key] == b
      modifies this`queue, this`pending, this`Repr, this`owner, b, b.data
      ensures Valid() && fresh(Repr - old(Repr))
      ensures queue == JoinSpec.Push(old(queue), r, maxPerKey)
      ensures dropped == JoinSpec.Full(old(queue), r, maxPerKey)
    {
      dropped := MakeRoom(b);
      Append(b, r);
    }

    /** table_push(): append, dropping the key's oldest record when its bucket is full. */
    method Push(r: Rec) returns (dropped: bool)
      requires Valid()
      modifies Repr
      ensures Valid() && fresh(Repr - old(Repr))
      ensures queue == JoinSpec.Push(old(queue), r, maxPerKey)
      ensures dropped == JoinSpec.Full(old(queue), r, maxPerKey)
    {
      var key := KeyOf(r.id);
      var i := Lookup(key);
      if i == |v[chain(key)]| {
        FilterNone(queue, KeyIs(key));
        PushFirst(r);
        dropped := false;
      } else {
        dropped := PushNext(v[chain(key)][i], r);
      }
    }

    static lemma PushShapes(q: seq<Rec>, key: nat)
      requires Filter(q, KeyIs(key)) != []
      ensures |RemoveFirst(q, KeyIs(key))| == |q| - 1
      ensures Rewritten(q, RemoveFirst(q, KeyIs(key)), key, Filter(q, KeyIs(key))[1..])
    {
      FirstOfOwn(q, KeyIs(key));
      forall k | k != key ensures Filter(RemoveFirst(q, KeyIs(key)), KeyIs(k)) == Filter(q, KeyIs(k)) {
        RemoveElsewhere(q, KeyIs(key), KeyIs(k));
      }
    }

    static lemma SnocShapes(q: seq<Rec>, r: Rec)
      ensures Rewritten(q, q + [r], KeyOf(r.id), Filter(q, KeyIs(KeyOf(r.id))) + [r])
    {
      forall k ensures Filter(q + [r], KeyIs(k)) ==
                       if k == KeyOf(r.id) then Filter(q, KeyIs(k)) + [r] else Filter(q, KeyIs(k)) {
        FilterSnoc(q, r, KeyIs(k));
      }
    }

    static lemma TakeShapes(q: seq<Rec>, id: CmdId)
      ensures First(q, IdIs(id)) == First(Filter(q, KeyIs(KeyOf(id))), IdIs(id))
      ensures Rewritten(q, RemoveFirst(q, IdIs(id)), KeyOf(id), RemoveFirst(Filter(q, KeyIs(KeyOf(id))), IdIs(id)))
    {
      FirstWithin(q, IdIs(id), KeyIs(KeyOf(id)));
      InFirst(q, IdIs(id));
      forall k | k != KeyOf(id) ensures Filter(RemoveFirst(q, IdIs(id)), KeyIs(k)) == Filter(q, KeyIs(k)) {
        RemoveElsewhere(q, IdIs(id), KeyIs(k));
      }
    }

    /** The loop of table_take(): the first record in the bucket that is the same command. */
    static method FindCommand(b: Bucket, id: CmdId) returns (i: nat)
      requires b.Stored() && forall r :: r in b.recs ==> KeyOf(r.id) == KeyOf(id)
      ensures i <= b.len
      ensures i < b.len ==> First(b.recs, IdIs(id)) == Some(b.recs[i]) &&
                            RemoveFirst(b.recs, IdIs(id)) == b.recs[..i] + b.recs[i + 1..]
      ensures i == b.len ==> First(b.recs, IdIs(id)) == None && RemoveFirst(b.recs, IdIs(id)) == b.recs
    {
      i := 0;
      while i < b.len && !SameCommand(b.data[i].id, id)
        invariant i <= b.len
        invariant forall j :: 0 <= j < i ==> b.recs[j].id != id
      {
        assert b.recs[i] == b.data[i];
        i := i + 1;
      }
      if i < b.len {
        assert b.recs[i] == b.data[i] && b.recs[i] in b.recs;
        KeyAndCommandIdentify(b.recs[i].id, id);
      }
      FoundAt(b.recs, i, id);
    }

    static lemma FoundAt(recs: seq<Rec>, i: nat, id: CmdId)
      requires i <= |recs| && (forall j :: 0 <= j < i ==> recs[j].id != id)
      requires i < |recs| ==> recs[i].id == id
      ensures i < |recs| ==> First(recs, IdIs(id)) == Some(recs[i]) &&
                             RemoveFirst(recs, IdIs(id)) == recs[..i] + recs[i + 1..]
      ensures i == |recs| ==> First(recs, IdIs(id)) == None && RemoveFirst(recs, IdIs(id)) == recs
    {
      InFirst(recs[..i], IdIs(id));
      if i < |recs| {
        assert recs == recs[..i] + [recs[i]] + recs[i + 1..];
        FirstAt(recs[..i], recs[i], recs[i + 1..], IdIs(id));
      } else {
        assert recs[..i] == recs;
        RemoveNothing(recs, IdIs(id));
      }
    }

    method FreeIfEmpty(key: nat, i: nat) returns (freed: bool)
      requires Consistent(key) && key in store
      requires i < |v[chain(key)]| && v[chain(key)][i] == store[key]
      modifies this`store, v
      ensures Valid() && store.Values <= old(store.Values)
      ensures freed <==> |old(store[key].recs)| == 0
      ensures v[chain(key)] == if freed then old(Without(v[chain(key)], i)) else old(v[chain(key)])
      ensures forall h :: 0 <= h < CHAINS && h != chain(key) ==> v[h] == old(v[h])
      ensures forall k :: k in store ==> k in old(store) && store[k] == old(store[k])
    {
      freed := v[chain(key)][i].len == 0;
      if freed {
        InFilter(queue, KeyIs(key));
        Unlink(key, i);
      }
    }

    /** table_take(): remove the oldest record of the command. */
    method Take(id: CmdId) returns (out: Option<Rec>)
      requires Valid()
      modifies Repr
      ensures Valid() && Repr == old(Repr)
      ensures out == First(old(queue), IdIs(id))
      ensures queue == RemoveFirst(old(queue), IdIs(id))
    {
      var key := KeyOf(id);
      var i := Lookup(key);
      TakeShapes(queue, id);
      if i == |v[chain(key)]| {
        FilterNone(queue, KeyIs(key));
        RemoveNothing(queue, IdIs(id));
        return None;
      }
      out := TakeFrom(v[chain(key)][i], i, id);
    }

    /** Its part for the key's bucket. */
    method TakeFrom(b: Bucket, i: nat, id: CmdId) returns (out: Option<Rec>)
      requires Valid() && b.key == KeyOf(id) && b.key in store && store[b.key] == b
      requires i < |v[chain(b.key)]| && v[chain(b.key)][i] == b
      requires First(queue, IdIs(id)) == First(b.recs, IdIs(id))
      requires Rewritten(queue, RemoveFirst(queue, IdIs(id)), b.key, RemoveFirst(b.recs, IdIs(id)))
      modifies this`queue, this`pending, this`store, v, b`len, b`recs, b.data
      ensures Valid()
      ensures out == First(old(queue), IdIs(id))
      ensures queue == RemoveFirst(old(queue), IdIs(id))
    {
      InFilter(queue, KeyIs(b.key));
      var j := FindCommand(b, id);
      if j == b.len {
        RemoveNothing(queue, IdIs(id));
        return None;
      }
      out := Some(b.data[j]);
      ExtractAt(b, i, j, RemoveFirst(queue, IdIs(id)));
    }

    method ExtractAt(b: Bucket, i: nat, j: nat, ghost q2: seq<Rec>)
      requires Valid() && b.key in store && store[b.key] == b
      requires i < |v[chain(b.key)]| && v[chain(b.key)][i] == b
      requires j < b.len && |q2| == |queue| - 1 && Rewritten(queue, q2, b.key, b.recs[..j] + b.recs[j + 1..])
      modifies this`queue, this`pending, this`store, v, b`len, b`recs, b.data
      ensures Valid() && queue == q2
    {
      Remove(b, j, q2);
      var _ := FreeIfEmpty(b.key, i);
    }

    static lemma ExpireShapes(q: seq<Rec>, key: nat, before: int)
      ensures var left := Filter(q, Not(Both(KeyIs(key), Before(before))));
              && Filter(Filter(q, KeyIs(key)), Before(before)) == Filter(q, Both(KeyIs(key), Before(before)))
              && |left| + |Filter(q, Both(KeyIs(key), Before(before)))| == |q|
              && Rewritten(q, left, key, Filter(Filter(q, KeyIs(key)), Not(Before(before))))
    {
      var aged := Both(KeyIs(key), Before(before));
      var left := Filter(q, Not(aged));
      FilterTwice(q, KeyIs(key), Before(before), aged);
      FilterSplits(q, aged);
      InFilter(q, Not(aged));
      forall k ensures Filter(left, KeyIs(k)) ==
                       if k == key then Filter(Filter(q, KeyIs(k)), Not(Before(before))) else Filter(q, KeyIs(k)) {
        if k == key {
          FilterTwice(q, Not(aged), KeyIs(k), Both(KeyIs(k), Not(Before(before))));
          FilterTwice(q, KeyIs(k), Not(Before(before)), Both(KeyIs(k), Not(Before(before))));
        } else {
          FilterTwice(q, Not(aged), KeyIs(k), KeyIs(k));
        }
      }
    }

    method ExpireBucket(b: Bucket, before: int) returns (fired: seq<Rec>)
      requires Valid() && b.key in store && store[b.key] == b
      modifies this`queue, this`pending, b`len, b`recs, b.data
      ensures Consistent(b.key)
      ensures fired == Filter(old(queue), Both(KeyIs(b.key), Before(before)))
      ensures queue == Filter(old(queue), Not(Both(KeyIs(b.key), Before(before))))
    {
      ExpireShapes(queue, b.key, before);
      FilterSplits(b.recs, Before(before));
      fired := CompactStored(b, before);
      Follow(b, -|fired|, Filter(queue, Not(Both(KeyIs(b.key), Before(before)))));
    }

    /** Old records are left only in buckets that the sweep has still to visit: chain s from place i on, and later ones. */
    ghost predicate Swept(s: int, i: int, before: int)
      requires v.Length == CHAINS
      reads this, v
    {
      SweptTo(s, if 0 <= s < CHAINS && 0 <= i <= |v[s]| then v[s][i..] else [], before)
    }

    ghost predicate SweptTo(s: int, ahead: seq<Bucket>, before: int)
      reads this
    {
      forall r :: r in queue && Age(r) < before && KeyOf(r.id) in store ==>
                    chain(KeyOf(r.id)) > s || (chain(KeyOf(r.id)) == s && store[KeyOf(r.id)] in ahead)
    }

    /** What the callback has seen and what is left, for every key, against the records there were. */
    static ghost predicate Fired(was: seq<Rec>, left: seq<Rec>, fired: seq<Rec>, before: int) {
      && Filter(left, Not(Before(before))) == Filter(was, Not(Before(before)))
      && |fired| + |left| == |was|
      && forall k :: Filter(fired, KeyIs(k)) + Filter(left, Both(KeyIs(k), Before(before))) ==
                     Filter(was, Both(KeyIs(k), Before(before)))
    }

    static lemma FiredOne(was: seq<Rec>, left: seq<Rec>, fired: seq<Rec>, key: nat, before: int)
      requires Fired(was, left, fired, before)
      ensures Fired(was, Filter(left, Not(Both(KeyIs(key), Before(before)))),
                    fired + Filter(left, Both(KeyIs(key), Before(before))), before)
    {
      var aged := Both(KeyIs(key), Before(before));
      FilterTwice(left, Not(aged), Not(Before(before)), Not(Before(before)));
      FilterSplits(left, aged);
      forall k ensures Filter(fired + Filter(left, aged), KeyIs(k)) +
                       Filter(Filter(left, Not(aged)), Both(KeyIs(k), Before(before))) ==
                       Filter(was, Both(KeyIs(k), Before(before))) {
        var agedK := Both(KeyIs(k), Before(before));
        FilterConcat(fired, Filter(left, aged), KeyIs(k));
        if k == key {
          FilterTwice(left, aged, KeyIs(k), aged);
          InFilter(left, Not(aged));
          FilterNone(Filter(left, Not(aged)), agedK);
        } else {
          InFilter(left, aged);
          forall r | r in Filter(left, aged) ensures !KeyIs(k).Picks(r) { assert KeyIs(key).Picks(r); }
          FilterNone(Filter(left, aged), KeyIs(k));
          FilterTwice(left, Not(aged), agedK, agedK);
        }
      }
    }

    /** One bucket of the sweep: the old records under its key go, and an empty bucket is freed. */
    method SweepBucket(s: nat, i: nat, before: int) returns (fired: seq<Rec>, freed: bool)
      requires Valid() && s < CHAINS && i < |v[s]| && Swept(s, i, before)
      modifies Repr
      ensures Valid() && Repr == old(Repr)
      ensures fired == Filter(old(queue), Both(KeyIs(old(v[s][i].key)), Before(before)))
      ensures queue == Filter(old(queue), Not(Both(KeyIs(old(v[s][i].key)), Before(before))))
      ensures freed ==> i <= |v[s]| == |old(v[s])| - 1 && Swept(s, i, before)
      ensures !freed ==> v[s] == old(v[s]) && Swept(s, i + 1, before)
    {
      var b := v[s][i];
      assert InPlace(s, b);
      AgedGone(queue, b.key, before);
      ghost var rest := v[s][i + 1..];
      assert v[s][i..] == [b] + rest;
      fired := ExpireBucket(b, before);
      assert SweptTo(s, rest, before);
      freed := FreeIfEmpty(b.key, i);
      assert freed ==> v[s][i..] == rest;
    }

    static lemma AgedGone(q: seq<Rec>, key: nat, before: int)
      ensures forall r :: r in Filter(q, Not(Both(KeyIs(key), Before(before)))) ==>
                            r in q && (Age(r) < before ==> KeyOf(r.id) != key)
    {
      var aged := Both(KeyIs(key), Before(before));
      InFilter(q, Not(aged));
      forall r | Not(aged).Picks(r) && KeyIs(key).Picks(r) ensures !Before(before).Picks(r) {
        assert !aged.Picks(r);
      }
    }

    /** table_expire(): the records older than `before` go, each to the callback once, the others stay in order. */
    method Expire(before: int) returns (fired: seq<Rec>)
      requires Valid()
      modifies Repr
      ensures Valid() && Repr == old(Repr)
      ensures queue == Filter(old(queue), Not(Before(before)))
      ensures forall k :: Filter(fired, KeyIs(k)) == Filter(Filter(old(queue), Before(before)), KeyIs(k))
      ensures |fired| == |Filter(old(queue), Before(before))|
    {
      fired := [];
      ghost var was := queue;
      for s := 0 to CHAINS
        invariant Valid() && Repr == old(Repr)
        invariant Swept(s, 0, before)
        invariant Fired(was, queue, fired, before)
      {
        var i := 0;
        while i < |v[s]|
          invariant Valid() && Repr == old(Repr)
          invariant 0 <= i <= |v[s]| && Swept(s, i, before)
          invariant Fired(was, queue, fired, before)
          decreases |v[s]| - i
        {
          ghost var left := queue;
          FiredOne(was, queue, fired, v[s][i].key, before);
          var some, freed := SweepBucket(s, i, before);
          fired := fired + some;
          if !freed {
            i := i + 1;
          }
        }
      }
      AllFired(was, queue, fired, before);
    }

    static lemma AllFired(was: seq<Rec>, left: seq<Rec>, fired: seq<Rec>, before: int)
      requires Fired(was, left, fired, before)
      requires forall r :: r in left ==> Age(r) >= before
      ensures left == Filter(was, Not(Before(before)))
      ensures |fired| == |Filter(was, Before(before))|
      ensures forall k :: Filter(fired, KeyIs(k)) == Filter(Filter(was, Before(before)), KeyIs(k))
    {
      FilterAll(left, Not(Before(before)));
      FilterSplits(was, Before(before));
      forall k ensures Filter(fired, KeyIs(k)) == Filter(Filter(was, Before(before)), KeyIs(k)) {
        FilterNone(left, Both(KeyIs(k), Before(before)));
        FilterTwice(was, Before(before), KeyIs(k), Both(KeyIs(k), Before(before)));
      }
    }
  }
}
