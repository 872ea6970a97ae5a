/**
 ntp_sample_hash() (bpf/ntprof.h): both machines sample a command when this hash of its cid, slba and nlb is a
 multiple of the sampling rate. The finaliser is a bijection of 64-bit words, so distinct words never collide.
 Words are numbers below 2^64; shifts and exclusive or are defined bit by bit.
 */
module SampleHash {
  import opened Records

  const WORD := 0x1_0000_0000_0000_0000

  function Shr(x: nat, n: nat): (r: nat)
    ensures n > 0 ==> r <= x / 2
    ensures r <= x
  {
    if n == 0 then x else Shr(x / 2, n - 1)
  }

  function Xor(a: nat, b: nat): nat {
    if a == 0 && b == 0 then 0 else 2 * Xor(a / 2, b / 2) + (a + b) % 2
  }

  /** The last bit and the others. */
  lemma XorBits(a: nat, b: nat)
    ensures Xor(a, b) / 2 == Xor(a / 2, b / 2) && Xor(a, b) % 2 == (a + b) % 2
  {
    if a == 0 && b == 0 { assert a / 2 == 0 && b / 2 == 0; }
  }

  lemma {:induction false} XorCancels(a: nat, b: nat)
    ensures Xor(Xor(a, b), b) == a
  {
    if a != 0 || b != 0 {
      var x := Xor(a, b);
      XorBits(a, b);
      XorBits(x, b);
      XorCancels(a / 2, b / 2);
      SameBits(Xor(x, b), a, b, x);
    }
  }

  lemma SameBits(y: nat, a: nat, b: nat, x: nat)
    requires y / 2 == a / 2 && x % 2 == (a + b) % 2 && y % 2 == (x + b) % 2
    ensures y == a
  {
    assert (x + b) % 2 == (a + b + b) % 2 == a % 2;
  }

  lemma {:induction false} XorZero(a: nat)
    ensures Xor(a, 0) == a
  {
    if a != 0 { XorZero(a / 2); }
  }

  /** Shifting right distributes over exclusive or. */
  lemma {:induction false} ShrXor(a: nat, b: nat, n: nat)
    ensures Shr(Xor(a, b), n) == Xor(Shr(a, n), Shr(b, n))
  {
    if n > 0 {
      assert Xor(a, b) / 2 == Xor(a / 2, b / 2);
      ShrXor(a / 2, b / 2, n - 1);
    }
  }

  lemma {:induction false} ShrZero(n: nat)
    ensures Shr(0, n) == 0
  {
    if n > 0 { ShrZero(n - 1); }
  }

  /** Exclusive or of two k-bit numbers has k bits. */
  lemma {:induction false} XorBelow(a: nat, b: nat, k: nat, bound: nat)
    requires a < bound && b < bound && bound == Pow2(k)
    ensures Xor(a, b) < bound
  {
    if k > 0 {
      XorBits(a, b);
      XorBelow(a / 2, b / 2, k - 1, Pow2(k - 1));
    }
  }

  function Pow2(n: nat): nat {
    if n == 0 then 1 else 2 * Pow2(n - 1)
  }

  // ---- x ^= x >> n ----

  function ShiftMix(x: nat, n: nat): nat {
    Xor(x, Shr(x, n))
  }

  /** Its inverse: the high bits come back first and undo the rest. */
  function Unshift(y: nat, n: nat): nat
    requires n > 0
    decreases y
  {
    if y == 0 then 0 else Xor(y, Unshift(Shr(y, n), n))
  }

  lemma {:induction false} UnshiftAfter(x: nat, n: nat)
    requires n > 0
    ensures Unshift(ShiftMix(x, n), n) == x
    decreases x
  {
    if x > 0 {
      var y, z := ShiftMix(x, n), Shr(x, n);
      UnshiftAfter(z, n);
      ShrXor(x, z, n);
      XorCancels(x, z);
      ShrZero(n);
      XorZero(x);
    }
  }

  lemma {:induction false} UnshiftBefore(y: nat, n: nat)
    requires n > 0
    ensures ShiftMix(Unshift(y, n), n) == y
    decreases y
  {
    ShrZero(n);
    if y > 0 {
      var z := Unshift(Shr(y, n), n);
      UnshiftBefore(Shr(y, n), n);
      ShrXor(y, z, n);
      XorCancels(z, Shr(z, n));
      XorCancels(y, z);
    }
  }

  // ---- x *= odd constant, modulo 2^64 ----

  function Times(x: nat, c: nat): u64 {
    (x * c) % WORD
  }

  /** Multiplying by c and then by its inverse d modulo 2^64 gives the word back. */
  lemma TimesInverse(x: u64, c: nat, d: nat)
    requires (c * d) % WORD == 1
    ensures Times(Times(x, c), d) == x
  {
    var q, k := (x * c) / WORD, (c * d) / WORD;
    assert c * d == 1 + k * WORD;
    assert Times(x, c) == x * c - q * WORD;
    calc {
      Times(x, c) * d;
      (x * c - q * WORD) * d;
      x * (c * d) - q * d * WORD;
      x * (1 + k * WORD) - q * d * WORD;
      x + (x * k - q * d) * WORD;
    }
    ModIs(Times(x, c) * d, x, x * k - q * d);
  }

  lemma TimesBack(x: u64, c: nat, d: nat)
    requires (c * d) % WORD == 1
    ensures Times(Times(x, d), c) == x
  {
    assert c * d == d * c;
    TimesInverse(x, d, c);
  }

  lemma ModIs(a: nat, x: u64, m: int)
    requires a == x + m * WORD
    ensures a % WORD == x
  {
  }

  // ---- the finaliser ----

  /** Three xor-shifts with two multiplications between them, and the way back. */
  datatype Steps = Steps(shift1: nat, mul1: nat, inv1: nat, shift2: nat, mul2: nat, inv2: nat, shift3: nat) {
    ghost predicate Invertible() {
      && shift1 > 0 && shift2 > 0 && shift3 > 0
      && (mul1 * inv1) % WORD == 1 && (mul2 * inv2) % WORD == 1
    }

    function Forth(x: nat): nat {
      ShiftMix(Times(ShiftMix(Times(ShiftMix(x, shift1), mul1), shift2), mul2), shift3)
    }

    function Back(y: nat): nat
      requires shift1 > 0 && shift2 > 0 && shift3 > 0
    {
      Unshift(Times(Unshift(Times(Unshift(y, shift3), inv2), shift2), inv1), shift1)
    }
  }

  /** splitmix64's */
  const STEPS := Steps(30, 0xbf58476d1ce4e5b9, 0x96de1b173f119089, 27, 0x94d049bb133111eb, 0x319642b2d24d8ec3, 31)

  function Finalise(x: u64): nat {
    STEPS.Forth(x)
  }

  function Unfinalise(y: u64): nat {
    STEPS.Back(y)
  }

  lemma WordsStay(x: u64, n: nat)
    requires n > 0
    ensures ShiftMix(x, n) < WORD && Unshift(x, n) < WORD
  {
    WordIs();
    XorBelow(x, Shr(x, n), 64, WORD);
    UnshiftBelow(x, n);
  }

  lemma {:induction false} Pow2Sum(a: nat, b: nat)
    ensures Pow2(a + b) == Pow2(a) * Pow2(b)
  {
    if a > 0 { Pow2Sum(a - 1, b); }
  }

  lemma WordIs()
    ensures Pow2(64) == WORD
  {
    assert Pow2(4) == 16;
    Pow2Sum(4, 4);
    Pow2Sum(8, 8);
    Pow2Sum(16, 16);
    Pow2Sum(32, 32);
  }

  lemma {:induction false} UnshiftBelow(y: u64, n: nat)
    requires n > 0
    ensures Unshift(y, n) < WORD
    decreases y
  {
    if y > 0 {
      UnshiftBelow(Shr(y, n), n);
      WordIs();
      XorBelow(y, Unshift(Shr(y, n), n), 64, WORD);
    }
  }

  /** The finaliser maps 64-bit words to 64-bit words one to one and onto. */
  lemma Bijective(x: u64)
    ensures Finalise(x) < WORD && Unfinalise(x) < WORD
    ensures Unfinalise(Finalise(x)) == x
    ensures Finalise(Unfinalise(x)) == x
  {
    BackAfterForth(STEPS, x);
    ForthAfterBack(STEPS, x);
  }

  lemma BackAfterForth(s: Steps, x: u64)
    requires s.Invertible()
    ensures s.Forth(x) < WORD && s.Back(s.Forth(x)) == x
  {
    var a := ShiftMix(x, s.shift1);
    var b := Times(a, s.mul1);
    var c := ShiftMix(b, s.shift2);
    var d := Times(c, s.mul2);
    WordsStay(x, s.shift1);
    WordsStay(b, s.shift2);
    WordsStay(d, s.shift3);
    UnshiftAfter(x, s.shift1);
    UnshiftAfter(b, s.shift2);
    UnshiftAfter(d, s.shift3);
    TimesInverse(a, s.mul1, s.inv1);
    TimesInverse(c, s.mul2, s.inv2);
  }

  lemma ForthAfterBack(s: Steps, y: u64)
    requires s.Invertible()
    ensures s.Back(y) < WORD && s.Forth(s.Back(y)) == y
  {
    var d := Unshift(y, s.shift3);
    var c := Times(d, s.inv2);
    var b := Unshift(c, s.shift2);
    var a := Times(b, s.inv1);
    WordsStay(y, s.shift3);
    WordsStay(c, s.shift2);
    WordsStay(a, s.shift1);
    UnshiftBefore(y, s.shift3);
    UnshiftBefore(c, s.shift2);
    UnshiftBefore(a, s.shift1);
    TimesBack(d, s.mul2, s.inv2);
    TimesBack(b, s.mul1, s.inv1);
  }

  function Mix(cid: u16, slba: u64, nlb: u16): nat {
    Xor(Xor(slba, cid * 0x1_0000_0000_0000), nlb * 0x1_0000_0000)
  }

  lemma MixIsWord(cid: u16, slba: u64, nlb: u16)
    ensures Mix(cid, slba, nlb) < WORD
  {
    WordIs();
    XorBelow(slba, cid * 0x1_0000_0000_0000, 64, WORD);
    XorBelow(Xor(slba, cid * 0x1_0000_0000_0000), nlb * 0x1_0000_0000, 64, WORD);
  }

  /** ntp_sample_hash() */
  function Hash(cid: u16, slba: u64, nlb: u16): (h: nat)
    ensures h < WORD
  {
    MixIsWord(cid, slba, nlb);
    BackAfterForth(STEPS, Mix(cid, slba, nlb));
    Finalise(Mix(cid, slba, nlb))
  }

  /** For the same cid and nlb, two commands hash alike exactly if they start at the same block. */
  lemma NoCollision(cid: u16, nlb: u16, slba1: u64, slba2: u64)
    ensures Hash(cid, slba1, nlb) == Hash(cid, slba2, nlb) <==> slba1 == slba2
  {
    var c, l := cid * 0x1_0000_0000_0000, nlb * 0x1_0000_0000;
    MixIsWord(cid, slba1, nlb);
    MixIsWord(cid, slba2, nlb);
    BackAfterForth(STEPS, Mix(cid, slba1, nlb));
    BackAfterForth(STEPS, Mix(cid, slba2, nlb));
    XorCancels(Xor(slba1, c), l);
    XorCancels(Xor(slba2, c), l);
    XorCancels(slba1, c);
    XorCancels(slba2, c);
  }

  // ---- every field matters ----

  lemma {:induction false} XorCommutes(a: nat, b: nat)
    ensures Xor(a, b) == Xor(b, a)
  {
    if a != 0 || b != 0 { XorCommutes(a / 2, b / 2); }
  }

  lemma {:induction false} XorAssociates(a: nat, b: nat, c: nat)
    ensures Xor(Xor(a, b), c) == Xor(a, Xor(b, c))
    decreases a + b + c
  {
    if a + b + c > 0 {
      var x, y := Xor(a, b), Xor(b, c);
      XorBits(a, b);
      XorBits(b, c);
      XorAssociates(a / 2, b / 2, c / 2);
      XorBits(x, c);
      XorBits(a, y);
      SameWord(Xor(x, c), Xor(a, y), a, b, c, x, y);
    }
  }

  /** Equal but for the last bit, and that is the parity of all three. */
  lemma SameWord(p: nat, q: nat, a: nat, b: nat, c: nat, x: nat, y: nat)
    requires p / 2 == q / 2 && p % 2 == (x + c) % 2 && q % 2 == (a + y) % 2
    requires x % 2 == (a + b) % 2 && y % 2 == (b + c) % 2
    ensures p == q
  {
    assert (x + c) % 2 == (a + b + c) % 2;
    assert (a + y) % 2 == (a + b + c) % 2;
  }

  /** Numbers that share no bit: exclusive or adds them. */
  lemma {:induction false} XorOfParts(high: nat, low: nat, k: nat)
    requires low < Pow2(k)
    ensures Xor(high * Pow2(k), low) == high * Pow2(k) + low
  {
    if k == 0 {
      XorZero(high);
    } else {
      var p := Pow2(k - 1);
      XorOfParts(high, low / 2, k - 1);
      Doubled(high, p);
      DoubleParts(high * (2 * p), high * p, low);
    }
  }

  lemma Doubled(a: nat, p: nat)
    ensures a * (2 * p) == 2 * (a * p)
  {
  }

  lemma DoubleParts(h: nat, half: nat, low: nat)
    requires h == 2 * half && Xor(half, low / 2) == half + low / 2
    ensures Xor(h, low) == h + low
  {
    XorBits(h, low);
    assert h / 2 == half && (h + low) % 2 == low % 2;
  }

  lemma FieldsApart(cid: u16, nlb: u16)
    ensures Xor(cid * 0x1_0000_0000_0000, nlb * 0x1_0000_0000) == cid * 0x1_0000_0000_0000 + nlb * 0x1_0000_0000
  {
    assert Pow2(48) == 0x1_0000_0000_0000 by {
      assert Pow2(4) == 16;
      Pow2Sum(4, 4);
      Pow2Sum(8, 8);
      Pow2Sum(16, 16);
      Pow2Sum(32, 16);
    }
    XorOfParts(cid, nlb * 0x1_0000_0000, 48);
  }

  /** Two commands that start at the same block hash alike exactly if they have the same cid and the same length. */
  lemma CidAndLengthCount(slba: u64, cid1: u16, nlb1: u16, cid2: u16, nlb2: u16)
    ensures Hash(cid1, slba, nlb1) == Hash(cid2, slba, nlb2) <==> cid1 == cid2 && nlb1 == nlb2
  {
    if Hash(cid1, slba, nlb1) == Hash(cid2, slba, nlb2) {
      MixOf(slba, cid1, nlb1);
      MixOf(slba, cid2, nlb2);
    }
  }

  /** The hash gives back where cid and length were mixed in. */
  lemma MixOf(slba: u64, cid: u16, nlb: u16)
    ensures Hash(cid, slba, nlb) < WORD
    ensures Xor(Unfinalise(Hash(cid, slba, nlb)), slba) == cid * 0x1_0000_0000_0000 + nlb * 0x1_0000_0000
  {
    MixIsWord(cid, slba, nlb);
    BackAfterForth(STEPS, Mix(cid, slba, nlb));
    Unmixed(slba, cid * 0x1_0000_0000_0000, nlb * 0x1_0000_0000);
    FieldsApart(cid, nlb);
  }

  lemma Unmixed(s: nat, c: nat, l: nat)
    ensures Xor(Xor(Xor(s, c), l), s) == Xor(c, l)
  {
    XorAssociates(s, c, l);
    XorCommutes(s, Xor(c, l));
    XorCancels(Xor(c, l), s);
  }
}
