/** Rounding a requested size up to a power of two, by smearing the top bit of a 32-bit
    word downwards. */
module RoundUp {
  import opened Probe

  const WORD: nat := 0x1_0000_0000

  function Or(a: nat, b: nat): nat
    decreases a + b
  {
    if a == 0 && b == 0 then 0 else
    2 * Or(a / 2, b / 2) + if a % 2 == 1 || b % 2 == 1 then 1 else 0
  }

  function Shr(v: nat, s: nat): nat
    decreases s
  {
    if s == 0 then v else Shr(v / 2, s - 1)
  }

  function Smear(v: nat, s: nat): nat { Or(v, Shr(v, s)) }

  /** Decrement, smear five times, increment, all modulo 2^32. */
  function KRoundUp32(x: nat): nat
    requires x < WORD
  {
    var y := (x + WORD - 1) % WORD;
    (Smear(Smear(Smear(Smear(Smear(y, 1), 2), 4), 8), 16) + 1) % WORD
  }

  function And(a: nat, b: nat): nat
    decreases a + b
  {
    if a == 0 && b == 0 then 0 else
    2 * And(a / 2, b / 2) + if a % 2 == 1 && b % 2 == 1 then 1 else 0
  }

  /** Masking with a power of two less one is taking the remainder. */
  lemma {:induction false} MaskIsWrap(s: nat, k: nat)
    ensures And(s, Pow(k) - 1) == Wrap(s, Pow(k))
    decreases k
  {
    hide Wrap, And;
    if k == 0 {
      MaskNone(s);
      RemainderOne(s);
    } else {
      MaskIsWrap(s / 2, k - 1);
      HalfRemainder(s, Pow(k - 1));
      OddMask(s, Pow(k - 1));
    }
  }

  lemma RemainderOne(s: nat)
    ensures Wrap(s, 1) == 0
  {
  }

  lemma OddMask(s: nat, p: nat)
    requires p > 0
    ensures And(s, 2 * p - 1) == 2 * And(s / 2, p - 1) + s % 2
  {
    assert (2 * p - 1) / 2 == p - 1 && (2 * p - 1) % 2 == 1;
  }

  lemma {:induction false} MaskNone(s: nat)
    ensures And(s, 0) == 0
  {
    if s > 0 { MaskNone(s / 2); }
  }

  lemma HalfRemainder(s: nat, p: nat)
    requires p > 0
    ensures Wrap(s, 2 * p) == 2 * Wrap(s / 2, p) + s % 2
  {
    hide Mul, Wrap;
    var q := DivMod(s / 2, p);
    var q' := DivMod(s, 2 * p);
    MulLaws(q, 0, p);
    MulLaws(q, q', 2 * p);
    SmallMultiple(q as int - q' as int, 2 * p, Wrap(s, 2 * p) - (2 * Wrap(s / 2, p) + s % 2));
  }

  // ----- bit by bit -----

  predicate Bit(v: nat, i: nat)
    decreases i
  {
    if i == 0 then v % 2 == 1 else Bit(v / 2, i - 1)
  }

  lemma OrHalves(a: nat, b: nat)
    ensures Or(a, b) / 2 == Or(a / 2, b / 2)
    ensures Or(a, b) % 2 == 1 <==> a % 2 == 1 || b % 2 == 1
  {
  }

  lemma {:induction false} OrBit(a: nat, b: nat, i: nat)
    ensures Bit(Or(a, b), i) <==> Bit(a, i) || Bit(b, i)
    decreases i
  {
    hide Or;
    OrHalves(a, b);
    if i > 0 { OrBit(a / 2, b / 2, i - 1); }
  }

  lemma {:induction false} ShrBit(v: nat, s: nat, i: nat)
    ensures Bit(Shr(v, s), i) <==> Bit(v, i + s)
    decreases s
  {
    if s > 0 { ShrBit(v / 2, s - 1, i); }
  }

  /** No bit at `k` or above, and the `t` bits below `k` all set. */
  ghost predicate TopOnes(v: nat, k: nat, t: nat) {
    (forall i: nat | i >= k :: !Bit(v, i)) && (forall i: nat | i < k <= i + t :: Bit(v, i))
  }

  /** Smearing by t doubles a run of t ones at the top. */
  lemma SmearDoubles(v: nat, k: nat, t: nat)
    requires TopOnes(v, k, t)
    ensures TopOnes(Smear(v, t), k, 2 * t)
  {
    hide Bit, Smear;
    var w := Smear(v, t);
    forall i: nat | i >= k ensures !Bit(w, i) {
      SmearBit(v, t, i);
      assert !Bit(v, i) && !Bit(v, i + t);
    }
    forall i: nat | i < k <= i + 2 * t ensures Bit(w, i) {
      SmearBit(v, t, i);
      assert k <= i + t ==> Bit(v, i);
      assert i + t < k ==> Bit(v, i + t);
    }
  }

  lemma SmearBit(v: nat, t: nat, i: nat)
    ensures Bit(Smear(v, t), i) <==> Bit(v, i) || Bit(v, i + t)
  {
    hide Bit, Or, Shr;
    OrBit(v, Shr(v, t), i);
    ShrBit(v, t, i);
  }

  lemma {:induction false} NoBits(v: nat)
    requires forall i: nat :: !Bit(v, i)
    ensures v == 0
    decreases v
  {
    assert !Bit(v, 0);
    if v > 0 {
      forall i: nat ensures !Bit(v / 2, i) { assert Bit(v, i + 1) == Bit(v / 2, i); }
      NoBits(v / 2);
    }
  }

  /** All bits below `k` and none above is 2^k - 1. */
  lemma {:induction false} AllOnes(v: nat, k: nat)
    requires forall i: nat :: Bit(v, i) <==> i < k
    ensures v + 1 == Pow(k)
    decreases k
  {
    if k == 0 {
      NoBits(v);
    } else {
      assert Bit(v, 0);
      forall i: nat ensures Bit(v / 2, i) <==> i < k - 1 { assert Bit(v, i + 1) == Bit(v / 2, i); }
      AllOnes(v / 2, k - 1);
    }
  }

  /** The top bit of a positive number. */
  lemma {:induction false} TopBit(v: nat) returns (k: nat)
    requires v > 0
    ensures k > 0 && Pow(k - 1) <= v < Pow(k) && TopOnes(v, k, 1)
    decreases v
  {
    if v == 1 {
      k := 1;
      forall i: nat | i >= 1 ensures !Bit(v, i) { ZeroBit(i - 1); }
    } else {
      var k' := TopBit(v / 2);
      k := k' + 1;
      forall i: nat | i > 0 ensures Bit(v, i) == Bit(v / 2, i - 1) { }
    }
  }

  lemma {:induction false} ZeroBit(i: nat)
    ensures !Bit(0, i)
  {
    if i > 0 { ZeroBit(i - 1); }
  }

  lemma {:induction false} PowGrows(i: nat, j: nat)
    requires i < j
    ensures 2 * Pow(i) <= Pow(j)
  {
    if i + 1 < j { PowGrows(i, j - 1); }
  }

  lemma {:induction false} PowMonotone(i: nat, j: nat)
    requires i <= j
    ensures Pow(i) <= Pow(j)
  {
    if i < j { PowGrows(i, j); }
  }

  lemma Pow32()
    ensures Pow(31) == 0x8000_0000 && Pow(32) == WORD
  {
    assert Pow(8) == 256;
    assert Pow(16) == 65536;
    assert Pow(24) == 0x100_0000;
  }

  lemma SmearAll(y: nat) returns (k: nat)
    requires 0 < y < WORD
    ensures 0 < k <= 32 && Pow(k - 1) <= y < Pow(k)
    ensures Smear(Smear(Smear(Smear(Smear(y, 1), 2), 4), 8), 16) + 1 == Pow(k)
  {
    hide Smear;
    k := TopBit(y);
    Pow32();
    if k > 32 { PowMonotone(32, k - 1); }
    SmearDoubles(y, k, 1);
    var a := Smear(y, 1);
    SmearDoubles(a, k, 2);
    var b := Smear(a, 2);
    SmearDoubles(b, k, 4);
    var c := Smear(b, 4);
    SmearDoubles(c, k, 8);
    var d := Smear(c, 8);
    SmearDoubles(d, k, 16);
    AllOnes(Smear(d, 16), k);
  }

  /** The result is the power of two in [x, 2x) for every x from 1 to 2^31, and 0 otherwise. */
  lemma RoundsUp(x: nat)
    requires x < WORD
    ensures 0 < x <= 0x8000_0000 ==> IsPow2(KRoundUp32(x)) && x <= KRoundUp32(x) < 2 * x
    ensures x == 0 || x > 0x8000_0000 ==> KRoundUp32(x) == 0
  {
    hide Smear, Or, Pow;
    Pow32();
    if x == 1 {
      SmearZero();
      PowZero();
    } else {
      var y := if x == 0 then WORD - 1 else x - 1;
      assert y == (x + WORD - 1) % WORD;
      var k := SmearAll(y);
      var p := Pow(k);
      PowStep(k);
      if k < 32 {
        PowMonotone(k, 31);
        assert KRoundUp32(x) == p;
      } else {
        assert KRoundUp32(x) == 0;
      }
    }
  }

  lemma PowZero() ensures Pow(0) == 1 { }

  lemma PowStep(k: nat)
    requires k > 0
    ensures Pow(k) == 2 * Pow(k - 1)
  {
  }

  lemma SmearZero()
    ensures Smear(Smear(Smear(Smear(Smear(0, 1), 2), 4), 8), 16) == 0
  {
  }

  /** Two powers of two in the same interval [x, 2x) are the same. */
  lemma OnlyPower(x: nat, p: nat, q: nat)
    requires IsPow2(p) && IsPow2(q) && x <= p < 2 * x && x <= q < 2 * x
    ensures p == q
  {
    var i: nat :| p == Pow(i);
    var j: nat :| q == Pow(j);
    if i < j { PowGrows(i, j); }
    if j < i { PowGrows(j, i); }
  }
}
