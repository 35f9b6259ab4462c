/** The probe sequence of the hash table: from the hashed bucket, step by 1, 2, 3, ...
    modulo the number of buckets.  When that number is a power of two the first n
    positions are all different, so they are all the buckets there are. */
module Probe {
  import opened Common

  function Pow(k: nat): (p: nat)
    ensures p >= 1
  {
    if k == 0 then 1 else 2 * Pow(k - 1)
  }

  ghost predicate IsPow2(n: nat) { exists k: nat :: n == Pow(k) }

  /** Products and remainders under a name, so that proofs can leave them uninterpreted. */
  function Mul(a: int, b: int): int { a * b }

  function Wrap(s: nat, n: nat): (r: nat)
    requires n > 0
    ensures r < n
  {
    s % n
  }

  /** The bucket inspected after `j` steps. */
  function Bucket(h: nat, j: nat, n: nat): (b: nat)
    requires n > 0
    ensures b < n
  {
    if j == 0 then Wrap(h, n) else Wrap(Bucket(h, j - 1, n) + j, n)
  }

  function Tri(j: nat): nat { if j == 0 then 0 else Tri(j - 1) + j }

  lemma MulLaws(a: int, b: int, n: int)
    ensures Mul(a + b, n) == Mul(a, n) + Mul(b, n) && Mul(a - b, n) == Mul(a, n) - Mul(b, n)
    ensures Mul(1, n) == n && Mul(0, n) == 0 && Mul(a, n) == Mul(n, a) && 2 * Mul(a, n) == Mul(a, 2 * n)
  {
    assert (a + b) * n == a * n + b * n && (a - b) * n == a * n - b * n;
    assert 2 * (a * n) == a * (2 * n);
  }

  lemma {:induction false} TriTwice(j: nat)
    ensures 2 * Tri(j) == Mul(j, j + 1)
  {
    if j > 0 { TriTwice(j - 1); }
  }

  lemma DivMod(s: nat, n: nat) returns (q: nat)
    requires n > 0
    ensures s == Mul(q, n) + Wrap(s, n)
  {
    q := s / n;
  }

  /** Quotient and remainder of the sum of all steps so far. */
  lemma {:induction false} BucketTri(h: nat, j: nat, n: nat) returns (q: nat)
    requires n > 0
    ensures h + Tri(j) == Mul(q, n) + Bucket(h, j, n)
  {
    hide Mul, Wrap;
    if j == 0 {
      q := DivMod(h, n);
    } else {
      var q' := BucketTri(h, j - 1, n);
      var d := DivMod(Bucket(h, j - 1, n) + j, n);
      MulLaws(q', d, n);
      q := q' + d;
    }
  }

  lemma EvenFactor(x: int, y: int)
    requires x % 2 == 1 && (x * y) % 2 == 0
    ensures y % 2 == 0
  {
    var a, b, r := x / 2, y / 2, y % 2;
    var w := 2 * a * b + a * r + b;
    assert x * y == (2 * a + 1) * (2 * b + r) == 2 * w + r;
  }

  lemma Halve(x: int, y: int, c: int, half: int)
    requires x % 2 == 1 && Mul(x, y) == Mul(c, 2 * half)
    ensures y % 2 == 0 && Mul(x, y / 2) == Mul(c, half)
  {
    assert x * y == 2 * (c * half);
    EvenFactor(x, y);
    assert x * y == 2 * (x * (y / 2));
  }

  /** An odd factor contributes nothing to divisibility by a power of two. */
  lemma {:induction false} OddCancel(x: int, y: int, c: int, m: nat) returns (d: int)
    requires x % 2 == 1 && Mul(x, y) == Mul(c, Pow(m))
    ensures y == Mul(d, Pow(m))
    decreases m
  {
    hide Mul;
    if m == 0 {
      MulLaws(y, 0, 1);
      MulLaws(0, 0, y);
      d := y;
    } else {
      Halve(x, y, c, Pow(m - 1));
      d := OddCancel(x, y / 2, c, m - 1);
      MulLaws(d, 0, Pow(m - 1));
    }
  }

  /** A positive multiple is at least as large. */
  lemma MultipleIsLarge(d: int, m: int, y: int)
    requires y == Mul(d, m) && m > 0 && y > 0
    ensures y >= m
  {
    assert d <= 0 ==> d * m <= 0;
    assert d >= 1 ==> (d - 1) * m >= 0;
    assert (d - 1) * m == d * m - m;
  }

  lemma SmallMultiple(d: int, n: int, y: int)
    requires y == Mul(d, n) && n > 0 && -n < y < n
    ensures y == 0
  {
    assert d >= 1 ==> (d - 1) * n >= 0;
    assert d <= -1 ==> (-1 - d) * n >= 0;
    assert (d - 1) * n == d * n - n && (-1 - d) * n == -n - d * n;
  }

  lemma Factors(a: int, b: int)
    ensures Mul(b - a, a + b + 1) == Mul(b, b + 1) - Mul(a, a + 1)
  {
  }

  /** When two positions of the sequence are the same bucket, the distance between their
      step counts or their sum plus one is a multiple of twice the table size. */
  lemma Coincide(h: nat, a: nat, b: nat, k: nat)
    requires a < b && Bucket(h, a, Pow(k)) == Bucket(h, b, Pow(k))
    ensures b - a >= 2 * Pow(k) || a + b + 1 >= 2 * Pow(k)
  {
    hide Mul, Wrap, Bucket, Tri;
    var n := Pow(k);
    var qa := BucketTri(h, a, n);
    var qb := BucketTri(h, b, n);
    TriTwice(a);
    TriTwice(b);
    Factors(a, b);
    var x: int := b - a;
    var y: int := a + b + 1;
    var c: int := (qb as int) - (qa as int);
    MulLaws(qb, qa, n);
    MulLaws(c, 0, n);
    MulLaws(x, 0, y);
    assert Mul(x, y) == Mul(c, Pow(k + 1)) && x + y == 2 * b + 1;
    if x % 2 == 1 {
      var d := OddCancel(x, y, c, k + 1);
      MultipleIsLarge(d, Pow(k + 1), y);
    } else {
      var d := OddCancel(y, x, c, k + 1);
      MultipleIsLarge(d, Pow(k + 1), x);
    }
  }

  /** The first n positions are pairwise different. */
  lemma FirstDistinct(h: nat, a: nat, b: nat, n: nat)
    requires IsPow2(n) && a < b < n
    ensures Bucket(h, a, n) != Bucket(h, b, n)
  {
    var k: nat :| n == Pow(k);
    if Bucket(h, a, n) == Bucket(h, b, n) { Coincide(h, a, b, k); }
  }

  /** The sequence is first back at its start after 2n - 1 steps, not before. */
  lemma FirstReturn(h: nat, s: nat, n: nat)
    requires IsPow2(n) && 0 < s
    ensures Bucket(h, s, n) == Bucket(h, 0, n) ==> s >= 2 * n - 1
    ensures s == 2 * n - 1 ==> Bucket(h, s, n) == Bucket(h, 0, n)
  {
    var k: nat :| n == Pow(k);
    if Bucket(h, s, n) == Bucket(h, 0, n) { Coincide(h, 0, s, k); }
    if s == 2 * n - 1 { Returns(h, n); }
  }

  lemma Returns(h: nat, n: nat)
    requires n > 0
    ensures Bucket(h, 2 * n - 1, n) == Bucket(h, 0, n)
  {
    hide Mul, Wrap, Bucket;
    var s := 2 * n - 1;
    TriTwice(s);
    MulLaws(s, 0, n);
    var q0 := BucketTri(h, 0, n);
    var q1 := BucketTri(h, s, n);
    MulLaws(q0, s, n);
    MulLaws(q0 + s, q1, n);
    SmallMultiple(q0 + s - q1, n, Bucket(h, s, n) - Bucket(h, 0, n));
  }

  // ----- the first n positions are all the buckets -----

  ghost function Seen(h: nat, j: nat, n: nat): set<nat>
    requires n > 0
  {
    if j == 0 then {} else Seen(h, j - 1, n) + {Bucket(h, j - 1, n)}
  }

  lemma {:induction false} SeenAt(h: nat, j: nat, n: nat, b: nat) returns (i: nat)
    requires n > 0 && b in Seen(h, j, n)
    ensures i < j && Bucket(h, i, n) == b
  {
    if Bucket(h, j - 1, n) == b { i := j - 1; } else { i := SeenAt(h, j - 1, n, b); }
  }

  lemma NotSeen(h: nat, j: nat, n: nat)
    requires IsPow2(n) && j < n
    ensures Bucket(h, j, n) !in Seen(h, j, n)
  {
    hide Bucket, IsPow2, Seen;
    if Bucket(h, j, n) in Seen(h, j, n) {
      var i := SeenAt(h, j, n, Bucket(h, j, n));
      FirstDistinct(h, i, j, n);
    }
  }

  lemma {:induction false} SeenSize(h: nat, j: nat, n: nat)
    requires IsPow2(n) && n > 0 && j <= n
    ensures |Seen(h, j, n)| == j && Seen(h, j, n) <= Below(n)
  {
    hide Bucket, IsPow2, Below;
    if j > 0 {
      SeenSize(h, j - 1, n);
      NotSeen(h, j - 1, n);
    }
  }

  lemma SameSize(a: set<nat>, b: set<nat>)
    requires a <= b && |a| == |b|
    ensures a == b
  {
    assert |b - a| == |b| - |a|;
  }

  /** Every bucket is inspected within the first n positions. */
  lemma Visits(h: nat, n: nat, b: nat) returns (j: nat)
    requires IsPow2(n) && b < n
    ensures j < n && Bucket(h, j, n) == b
  {
    SeenSize(h, n, n);
    SameSize(Seen(h, n, n), Below(n));
    j := SeenAt(h, n, n, b);
  }

  /** Coming back to the start means every bucket has been inspected on the way. */
  lemma BackMeansAll(h: nat, s: nat, n: nat, b: nat) returns (j: nat)
    requires IsPow2(n) && b < n && 0 < s && Bucket(h, s, n) == Bucket(h, 0, n)
    ensures j < s && Bucket(h, j, n) == b
  {
    FirstReturn(h, s, n);
    j := Visits(h, n, b);
  }

  lemma Pow2Doubles(n: nat)
    requires IsPow2(n)
    ensures IsPow2(2 * n) && n >= 1
  {
    var k: nat :| n == Pow(k);
    assert 2 * n == Pow(k + 1);
  }
}
