/** The quicksort of `sort_r_simple`: insertion sort on short ranges, otherwise a
    median-of-three pivot that travels between two cursors until they meet. */
module Sort {

  /** `cmp(x, y) <= 0`: x may stand before y. */
  ghost predicate Before<T>(cmp: (T, T) -> int, x: T, y: T) { cmp(x, y) <= 0 }

  ghost predicate TotalPreorder<T(!new)>(cmp: (T, T) -> int) {
    && (forall x, y :: Before(cmp, x, y) || Before(cmp, y, x))
    && (forall x, y, z :: Before(cmp, x, y) && Before(cmp, y, z) ==> Before(cmp, x, z))
  }

  ghost predicate Sorted<T>(cmp: (T, T) -> int, s: seq<T>, lo: nat, hi: nat)
    requires hi <= |s|
  {
    forall i, j | lo <= i < j < hi :: Before(cmp, s[i], s[j])
  }

  // ----- rearranging a range -----

  /** t is s with the elements of [lo, hi) permuted. */
  ghost predicate Rearranged<T>(s: seq<T>, t: seq<T>, lo: nat, hi: nat) {
    && lo <= hi <= |s| && |t| == |s|
    && t[..lo] == s[..lo] && t[hi..] == s[hi..]
    && multiset(t[lo..hi]) == multiset(s[lo..hi])
  }

  lemma RearrangedThen<T>(s: seq<T>, t: seq<T>, u: seq<T>, lo: nat, hi: nat)
    requires Rearranged(s, t, lo, hi) && Rearranged(t, u, lo, hi)
    ensures Rearranged(s, u, lo, hi)
  {
  }

  lemma RearrangedSize<T>(s: seq<T>, t: seq<T>, lo: nat, hi: nat)
    requires Rearranged(s, t, lo, hi)
    ensures lo <= hi <= |s| && |t| == |s|
  {
  }

  lemma RearrangedOutside<T>(s: seq<T>, t: seq<T>, lo: nat, hi: nat)
    requires Rearranged(s, t, lo, hi)
    ensures |s| == |t| && forall k | 0 <= k < |s| && !(lo <= k < hi) :: t[k] == s[k]
  {
    forall k | 0 <= k < |s| && !(lo <= k < hi) ensures t[k] == s[k] {
      if k < lo { assert t[k] == t[..lo][k] && s[k] == s[..lo][k]; }
      else { assert t[k] == t[hi..][k - hi] && s[k] == s[hi..][k - hi]; }
    }
  }

  /** Every element of the new range was an element of the old one. */
  lemma RearrangedFrom<T>(s: seq<T>, t: seq<T>, lo: nat, hi: nat, k: nat) returns (from: nat)
    requires Rearranged(s, t, lo, hi) && lo <= k < hi
    ensures lo <= from < hi && s[from] == t[k]
  {
    assert t[k] == t[lo..hi][k - lo];
    assert t[k] in multiset(t[lo..hi]);
    assert t[k] in s[lo..hi];
    var i :| 0 <= i < hi - lo && s[lo..hi][i] == t[k];
    from := lo + i;
  }

  /** A permutation of part of a range is one of the whole. */
  lemma RearrangedWider<T>(s: seq<T>, t: seq<T>, lo: nat, hi: nat, lo': nat, hi': nat)
    requires Rearranged(s, t, lo, hi) && lo' <= lo && hi <= hi' <= |s|
    ensures Rearranged(s, t, lo', hi')
  {
    RearrangedOutside(s, t, lo, hi);
    Split3(s, lo', lo, hi, hi');
    Split3(t, lo', lo, hi, hi');
    assert t[lo'..lo] == s[lo'..lo] && t[hi..hi'] == s[hi..hi'];
    assert t[..lo'] == s[..lo'] && t[hi'..] == s[hi'..];
  }

  lemma Split3<T>(s: seq<T>, a: nat, b: nat, c: nat, d: nat)
    requires a <= b <= c <= d <= |s|
    ensures multiset(s[a..d]) == multiset(s[a..b]) + multiset(s[b..c]) + multiset(s[c..d])
  {
    assert s[a..d] == s[a..b] + s[b..c] + s[c..d];
  }

  ghost function Swapped<T>(s: seq<T>, i: nat, j: nat): (t: seq<T>)
    requires i < |s| && j < |s|
    ensures |t| == |s|
  {
    s[i := s[j]][j := s[i]]
  }

  lemma SwapRearranges<T>(s: seq<T>, i: nat, j: nat)
    requires i < j < |s|
    ensures Rearranged(s, Swapped(s, i, j), i, j + 1)
  {
    var t := Swapped(s, i, j);
    var mid := s[i + 1..j];
    assert s[i..j + 1] == [s[i]] + mid + [s[j]];
    assert t[i + 1..j] == mid;
    assert t[i..j + 1] == [s[j]] + mid + [s[i]];
  }

  lemma SwapWithin<T>(s: seq<T>, i: nat, j: nat, lo: nat, hi: nat)
    requires lo <= i <= j < hi <= |s|
    ensures Rearranged(s, Swapped(s, i, j), lo, hi)
  {
    if i < j {
      SwapRearranges(s, i, j);
      RearrangedWider(s, Swapped(s, i, j), i, j + 1, lo, hi);
    } else {
      assert Swapped(s, i, j) == s;
    }
  }

  // ----- the algorithm -----

  method Swap<T>(a: array<T>, i: nat, j: nat)
    requires i < a.Length && j < a.Length
    modifies a
    ensures a[..] == Swapped(old(a[..]), i, j)
  {
    a[i], a[j] := a[j], a[i];
  }

  method CmpSwap<T>(cmp: (T, T) -> int, a: array<T>, i: nat, j: nat) returns (swapped: bool)
    requires i < j < a.Length
    modifies a
    ensures swapped <==> cmp(old(a[i]), old(a[j])) > 0
    ensures a[..] == if swapped then Swapped(old(a[..]), i, j) else old(a[..])
    ensures forall lo: nat, hi: nat | lo <= i && j < hi <= a.Length :: Rearranged(old(a[..]), a[..], lo, hi)
  {
    swapped := cmp(a[i], a[j]) > 0;
    ghost var was := a[..];
    if swapped { Swap(a, i, j); }
    forall lo: nat, hi: nat | lo <= i && j < hi <= a.Length ensures Rearranged(was, a[..], lo, hi) {
      SwapWithin(was, i, j, lo, hi);
    }
  }

  /** Sorted up to pi, except that the element at pj may belong further down. */
  ghost predicate Sinking<T>(cmp: (T, T) -> int, s: seq<T>, lo: nat, pj: nat, pi: nat)
    requires pi < |s|
  {
    && lo <= pj <= pi
    && forall i, j | lo <= i < j <= pi && j != pj :: Before(cmp, s[i], s[j])
  }

  lemma SinkDone<T(!new)>(cmp: (T, T) -> int, s: seq<T>, lo: nat, pj: nat, pi: nat)
    requires TotalPreorder(cmp) && pi < |s| && Sinking(cmp, s, lo, pj, pi)
    requires pj == lo || Before(cmp, s[pj - 1], s[pj])
    ensures Sorted(cmp, s, lo, pi + 1)
  {
    forall i, j | lo <= i < j < pi + 1 ensures Before(cmp, s[i], s[j]) {
      if j == pj && i < pj - 1 { assert Before(cmp, s[i], s[pj - 1]); }
    }
  }

  lemma SinkStep<T(!new)>(cmp: (T, T) -> int, s: seq<T>, lo: nat, pj: nat, pi: nat)
    requires TotalPreorder(cmp) && pi < |s| && Sinking(cmp, s, lo, pj, pi) && lo < pj && !Before(cmp, s[pj - 1], s[pj])
    ensures Sinking(cmp, Swapped(s, pj - 1, pj), lo, pj - 1, pi)
  {
    var t := Swapped(s, pj - 1, pj);
    forall i, j | lo <= i < j <= pi && j != pj - 1 ensures Before(cmp, t[i], t[j]) {
      if j == pj {
        assert Before(cmp, s[pj], s[pj - 1]);
        if i < pj - 1 { assert Before(cmp, s[i], s[pj - 1]); }
      }
    }
  }

  method Insertion<T(!new)>(cmp: (T, T) -> int, a: array<T>, lo: nat, hi: nat)
    requires TotalPreorder(cmp) && lo <= hi <= a.Length
    modifies a
    ensures Sorted(cmp, a[..], lo, hi) && Rearranged(old(a[..]), a[..], lo, hi)
  {
    hide TotalPreorder, Rearranged, Swapped, Before;
    ghost var was := a[..];
    assert Rearranged(was, a[..], lo, hi) by { SameRearranged(was, lo, hi); }
    var pi := lo + 1;
    while pi < hi
      invariant lo + 1 <= pi && (pi <= hi || pi == lo + 1)
      invariant Sorted(cmp, a[..], lo, if pi <= hi then pi else hi) && Rearranged(was, a[..], lo, hi)
    {
      Sink(cmp, a, lo, pi, hi, was);
      pi := pi + 1;
    }
  }

  lemma SameRearranged<T>(s: seq<T>, lo: nat, hi: nat)
    requires lo <= hi <= |s|
    ensures Rearranged(s, s, lo, hi)
  {
  }

  method Sink<T(!new)>(cmp: (T, T) -> int, a: array<T>, lo: nat, pi: nat, hi: nat, ghost was: seq<T>)
    requires TotalPreorder(cmp) && lo < pi < hi <= a.Length
    requires Sorted(cmp, a[..], lo, pi) && Rearranged(was, a[..], lo, hi)
    modifies a
    ensures Sorted(cmp, a[..], lo, pi + 1) && Rearranged(was, a[..], lo, hi)
  {
    hide TotalPreorder, Rearranged, Swapped;
    var pj := pi;
    while pj > lo
      invariant lo <= pj <= pi
      invariant Sinking(cmp, a[..], lo, pj, pi) && Rearranged(was, a[..], lo, hi)
    {
      ghost var s := a[..];
      var swapped := CmpSwap(cmp, a, pj - 1, pj);
      RearrangedThen(was, s, a[..], lo, hi);
      if !swapped {
        SinkDone(cmp, a[..], lo, pj, pi);
        return;
      }
      SinkStep(cmp, s, lo, pj, pi);
      pj := pj - 1;
    }
    SinkDone(cmp, a[..], lo, pj, pi);
  }

  /** The place of the median of the first, middle and last element. */
  method MedianOfThree<T>(cmp: (T, T) -> int, a: array<T>, lo: nat, hi: nat) returns (m: nat)
    requires lo + 3 <= hi <= a.Length
    ensures lo <= m < hi
    ensures TotalPreorderAt(cmp, a[lo], a[lo + (hi - lo) / 2], a[hi - 1]) ==>
              Middle(cmp, a[m], a[lo], a[lo + (hi - lo) / 2], a[hi - 1])
  {
    var l0, l1, l2 := lo, lo + (hi - lo) / 2, hi - 1;
    if cmp(a[l0], a[l1]) > 0 { l0, l1 := l1, l0; }
    if cmp(a[l1], a[l2]) > 0 {
      l1, l2 := l2, l1;
      if cmp(a[l0], a[l1]) > 0 { l0, l1 := l1, l0; }
    }
    m := l1;
  }

  ghost predicate TotalPreorderAt<T>(cmp: (T, T) -> int, x: T, y: T, z: T) {
    && (Before(cmp, x, y) || Before(cmp, y, x))
    && (Before(cmp, y, z) || Before(cmp, z, y))
    && (Before(cmp, x, z) || Before(cmp, z, x))
  }

  /** m is one of x, y, z, with another before it and the third after it. */
  ghost predicate Middle<T>(cmp: (T, T) -> int, m: T, x: T, y: T, z: T) {
    || (m == x && ((Before(cmp, y, x) && Before(cmp, x, z)) || (Before(cmp, z, x) && Before(cmp, x, y))))
    || (m == y && ((Before(cmp, x, y) && Before(cmp, y, z)) || (Before(cmp, z, y) && Before(cmp, y, x))))
    || (m == z && ((Before(cmp, x, z) && Before(cmp, z, y)) || (Before(cmp, y, z) && Before(cmp, z, x))))
  }

  /** Everything below pl is before the pivot p, everything above pr after it. */
  ghost predicate Parted<T>(cmp: (T, T) -> int, s: seq<T>, lo: nat, pl: nat, pr: nat, hi: nat, p: T) {
    && lo <= pl <= pr < hi <= |s|
    && (forall k | lo <= k < pl :: Before(cmp, s[k], p))
    && (forall k | pr < k < hi :: Before(cmp, p, s[k]))
  }

  /** The element at k is a pivot in its final place. */
  ghost predicate PartedAt<T>(cmp: (T, T) -> int, s: seq<T>, lo: nat, k: nat, hi: nat) {
    k < |s| && Parted(cmp, s, lo, k, k, hi, s[k])
  }

  /** The pivot is at pr; afterwards it is at pl. */
  method MoveLeft<T(!new)>(cmp: (T, T) -> int, a: array<T>, lo: nat, pl0: nat, pr0: nat, hi: nat, ghost p: T)
    returns (pl: nat, pr: nat)
    requires TotalPreorder(cmp) && hi <= a.Length && Parted(cmp, a[..], lo, pl0, pr0, hi, p) && a[pr0] == p && pl0 < pr0
    modifies a
    ensures Parted(cmp, a[..], lo, pl, pr, hi, p) && a[pl] == p && pr - pl < pr0 - pl0
    ensures Rearranged(old(a[..]), a[..], lo, hi)
  {
    hide Rearranged;
    ghost var was := a[..];
    SameRearranged(was, lo, hi);
    pl, pr := pl0, pr0;
    while pl < pr
      invariant pl0 <= pl && pr == pr0 && a[..] == was
      invariant Parted(cmp, a[..], lo, pl, pr, hi, p) && a[pr] == p
    {
      var swapped := CmpSwap(cmp, a, pl, pr);
      if swapped {
        assert Before(cmp, p, was[pl]);
        pr := pr - 1;
        return;
      }
      pl := pl + 1;
    }
  }

  /** The pivot is at pl; afterwards it is at pr. */
  method MoveRight<T(!new)>(cmp: (T, T) -> int, a: array<T>, lo: nat, pl0: nat, pr0: nat, hi: nat, ghost p: T)
    returns (pl: nat, pr: nat)
    requires TotalPreorder(cmp) && hi <= a.Length && Parted(cmp, a[..], lo, pl0, pr0, hi, p) && a[pl0] == p
    modifies a
    ensures Parted(cmp, a[..], lo, pl, pr, hi, p) && a[pr] == p && pr - pl <= pr0 - pl0
    ensures Rearranged(old(a[..]), a[..], lo, hi)
  {
    hide Rearranged;
    ghost var was := a[..];
    SameRearranged(was, lo, hi);
    pl, pr := pl0, pr0;
    while pl < pr
      invariant pr <= pr0 && pl == pl0 && a[..] == was
      invariant Parted(cmp, a[..], lo, pl, pr, hi, p) && a[pl] == p
    {
      var swapped := CmpSwap(cmp, a, pl, pr);
      if swapped {
        assert Before(cmp, was[pr], p);
        pl := pl + 1;
        return;
      }
      pr := pr - 1;
    }
  }

  /** The cursors meet at the pivot's final place. */
  method Partition<T(!new)>(cmp: (T, T) -> int, a: array<T>, lo: nat, hi: nat) returns (k: nat)
    requires TotalPreorder(cmp) && lo < hi <= a.Length
    modifies a
    ensures PartedAt(cmp, a[..], lo, k, hi) && Rearranged(old(a[..]), a[..], lo, hi)
  {
    hide Rearranged, TotalPreorder;
    ghost var was := a[..];
    SameRearranged(was, lo, hi);
    ghost var p := a[hi - 1];
    var pl: nat, pr: nat := lo, hi - 1;
    while pl < pr
      invariant Parted(cmp, a[..], lo, pl, pr, hi, p) && a[pr] == p && Rearranged(was, a[..], lo, hi)
      decreases pr - pl
    {
      ghost var s := a[..];
      pl, pr := MoveLeft(cmp, a, lo, pl, pr, hi, p);
      ghost var t := a[..];
      RearrangedThen(was, s, t, lo, hi);
      pl, pr := MoveRight(cmp, a, lo, pl, pr, hi, p);
      RearrangedThen(was, t, a[..], lo, hi);
    }
    k := pl;
  }

  /** Permuting either side of the pivot leaves it parted. */
  lemma PartedKept<T>(cmp: (T, T) -> int, s: seq<T>, t: seq<T>, lo: nat, k: nat, hi: nat, left: bool)
    requires PartedAt(cmp, s, lo, k, hi)
    requires if left then Rearranged(s, t, lo, k) else Rearranged(s, t, k + 1, hi)
    ensures |t| == |s| && k < |s| && t[k] == s[k] && PartedAt(cmp, t, lo, k, hi)
  {
    var l, h := if left then lo else k + 1, if left then k else hi;
    RearrangedOutside(s, t, l, h);
    forall i | lo <= i < hi && i != k
      ensures i < k ==> Before(cmp, t[i], s[k])
      ensures i > k ==> Before(cmp, s[k], t[i])
    {
      if l <= i < h { var from := RearrangedFrom(s, t, l, h, i); }
    }
  }

  lemma SortedAround<T(!new)>(cmp: (T, T) -> int, s: seq<T>, lo: nat, k: nat, hi: nat)
    requires TotalPreorder(cmp) && PartedAt(cmp, s, lo, k, hi) && Sorted(cmp, s, lo, k) && Sorted(cmp, s, k + 1, hi)
    ensures Sorted(cmp, s, lo, hi)
  {
    forall i, j | lo <= i < j < hi ensures Before(cmp, s[i], s[j]) {
      if i < k < j { assert Before(cmp, s[i], s[k]) && Before(cmp, s[k], s[j]); }
    }
  }

  lemma SortedKept<T>(cmp: (T, T) -> int, s: seq<T>, t: seq<T>, lo: nat, k: nat, hi: nat)
    requires Rearranged(s, t, k, hi) && lo <= k && Sorted(cmp, s, lo, k)
    ensures Sorted(cmp, t, lo, k)
  {
    RearrangedOutside(s, t, k, hi);
  }

  method SortSimple<T(!new)>(cmp: (T, T) -> int, a: array<T>, lo: nat, hi: nat)
    requires TotalPreorder(cmp) && lo <= hi <= a.Length
    modifies a
    ensures Sorted(cmp, a[..], lo, hi) && Rearranged(old(a[..]), a[..], lo, hi)
    decreases hi - lo
  {
    hide TotalPreorder, Rearranged, Sorted;
    if hi - lo < 7 {
      Insertion(cmp, a, lo, hi);
    } else {
      ghost var s0 := a[..];
      var m := MedianOfThree(cmp, a, lo, hi);
      Swap(a, m, hi - 1);
      ghost var s1 := a[..];
      SwapWithin(s0, m, hi - 1, lo, hi);
      var k := Partition(cmp, a, lo, hi);
      ghost var s2 := a[..];
      SortSimple(cmp, a, lo, k);
      ghost var s3 := a[..];
      SortSimple(cmp, a, k + 1, hi);
      Combine(cmp, s0, s1, s2, s3, a[..], lo, k, hi);
    }
  }

  lemma Combine<T(!new)>(cmp: (T, T) -> int, s0: seq<T>, s1: seq<T>, s2: seq<T>, s3: seq<T>, s4: seq<T>, lo: nat,
                         k: nat, hi: nat)
    requires TotalPreorder(cmp) && Rearranged(s0, s1, lo, hi) && Rearranged(s1, s2, lo, hi)
    requires PartedAt(cmp, s2, lo, k, hi) && Rearranged(s2, s3, lo, k) && Rearranged(s3, s4, k + 1, hi)
    requires Sorted(cmp, s3, lo, k) && Sorted(cmp, s4, k + 1, hi)
    ensures Sorted(cmp, s4, lo, hi) && Rearranged(s0, s4, lo, hi)
  {
    hide TotalPreorder, Rearranged, Sorted;
    RearrangedThen(s0, s1, s2, lo, hi);
    RearrangedWider(s2, s3, lo, k, lo, hi);
    RearrangedThen(s0, s2, s3, lo, hi);
    RearrangedSize(s2, s3, lo, k);
    RearrangedWider(s3, s4, k + 1, hi, lo, hi);
    RearrangedThen(s0, s3, s4, lo, hi);
    PartedKept(cmp, s2, s3, lo, k, hi, true);
    PartedKept(cmp, s3, s4, lo, k, hi, false);
    RearrangedWider(s3, s4, k + 1, hi, k, hi);
    SortedKept(cmp, s3, s4, lo, k, hi);
    SortedAround(cmp, s4, lo, k, hi);
  }

  /** The whole array: sorted, and the same elements as before. */
  method SortAll<T(!new)>(cmp: (T, T) -> int, a: array<T>)
    requires TotalPreorder(cmp)
    modifies a
    ensures forall i, j | 0 <= i < j < a.Length :: cmp(a[i], a[j]) <= 0
    ensures multiset(a[..]) == multiset(old(a[..]))
  {
    SortSimple(cmp, a, 0, a.Length);
    ghost var s, t := old(a[..]), a[..];
    assert s[0..a.Length] == s && t[0..a.Length] == t;
    forall i, j | 0 <= i < j < a.Length ensures cmp(a[i], a[j]) <= 0 { assert Before(cmp, t[i], t[j]); }
  }

  // ----- the string comparator -----

  type Bytes = seq<bv8>

  /** `memcmp` over the first n bytes: the difference at the first place where they differ. */
  function MemCmp(s: Bytes, t: Bytes, n: nat): int
    requires n <= |s| && n <= |t|
    decreases n
  {
    if n == 0 then 0
    else if s[0] != t[0] then (s[0] as int) - (t[0] as int)
    else MemCmp(s[1..], t[1..], n - 1)
  }

  function StrCmp(s: Bytes, t: Bytes): int {
    var n := MemCmp(s, t, if |s| < |t| then |s| else |t|);
    if n == 0 then (if |s| > |t| then 1 else if |s| < |t| then -1 else n) else n
  }

  /** s and t agree below k, where s ends or has the smaller byte. */
  ghost predicate LessAt(s: Bytes, t: Bytes, k: nat) {
    && k <= |s| && k < |t| && s[..k] == t[..k]
    && (k < |s| ==> s[k] < t[k])
  }

  /** Dictionary order. */
  lemma {:induction false} StrCmpMeans(s: Bytes, t: Bytes)
    ensures StrCmp(s, t) == 0 <==> s == t
    ensures StrCmp(s, t) < 0 <==> exists k: nat :: LessAt(s, t, k)
    ensures StrCmp(s, t) > 0 <==> exists k: nat :: LessAt(t, s, k)
    decreases |s|
  {
    hide LessAt;
    if s == [] {
      NothingFirst(t);
    } else if t == [] {
      NothingFirst(s);
    } else if s[0] != t[0] {
      FirstDecides(s, t);
      FirstDecides(t, s);
    } else {
      StrCmpMeans(s[1..], t[1..]);
      TailCompares(s, t);
      TailDecides(s, t);
      TailDecides(t, s);
    }
  }

  lemma NothingFirst(t: Bytes)
    ensures (exists k: nat :: LessAt([], t, k)) <==> t != []
    ensures !exists k: nat :: LessAt(t, [], k)
  {
    if t != [] { assert LessAt([], t, 0); }
  }

  lemma TailCompares(s: Bytes, t: Bytes)
    requires s != [] && t != [] && s[0] == t[0]
    ensures StrCmp(s, t) == StrCmp(s[1..], t[1..])
    ensures s == t <==> s[1..] == t[1..]
  {
    assert s == [s[0]] + s[1..] && t == [t[0]] + t[1..];
  }

  lemma SameFirst(s: Bytes, t: Bytes, k: nat)
    requires 0 < k <= |s| && k <= |t| && s[..k] == t[..k]
    ensures s[0] == t[0]
  {
    assert s[0] == s[..k][0] && t[0] == t[..k][0];
  }

  lemma FirstDecides(s: Bytes, t: Bytes)
    requires s != [] && t != [] && s[0] != t[0]
    ensures (exists k: nat :: LessAt(s, t, k)) <==> s[0] < t[0]
  {
    if s[0] < t[0] { assert LessAt(s, t, 0); }
    forall k: nat | LessAt(s, t, k) ensures s[0] < t[0] {
      if k > 0 { SameFirst(s, t, k); }
    }
  }

  lemma TailDecides(s: Bytes, t: Bytes)
    requires s != [] && t != [] && s[0] == t[0]
    ensures (exists k: nat :: LessAt(s, t, k)) <==> (exists k: nat :: LessAt(s[1..], t[1..], k))
  {
    forall k: nat | LessAt(s, t, k) ensures exists j: nat :: LessAt(s[1..], t[1..], j) {
      assert k > 0;
      assert s[1..][..k - 1] == s[..k][1..] && t[1..][..k - 1] == t[..k][1..];
      assert LessAt(s[1..], t[1..], k - 1);
    }
    forall k: nat | LessAt(s[1..], t[1..], k) ensures exists j: nat :: LessAt(s, t, j) {
      assert s[..k + 1] == [s[0]] + s[1..][..k] && t[..k + 1] == [t[0]] + t[1..][..k];
      assert LessAt(s, t, k + 1);
    }
  }

  lemma LessTransitive(s: Bytes, t: Bytes, u: Bytes, j: nat, k: nat)
    requires LessAt(s, t, j) && LessAt(t, u, k)
    ensures LessAt(s, u, if j < k then j else k)
  {
    var m := if j < k then j else k;
    assert s[..m] == s[..j][..m] && t[..m] == t[..j][..m] && t[..m] == t[..k][..m] && u[..m] == u[..k][..m];
    if j < k { assert t[j] == t[..k][j] && u[j] == u[..k][j]; }
    if k < j { assert s[k] == s[..j][k] && t[k] == t[..j][k]; }
  }

  lemma StrCmpTransitive(s: Bytes, t: Bytes, u: Bytes)
    requires StrCmp(s, t) <= 0 && StrCmp(t, u) <= 0
    ensures StrCmp(s, u) <= 0
  {
    StrCmpMeans(s, t);
    StrCmpMeans(t, u);
    StrCmpMeans(s, u);
    if s != t && t != u {
      var j: nat :| LessAt(s, t, j);
      var k: nat :| LessAt(t, u, k);
      LessTransitive(s, t, u, j, k);
    }
  }

  /** Comparing values by their strings, as `Array#sort` does, meets the sort's demand. */
  lemma ByStringIsTotalPreorder<T(!new)>(text: T -> Bytes)
    ensures TotalPreorder((x: T, y: T) => StrCmp(text(x), text(y)))
  {
    var cmp := (x: T, y: T) => StrCmp(text(x), text(y));
    forall x, y ensures Before(cmp, x, y) || Before(cmp, y, x) {
      StrCmpMeans(text(x), text(y));
      StrCmpMeans(text(y), text(x));
    }
    forall x, y, z | Before(cmp, x, y) && Before(cmp, y, z) ensures Before(cmp, x, z) {
      StrCmpTransitive(text(x), text(y), text(z));
    }
  }
}
