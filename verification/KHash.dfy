/** The open-addressing hash table behind every scope, object and map.

    Buckets are live, deleted or empty.  A key is searched along its probe
    sequence until an empty bucket stops the search, so the table must keep every
    bucket in front of a live key non-empty. */
module KHash {
  import opened Common
  import opened Probe

  datatype Flag = Live | Deleted | Empty

  // ----- flags, counted -----

  ghost function Used(f: seq<Flag>): nat {
    if f == [] then 0 else Used(f[1..]) + if f[0] == Empty then 0 else 1
  }

  lemma {:induction false} UsedUpdate(f: seq<Flag>, i: nat, x: Flag)
    requires i < |f|
    ensures Used(f[i := x]) + (if f[i] == Empty then 0 else 1) == Used(f) + (if x == Empty then 0 else 1)
  {
    if i == 0 {
      assert f[i := x][1..] == f[1..];
    } else {
      assert f[i := x][1..] == f[1..][i - 1 := x];
      UsedUpdate(f[1..], i - 1, x);
    }
  }

  /** A table that is not full has an empty bucket. */
  lemma {:induction false} EmptyExists(f: seq<Flag>) returns (b: nat)
    requires Used(f) < |f|
    ensures b < |f| && f[b] == Empty
  {
    if f[0] == Empty {
      b := 0;
    } else {
      var b' := EmptyExists(f[1..]);
      b := b' + 1;
    }
  }

  lemma {:induction false} UsedNone(f: seq<Flag>)
    requires forall i | 0 <= i < |f| :: f[i] == Empty
    ensures Used(f) == 0
  {
    if f != [] { UsedNone(f[1..]); }
  }

  /** The load limit, 0.77 of the buckets rounded to the nearest whole. */
  function Upper(n: nat): nat { (77 * n + 50) / 100 }

  /** It is the nearest whole number to 0.77 n, halves going up. */
  lemma UpperRounds(n: nat)
    ensures Upper(n) as real <= 0.77 * n as real + 0.5 < Upper(n) as real + 1.0
  {
    var q := 77 * n + 50;
    assert 100 * (q / 100) <= q < 100 * (q / 100) + 100;
    assert 0.77 * n as real + 0.5 == q as real / 100.0;
  }

  // ----- what a search needs -----

  /** Bucket `b` is on the probe sequence of hash `h` with no empty bucket in front of it. */
  ghost predicate Reach(f: seq<Flag>, h: nat, b: nat) {
    exists j: nat :: ReachAt(f, h, b, j)
  }

  ghost predicate ReachAt(f: seq<Flag>, h: nat, b: nat, j: nat) {
    0 < |f| && Bucket(h, j, |f|) == b && forall i: nat | i < j :: f[Bucket(h, i, |f|)] != Empty
  }

  /** Some live bucket holds `k`. */
  ghost predicate Holds<K>(f: seq<Flag>, ks: seq<K>, k: K) {
    exists b: nat :: b < |f| && b < |ks| && f[b] == Live && ks[b] == k
  }

  /** The live buckets are exactly the entries of `m`, each once. */
  ghost predicate Stores<K, V>(f: seq<Flag>, ks: seq<K>, vs: seq<V>, m: map<K, V>) {
    && |f| <= |ks| && |f| <= |vs|
    && (forall b | 0 <= b < |f| && f[b] == Live :: ks[b] in m && m[ks[b]] == vs[b])
    && (forall b, c | 0 <= b < c < |f| && f[b] == Live && f[c] == Live :: ks[b] != ks[c])
    && (forall k | k in m :: Holds(f, ks, k))
  }

  ghost predicate Findable<K>(hash: K -> nat, f: seq<Flag>, ks: seq<K>) {
    |f| <= |ks| && forall b | 0 <= b < |f| && f[b] == Live :: Reach(f, hash(ks[b]), b)
  }

  /** Filling buckets never breaks a probe sequence. */
  lemma ReachKept(f: seq<Flag>, f': seq<Flag>, h: nat, b: nat)
    requires |f'| == |f| && Reach(f, h, b)
    requires forall i | 0 <= i < |f| && f[i] != Empty :: f'[i] != Empty
    ensures Reach(f', h, b)
  {
    var j: nat :| ReachAt(f, h, b, j);
    assert ReachAt(f', h, b, j);
  }

  /** The first `s` buckets on the probe sequence do not hold `k`. */
  ghost predicate Missed<K>(f: seq<Flag>, ks: seq<K>, h: nat, k: K, s: nat) {
    0 < |f| <= |ks| &&
    forall t: nat | t < s :: !(f[Bucket(h, t, |f|)] == Live && ks[Bucket(h, t, |f|)] == k)
  }

  lemma MissedOne<K>(f: seq<Flag>, ks: seq<K>, h: nat, k: K, s: nat)
    requires Missed(f, ks, h, k, s)
    requires !(f[Bucket(h, s, |f|)] == Live && ks[Bucket(h, s, |f|)] == k)
    ensures Missed(f, ks, h, k, s + 1)
  {
    hide Bucket;
  }

  /** A search that has met only other keys and then an empty bucket proves absence. */
  lemma AbsentAt<K>(hash: K -> nat, f: seq<Flag>, ks: seq<K>, k: K, s: nat)
    requires Findable(hash, f, ks) && Missed(f, ks, hash(k), k, s) && f[Bucket(hash(k), s, |f|)] == Empty
    ensures !Holds(f, ks, k)
  {
    forall b: nat | b < |f| && f[b] == Live ensures ks[b] != k {
      var j: nat :| ReachAt(f, hash(ks[b]), b, j);
      assert ks[b] == k ==> !(j < s) && !(s < j) && j != s;
    }
  }

  /** A search that came back to its start has seen every bucket. */
  lemma AbsentAll<K>(f: seq<Flag>, ks: seq<K>, k: K, h: nat, s: nat)
    requires IsPow2(|f|) && Missed(f, ks, h, k, s) && 0 < s && Bucket(h, s, |f|) == Bucket(h, 0, |f|)
    ensures !Holds(f, ks, k)
  {
    forall b: nat | b < |f| ensures !(f[b] == Live && ks[b] == k) {
      var j := BackMeansAll(h, s, |f|, b);
    }
  }

  /** As long as an empty bucket remains, a search through non-empty ones has not been
      through n positions, and so is not back at its start. */
  lemma StillInside(f: seq<Flag>, h: nat, s: nat)
    requires IsPow2(|f|) && Used(f) < |f|
    requires forall t: nat | t <= s :: f[Bucket(h, t, |f|)] != Empty
    ensures s + 1 < |f| && Bucket(h, s + 1, |f|) != Bucket(h, 0, |f|)
  {
    var b := EmptyExists(f);
    var j := Visits(h, |f|, b);
    assert j > s;
    FirstDistinct(h, 0, s + 1, |f|);
  }

  /** The first `s` buckets on the probe sequence are not empty, and all live if `allLive`. */
  ghost predicate Passed(f: seq<Flag>, h: nat, s: nat, allLive: bool) {
    0 < |f| && forall t: nat | t < s :: f[Bucket(h, t, |f|)] != Empty && (allLive ==> f[Bucket(h, t, |f|)] == Live)
  }

  lemma PassedNone(f: seq<Flag>, h: nat)
    requires 0 < |f|
    ensures Passed(f, h, 0, true)
  {
  }

  lemma PassedOne(f: seq<Flag>, h: nat, s: nat, allLive: bool)
    requires Passed(f, h, s, allLive) || (!allLive && Passed(f, h, s, true))
    requires f[Bucket(h, s, |f|)] != Empty && (allLive ==> f[Bucket(h, s, |f|)] == Live)
    ensures Passed(f, h, s + 1, allLive)
  {
    hide Bucket;
  }

  lemma PassedReach(f: seq<Flag>, h: nat, s: nat, allLive: bool)
    requires Passed(f, h, s, allLive)
    ensures ReachAt(f, h, Bucket(h, s, |f|), s)
  {
    hide Bucket;
  }

  /** Back at the start without having met a dead bucket: there is none. */
  lemma PassedAll(f: seq<Flag>, h: nat, s: nat, allLive: bool)
    requires IsPow2(|f|) && Passed(f, h, s, allLive) && 0 < s && Bucket(h, s, |f|) == Bucket(h, 0, |f|)
    ensures allLive ==> forall b | 0 <= b < |f| :: f[b] == Live
  {
    forall b: nat | b < |f| ensures allLive ==> f[b] == Live {
      var j := BackMeansAll(h, s, |f|, b);
    }
  }

  // ----- writing one entry -----

  /** Writing a new key into a bucket that is not live. */
  lemma InsertStores<K, V>(f: seq<Flag>, ks: seq<K>, vs: seq<V>, m: map<K, V>, x: nat, k: K)
    requires Stores(f, ks, vs, m) && x < |f| && f[x] != Live && k !in m
    ensures Stores(f[x := Live], ks[x := k], vs, m[k := vs[x]])
  {
    var f', ks', m' := f[x := Live], ks[x := k], m[k := vs[x]];
    forall k' | k' in m' ensures Holds(f', ks', k') {
      if k' == k {
        assert f'[x] == Live && ks'[x] == k;
      } else {
        var b: nat :| b < |f| && b < |ks| && f[b] == Live && ks[b] == k';
        assert f'[b] == Live && ks'[b] == k';
      }
    }
  }

  lemma InsertFindable<K>(hash: K -> nat, f: seq<Flag>, ks: seq<K>, x: nat, k: K, j: nat)
    requires Findable(hash, f, ks) && x < |f| && f[x] != Live && ReachAt(f, hash(k), x, j)
    ensures Findable(hash, f[x := Live], ks[x := k])
  {
    var f', ks' := f[x := Live], ks[x := k];
    forall b | 0 <= b < |f'| && f'[b] == Live ensures Reach(f', hash(ks'[b]), b) {
      if b == x {
        assert ReachAt(f', hash(k), x, j);
      } else {
        ReachKept(f, f', hash(ks[b]), b);
      }
    }
  }

  lemma DeleteStores<K, V>(f: seq<Flag>, ks: seq<K>, vs: seq<V>, m: map<K, V>, x: nat)
    requires Stores(f, ks, vs, m) && x < |f| && f[x] == Live
    ensures Stores(f[x := Deleted], ks, vs, m - {ks[x]})
  {
    var f', m' := f[x := Deleted], m - {ks[x]};
    forall k | k in m' ensures Holds(f', ks, k) {
      var b: nat :| b < |f| && b < |ks| && f[b] == Live && ks[b] == k;
      assert f'[b] == Live;
    }
  }

  lemma DeleteFindable<K>(hash: K -> nat, f: seq<Flag>, ks: seq<K>, x: nat)
    requires Findable(hash, f, ks) && x < |f| && f[x] == Live
    ensures Findable(hash, f[x := Deleted], ks)
  {
    var f' := f[x := Deleted];
    forall b | 0 <= b < |f'| && f'[b] == Live ensures Reach(f', hash(ks[b]), b) {
      ReachKept(f, f', hash(ks[b]), b);
    }
  }

  // ----- rehashing in place -----

  /** Halfway through a rehash.  `of` are the old flags: a live bucket there is an entry
      still to be moved.  `nf` are the new flags: a live bucket there has been placed.
      Both kinds share the same arrays.  `placed` are the keys already in their place and
      `hand`, if any, is the entry taken out and not yet put back. */
  ghost predicate Midway<K, V>(hash: K -> nat, of: seq<Flag>, nf: seq<Flag>, ks: seq<K>, vs: seq<V>,
                               m: map<K, V>, placed: set<K>, hand: Option<(K, V)>)
  {
    && |of| <= |ks| == |vs| && |nf| <= |ks|
    && Settled(hash, nf, ks, vs, m, placed)
    && Waiting(of, nf, ks, vs, m, placed, hand)
  }

  /** The part of the new table that is in place. */
  ghost predicate Settled<K, V>(hash: K -> nat, nf: seq<Flag>, ks: seq<K>, vs: seq<V>, m: map<K, V>, placed: set<K>)
    requires |nf| <= |ks| == |vs|
  {
    && placed <= m.Keys
    && Used(nf) == |placed|
    && (forall i | 0 <= i < |nf| :: nf[i] != Deleted)
    && Findable(hash, nf, ks)
    && (forall i | 0 <= i < |nf| && nf[i] == Live :: ks[i] in placed && m[ks[i]] == vs[i])
    && (forall i, j | 0 <= i < j < |nf| && nf[i] == Live && nf[j] == Live :: ks[i] != ks[j])
    && (forall k | k in placed :: Holds(nf, ks, k))
  }

  ghost predicate Waiting<K, V>(of: seq<Flag>, nf: seq<Flag>, ks: seq<K>, vs: seq<V>,
                                m: map<K, V>, placed: set<K>, hand: Option<(K, V)>)
    requires |of| <= |ks| == |vs| && |nf| <= |ks|
  {
    && (forall i | 0 <= i < |of| && of[i] == Live ::
          ks[i] in m && m[ks[i]] == vs[i] && ks[i] !in placed && (i < |nf| ==> nf[i] != Live))
    && (forall i, j | 0 <= i < j < |of| && of[i] == Live && of[j] == Live :: ks[i] != ks[j])
    && (forall k | k in m && k !in placed :: Holds(of, ks, k) || (hand.Some? && hand.value.0 == k))
    && (hand.Some? ==>
          && hand.value.0 in m && m[hand.value.0] == hand.value.1
          && hand.value.0 !in placed && !Holds(of, ks, hand.value.0))
  }

  lemma MidwayStarts<K, V>(hash: K -> nat, of: seq<Flag>, nf: seq<Flag>, ks: seq<K>, vs: seq<V>, m: map<K, V>)
    requires Stores(of, ks, vs, m) && |ks| == |vs| && |nf| <= |ks|
    requires forall i | 0 <= i < |nf| :: nf[i] == Empty
    ensures Midway(hash, of, nf, ks, vs, m, {}, None)
  {
    UsedNone(nf);
  }

  /** Take the entry of old bucket `j` in hand. */
  lemma TakeOut<K, V>(hash: K -> nat, of: seq<Flag>, nf: seq<Flag>, ks: seq<K>, vs: seq<V>,
                      m: map<K, V>, placed: set<K>, j: nat)
    requires Midway(hash, of, nf, ks, vs, m, placed, None) && j < |of| && of[j] == Live
    ensures Midway(hash, of[j := Deleted], nf, ks, vs, m, placed, Some((ks[j], vs[j])))
  {
    hide Settled;
    var of' := of[j := Deleted];
    forall k | k in m && k !in placed && k != ks[j] ensures Holds(of', ks, k) {
      var b: nat :| b < |of| && b < |ks| && of[b] == Live && ks[b] == k;
      assert of'[b] == Live;
    }
  }

  lemma PlaceSettled<K, V>(hash: K -> nat, nf: seq<Flag>, ks: seq<K>, vs: seq<V>,
                           m: map<K, V>, placed: set<K>, k: K, v: V, i: nat, s: nat)
    requires |nf| <= |ks| == |vs| && Settled(hash, nf, ks, vs, m, placed)
    requires k in m && m[k] == v && k !in placed
    requires i < |nf| && nf[i] == Empty && ReachAt(nf, hash(k), i, s)
    ensures Settled(hash, nf[i := Live], ks[i := k], vs[i := v], m, placed + {k})
  {
    hide Used, Findable, Reach, ReachAt;
    var nf', ks', placed' := nf[i := Live], ks[i := k], placed + {k};
    UsedUpdate(nf, i, Live);
    InsertFindable(hash, nf, ks, i, k, s);
    forall k' | k' in placed' ensures Holds(nf', ks', k') {
      if k' == k {
        assert nf'[i] == Live && ks'[i] == k;
      } else {
        var b: nat :| b < |nf| && b < |ks| && nf[b] == Live && ks[b] == k';
        assert nf'[b] == Live && ks'[b] == k';
      }
    }
  }

  lemma PlaceWaiting<K, V>(of: seq<Flag>, nf: seq<Flag>, ks: seq<K>, vs: seq<V>,
                           m: map<K, V>, placed: set<K>, k: K, v: V, i: nat)
    requires |of| <= |ks| == |vs| && |nf| <= |ks| && i < |nf|
    requires Waiting(of, nf, ks, vs, m, placed, Some((k, v)))
    ensures var kicks := i < |of| && of[i] == Live;
            Waiting(if kicks then of[i := Deleted] else of, nf[i := Live], ks[i := k], vs[i := v],
                    m, placed + {k}, if kicks then Some((ks[i], vs[i])) else None)
  {
    var kicks := i < |of| && of[i] == Live;
    var of', ks' := if kicks then of[i := Deleted] else of, ks[i := k];
    assert forall b: nat | b < |of| && of[b] == Live :: ks[b] != k;
    assert forall b: nat | b < |of'| && of'[b] == Live :: b != i && of[b] == Live;
    forall k' | k' in m && k' !in placed + {k} && !(kicks && k' == ks[i]) ensures Holds(of', ks', k') {
      var b: nat :| b < |of| && b < |ks| && of[b] == Live && ks[b] == k';
      assert of'[b] == Live && ks'[b] == k';
    }
  }

  /** Put the entry in hand into an empty new bucket `i`.  If that bucket still holds an old
      entry, that one is kicked out and is in hand next. */
  lemma Place<K, V>(hash: K -> nat, of: seq<Flag>, nf: seq<Flag>, ks: seq<K>, vs: seq<V>,
                    m: map<K, V>, placed: set<K>, k: K, v: V, i: nat, s: nat)
    requires Midway(hash, of, nf, ks, vs, m, placed, Some((k, v)))
    requires i < |nf| && nf[i] == Empty && ReachAt(nf, hash(k), i, s)
    ensures var kicks := i < |of| && of[i] == Live;
            Midway(hash, if kicks then of[i := Deleted] else of, nf[i := Live], ks[i := k], vs[i := v],
                   m, placed + {k}, if kicks then Some((ks[i], vs[i])) else None)
  {
    hide Settled, ReachAt;
    PlaceSettled(hash, nf, ks, vs, m, placed, k, v, i, s);
    hide Waiting;
    PlaceWaiting(of, nf, ks, vs, m, placed, k, v, i);
  }

  /** With nothing in hand and no old entry left, the rehash is complete. */
  lemma MidwayEnds<K, V>(hash: K -> nat, of: seq<Flag>, nf: seq<Flag>, ks: seq<K>, vs: seq<V>,
                         m: map<K, V>, placed: set<K>)
    requires Midway(hash, of, nf, ks, vs, m, placed, None)
    requires forall i | 0 <= i < |of| :: of[i] != Live
    ensures placed == m.Keys && Stores(nf, ks, vs, m) && Findable(hash, nf, ks) && Used(nf) == |m|
    ensures forall i | 0 <= i < |nf| :: nf[i] != Deleted
  {
    assert forall k | k in m :: k in placed;
  }

  /** While an entry is in hand not every key is placed, so the new table has room. */
  lemma RoomLeft<K, V>(hash: K -> nat, of: seq<Flag>, nf: seq<Flag>, ks: seq<K>, vs: seq<V>,
                       m: map<K, V>, placed: set<K>, k: K, v: V)
    requires Midway(hash, of, nf, ks, vs, m, placed, Some((k, v))) && |m| <= |nf|
    ensures Used(nf) < |nf|
  {
    assert placed <= m.Keys - {k};
    SubsetSize(placed, m.Keys - {k});
  }

  lemma SubsetSize<K>(a: set<K>, b: set<K>)
    requires a <= b
    ensures |a| <= |b|
  {
    assert b == a + (b - a);
  }

  lemma UpperBelow(n: nat)
    requires n >= 4
    ensures Upper(n) < n && n < 2 * Upper(n) && n < Upper(2 * n)
  {
  }
}
