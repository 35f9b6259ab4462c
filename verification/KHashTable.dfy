/** The hash table as its operations change it, against a plain finite map. */
module KHashTable {
  import opened Common
  import opened Probe
  import opened RoundUp
  import opened KHash

  /** The first empty bucket on the probe sequence of `h`. */
  method FindEmpty(nf: array<Flag>, h: nat) returns (i: nat, ghost s: nat)
    requires IsPow2(nf.Length) && 0 < nf.Length && Used(nf[..]) < nf.Length
    ensures i < nf.Length && nf[i] == Empty && ReachAt(nf[..], h, i, s)
  {
    var n := nf.Length;
    var step := 0;
    i := Wrap(h, n);
    while nf[i] != Empty
      invariant 0 <= step < n && i == Bucket(h, step, n)
      invariant forall t: nat | t < step :: nf[Bucket(h, t, n)] != Empty
      decreases n - step
    {
      StillInside(nf[..], h, step);
      step := step + 1;
      i := Wrap(i + step, n);
    }
    s := step;
  }

  /** Insert the entry in hand into the new table, and whatever it displaces, until
      nothing is displaced. */
  method KickOut<K, V>(hash: K -> nat, f: array<Flag>, nf: array<Flag>, ks: array<K>, vs: array<V>,
                       first: K, firstVal: V, ghost m: map<K, V>, ghost before: set<K>)
    returns (ghost placed: set<K>)
    requires f != nf && ks as object != vs && ks as object != f && ks as object != nf
    requires vs as object != f && vs as object != nf
    requires IsPow2(nf.Length) && 0 < nf.Length && |m| <= nf.Length
    requires Midway(hash, f[..], nf[..], ks[..], vs[..], m, before, Some((first, firstVal)))
    modifies f, nf, ks, vs
    ensures Midway(hash, f[..], nf[..], ks[..], vs[..], m, placed, None)
    ensures forall i | 0 <= i < f.Length && f[i] == Live :: old(f[i]) == Live
  {
    hide Midway, ReachAt;
    placed := before;
    var key, val := first, firstVal;
    var done := false;
    while !done
      invariant Midway(hash, f[..], nf[..], ks[..], vs[..], m, placed, if done then None else Some((key, val)))
      invariant forall i | 0 <= i < f.Length && f[i] == Live :: old(f[i]) == Live
      decreases !done, |m.Keys - placed|
    {
      RoomLeft(hash, f[..], nf[..], ks[..], vs[..], m, placed, key, val);
      HandFacts(hash, f[..], nf[..], ks[..], vs[..], m, placed, key, val);
      var i, s := FindEmpty(nf, hash(key));
      Place(hash, f[..], nf[..], ks[..], vs[..], m, placed, key, val, i, s);
      placed := placed + {key};
      ghost var f0, nf0, ks0, vs0 := f[..], nf[..], ks[..], vs[..];
      nf[i] := Live;
      assert nf[..] == nf0[i := Live];
      if i < f.Length && f[i] == Live {
        var k, v := ks[i], vs[i];
        ks[i], vs[i] := key, val;
        assert ks[..] == ks0[i := key] && vs[..] == vs0[i := val];
        key, val := k, v;
        f[i] := Deleted;
        assert f[..] == f0[i := Deleted];
      } else {
        ks[i], vs[i] := key, val;
        assert ks[..] == ks0[i := key] && vs[..] == vs0[i := val];
        done := true;
      }
    }
  }

  /** Move every entry of the old table to its place in the new one. */
  method MoveAll<K, V>(hash: K -> nat, f: array<Flag>, nf: array<Flag>, ks: array<K>, vs: array<V>,
                       ghost m: map<K, V>)
    requires f != nf && ks as object != vs && ks as object != f && ks as object != nf
    requires vs as object != f && vs as object != nf
    requires IsPow2(nf.Length) && 0 < nf.Length && |m| <= nf.Length <= ks.Length == vs.Length
    requires Stores(f[..], ks[..], vs[..], m) && forall i | 0 <= i < nf.Length :: nf[i] == Empty
    modifies f, nf, ks, vs
    ensures Stores(nf[..], ks[..], vs[..], m) && Findable(hash, nf[..], ks[..]) && Used(nf[..]) == |m|
    ensures forall b | 0 <= b < nf.Length :: nf[b] != Deleted
  {
    hide Findable, Midway, Used, IsPow2;
    ghost var placed: set<K> := {};
    MidwayStarts(hash, f[..], nf[..], ks[..], vs[..], m);
    hide Stores;
    for j := 0 to f.Length
      invariant Midway(hash, f[..], nf[..], ks[..], vs[..], m, placed, None)
      invariant forall i | 0 <= i < j :: f[i] != Live
    {
      if f[j] == Live {
        TakeOut(hash, f[..], nf[..], ks[..], vs[..], m, placed, j);
        ghost var f0 := f[..];
        f[j] := Deleted;
        assert f[..] == f0[j := Deleted];
        placed := KickOut(hash, f, nf, ks, vs, ks[j], vs[j], m, placed);
      }
    }
    MidwayEnds(hash, f[..], nf[..], ks[..], vs[..], m, placed);
  }

  lemma HandFacts<K, V>(hash: K -> nat, of: seq<Flag>, nf: seq<Flag>, ks: seq<K>, vs: seq<V>,
                        m: map<K, V>, placed: set<K>, k: K, v: V)
    requires Midway(hash, of, nf, ks, vs, m, placed, Some((k, v)))
    ensures |of| <= |ks| == |vs| && |nf| <= |ks| && k in m.Keys && k !in placed
    ensures |m.Keys - (placed + {k})| < |m.Keys - placed|
  {
    hide Settled;
    assert m.Keys - (placed + {k}) == (m.Keys - placed) - {k};
  }

  /** `realloc`: a buffer of length `n` that starts like the old one. */
  method Realloc<T(0)>(a: array<T>, n: nat) returns (b: array<T>)
    ensures (b == a || fresh(b)) && b.Length == n
    ensures forall i | 0 <= i < n && i < a.Length :: b[i] == a[i]
  {
    if a.Length == n { return a; }
    var zero: T := *;
    b := new T[n](i requires 0 <= i reads a => if i < a.Length then a[i] else zero);
  }

  /** Both buffers made to have length `n`, which leaves room for all flagged buckets. */
  method ReallocBoth<K(0), V(0)>(hash: K -> nat, f: array<Flag>, ks: array<K>, vs: array<V>, n: nat,
                                 ghost m: map<K, V>)
    returns (ks': array<K>, vs': array<V>)
    requires f.Length <= n && n != ks.Length && n != vs.Length && Stores(f[..], ks[..], vs[..], m)
    ensures fresh(ks') && fresh(vs') && ks' as object != vs' && ks'.Length == vs'.Length == n
    ensures Stores(f[..], ks'[..], vs'[..], m)
    ensures Findable(hash, f[..], ks[..]) ==> Findable(hash, f[..], ks'[..])
  {
    hide Stores, Findable;
    StoresFits(f[..], ks[..], vs[..], m);
    ks' := Realloc(ks, n);
    vs' := Realloc(vs, n);
    Moved(hash, f[..], ks[..], vs[..], ks'[..], vs'[..], m);
  }

  /** The same entries in `n` buckets: enlarge, move in place, cut down. */
  method Rebuild<K(0), V(0)>(hash: K -> nat, f: array<Flag>, ks: array<K>, vs: array<V>, n: nat, ghost m: map<K, V>)
    returns (nf: array<Flag>, ks': array<K>, vs': array<V>)
    requires ks as object != vs && ks as object != f && vs as object != f && f.Length == ks.Length == vs.Length
    requires IsPow2(n) && 0 < n && |m| <= n && Stores(f[..], ks[..], vs[..], m)
    modifies f, ks, vs
    ensures fresh(nf) && (ks' == ks || fresh(ks')) && (vs' == vs || fresh(vs'))
    ensures ks' as object != vs' && ks' as object != nf && vs' as object != nf
    ensures nf.Length == ks'.Length == vs'.Length == n
    ensures Stores(nf[..], ks'[..], vs'[..], m) && Findable(hash, nf[..], ks'[..]) && Used(nf[..]) == |m|
    ensures forall b | 0 <= b < n :: nf[b] != Deleted
  {
    hide Stores, Findable, Used, IsPow2;
    nf := new Flag[n](_ => Empty);
    ks', vs' := ks, vs;
    if f.Length < n { ks', vs' := ReallocBoth(hash, f, ks, vs, n, m); }
    MoveAll(hash, f, nf, ks', vs', m);
    if f.Length > n { ks', vs' := ReallocBoth(hash, nf, ks', vs', n, m); }
  }

  const LARGEST: nat := 0x8000_0000

  class Table<K(==, 0), V(0)> {
    const hash: K -> nat
    var buckets: nat
    var size: nat
    var occupied: nat
    var upperBound: nat
    var flags: array<Flag>
    var keys: array<K>
    var vals: array<V>
    ghost var M: map<K, V>

    ghost predicate Separate()
      reads this
    {
      && keys as object != vals && keys as object != flags && vals as object != flags
      && flags.Length == keys.Length == vals.Length == buckets
    }

    /** The table is the map M: every entry is in one live bucket and findable from its hash, and
        `size` and `occupied` count what they claim.  Only a table of 2^31 buckets, which cannot be
        doubled, may be filled beyond the load limit. */
    ghost predicate Valid()
      reads this, flags, keys, vals
    {
      && Separate()
      && (buckets == 0 || (4 <= buckets <= LARGEST && IsPow2(buckets)))
      && upperBound == Upper(buckets) && size == |M|
      && occupied == Used(flags[..]) && (occupied <= upperBound || buckets == LARGEST)
      && Stores(flags[..], keys[..], vals[..], M)
      && Findable(hash, flags[..], keys[..])
    }

    /** The load limit is reached and the table would have to be doubled, but cannot be. */
    ghost predicate Exhausted()
      reads this
    {
      occupied >= upperBound && buckets <= 2 * size && buckets == LARGEST
    }

    /** An insertion of `key` finds its key or a place: unless 2^31 buckets are all live. */
    ghost predicate Fits(key: K)
      reads this
    {
      key in M || size < LARGEST
    }

    constructor (hash: K -> nat)
      ensures Valid() && M == map[] && this.hash == hash && fresh(flags) && fresh(keys) && fresh(vals)
    {
      this.hash := hash;
      buckets, size, occupied, upperBound := 0, 0, 0, 0;
      flags, keys, vals := new Flag[0], new K[0], new V[0];
      M := map[];
    }

    /** The bucket of `key`, or `buckets` when there is none. */
    method Get(key: K) returns (x: nat)
      requires Valid()
      ensures key in M <==> x != buckets
      ensures x != buckets ==> x < buckets && flags[x] == Live && keys[x] == key && vals[x] == M[key]
    {
      hide Findable, Stores, Used, IsPow2, Missed, Bucket, Wrap, Holds;
      if buckets == 0 {
        EmptyTable(flags[..], keys[..], vals[..], M);
        return 0;
      }
      var n, h, step := buckets, hash(key), 0;
      var i := Wrap(h, n);
      var last := i;
      BucketStart(h, n);
      StoresMeans(flags[..], keys[..], vals[..], M, key);
      MissedNone(flags[..], keys[..], h, key);
      while flags[i] != Empty && (flags[i] == Deleted || keys[i] != key)
        invariant 0 <= step < 2 * n - 1 && i == Bucket(h, step, n)
        invariant Missed(flags[..], keys[..], h, key, step)
        decreases 2 * n - step
      {
        MissedOne(flags[..], keys[..], h, key, step);
        step := step + 1;
        i := Wrap(i + step, n);
        BucketNext(h, step, n);
        FirstReturn(h, step, n);
        if i == last {
          AbsentAll(flags[..], keys[..], key, h, step);
          return n;
        }
      }
      if flags[i] == Empty {
        AbsentAt(hash, flags[..], keys[..], key, step);
        return n;
      }
      LiveMeans(flags[..], keys[..], vals[..], M, i);
      return i;
    }

    // ----- changing the number of buckets -----

    /** Rebuild in place with `n` buckets, using only a second flag array as working space. */
    method Rehash(n: nat)
      requires Valid() && 4 <= n <= 0x8000_0000 && IsPow2(n) && size < Upper(n)
      modifies this, flags, keys, vals
      ensures Valid() && M == old(M) && buckets == n && occupied == size
      ensures forall b | 0 <= b < n :: flags[b] != Deleted
      ensures fresh(flags) && (keys == old(keys) || fresh(keys)) && (vals == old(vals) || fresh(vals))
    {
      hide Stores, Findable, Used, IsPow2;
      UpperBelow(n);
      flags, keys, vals := Rebuild(hash, flags, keys, vals, n, M);
      buckets, occupied, upperBound := n, size, Upper(n);
    }

    /** Ask for a number of buckets: rounded up to a power of two, at least 4, and ignored
        when the entries would not fit under the load limit. */
    method Resize(wanted: nat)
      requires Valid() && wanted < WORD
      modifies this, flags, keys, vals
      ensures Valid() && M == old(M)
      ensures size >= Upper(Target(wanted)) ==>
                buckets == old(buckets) && occupied == old(occupied) && flags == old(flags)
                && forall b | 0 <= b < buckets :: flags[b] == old(flags[b])
      ensures size < Upper(Target(wanted)) ==>
                buckets == Target(wanted) && occupied == size && forall b | 0 <= b < buckets :: flags[b] != Deleted
      ensures (flags == old(flags) || fresh(flags)) && (keys == old(keys) || fresh(keys))
      ensures vals == old(vals) || fresh(vals)
    {
      hide Stores, Findable, Used, KRoundUp32;
      var n := KRoundUp32(wanted);
      if n < 4 { n := 4; }
      TargetPow2(wanted);
      if size < Upper(n) { Rehash(n); }
    }

    /** Before an insertion: when the load limit is reached, clear out deleted buckets if
        less than half are live, double otherwise; the largest table stays as it is. */
    method MakeRoom()
      requires Valid()
      modifies this, flags, keys, vals
      ensures Valid() && M == old(M) && 0 < buckets && (occupied < upperBound || buckets == LARGEST)
      ensures old(occupied < upperBound || Exhausted()) ==>
                && flags == old(flags) && occupied == old(occupied)
                && forall b | 0 <= b < buckets :: flags[b] == old(flags[b])
      ensures old(occupied >= upperBound && !Exhausted()) ==>
                occupied < upperBound && forall b | 0 <= b < buckets :: flags[b] != Deleted
      ensures (flags == old(flags) || fresh(flags)) && (keys == old(keys) || fresh(keys))
      ensures vals == old(vals) || fresh(vals)
    {
      hide Stores, Findable, Used, IsPow2, KRoundUp32;
      if buckets > 0 { UpperBelow(buckets); }
      if occupied >= upperBound {
        LiveAtMostUsed(flags[..], keys[..], vals[..], M);
        if buckets > 2 * size {
          SameSizeTarget(buckets);
          Resize(buckets - 1);
        } else {
          if buckets == LARGEST { GrowthWraps(); } else { DoubleTarget(buckets); }
          Resize(buckets + 1);
        }
      }
    }

    // ----- inserting and deleting -----

    /** The bucket an insertion of `key` uses: the one that holds it, else the last deleted
        bucket passed on the way, else the empty bucket that ended the search.  With neither,
        when every bucket holds another key, it is the one where the search began. */
    method FindSlot(key: K) returns (x: nat, ghost j: nat)
      requires Valid() && 0 < buckets
      ensures x < buckets
      ensures flags[x] == Live ==> (keys[x] == key <==> key in M)
      ensures flags[x] == Live && key !in M ==> forall b | 0 <= b < buckets :: flags[b] == Live
      ensures flags[x] != Live ==> key !in M && ReachAt(flags[..], hash(key), x, j)
    {
      hide Findable, Stores, Used, IsPow2, Missed, Bucket, Wrap, Holds, Passed;
      var n, h, step := buckets, hash(key), 0;
      var site := n;
      x := n;
      var i := Wrap(h, n);
      BucketStart(h, n);
      StoresMeans(flags[..], keys[..], vals[..], M, key);
      MissedNone(flags[..], keys[..], h, key);
      PassedNone(flags[..], h);
      j := 0;
      if flags[i] == Empty {
        AbsentAt(hash, flags[..], keys[..], key, 0);
        return i, 0;
      }
      var last := i;
      ghost var back := false;
      while flags[i] != Empty && (flags[i] == Deleted || keys[i] != key)
        invariant 0 <= step < 2 * n - 1 && i == Bucket(h, step, n) && x == n && !back
        invariant Missed(flags[..], keys[..], h, key, step) && Passed(flags[..], h, step, site == n)
        invariant site != n ==> site < n && flags[site] == Deleted && ReachAt(flags[..], h, site, j)
        decreases 2 * n - step
      {
        if flags[i] == Deleted {
          PassedReach(flags[..], h, step, site == n);
          site, j := i, step;
        }
        MissedOne(flags[..], keys[..], h, key, step);
        PassedOne(flags[..], h, step, site == n);
        step := step + 1;
        i := Wrap(i + step, n);
        BucketNext(h, step, n);
        FirstReturn(h, step, n);
        if i == last {
          AbsentAll(flags[..], keys[..], key, h, step);
          PassedAll(flags[..], h, step, site == n);
          back := true;
          x := site;
          break;
        }
      }
      if x == n {
        if flags[i] == Empty { AbsentAt(hash, flags[..], keys[..], key, step); }
        if flags[i] == Live { LiveMeans(flags[..], keys[..], vals[..], M, i); }
        if flags[i] == Empty && site != n {
          x := site;
        } else {
          PassedReach(flags[..], h, step, site == n);
          x, j := i, step;
        }
      }
    }

    /** Insert a key.  The answer is 0 when it was there already, 1 when it went into a bucket
        never used, 2 when it took over a deleted one.  The value of a new entry is whatever
        the bucket last held, until `SetValue`.  When all of 2^31 buckets hold other keys the
        answer is 0 although the key is not there, and the bucket is another key's. */
    method Put(key: K) returns (x: nat, ret: int)
      requires Valid()
      modifies this, flags, keys, vals
      ensures Valid() && x < buckets && flags[x] == Live && 0 <= ret <= 2
      ensures keys[x] == key <==> old(Fits(key))
      ensures (ret == 0 <==> key in old(M)) <==> old(Fits(key))
      ensures M == if ret == 0 then old(M) else old(M)[key := vals[x]]
      ensures old(occupied < upperBound || Exhausted()) && old(Fits(key)) ==>
                && flags == old(flags)
                && (ret == 1 <==> old(flags[x]) == Empty) && (ret == 2 <==> old(flags[x]) == Deleted)
      ensures old(occupied >= upperBound && !Exhausted()) ==> ret != 2
      ensures (flags == old(flags) || fresh(flags)) && (keys == old(keys) || fresh(keys))
      ensures vals == old(vals) || fresh(vals)
    {
      hide Findable, Stores, Used, IsPow2, ReachAt, Upper;
      AtMostBuckets(flags[..], keys[..], vals[..], M);
      MakeRoom();
      UpperBelow(buckets);
      AtMostBuckets(flags[..], keys[..], vals[..], M);
      ghost var j;
      x, j := FindSlot(key);
      if flags[x] == Live {
        ret := 0;
      } else {
        ret := if flags[x] == Empty then 1 else 2;
        NotAllLive(flags[..], keys[..], vals[..], M, x);
        Fill(x, key, j);
      }
    }

    method Fill(x: nat, key: K, ghost j: nat)
      requires Valid() && (occupied < upperBound || buckets == LARGEST) && x < buckets && flags[x] != Live
      requires key !in M && ReachAt(flags[..], hash(key), x, j)
      modifies this`occupied, this`size, this`M, flags, keys
      ensures Valid() && flags[x] == Live && keys[x] == key && M == old(M)[key := vals[x]]
    {
      hide Findable, Stores, Used, IsPow2, ReachAt, Upper;
      ghost var f0, ks0 := flags[..], keys[..];
      UsedUpdate(f0, x, Live);
      InsertStores(f0, ks0, vals[..], M, x, key);
      InsertFindable(hash, f0, ks0, x, key, j);
      keys[x] := key;
      if flags[x] == Empty { occupied := occupied + 1; }
      flags[x] := Live;
      size := size + 1;
      M := M[key := vals[x]];
      assert flags[..] == f0[x := Live] && keys[..] == ks0[x := key];
    }

    /** Store through the bucket an insertion returned. */
    method SetValue(x: nat, val: V)
      requires Valid() && x < buckets && flags[x] == Live
      modifies vals, this`M
      ensures Valid() && M == old(M)[keys[x] := val] && keys[x] in old(M)
    {
      ghost var vs0 := vals[..];
      SetStores(flags[..], keys[..], vs0, M, x, val);
      vals[x] := val;
      M := M[keys[x] := val];
      assert vals[..] == vs0[x := val];
    }

    /** Delete a bucket; the end bucket and buckets that are not live are left alone. */
    method Del(x: nat)
      requires Valid() && x <= buckets
      modifies this, flags
      ensures Valid() && buckets == old(buckets) && flags == old(flags) && keys == old(keys) && vals == old(vals)
      ensures M == if x < buckets && old(flags[x]) == Live then old(M) - {keys[x]} else old(M)
    {
      hide Findable, Stores, Used, IsPow2;
      if x != buckets && flags[x] == Live {
        ghost var f0 := flags[..];
        UsedUpdate(f0, x, Deleted);
        DeleteStores(f0, keys[..], vals[..], M, x);
        DeleteFindable(hash, f0, keys[..], x);
        LiveMeans(f0, keys[..], vals[..], M, x);
        assert |M - {keys[x]}| == |M| - 1 by { assert (M - {keys[x]}).Keys == M.Keys - {keys[x]}; }
        M := M - {keys[x]};
        flags[x] := Deleted;
        size := size - 1;
        assert flags[..] == f0[x := Deleted];
      }
    }
  }

  /** A table in use has a bucket that stops a search, exactly until all its buckets have been
      used, which only the largest table comes to. */
  lemma EmptyBucketRemains<K(0), V(0)>(t: Table<K, V>)
    requires t.Valid() && t.buckets > 0
    ensures (exists b: nat :: b < t.buckets && t.flags[b] == Empty) <==> t.occupied < t.buckets
    ensures t.buckets < LARGEST ==> t.occupied < t.buckets
  {
    hide Stores, Findable, IsPow2;
    UpperBelow(t.buckets);
    if t.occupied < t.buckets {
      var b := EmptyExists(t.flags[..]);
      assert t.flags[b] == Empty;
    }
    if b: nat :| b < t.buckets && t.flags[b] == Empty { UsedWithEmpty(t.flags[..], b); }
  }

  /** A table never holds more than 2^31 keys. */
  lemma SizeAtMost<K(0), V(0)>(t: Table<K, V>)
    requires t.Valid()
    ensures |t.M| <= t.buckets <= LARGEST
  {
    hide Stores, Findable, IsPow2;
    AtMostBuckets(t.flags[..], t.keys[..], t.vals[..], t.M);
  }

  // ----- whole runs -----

  datatype Op<K, V> = Assign(key: K, val: V) | Remove(key: K) | Reserve(wanted: nat)

  function Apply<K, V>(m: map<K, V>, op: Op<K, V>): map<K, V> {
    match op
    case Assign(k, v) => m[k := v]
    case Remove(k) => m - {k}
    case Reserve(_) => m
  }

  function ApplyAll<K, V>(m: map<K, V>, ops: seq<Op<K, V>>): map<K, V> {
    if ops == [] then m else Apply(ApplyAll(m, ops[..|ops| - 1]), ops[|ops| - 1])
  }

  /** Whatever the hash function, any run of operations on a new table leaves it equal to the
      finite map the same operations build, as long as that map has no more than 2^31 keys, the
      most that any table can hold. */
  method RunAll<K(==, 0), V(0)>(hash: K -> nat, ops: seq<Op<K, V>>) returns (t: Table<K, V>)
    requires forall n | 0 <= n <= |ops| :: |ApplyAll(map[], ops[..n])| <= LARGEST
    requires forall i | 0 <= i < |ops| && ops[i].Reserve? :: ops[i].wanted < WORD
    ensures fresh(t) && fresh(t.flags) && fresh(t.keys) && fresh(t.vals)
    ensures t.Valid() && t.M == ApplyAll(map[], ops)
  {
    hide Stores, Findable, Used, IsPow2, Upper;
    t := new Table(hash);
    for n := 0 to |ops|
      invariant fresh(t) && fresh(t.flags) && fresh(t.keys) && fresh(t.vals)
      invariant t.Valid() && t.M == ApplyAll(map[], ops[..n])
    {
      assert ops[..n + 1][..n] == ops[..n];
      assert ApplyAll(map[], ops[..n + 1]) == Apply(ApplyAll(map[], ops[..n]), ops[n]);
      Perform(t, ops[n]);
    }
    assert ops[..|ops|] == ops;
  }

  method Perform<K(==, 0), V(0)>(t: Table<K, V>, op: Op<K, V>)
    requires t.Valid() && |Apply(t.M, op)| <= LARGEST && (op.Reserve? ==> op.wanted < WORD)
    modifies t, t.flags, t.keys, t.vals
    ensures t.Valid() && t.M == Apply(old(t.M), op)
    ensures (t.flags == old(t.flags) || fresh(t.flags)) && (t.keys == old(t.keys) || fresh(t.keys))
    ensures t.vals == old(t.vals) || fresh(t.vals)
  {
    hide Stores, Findable, Used, IsPow2, Upper;
    if op.Assign? {
      Store(t, op.key, op.val);
    } else if op.Remove? {
      var x := t.Get(op.key);
      t.Del(x);
      assert old(t.M) - {op.key} == if op.key in old(t.M) then old(t.M) - {op.key} else old(t.M);
    } else {
      t.Resize(op.wanted);
    }
  }

  /** What the runtime does to assign: insert the key, then store through the bucket. */
  method Store<K(==, 0), V(0)>(t: Table<K, V>, key: K, val: V)
    requires t.Valid() && |t.M[key := val]| <= LARGEST
    modifies t, t.flags, t.keys, t.vals
    ensures t.Valid() && t.M == old(t.M)[key := val]
    ensures (t.flags == old(t.flags) || fresh(t.flags)) && (t.keys == old(t.keys) || fresh(t.keys))
    ensures t.vals == old(t.vals) || fresh(t.vals)
  {
    hide Stores, Findable, Used, IsPow2, Upper;
    OneMore(t.M, key, val);
    var x, _ := t.Put(key);
    t.SetValue(x, val);
  }

  lemma OneMore<K, V>(m: map<K, V>, k: K, v: V)
    ensures k !in m ==> |m[k := v]| == |m| + 1
  {
    assert m[k := v].Keys == m.Keys + {k};
  }

  // ----- the full table -----

  function Filling(n: nat): seq<Op<int, int>> { seq(n, i requires 0 <= i < n => Assign(i, 0)) }

  lemma FillingAt(n: nat)
    ensures |Filling(n)| == n
    ensures n > 0 ==> Filling(n)[n - 1] == Assign(n - 1, 0) && Filling(n)[..n - 1] == Filling(n - 1)
  {
  }

  lemma ApplyLast<K, V>(m: map<K, V>, ops: seq<Op<K, V>>)
    requires ops != []
    ensures ApplyAll(m, ops) == Apply(ApplyAll(m, ops[..|ops| - 1]), ops[|ops| - 1])
  {
  }

  lemma {:induction false} FillingSize(n: nat)
    ensures |ApplyAll(map[], Filling(n))| == n && forall k | k in ApplyAll(map[], Filling(n)) :: 0 <= k < n
  {
    FillingAt(n);
    if n > 0 {
      hide Filling, ApplyAll;
      FillingSize(n - 1);
      ApplyLast(map[], Filling(n));
      OneMore(ApplyAll(map[], Filling(n - 1)), n - 1, 0);
    }
  }

  /** After 2^31 different keys the next insertion says that its key was there, which it was not. */
  method FullTableMisreports(hash: int -> nat) returns (t: Table<int, int>, x: nat, ret: int)
    ensures fresh(t) && t.Valid() && -1 !in t.M && |t.M| == LARGEST && ret == 0
    ensures x < t.buckets && t.flags[x] == Live && t.keys[x] != -1
  {
    hide Stores, Findable, Used, IsPow2, Upper, Filling;
    FillingPrefixes(LARGEST);
    FillingSize(LARGEST);
    t := RunAll(hash, Filling(LARGEST));
    x, ret := t.Put(-1);
  }

  lemma FillingPrefixes(m: nat)
    ensures |Filling(m)| == m && forall i | 0 <= i < m :: Filling(m)[i].Assign?
    ensures forall n | 0 <= n <= m :: |ApplyAll(map[], Filling(m)[..n])| == n
  {
    forall n | 0 <= n <= m ensures |ApplyAll(map[], Filling(m)[..n])| == n {
      assert Filling(m)[..n] == Filling(n);
      FillingSize(n);
    }
  }

  // ----- sizes -----

  function Target(wanted: nat): nat
    requires wanted < WORD
  {
    if KRoundUp32(wanted) < 4 then 4 else KRoundUp32(wanted)
  }

  lemma TargetPow2(wanted: nat)
    requires wanted < WORD
    ensures 4 <= Target(wanted) <= 0x8000_0000 && IsPow2(Target(wanted))
  {
    RoundsUp(wanted);
    Pow32();
    assert Pow(2) == 4;
    if 0 < wanted <= 0x8000_0000 { AtMostLargest(KRoundUp32(wanted)); }
  }

  lemma AtMostLargest(p: nat)
    requires IsPow2(p) && p < WORD
    ensures p <= 0x8000_0000
  {
    var k: nat :| p == Pow(k);
    Pow32();
    if k >= 32 { PowMonotone(32, k); } else { PowMonotone(k, 31); }
  }

  lemma SameSizeTarget(n: nat)
    requires 4 <= n <= 0x8000_0000 && IsPow2(n)
    ensures Target(n - 1) == n
  {
    RoundsUp(n - 1);
    OnlyPower(n - 1, KRoundUp32(n - 1), n);
  }

  lemma DoubleTarget(n: nat)
    requires n == 0 || (4 <= n < 0x8000_0000 && IsPow2(n))
    ensures n < WORD - 1 && Target(n + 1) == if n == 0 then 4 else 2 * n
  {
    RoundsUp(n + 1);
    if n > 0 {
      HalfWay(n);
      Pow2Doubles(n);
      OnlyPower(n + 1, KRoundUp32(n + 1), 2 * n);
    }
  }

  lemma HalfWay(n: nat)
    requires IsPow2(n) && n < 0x8000_0000
    ensures 2 * n <= 0x8000_0000
  {
    var k: nat :| n == Pow(k);
    Pow32();
    if k >= 31 { PowMonotone(31, k); } else { PowGrows(k, 31); }
  }

  /** A table cannot outgrow 2^31 buckets: the next request wraps round to nothing. */
  lemma GrowthWraps()
    ensures Target(0x8000_0000 + 1) == 4
  {
    RoundsUp(0x8000_0001);
  }

  // ----- sequences -----

  /** Only the first |f| elements of the arrays matter. */
  lemma Moved<K, V>(hash: K -> nat, f: seq<Flag>, ks: seq<K>, vs: seq<V>, ks': seq<K>, vs': seq<V>, m: map<K, V>)
    requires Stores(f, ks, vs, m) && |f| <= |ks'| && |f| <= |vs'|
    requires forall i | 0 <= i < |f| :: ks'[i] == ks[i] && vs'[i] == vs[i]
    ensures Stores(f, ks', vs', m) && (Findable(hash, f, ks) ==> Findable(hash, f, ks'))
  {
    forall k | k in m ensures Holds(f, ks', k) {
      var b: nat :| b < |f| && b < |ks| && f[b] == Live && ks[b] == k;
      assert ks'[b] == k;
    }
  }

  lemma StoresFits<K, V>(f: seq<Flag>, ks: seq<K>, vs: seq<V>, m: map<K, V>)
    requires Stores(f, ks, vs, m)
    ensures |f| <= |ks| && |f| <= |vs|
  {
  }

  lemma SetStores<K, V>(f: seq<Flag>, ks: seq<K>, vs: seq<V>, m: map<K, V>, x: nat, v: V)
    requires Stores(f, ks, vs, m) && x < |f| && f[x] == Live
    ensures Stores(f, ks, vs[x := v], m[ks[x] := v]) && m[ks[x] := v].Keys == m.Keys
  {
    forall k | k in m[ks[x] := v] ensures Holds(f, ks, k) {
      var b: nat :| b < |f| && b < |ks| && f[b] == Live && ks[b] == k;
    }
  }

  ghost function LiveKeys<K>(f: seq<Flag>, ks: seq<K>): set<K>
    requires |f| <= |ks|
  {
    if f == [] then {} else LiveKeys(f[1..], ks[1..]) + if f[0] == Live then {ks[0]} else {}
  }

  lemma {:induction false} LiveKeysSize<K>(f: seq<Flag>, ks: seq<K>)
    requires |f| <= |ks|
    ensures |LiveKeys(f, ks)| <= Used(f)
  {
    if f != [] { LiveKeysSize(f[1..], ks[1..]); }
  }

  lemma {:induction false} LiveKeysHas<K>(f: seq<Flag>, ks: seq<K>, b: nat)
    requires b < |f| <= |ks| && f[b] == Live
    ensures ks[b] in LiveKeys(f, ks)
  {
    if b > 0 { LiveKeysHas(f[1..], ks[1..], b - 1); }
  }

  lemma LiveAtMostUsed<K, V>(f: seq<Flag>, ks: seq<K>, vs: seq<V>, m: map<K, V>)
    requires Stores(f, ks, vs, m)
    ensures |m| <= Used(f)
  {
    forall k | k in m ensures k in LiveKeys(f, ks) {
      var b: nat :| b < |f| && b < |ks| && f[b] == Live && ks[b] == k;
      LiveKeysHas(f, ks, b);
    }
    LiveKeysSize(f, ks);
    SubsetSize(m.Keys, LiveKeys(f, ks));
  }

  lemma {:induction false} UsedAtMost(f: seq<Flag>)
    ensures Used(f) <= |f|
  {
    if f != [] { UsedAtMost(f[1..]); }
  }

  lemma {:induction false} UsedWithEmpty(f: seq<Flag>, b: nat)
    requires b < |f| && f[b] == Empty
    ensures Used(f) < |f|
  {
    UsedUpdate(f, b, Live);
    UsedAtMost(f[b := Live]);
  }

  lemma AtMostBuckets<K, V>(f: seq<Flag>, ks: seq<K>, vs: seq<V>, m: map<K, V>)
    requires Stores(f, ks, vs, m)
    ensures |m| <= Used(f) <= |f|
    ensures (forall b | 0 <= b < |f| :: f[b] == Live) ==> |m| == |f|
  {
    LiveAtMostUsed(f, ks, vs, m);
    UsedAtMost(f);
    if forall b | 0 <= b < |f| :: f[b] == Live {
      AllLiveSize(f, ks);
      forall k | k in LiveKeys(f, ks) ensures k in m { var b := LiveKeysFrom(f, ks, k); }
      SubsetSize(LiveKeys(f, ks), m.Keys);
    }
  }

  lemma {:induction false} LiveKeysFrom<K>(f: seq<Flag>, ks: seq<K>, k: K) returns (b: nat)
    requires |f| <= |ks| && k in LiveKeys(f, ks)
    ensures b < |f| && f[b] == Live && ks[b] == k
  {
    if f[0] == Live && ks[0] == k {
      b := 0;
    } else {
      var b' := LiveKeysFrom(f[1..], ks[1..], k);
      b := b' + 1;
    }
  }

  lemma {:induction false} LiveKeysNot<K>(f: seq<Flag>, ks: seq<K>, k: K)
    requires |f| <= |ks| && forall b | 0 <= b < |f| :: ks[b] != k
    ensures k !in LiveKeys(f, ks)
  {
    if f != [] { LiveKeysNot(f[1..], ks[1..], k); }
  }

  lemma {:induction false} AllLiveSize<K>(f: seq<Flag>, ks: seq<K>)
    requires |f| <= |ks| && forall b | 0 <= b < |f| :: f[b] == Live
    requires forall b, c | 0 <= b < c < |f| :: ks[b] != ks[c]
    ensures |LiveKeys(f, ks)| == |f|
  {
    if f != [] {
      AllLiveSize(f[1..], ks[1..]);
      assert forall b | 0 <= b < |f[1..]| :: ks[1..][b] == ks[b + 1];
      LiveKeysNot(f[1..], ks[1..], ks[0]);
    }
  }

  /** A bucket that is not live leaves room for another key. */
  lemma NotAllLive<K, V>(f: seq<Flag>, ks: seq<K>, vs: seq<V>, m: map<K, V>, x: nat)
    requires Stores(f, ks, vs, m) && x < |f| && f[x] != Live
    ensures |m| < |f|
  {
    var f' := f[x := Empty];
    assert Stores(f', ks, vs, m) by {
      forall k | k in m ensures Holds(f', ks, k) {
        var b: nat :| b < |f| && b < |ks| && f[b] == Live && ks[b] == k;
        assert f'[b] == Live;
      }
    }
    LiveAtMostUsed(f', ks, vs, m);
    UsedWithEmpty(f', x);
  }

  lemma BucketStart(h: nat, n: nat)
    requires n > 0
    ensures Bucket(h, 0, n) == Wrap(h, n)
  {
  }

  lemma BucketNext(h: nat, j: nat, n: nat)
    requires n > 0 && j > 0
    ensures Bucket(h, j, n) == Wrap(Bucket(h, j - 1, n) + j, n)
  {
  }

  lemma MissedNone<K>(f: seq<Flag>, ks: seq<K>, h: nat, k: K)
    requires 0 < |f| <= |ks|
    ensures Missed(f, ks, h, k, 0)
  {
  }

  lemma EmptyTable<K, V>(f: seq<Flag>, ks: seq<K>, vs: seq<V>, m: map<K, V>)
    requires Stores(f, ks, vs, m) && f == []
    ensures m == map[]
  {
    assert forall k | k in m :: Holds(f, ks, k);
  }

  lemma StoresMeans<K, V>(f: seq<Flag>, ks: seq<K>, vs: seq<V>, m: map<K, V>, k: K)
    requires Stores(f, ks, vs, m)
    ensures k in m <==> Holds(f, ks, k)
  {
  }

  lemma LiveMeans<K, V>(f: seq<Flag>, ks: seq<K>, vs: seq<V>, m: map<K, V>, b: nat)
    requires Stores(f, ks, vs, m) && b < |f| && f[b] == Live
    ensures b < |ks| && b < |vs| && ks[b] in m && m[ks[b]] == vs[b]
  {
  }
}
