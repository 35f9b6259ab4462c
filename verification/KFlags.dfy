/** Two flag bits per bucket, sixteen buckets to a 32-bit word. */
module KFlags {
  import opened KHash

  /** The amount a bucket's bits are shifted by inside its word. */
  function Shift(i: bv32): bv32 { (i & 0xf) << 1 }

  function IsEmpty(w: bv32, i: bv32): bv32 { (w >> Shift(i)) & 2 }

  function IsDel(w: bv32, i: bv32): bv32 { (w >> Shift(i)) & 1 }

  function IsEither(w: bv32, i: bv32): bv32 { (w >> Shift(i)) & 3 }

  function SetIsEmptyFalse(w: bv32, i: bv32): bv32 { w & !((2 as bv32) << Shift(i)) }

  function SetIsBothFalse(w: bv32, i: bv32): bv32 { w & !((3 as bv32) << Shift(i)) }

  function SetIsDelTrue(w: bv32, i: bv32): bv32 { w | ((1 as bv32) << Shift(i)) }

  /** The flag two bits stand for. */
  function Decode(w: bv32, i: bv32): Flag {
    if IsEmpty(w, i) != 0 then Empty else if IsDel(w, i) != 0 then Deleted else Live
  }

  /** Not marked both empty and deleted. */
  predicate Proper(w: bv32, i: bv32) { IsEmpty(w, i) == 0 || IsDel(w, i) == 0 }

  /** The same two bits for bucket i. */
  predicate Same(v: bv32, w: bv32, i: bv32) {
    (IsEmpty(v, i) == 0 <==> IsEmpty(w, i) == 0) && (IsDel(v, i) == 0 <==> IsDel(w, i) == 0)
  }

  /** What `memset(flags, 0xaa, ...)` writes. */
  const FRESH: bv32 := 0xaaaa_aaaa

  lemma FreshIsEmpty(i: bv32)
    ensures Decode(FRESH, i) == Empty && IsEither(FRESH, i) != 0 && Proper(FRESH, i)
  {
  }

  lemma EitherMeans(w: bv32, i: bv32)
    ensures IsEither(w, i) == 0 <==> Decode(w, i) == Live
  {
  }

  /** Occupying a bucket makes it live. The other buckets of the word keep theirs. */
  lemma OccupySets(w: bv32, i: bv32)
    ensures Decode(SetIsBothFalse(w, i), i) == Live && Proper(SetIsBothFalse(w, i), i)
  {
  }

  lemma OccupyKeeps(w: bv32, i: bv32, j: bv32)
    requires i & 0xf != j & 0xf
    ensures Same(SetIsBothFalse(w, i), w, j)
  {
  }

  /** In the new flags of a rehash every bucket is live or empty; clearing the empty bit of an
      empty one makes it live. */
  lemma PlaceSets(w: bv32, i: bv32)
    ensures Decode(w, i) == Empty && Proper(w, i) ==> Decode(SetIsEmptyFalse(w, i), i) == Live
    ensures Proper(SetIsEmptyFalse(w, i), i)
  {
  }

  lemma PlaceKeeps(w: bv32, i: bv32, j: bv32)
    requires i & 0xf != j & 0xf
    ensures Same(SetIsEmptyFalse(w, i), w, j)
  {
  }

  /** Deleting a live bucket marks it deleted. */
  lemma DeleteSets(w: bv32, i: bv32)
    ensures Decode(w, i) == Live ==> Decode(SetIsDelTrue(w, i), i) == Deleted && Proper(SetIsDelTrue(w, i), i)
  {
  }

  lemma DeleteKeeps(w: bv32, i: bv32, j: bv32)
    requires i & 0xf != j & 0xf
    ensures Same(SetIsDelTrue(w, i), w, j)
  {
  }

  // ----- the array of words -----

  /** Place of a bucket inside its word, as the macros compute it from the index. */
  function Place(i: nat): bv32 { (i % 16) as bv32 }

  /** The flags that `n` buckets have in the words `ws`: bucket i is in word i >> 4. */
  function Flags(ws: seq<bv32>, n: nat): (fs: seq<Flag>)
    requires n <= 16 * |ws|
    ensures |fs| == n
  {
    seq(n, i requires 0 <= i < n => Decode(ws[i / 16], Place(i)))
  }

  /** No bucket is marked both empty and deleted. */
  ghost predicate Clean(ws: seq<bv32>, n: nat)
    requires n <= 16 * |ws|
  {
    forall i | 0 <= i < n :: Proper(ws[i / 16], Place(i))
  }

  lemma Nibbles(a: bv32, b: bv32)
    requires a < 16 && b < 16
    ensures a != b ==> a & 0xf != b & 0xf
  {
  }

  lemma PlaceIs(i: nat)
    ensures Place(i) as int == i % 16
  {
  }

  lemma PlacesDiffer(i: nat, j: nat)
    requires i / 16 == j / 16 && i != j
    ensures Place(i) & 0xf != Place(j) & 0xf
  {
    PlaceIs(i);
    PlaceIs(j);
    hide Place;
    Small(Place(i));
    Small(Place(j));
    Nibbles(Place(i), Place(j));
  }

  lemma Small(a: bv32)
    requires a as int < 16
    ensures a < 16
  {
  }

  lemma SameDecodes(v: bv32, w: bv32, i: bv32)
    requires Same(v, w, i)
    ensures Decode(v, i) == Decode(w, i) && (Proper(v, i) <==> Proper(w, i))
  {
    hide IsEmpty, IsDel;
  }

  /** One word rewritten so that, in it, only the place of bucket i changes. */
  lemma OneWord(ws: seq<bv32>, n: nat, i: nat, w: bv32, f: Flag)
    requires n <= 16 * |ws| && i < n && Decode(w, Place(i)) == f && Proper(w, Place(i))
    requires forall j: bv32 | Place(i) & 0xf != j & 0xf :: Same(w, ws[i / 16], j)
    ensures Flags(ws[i / 16 := w], n) == Flags(ws, n)[i := f] && (Clean(ws, n) ==> Clean(ws[i / 16 := w], n))
  {
    hide Decode, Place, Proper, Same;
    var ws' := ws[i / 16 := w];
    forall j | 0 <= j < n && j != i
      ensures Decode(ws'[j / 16], Place(j)) == Decode(ws[j / 16], Place(j))
      ensures Proper(ws[j / 16], Place(j)) ==> Proper(ws'[j / 16], Place(j))
    {
      if i / 16 == j / 16 {
        PlacesDiffer(i, j);
        SameDecodes(w, ws[i / 16], Place(j));
      }
    }
  }

  /** `memset` of new flags: every bucket is empty. */
  lemma FreshFlags(ws: seq<bv32>, n: nat)
    requires n <= 16 * |ws| && forall k | 0 <= k < |ws| :: ws[k] == FRESH
    ensures Clean(ws, n) && forall i | 0 <= i < n :: Flags(ws, n)[i] == Empty
  {
    forall i | 0 <= i < n ensures Decode(ws[i / 16], Place(i)) == Empty && Proper(ws[i / 16], Place(i)) {
      FreshIsEmpty(Place(i));
    }
  }

  /** An insertion makes its bucket live and changes no other. */
  lemma OccupyFlags(ws: seq<bv32>, n: nat, i: nat)
    requires n <= 16 * |ws| && i < n
    ensures Flags(ws[i / 16 := SetIsBothFalse(ws[i / 16], Place(i))], n) == Flags(ws, n)[i := Live]
    ensures Clean(ws, n) ==> Clean(ws[i / 16 := SetIsBothFalse(ws[i / 16], Place(i))], n)
  {
    hide Place, Proper, Same, Decode, SetIsBothFalse;
    var w := SetIsBothFalse(ws[i / 16], Place(i));
    OccupySets(ws[i / 16], Place(i));
    forall j: bv32 | Place(i) & 0xf != j & 0xf ensures Same(w, ws[i / 16], j) { OccupyKeeps(ws[i / 16], Place(i), j); }
    OneWord(ws, n, i, w, Live);
  }

  /** A rehash fills an empty bucket of the new flags. */
  lemma PlaceFlags(ws: seq<bv32>, n: nat, i: nat)
    requires n <= 16 * |ws| && i < n && Clean(ws, n) && Flags(ws, n)[i] == Empty
    ensures Flags(ws[i / 16 := SetIsEmptyFalse(ws[i / 16], Place(i))], n) == Flags(ws, n)[i := Live]
    ensures Clean(ws, n) ==> Clean(ws[i / 16 := SetIsEmptyFalse(ws[i / 16], Place(i))], n)
  {
    hide Place, Proper, Same, Decode, SetIsEmptyFalse;
    var w := SetIsEmptyFalse(ws[i / 16], Place(i));
    PlaceSets(ws[i / 16], Place(i));
    forall j: bv32 | Place(i) & 0xf != j & 0xf ensures Same(w, ws[i / 16], j) { PlaceKeeps(ws[i / 16], Place(i), j); }
    OneWord(ws, n, i, w, Live);
  }

  /** A deletion, or taking an entry out of the old table, marks one live bucket deleted. */
  lemma DeleteFlags(ws: seq<bv32>, n: nat, i: nat)
    requires n <= 16 * |ws| && i < n && Flags(ws, n)[i] == Live
    ensures Flags(ws[i / 16 := SetIsDelTrue(ws[i / 16], Place(i))], n) == Flags(ws, n)[i := Deleted]
    ensures Clean(ws, n) ==> Clean(ws[i / 16 := SetIsDelTrue(ws[i / 16], Place(i))], n)
  {
    hide Place, Proper, Same, Decode, SetIsDelTrue;
    var w := SetIsDelTrue(ws[i / 16], Place(i));
    DeleteSets(ws[i / 16], Place(i));
    forall j: bv32 | Place(i) & 0xf != j & 0xf ensures Same(w, ws[i / 16], j) { DeleteKeeps(ws[i / 16], Place(i), j); }
    OneWord(ws, n, i, w, Deleted);
  }
}
