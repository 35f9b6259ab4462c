/** The deep copy that a value gets when it is sent to another world. */
module Copy {

  type Ref = nat

  type Bytes = seq<bv8>

  /** A map cell is its table's contents: for the bytes of each key, the key object and the value.
      `Other` stands for code and scopes, which cannot be copied. */
  datatype Cell =
    | Nil
    | Bool(b: bool)
    | Int(i: int)
    | Num(x: real)
    | Str(bytes: Bytes, utf8: bool)
    | Ary(items: seq<Ref>)
    | Map(table: map<Bytes, Entry>)
    | Obj(klass: Ref, ivars: map<string, Ref>)
    | Opaque(body: nat)
    | Other

  datatype Entry = Entry(key: Ref, value: Ref)

  type Heap = map<Ref, Cell>

  ghost predicate KeyAt(h: Heap, e: Entry, k: Bytes) {
    e.key in h && h[e.key].Str? && h[e.key].bytes == k
  }

  /** Everything below r is of the kinds that can be copied, nested at most n deep. */
  ghost predicate Within(h: Heap, r: Ref, n: nat)
    decreases n
  {
    r in h &&
    match h[r]
    case Ary(items) => n > 0 && forall i | 0 <= i < |items| :: Within(h, items[i], n - 1)
    case Map(table) => n > 0 && forall k | k in table :: KeyAt(h, table[k], k) && Within(h, table[k].value, n - 1)
    case Other => false
    case _ => true
  }

  /** r in h and s in g are equal through arrays and maps; objects are equal when they have the same
      class and the same instance variables, opaque values when they share their body. */
  ghost predicate Equal(h: Heap, r: Ref, g: Heap, s: Ref, n: nat)
    decreases n
  {
    r in h && s in g &&
    match h[r]
    case Ary(items) =>
      n > 0 && g[s].Ary? && |g[s].items| == |items|
      && forall i | 0 <= i < |items| :: Equal(h, items[i], g, g[s].items[i], n - 1)
    case Map(table) =>
      n > 0 && g[s].Map? && g[s].table.Keys == table.Keys
      && forall k | k in table ::
           KeyAt(g, g[s].table[k], k) && Equal(h, table[k].value, g, g[s].table[k].value, n - 1)
    case c => g[s] == c
  }

  /** Nil and the booleans are singletons shared by all worlds, and never change.  Every cell that could
      change, reached from s through arrays and maps, lies at lo or above.  An object's own cell does;
      what its instance variables refer to is not looked at. */
  ghost predicate Apart(g: Heap, s: Ref, n: nat, lo: nat)
    decreases n
  {
    s in g && (g[s].Nil? || g[s].Bool? || s >= lo) &&
    match g[s]
    case Ary(items) => n > 0 && forall i | 0 <= i < |items| :: Apart(g, items[i], n - 1, lo)
    case Map(table) =>
      n > 0 && forall k | k in table :: table[k].key >= lo && table[k].key in g && Apart(g, table[k].value, n - 1, lo)
    case _ => true
  }

  ghost predicate Extends(h: Heap, g: Heap) {
    forall x | x in h :: x in g && g[x] == h[x]
  }

  /** g' still has what g has at lo and above, and the singletons; below lo anything may have happened. */
  ghost predicate Keeps(g: Heap, g': Heap, lo: nat) {
    forall x | x in g && (x >= lo || g[x].Nil? || g[x].Bool?) :: x in g' && g'[x] == g[x]
  }

  /** Some cells with all that they contain, none of them code or a scope and none inside itself:
      containers rank above what they hold. */
  ghost predicate Acyclic(h: Heap, cells: set<Ref>, rank: Ref -> nat) {
    forall r | r in cells ::
      && r in h && !h[r].Other?
      && (h[r].Ary? ==> forall i | 0 <= i < |h[r].items| :: Descends(cells, rank, r, h[r].items[i]))
      && (h[r].Map? ==> forall k | k in h[r].table ::
            KeyAt(h, h[r].table[k], k) && Descends(cells, rank, r, h[r].table[k].value))
  }

  ghost predicate Descends(cells: set<Ref>, rank: Ref -> nat, r: Ref, kid: Ref) {
    kid in cells && rank(kid) < rank(r)
  }

  /** A value that contains only such cells can be copied, whatever else the heap holds. */
  lemma {:induction false} AcyclicWithin(h: Heap, cells: set<Ref>, rank: Ref -> nat, r: Ref)
    requires Acyclic(h, cells, rank) && r in cells
    ensures Within(h, r, rank(r) + 1)
    decreases rank(r)
  {
    match h[r]
    case Ary(items) =>
      forall i | 0 <= i < |items| ensures Within(h, items[i], rank(r)) {
        assert Descends(cells, rank, r, items[i]);
        AcyclicWithin(h, cells, rank, items[i]);
        WithinDeeper(h, items[i], rank(items[i]) + 1, rank(r));
      }
    case Map(table) =>
      forall k | k in table ensures Within(h, table[k].value, rank(r)) {
        var v := table[k].value;
        assert Descends(cells, rank, r, v);
        AcyclicWithin(h, cells, rank, v);
        WithinDeeper(h, v, rank(v) + 1, rank(r));
      }
    case _ =>
  }

  lemma {:induction false} WithinDeeper(h: Heap, r: Ref, n: nat, m: nat)
    requires Within(h, r, n) && n <= m
    ensures Within(h, r, m)
    decreases n
  {
    match h[r]
    case Ary(items) =>
      forall i | 0 <= i < |items| ensures Within(h, items[i], m - 1) { WithinDeeper(h, items[i], n - 1, m - 1); }
    case Map(table) =>
      forall k | k in table ensures Within(h, table[k].value, m - 1) { WithinDeeper(h, table[k].value, n - 1, m - 1); }
    case _ =>
  }

  // ----- what can be observed -----

  /** One step into a value: an element of an array, or the value for a key of a map. */
  datatype Step = Index(i: nat) | Key(k: Bytes)

  /** The cell at the end of a path, with the sizes and keys but not the references of a container. */
  datatype View = Nothing | Scalar(c: Cell) | Length(n: nat) | Keys(ks: set<Bytes>)

  function Look(h: Heap, r: Ref, path: seq<Step>): View
    decreases |path|
  {
    if r !in h then Nothing
    else if path == [] then
      (match h[r] case Ary(items) => Length(|items|) case Map(table) => Keys(table.Keys) case c => Scalar(c))
    else
      match h[r]
      case Ary(items) => if path[0].Index? && path[0].i < |items| then Look(h, items[path[0].i], path[1..]) else Nothing
      case Map(table) =>
        if path[0].Key? && path[0].k in table then Look(h, table[path[0].k].value, path[1..]) else Nothing
      case _ => Nothing
  }

  /** No path tells a value and a copy of it apart. */
  lemma {:induction false} EqualLooks(h: Heap, r: Ref, g: Heap, s: Ref, n: nat, path: seq<Step>)
    requires Equal(h, r, g, s, n)
    ensures Look(h, r, path) == Look(g, s, path) && Look(h, r, []) != Nothing
    decreases n
  {
    if path != [] {
      match h[r]
      case Ary(items) =>
        if path[0].Index? && path[0].i < |items| {
          EqualLooks(h, items[path[0].i], g, g[s].items[path[0].i], n - 1, path[1..]);
        }
      case Map(table) =>
        if path[0].Key? && path[0].k in table {
          EqualLooks(h, table[path[0].k].value, g, g[s].table[path[0].k].value, n - 1, path[1..]);
        }
      case _ =>
    }
  }

  // ----- frames -----

  lemma {:induction false} WithinExtends(h: Heap, g: Heap, r: Ref, n: nat)
    requires Within(h, r, n) && Extends(h, g)
    ensures Within(g, r, n)
    decreases n
  {
    match h[r]
    case Ary(items) =>
      forall i | 0 <= i < |items| ensures Within(g, items[i], n - 1) { WithinExtends(h, g, items[i], n - 1); }
    case Map(table) =>
      forall k | k in table ensures Within(g, table[k].value, n - 1) { WithinExtends(h, g, table[k].value, n - 1); }
    case _ =>
  }

  /** What a grown heap's value equals, the value in the old heap equals. */
  lemma {:induction false} EqualFrom(h: Heap, h': Heap, r: Ref, g: Heap, s: Ref, n: nat)
    requires Within(h, r, n) && Extends(h, h') && Equal(h', r, g, s, n)
    ensures Equal(h, r, g, s, n)
    decreases n
  {
    match h[r]
    case Ary(items) =>
      forall i | 0 <= i < |items| ensures Equal(h, items[i], g, g[s].items[i], n - 1) {
        EqualFrom(h, h', items[i], g, g[s].items[i], n - 1);
      }
    case Map(table) =>
      forall k | k in table ensures Equal(h, table[k].value, g, g[s].table[k].value, n - 1) {
        EqualFrom(h, h', table[k].value, g, g[s].table[k].value, n - 1);
      }
    case _ =>
  }

  /** Shared nothing: whatever happens below lo, the copy is still the copy. */
  lemma {:induction false} StillEqual(h: Heap, r: Ref, g: Heap, g': Heap, s: Ref, n: nat, lo: nat)
    requires Equal(h, r, g, s, n) && Apart(g, s, n, lo) && Keeps(g, g', lo)
    ensures Equal(h, r, g', s, n) && Apart(g', s, n, lo)
    decreases n
  {
    assert g'[s] == g[s];
    match h[r]
    case Ary(items) =>
      forall i | 0 <= i < |items|
        ensures Equal(h, items[i], g', g[s].items[i], n - 1) && Apart(g', g[s].items[i], n - 1, lo)
      {
        StillEqual(h, items[i], g, g', g[s].items[i], n - 1, lo);
      }
    case Map(table) =>
      forall k | k in table
        ensures Equal(h, table[k].value, g', g[s].table[k].value, n - 1) && Apart(g', g[s].table[k].value, n - 1, lo)
        ensures KeyAt(g', g[s].table[k], k)
      {
        StillEqual(h, table[k].value, g, g', g[s].table[k].value, n - 1, lo);
      }
    case _ =>
  }

  lemma {:induction false} ApartLower(g: Heap, s: Ref, n: nat, lo: nat, lo': nat)
    requires Apart(g, s, n, lo) && lo' <= lo
    ensures Apart(g, s, n, lo')
    decreases n
  {
    match g[s]
    case Ary(items) =>
      forall i | 0 <= i < |items| ensures Apart(g, items[i], n - 1, lo') { ApartLower(g, items[i], n - 1, lo, lo'); }
    case Map(table) =>
      forall k | k in table ensures Apart(g, table[k].value, n - 1, lo') {
        ApartLower(g, table[k].value, n - 1, lo, lo');
      }
    case _ =>
  }

  // ----- copying -----

  /** s is a copy of the old heap's r, made of cells at lo and above. */
  ghost predicate CopyOf(h: Heap, r: Ref, g: Heap, s: Ref, n: nat, lo: nat) {
    Equal(h, r, g, s, n) && Apart(g, s, n, lo)
  }

  class World {
    const text: Cell -> Bytes   // how a value is turned into a string
    var heap: Heap
    var next: nat

    constructor (text: Cell -> Bytes)
      ensures Valid() && heap == map[] && this.text == text
    {
      this.text := text;
      heap, next := map[], 0;
    }

    ghost predicate Valid()
      reads this
    {
      forall x | x in heap :: x < next
    }

    method Alloc(c: Cell) returns (s: Ref)
      requires Valid()
      modifies this
      ensures Valid() && s == old(next) && next == s + 1 && heap == old(heap)[s := c] && s !in old(heap)
    {
      s := next;
      heap := heap[s := c];
      next := next + 1;
    }

    /** `pone_val_copy`. */
    method ValCopy(r: Ref, ghost n: nat) returns (s: Ref)
      requires Valid() && Within(heap, r, n)
      modifies this
      ensures Valid() && next >= old(next) && Extends(old(heap), heap)
      ensures CopyOf(old(heap), r, heap, s, n, old(next))
      decreases n, 1
    {
      match heap[r]
      case Nil => s := r;
      case Bool(_) => s := r;
      case Int(i) => s := Alloc(Int(i));
      case Num(x) => s := Alloc(Num(x));
      case Str(bytes, utf8) => s := Alloc(Str(bytes, utf8));
      case Ary(_) => s := AryCopy(r, n);
      case Map(_) => s := MapCopy(r, n);
      case Obj(_, _) => s := ObjCopy(r);
      case Opaque(body) => s := Alloc(Opaque(body));
    }

    method AryPush(s: Ref, v: Ref)
      requires s in heap && heap[s].Ary?
      modifies this`heap
      ensures heap == old(heap)[s := Ary(old(heap[s].items) + [v])]
    {
      heap := heap[s := Ary(heap[s].items + [v])];
    }

    /** A key that is not a string is turned into one; an equal key already there stays the key object. */
    method MapAssignKey(s: Ref, k: Ref, v: Ref)
      requires Valid() && s in heap && heap[s].Map? && k in heap
      modifies this
      ensures Valid() && (old(heap[k]).Str? ==> next == old(next)) && next <= old(next) + 1
      ensures old(heap[k]).Str? ==> heap == old(heap)[s := Map(Assigned(old(heap[s].table), old(heap[k].bytes), k, v))]
      ensures !old(heap[k]).Str? ==>
                var bytes, key := text(old(heap[k])), old(next);
                heap == old(heap)[key := Str(bytes, true)][s := Map(Assigned(old(heap[s].table), bytes, key, v))]
    {
      var key := k;
      if !heap[k].Str? { key := Alloc(Str(text(heap[k]), true)); }
      var bytes, table := heap[key].bytes, heap[s].table;
      if bytes in table {
        table := table[bytes := table[bytes].(value := v)];
      } else {
        table := table[bytes := Entry(key, v)];
      }
      heap := heap[s := Map(table)];
    }

    /** A new object of the same class; its instance variables are the same values, not copies. */
    method ObjCopy(r: Ref) returns (s: Ref)
      requires Valid() && r in heap && heap[r].Obj?
      modifies this
      ensures Valid() && s == old(next) && next == s + 1 && heap == old(heap)[s := old(heap)[r]]
    {
      s := Alloc(Obj(heap[r].klass, map[]));
      var ivars := heap[r].ivars;
      var todo := ivars.Keys;
      while todo != {}
        invariant Valid() && next == s + 1 && todo <= ivars.Keys && r in old(heap)
        invariant s in heap && heap == old(heap)[s := heap[s]] && heap[s].Obj? && heap[s].klass == old(heap)[r].klass
        invariant heap[s].ivars.Keys == ivars.Keys - todo
        invariant forall k | k in heap[s].ivars :: heap[s].ivars[k] == ivars[k]
        decreases |todo|
      {
        var k :| k in todo;
        heap := heap[s := Obj(heap[s].klass, heap[s].ivars[k := ivars[k]])];
        todo := todo - {k};
      }
      assert heap[s].ivars == ivars;
    }

    /** Pushes a copy of each element in turn. */
    method AryCopy(r: Ref, ghost n: nat) returns (s: Ref)
      requires Valid() && Within(heap, r, n) && heap[r].Ary?
      modifies this
      ensures Valid() && next >= old(next) && Extends(old(heap), heap)
      ensures CopyOf(old(heap), r, heap, s, n, old(next))
      decreases n, 0
    {
      assert n > 0;
      hide Equal, Apart, Within, CopyOf, Copies;
      ghost var h := heap;
      s := Alloc(Ary([]));
      NoCopies(h, heap, n - 1, s + 1);
      var items := heap[r].items;
      for i := 0 to |items|
        invariant Valid() && next > s && Extends(h, heap)
        invariant s in heap && heap[s].Ary? && |heap[s].items| == i
        invariant Copies(h, items[..i], heap, heap[s].items, n - 1, s + 1)
      {
        ghost var before, lo := heap, next;
        ElementWithin(h, before, r, n, i);
        var c := ValCopy(items[i], n - 1);
        ghost var g := heap;
        AryPush(s, c);
        Copied(h, before, g, heap, items[i], c, n - 1, lo, s + 1);
        CopiesGrow(h, before, heap, items[..i], before[s].items, items[i], c, n - 1, s + 1);
        assert items[..i + 1] == items[..i] + [items[i]];
      }
      assert items[..|items|] == items;
      AryDone(h, r, heap, s, n);
    }

    /** Assigns a copy of each entry, in whatever order the table is walked. */
    method MapCopy(r: Ref, ghost n: nat) returns (s: Ref)
      requires Valid() && Within(heap, r, n) && heap[r].Map?
      modifies this
      ensures Valid() && next >= old(next) && Extends(old(heap), heap)
      ensures CopyOf(old(heap), r, heap, s, n, old(next))
      decreases n, 0
    {
      assert n > 0;
      hide Equal, Apart, Within, CopyOf, EntryCopy, EntryCopies, KeyAt;
      ghost var h := heap;
      s := Alloc(Map(map[]));
      var table := heap[r].table;
      var todo := table.Keys;
      NoEntries(h, table, heap, n - 1, s + 1);
      while todo != {}
        invariant Valid() && next > s && Extends(h, heap) && todo <= table.Keys
        invariant s in heap && heap[s].Map?
        invariant EntryCopies(h, table, todo, heap, heap[s].table, n - 1, s + 1)
        decreases |todo|
      {
        var k :| k in todo;
        ghost var before := heap;
        EntryWithin(h, r, n, k);
        NotYet(h, table, todo, before, before[s].table, n - 1, s + 1, k);
        EntryFrom(table[k], k, s, n - 1, h);
        EntriesGrow(h, table, todo, before, before[s].table, heap, heap[s].table, n - 1, s + 1, k);
        todo := todo - {k};
      }
      MapDone(h, r, heap, s, n);
    }

    /** One entry of the map copy at s; h is the heap before the copy began. */
    method EntryFrom(e: Entry, k: Bytes, s: Ref, ghost n: nat, ghost h: Heap)
      requires Valid() && next > s && Extends(h, heap) && s !in h
      requires s in heap && heap[s].Map? && k !in heap[s].table && KeyAt(h, e, k) && Within(h, e.value, n)
      modifies this
      ensures Valid() && next > s && Extends(h, heap) && Keeps(old(heap), heap, s + 1)
      ensures s in heap && heap[s].Map? && heap[s].table.Keys == old(heap[s].table.Keys) + {k}
      ensures forall j | j in old(heap[s].table) :: heap[s].table[j] == old(heap[s].table[j])
      ensures EntryCopy(h, e, heap, heap[s].table[k], k, n, s + 1)
      decreases n, 2
    {
      hide Equal, Apart, Within, CopyOf, EntryCopy;
      ghost var before, lo := heap, next;
      KeyWithin(h, before, e, k);
      var ck := ValCopy(e.key, 0);
      KeyCopied(before, e, heap, ck, k, lo);
      ghost var mid, lo' := heap, next;
      WithinExtends(h, mid, e.value, n);
      var cv := ValCopy(e.value, n);
      ghost var g := heap;
      MapAssignKey(s, ck, cv);
      Copied(h, mid, g, heap, e.value, cv, n, lo', s + 1);
      NewEntry(h, e, heap, Entry(ck, cv), k, n, s + 1);
    }
  }

  function Assigned(table: map<Bytes, Entry>, bytes: Bytes, k: Ref, v: Ref): map<Bytes, Entry> {
    table[bytes := if bytes in table then table[bytes].(value := v) else Entry(k, v)]
  }

  /** One key gets the value; its key object stays if there was one; all other entries stay. */
  lemma AssignedMeans(table: map<Bytes, Entry>, bytes: Bytes, k: Ref, v: Ref)
    ensures var t := Assigned(table, bytes, k, v);
            && t.Keys == table.Keys + {bytes} && t[bytes].value == v
            && t[bytes].key == (if bytes in table then table[bytes].key else k)
            && forall j | j in table && j != bytes :: t[j] == table[j]
  {
  }

  /** So an object is the one way to share: the copy and the original have the same instance variables. */
  lemma ObjectsShare(h: Heap, r: Ref, g: Heap, s: Ref, n: nat, name: string)
    requires r in h && h[r].Obj? && name in h[r].ivars && Equal(h, r, g, s, n)
    ensures g[s].Obj? && name in g[s].ivars && g[s].ivars[name] == h[r].ivars[name]
  {
  }

  lemma ElementWithin(h: Heap, g: Heap, r: Ref, n: nat, i: nat)
    requires r in h && Within(h, r, n) && Extends(h, g) && h[r].Ary? && i < |h[r].items|
    ensures n > 0 && Within(h, h[r].items[i], n - 1) && Within(g, h[r].items[i], n - 1)
  {
    WithinExtends(h, g, h[r].items[i], n - 1);
  }

  lemma EntryWithin(h: Heap, r: Ref, n: nat, k: Bytes)
    requires r in h && Within(h, r, n) && h[r].Map? && k in h[r].table
    ensures n > 0 && KeyAt(h, h[r].table[k], k) && Within(h, h[r].table[k].value, n - 1)
  {
  }

  lemma KeyWithin(h: Heap, g: Heap, e: Entry, k: Bytes)
    requires KeyAt(h, e, k) && Extends(h, g)
    ensures KeyAt(g, e, k) && Within(g, e.key, 0)
  {
  }

  /** A copy made in between: of the value as it was in h, untouched by the change from g to g'. */
  lemma Copied(h: Heap, before: Heap, g: Heap, g': Heap, r: Ref, c: Ref, n: nat, made: nat, lo: nat)
    requires Within(h, r, n) && Extends(h, before) && lo <= made
    requires CopyOf(before, r, g, c, n, made) && Keeps(g, g', lo)
    ensures CopyOf(h, r, g', c, n, lo)
  {
    EqualFrom(h, before, r, g, c, n);
    ApartLower(g, c, n, made, lo);
    StillEqual(h, r, g, g', c, n, lo);
  }

  lemma CopyKept(h: Heap, g: Heap, g': Heap, r: Ref, c: Ref, n: nat, lo: nat)
    requires CopyOf(h, r, g, c, n, lo) && Keeps(g, g', lo)
    ensures CopyOf(h, r, g', c, n, lo)
  {
    StillEqual(h, r, g, g', c, n, lo);
  }

  ghost predicate Copies(h: Heap, rs: seq<Ref>, g: Heap, cs: seq<Ref>, n: nat, lo: nat) {
    |cs| == |rs| && forall j | 0 <= j < |rs| :: CopyOf(h, rs[j], g, cs[j], n, lo)
  }

  lemma NoCopies(h: Heap, g: Heap, n: nat, lo: nat)
    ensures Copies(h, [], g, [], n, lo)
  {
  }

  lemma CopiesGrow(h: Heap, g: Heap, g': Heap, rs: seq<Ref>, cs: seq<Ref>, r: Ref, c: Ref, n: nat, lo: nat)
    requires Copies(h, rs, g, cs, n, lo) && Keeps(g, g', lo) && CopyOf(h, r, g', c, n, lo)
    ensures Copies(h, rs + [r], g', cs + [c], n, lo)
  {
    hide CopyOf, Keeps;
    forall j | 0 <= j < |rs| ensures CopyOf(h, rs[j], g', cs[j], n, lo) { CopyKept(h, g, g', rs[j], cs[j], n, lo); }
  }

  lemma AryDone(h: Heap, r: Ref, g: Heap, s: Ref, n: nat)
    requires n > 0 && r in h && h[r].Ary? && s in g && g[s].Ary? && |g[s].items| == |h[r].items|
    requires Copies(h, h[r].items, g, g[s].items, n - 1, s + 1)
    ensures CopyOf(h, r, g, s, n, s)
  {
    forall j | 0 <= j < |h[r].items|
      ensures Equal(h, h[r].items[j], g, g[s].items[j], n - 1) && Apart(g, g[s].items[j], n - 1, s)
    {
      assert CopyOf(h, h[r].items[j], g, g[s].items[j], n - 1, s + 1);
      ApartLower(g, g[s].items[j], n - 1, s + 1, s);
    }
  }

  /** e' is a copy of the map entry e for key k. */
  ghost predicate EntryCopy(h: Heap, e: Entry, g: Heap, e': Entry, k: Bytes, n: nat, lo: nat) {
    KeyAt(g, e', k) && e'.key >= lo && CopyOf(h, e.value, g, e'.value, n, lo)
  }

  lemma KeyCopied(h: Heap, e: Entry, g: Heap, c: Ref, k: Bytes, lo: nat)
    requires KeyAt(h, e, k) && CopyOf(h, e.key, g, c, 0, lo)
    ensures c in g && g[c].Str? && g[c].bytes == k && c >= lo
  {
  }

  lemma NewEntry(h: Heap, e: Entry, g: Heap, e': Entry, k: Bytes, n: nat, lo: nat)
    requires KeyAt(g, e', k) && e'.key >= lo && CopyOf(h, e.value, g, e'.value, n, lo)
    ensures EntryCopy(h, e, g, e', k, n, lo)
  {
  }

  lemma EntryKept(h: Heap, g: Heap, g': Heap, e: Entry, e': Entry, k: Bytes, n: nat, lo: nat)
    requires EntryCopy(h, e, g, e', k, n, lo) && Keeps(g, g', lo)
    ensures EntryCopy(h, e, g', e', k, n, lo)
  {
    CopyKept(h, g, g', e.value, e'.value, n, lo);
  }

  /** The entries of `from`, except those still to do, have been copied to `to`. */
  ghost predicate EntryCopies(h: Heap, from: map<Bytes, Entry>, todo: set<Bytes>, g: Heap, to: map<Bytes, Entry>,
                              n: nat, lo: nat) {
    && to.Keys == from.Keys - todo
    && forall k | k in to :: EntryCopy(h, from[k], g, to[k], k, n, lo)
  }

  lemma NoEntries(h: Heap, from: map<Bytes, Entry>, g: Heap, n: nat, lo: nat)
    ensures EntryCopies(h, from, from.Keys, g, map[], n, lo)
  {
  }

  lemma NotYet(h: Heap, from: map<Bytes, Entry>, todo: set<Bytes>, g: Heap, to: map<Bytes, Entry>, n: nat, lo: nat,
               k: Bytes)
    requires EntryCopies(h, from, todo, g, to, n, lo) && k in todo
    ensures k !in to
  {
  }

  lemma EntriesGrow(h: Heap, from: map<Bytes, Entry>, todo: set<Bytes>, g: Heap, to: map<Bytes, Entry>,
                    g': Heap, to': map<Bytes, Entry>, n: nat, lo: nat, k: Bytes)
    requires EntryCopies(h, from, todo, g, to, n, lo) && Keeps(g, g', lo) && k in todo && k in from
    requires to'.Keys == to.Keys + {k} && EntryCopy(h, from[k], g', to'[k], k, n, lo)
    requires forall j | j in to :: to'[j] == to[j]
    ensures EntryCopies(h, from, todo - {k}, g', to', n, lo)
  {
    hide EntryCopy, Keeps;
    forall j | j in to ensures EntryCopy(h, from[j], g', to'[j], j, n, lo) {
      EntryKept(h, g, g', from[j], to[j], j, n, lo);
    }
  }

  lemma MapDone(h: Heap, r: Ref, g: Heap, s: Ref, n: nat)
    requires n > 0 && r in h && h[r].Map? && s in g && g[s].Map?
    requires EntryCopies(h, h[r].table, {}, g, g[s].table, n - 1, s + 1)
    ensures CopyOf(h, r, g, s, n, s)
  {
    forall k | k in h[r].table
      ensures KeyAt(g, g[s].table[k], k) && g[s].table[k].key >= s
      ensures Equal(h, h[r].table[k].value, g, g[s].table[k].value, n - 1) && Apart(g, g[s].table[k].value, n - 1, s)
    {
      assert EntryCopy(h, h[r].table[k], g, g[s].table[k], k, n - 1, s + 1);
      ApartLower(g, g[s].table[k].value, n - 1, s + 1, s);
    }
  }
}
