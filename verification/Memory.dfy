/** Values, what they refer to, and what can be reached from where.

    A value lives in a slot of one of its world's arenas, or is one of the static
    singletons, which refer to nothing.  The heap is closed: nothing in it refers
    outside it. */
module Memory {
  import opened Common

  datatype Ref = Slot(arena: nat, index: nat) | Static(id: nat)

  /** The contents of a slot.  A free slot is a link of the free list. */
  datatype Body =
    | Free(next: Option<Ref>)
    | Nil
    | Bool(b: bool)
    | Int(i: int)
    | Num(n: real)
    | Opaque(id: nat)
    | Str(bytes: seq<nat>, source: Option<Ref>)
    | Ary(elems: seq<Ref>)
    | Map(entries: seq<(Ref, Ref)>)
    | Code(func: nat, scope: Option<Ref>)
    | Obj(ivars: seq<(string, Ref)>, klass: Ref)
    | Lex(vars: seq<(string, Ref)>, parent: Option<Ref>)

  type Heap = map<Ref, Body>

  // ----- references held by a value -----

  ghost function Range(s: seq<Ref>): set<Ref> { set r | r in s }

  ghost function Firsts(es: seq<(Ref, Ref)>): seq<Ref> { seq(|es|, i requires 0 <= i < |es| => es[i].0) }

  ghost function Seconds<T>(es: seq<(T, Ref)>): seq<Ref> { seq(|es|, i requires 0 <= i < |es| => es[i].1) }

  ghost function Opt(o: Option<Ref>): set<Ref> { if o.Some? then {o.value} else {} }

  ghost function Kids(b: Body): set<Ref> {
    match b
    case Str(_, source) => Opt(source)
    case Ary(elems) => Range(elems)
    case Map(entries) => Range(Firsts(entries)) + Range(Seconds(entries))
    case Code(_, scope) => Opt(scope)
    case Obj(ivars, klass) => Range(Seconds(ivars)) + {klass}
    case Lex(vars, parent) => Range(Seconds(vars)) + Opt(parent)
    case _ => {}
  }

  ghost predicate Live(h: Heap, r: Ref) { r in h && !h[r].Free? }

  /** Everything a value refers to is a live value of the same heap. */
  ghost predicate Closed(h: Heap) {
    forall r, k | r in h && k in Kids(h[r]) :: Live(h, k)
  }

  // ----- the same, field by field -----

  ghost predicate Elements(h: Heap, elems: seq<Ref>) { forall i | 0 <= i < |elems| :: Live(h, elems[i]) }

  ghost predicate Pairs(h: Heap, es: seq<(Ref, Ref)>) {
    forall i | 0 <= i < |es| :: Live(h, es[i].0) && Live(h, es[i].1)
  }

  ghost predicate Named(h: Heap, es: seq<(string, Ref)>) { forall i | 0 <= i < |es| :: Live(h, es[i].1) }

  ghost predicate Holds(h: Heap, o: Option<Ref>) { o.Some? ==> Live(h, o.value) }

  /** Nothing a value holds has been freed: the string a copy shares its buffer with, every element of
      an array, every key and value of a map, the scope of a code, every instance variable and the
      class of an object, every variable and the enclosing scope of a scope. */
  ghost predicate NoDangling(h: Heap) {
    forall r | r in h ::
      && (h[r].Str? ==> Holds(h, h[r].source))
      && (h[r].Ary? ==> Elements(h, h[r].elems))
      && (h[r].Map? ==> Pairs(h, h[r].entries))
      && (h[r].Code? ==> Holds(h, h[r].scope))
      && (h[r].Obj? ==> Named(h, h[r].ivars) && Live(h, h[r].klass))
      && (h[r].Lex? ==> Named(h, h[r].vars) && Holds(h, h[r].parent))
  }

  /** A heap is closed exactly when nothing in it dangles. */
  lemma ClosedIff(h: Heap)
    ensures Closed(h) <==> NoDangling(h)
  {
    hide Live;
    if NoDangling(h) {
      forall r, k | r in h && k in Kids(h[r]) ensures Live(h, k) { KidHeld(h, r, k); }
    }
    if Closed(h) {
      forall r | r in h
        ensures h[r].Str? ==> Holds(h, h[r].source)
        ensures h[r].Ary? ==> Elements(h, h[r].elems)
        ensures h[r].Map? ==> Pairs(h, h[r].entries)
        ensures h[r].Code? ==> Holds(h, h[r].scope)
        ensures h[r].Obj? ==> Named(h, h[r].ivars) && Live(h, h[r].klass)
        ensures h[r].Lex? ==> Named(h, h[r].vars) && Holds(h, h[r].parent)
      {
        HeldKids(h, r);
      }
    }
  }

  lemma KidHeld(h: Heap, r: Ref, k: Ref)
    requires NoDangling(h) && r in h && k in Kids(h[r])
    ensures Live(h, k)
  {
    hide Live;
    match h[r]
    case Map(es) =>
      if k in Range(Firsts(es)) {
        var i :| 0 <= i < |Firsts(es)| && Firsts(es)[i] == k;
      } else {
        var i :| 0 <= i < |Seconds(es)| && Seconds(es)[i] == k;
      }
    case Obj(es, klass) =>
      if k != klass { var i :| 0 <= i < |Seconds(es)| && Seconds(es)[i] == k; }
    case Lex(es, parent) =>
      if k !in Opt(parent) { var i :| 0 <= i < |Seconds(es)| && Seconds(es)[i] == k; }
    case _ =>
  }

  lemma HeldKids(h: Heap, r: Ref)
    requires r in h && forall k | k in Kids(h[r]) :: Live(h, k)
    ensures h[r].Str? ==> Holds(h, h[r].source)
    ensures h[r].Ary? ==> Elements(h, h[r].elems)
    ensures h[r].Map? ==> Pairs(h, h[r].entries)
    ensures h[r].Code? ==> Holds(h, h[r].scope)
    ensures h[r].Obj? ==> Named(h, h[r].ivars) && Live(h, h[r].klass)
    ensures h[r].Lex? ==> Named(h, h[r].vars) && Holds(h, h[r].parent)
  {
    hide Live;
    match h[r]
    case Map(es) =>
      forall i | 0 <= i < |es| ensures Live(h, es[i].0) && Live(h, es[i].1) {
        assert Firsts(es)[i] in Kids(h[r]) && Seconds(es)[i] in Kids(h[r]);
      }
    case Obj(es, _) => forall i | 0 <= i < |es| ensures Live(h, es[i].1) { assert Seconds(es)[i] in Kids(h[r]); }
    case Lex(es, _) => forall i | 0 <= i < |es| ensures Live(h, es[i].1) { assert Seconds(es)[i] in Kids(h[r]); }
    case _ =>
  }

  // ----- reachability -----

  ghost predicate Path(h: Heap, p: seq<Ref>) {
    |p| > 0 && forall i | 0 <= i < |p| - 1 :: p[i] in h && p[i + 1] in Kids(h[p[i]])
  }

  ghost predicate Leads(h: Heap, from: set<Ref>, p: seq<Ref>, r: Ref) {
    Path(h, p) && p[0] in from && p[|p| - 1] == r
  }

  ghost predicate Reachable(h: Heap, from: set<Ref>, r: Ref) {
    exists p: seq<Ref> :: Leads(h, from, p, r)
  }

  lemma ReachSelf(h: Heap, from: set<Ref>, r: Ref)
    requires r in from
    ensures Reachable(h, from, r)
  {
    assert Leads(h, from, [r], r);
  }

  lemma ReachMore(h: Heap, from: set<Ref>, from': set<Ref>, r: Ref)
    requires Reachable(h, from, r) && from <= from'
    ensures Reachable(h, from', r)
  {
    var p: seq<Ref> :| Leads(h, from, p, r);
    assert Leads(h, from', p, r);
  }

  lemma ReachKid(h: Heap, from: set<Ref>, r: Ref, k: Ref)
    requires Reachable(h, from, r) && r in h && k in Kids(h[r])
    ensures Reachable(h, from, k)
  {
    var p: seq<Ref> :| Leads(h, from, p, r);
    var p' := p + [k];
    forall i | 0 <= i < |p'| - 1 ensures p'[i] in h && p'[i + 1] in Kids(h[p'[i]]) {
      if i < |p| - 1 { assert p'[i] == p[i] && p'[i + 1] == p[i + 1]; }
    }
    assert Leads(h, from, p', k);
  }

  /** What is reachable from the kids of `r` is reachable from `r`. */
  lemma ReachThrough(h: Heap, r: Ref, x: Ref)
    requires r in h && Reachable(h, Kids(h[r]), x)
    ensures Reachable(h, {r}, x)
  {
    var p: seq<Ref> :| Leads(h, Kids(h[r]), p, x);
    var p' := [r] + p;
    forall i | 0 <= i < |p'| - 1 ensures p'[i] in h && p'[i + 1] in Kids(h[p'[i]]) {
      if i > 0 { assert p'[i] == p[i - 1] && p'[i + 1] == p[i]; }
    }
    assert Leads(h, {r}, p', x);
  }

  /** A set that contains the start and is closed under references contains all that is reachable. */
  lemma {:induction false} ClosedContains(h: Heap, from: set<Ref>, s: set<Ref>, p: seq<Ref>, r: Ref)
    requires from <= s && forall x, k | x in s && x in h && k in Kids(h[x]) :: k in s
    requires Leads(h, from, p, r)
    ensures r in s
    decreases |p|
  {
    if |p| > 1 {
      var q := p[..|p| - 1];
      assert Leads(h, from, q, q[|q| - 1]) by {
        forall i | 0 <= i < |q| - 1 ensures q[i] in h && q[i + 1] in Kids(h[q[i]]) {
          assert q[i] == p[i] && q[i + 1] == p[i + 1];
        }
      }
      ClosedContains(h, from, s, q, q[|q| - 1]);
      assert p[|p| - 2] in h && p[|p| - 1] in Kids(h[p[|p| - 2]]);
    }
  }

  lemma ReachLive(h: Heap, from: set<Ref>, r: Ref)
    requires Closed(h) && (forall x | x in from :: Live(h, x)) && Reachable(h, from, r)
    ensures Live(h, r)
  {
    var p: seq<Ref> :| Leads(h, from, p, r);
    var s := set x | x in h && !h[x].Free?;
    assert forall x | x in from :: Live(h, x) && x in s;
    assert forall x, k | x in s && k in Kids(h[x]) :: Live(h, k) && k in s;
    ClosedContains(h, from, s, p, r);
  }

  // ----- what marking from a set of values adds -----

  /** From marks `m` to marks `m'`: the starting values are marked, whatever was newly marked
      has its references marked too, and nothing else than what is reachable was marked. */
  ghost predicate Marks(h: Heap, m: set<Ref>, m': set<Ref>, from: set<Ref>) {
    && m <= m' && from <= m'
    && (forall x, k | x in m' && x !in m && x in h && k in Kids(h[x]) :: k in m')
    && (forall x | x in m' && x !in m :: x in h && Reachable(h, from, x))
  }

  lemma MarksNone(h: Heap, m: set<Ref>)
    ensures Marks(h, m, m, {})
  {
  }

  lemma MarksSeen(h: Heap, m: set<Ref>, r: Ref)
    requires r in m
    ensures Marks(h, m, m, {r})
  {
  }

  lemma MarksThen(h: Heap, m: set<Ref>, m': set<Ref>, m'': set<Ref>, a: set<Ref>, b: set<Ref>)
    requires Marks(h, m, m', a) && Marks(h, m', m'', b)
    ensures Marks(h, m, m'', a + b)
  {
    forall x | x in m'' && x !in m ensures x in h && Reachable(h, a + b, x) {
      if x in m' { ReachMore(h, a, a + b, x); } else { ReachMore(h, b, a + b, x); }
    }
  }

  /** Mark a value, then mark from what it refers to. */
  lemma MarksNode(h: Heap, m: set<Ref>, m': set<Ref>, r: Ref)
    requires r in h && Marks(h, m + {r}, m', Kids(h[r]))
    ensures Marks(h, m, m', {r})
  {
    forall x | x in m' && x !in m ensures x in h && Reachable(h, {r}, x) {
      if x == r { ReachSelf(h, {r}, r); } else { ReachThrough(h, r, x); }
    }
  }

  /** Starting from marks only on values without references, exactly the reachable values are added. */
  lemma MarksExact(h: Heap, m: set<Ref>, m': set<Ref>, roots: set<Ref>)
    requires Marks(h, m, m', roots)
    requires forall x | x in m && x in h :: Kids(h[x]) == {}
    ensures forall x :: Reachable(h, roots, x) ==> x in m'
    ensures forall x | x in m' && x !in m :: Reachable(h, roots, x)
  {
    forall x | Reachable(h, roots, x) ensures x in m' {
      var p: seq<Ref> :| Leads(h, roots, p, x);
      ClosedContains(h, roots, m', p, x);
    }
  }

  /** Everything a value holds is marked, field by field. */
  ghost predicate Covered(b: Body, m: set<Ref>) {
    match b
    case Str(_, source) => source.Some? ==> source.value in m
    case Ary(elems) => forall i | 0 <= i < |elems| :: elems[i] in m
    case Map(es) => forall i | 0 <= i < |es| :: es[i].0 in m && es[i].1 in m
    case Code(_, scope) => scope.Some? ==> scope.value in m
    case Obj(es, klass) => (forall i | 0 <= i < |es| :: es[i].1 in m) && klass in m
    case Lex(es, parent) => (forall i | 0 <= i < |es| :: es[i].1 in m) && (parent.Some? ==> parent.value in m)
    case _ => true
  }

  /** Marking from what a value refers to covers the value. */
  lemma MarksCover(h: Heap, m: set<Ref>, m': set<Ref>, b: Body)
    requires Marks(h, m, m', Kids(b))
    ensures Covered(b, m')
  {
    match b
    case Map(es) =>
      forall i | 0 <= i < |es| ensures es[i].0 in m' && es[i].1 in m' {
        assert Firsts(es)[i] in Kids(b) && Seconds(es)[i] in Kids(b);
      }
    case Obj(es, _) => forall i | 0 <= i < |es| ensures es[i].1 in m' { assert Seconds(es)[i] in Kids(b); }
    case Lex(es, _) => forall i | 0 <= i < |es| ensures es[i].1 in m' { assert Seconds(es)[i] in Kids(b); }
    case _ =>
  }
}
