/** Where each instruction of a node lies once its code is part of a rule's function.

    The layout says index by index what emitted code contains, so that
    reasoning about a run never has to take instruction lists apart. */
module PegLayout {
  import opened Common
  import opened Peg
  import opened PegCompiler

  /** Where a label is defined, or the end of the code. */
  ghost function Find(code: seq<Instr>, id: nat): nat {
    if exists i: nat :: i < |code| && code[i] == Label(id)
    then var i: nat :| i < |code| && code[i] == Label(id); i
    else |code|
  }

  /** Looking a label up finds the place where it is defined. */
  ghost predicate Resolved(code: seq<Instr>) {
    forall i | 0 <= i < |code| && code[i].Label? :: Find(code, code[i].id) == i
  }

  lemma DistinctResolved(code: seq<Instr>)
    requires Distinct(code)
    ensures Resolved(code)
  {
    forall i | 0 <= i < |code| && code[i].Label? ensures Find(code, code[i].id) == i {
      assert code[i] == Label(code[i].id);
    }
  }

  // ----- how many instructions and labels a node takes -----

  function Size(node: Node): nat {
    match node
    case Name(_, v) => if v.Some? then 2 else 1
    case Alternate(ns) => 2 + SizeAny(ns)
    case Sequence(ns) => SizeAll(ns)
    case PeekFor(e) => 2 + Size(e)
    case PeekNot(e) => 4 + Size(e)
    case Query(e) => 5 + Size(e)
    case Star(e) => 5 + Size(e)
    case Plus(e) => 5 + 2 * Size(e)
    case _ => 1
  }

  function SizeAny(ns: Nodes): nat {
    Size(ns.node) + if ns.More? then 3 + SizeAny(ns.rest) else 0
  }

  function SizeAll(ns: Nodes): nat {
    Size(ns.node) + if ns.More? then SizeAll(ns.rest) else 0
  }

  function Used(node: Node): nat {
    match node
    case Alternate(ns) => 1 + UsedAny(ns)
    case Sequence(ns) => UsedAll(ns)
    case PeekFor(e) => 1 + Used(e)
    case PeekNot(e) => 1 + Used(e)
    case Query(e) => 2 + Used(e)
    case Star(e) => 2 + Used(e)
    case Plus(e) => 2 + 2 * Used(e)
    case _ => 0
  }

  function UsedAny(ns: Nodes): nat {
    Used(ns.node) + if ns.More? then 1 + UsedAny(ns.rest) else 0
  }

  function UsedAll(ns: Nodes): nat {
    Used(ns.node) + if ns.More? then UsedAll(ns.rest) else 0
  }

  // ----- the layout -----

  ghost predicate Lies(code: seq<Instr>, a: nat, armed: bool, node: Node, ko: nat, l: nat)
    decreases node, 0
  {
    a + Size(node) <= |code| &&
    match node
    case Dot => code[a] == MatchDot(ko)
    case Name(r, v) => code[a] == Call(r, ko) && (v.Some? ==> code[a + 1] == Do(Set(Offset(armed, v.value), v.value)))
    case Literal(s) => code[a] == if |s| == 1 then MatchChar(s[0], ko) else MatchString(s, ko)
    case Class(cs) => code[a] == MatchClass(cs, ko)
    case Action(k) => code[a] == Do(Act(k))
    case Predicate(k) => code[a] == Test(k, ko)
    case Alternate(ns) => LiesAlternate(code, a, armed, ns, ko, l)
    case Sequence(ns) => LiesAll(code, a, armed, ns, ko, l)
    case PeekFor(x) => LiesPeekFor(code, a, armed, x, ko, l)
    case PeekNot(x) => LiesPeekNot(code, a, armed, x, ko, l)
    case Query(x) => LiesQuery(code, a, armed, x, l)
    case Star(x) => LiesLoop(code, a, armed, x, l, l + 2)
    case Plus(x) => LiesPlus(code, a, armed, x, ko, l)
  }

  ghost predicate LiesAlternate(code: seq<Instr>, a: nat, armed: bool, ns: Nodes, ko: nat, l: nat)
    decreases ns, 3
  {
    && a + 2 + SizeAny(ns) <= |code| && code[a] == Save(l)
    && LiesAny(code, a + 1, armed, ns, l, ko, l + 1)
    && code[a + 1 + SizeAny(ns)] == Label(l)
  }

  ghost predicate LiesPeekFor(code: seq<Instr>, a: nat, armed: bool, x: Node, ko: nat, l: nat)
    decreases x, 1
  {
    && a + 2 + Size(x) <= |code| && code[a] == Save(l)
    && Lies(code, a + 1, armed, x, ko, l + 1)
    && code[a + 1 + Size(x)] == Restore(l)
  }

  ghost predicate LiesPeekNot(code: seq<Instr>, a: nat, armed: bool, x: Node, ko: nat, l: nat)
    decreases x, 1
  {
    a < |code| && code[a] == Save(l) && Lies(code, a + 1, armed, x, l, l + 1) && Tailed(code, a + 1 + Size(x), ko, l, l)
  }

  ghost predicate LiesQuery(code: seq<Instr>, a: nat, armed: bool, x: Node, l: nat)
    decreases x, 1
  {
    && a + 5 + Size(x) <= |code| && code[a] == Save(l)
    && Lies(code, a + 1, armed, x, l, l + 2)
    && Tailed(code, a + 1 + Size(x), l + 1, l, l) && code[a + 4 + Size(x)] == Label(l + 1)
  }

  ghost predicate LiesPlus(code: seq<Instr>, a: nat, armed: bool, x: Node, ko: nat, l: nat)
    decreases x, 2
  {
    Lies(code, a, armed, x, ko, l + 2) && LiesLoop(code, a + Size(x), armed, x, l, l + 2 + Used(x))
  }

  ghost predicate Tailed(code: seq<Instr>, a: nat, target: nat, id: nat, slot: nat) {
    a + 3 <= |code| && code[a] == Goto(target) && code[a + 1] == Label(id) && code[a + 2] == Restore(slot)
  }

  ghost predicate LiesLoop(code: seq<Instr>, a: nat, armed: bool, x: Node, l: nat, lb: nat)
    decreases x, 1
  {
    a + 5 + Size(x) <= |code| && code[a] == Label(l) && code[a + 1] == Save(l + 1)
    && Lies(code, a + 2, armed, x, l + 1, lb) && Tailed(code, a + 2 + Size(x), l, l + 1, l + 1)
  }

  ghost predicate LiesAny(code: seq<Instr>, a: nat, armed: bool, ns: Nodes, ok: nat, ko: nat, l: nat)
    decreases ns, 2
  {
    match ns
    case Last(n) => Lies(code, a, armed, n, ko, l)
    case More(n, rest) =>
      Lies(code, a, armed, n, l, l + 1) && Tailed(code, a + Size(n), ok, l, ok)
      && LiesAny(code, a + Size(n) + 3, armed, rest, ok, ko, l + 1 + Used(n))
  }

  ghost predicate LiesAll(code: seq<Instr>, a: nat, armed: bool, ns: Nodes, ko: nat, l: nat)
    decreases ns, 2
  {
    match ns
    case Last(n) => Lies(code, a, armed, n, ko, l)
    case More(n, rest) =>
      Lies(code, a, armed, n, ko, l) && LiesAll(code, a + Size(n), armed, rest, ko, l + Used(n))
  }

  // ----- one level of the layout at a time -----

  lemma Open(code: seq<Instr>, a: nat, armed: bool, node: Node, ko: nat, l: nat)
    requires Lies(code, a, armed, node, ko, l)
    ensures node.Alternate? ==> LiesAlternate(code, a, armed, node.alternatives, ko, l)
    ensures node.Sequence? ==> LiesAll(code, a, armed, node.items, ko, l)
    ensures node.PeekFor? ==> LiesPeekFor(code, a, armed, node.element, ko, l)
    ensures node.PeekNot? ==> LiesPeekNot(code, a, armed, node.element, ko, l)
    ensures node.Query? ==> LiesQuery(code, a, armed, node.element, l)
    ensures node.Star? ==> LiesLoop(code, a, armed, node.element, l, l + 2)
    ensures node.Plus? ==> LiesPlus(code, a, armed, node.element, ko, l)
  {
    hide LiesAlternate, LiesAll, LiesPeekFor, LiesPeekNot, LiesQuery, LiesLoop, LiesPlus, Size;
  }

  lemma Close(code: seq<Instr>, a: nat, armed: bool, node: Node, ko: nat, l: nat)
    requires a + Size(node) <= |code| && !Leaf(node) && !node.Name?
    requires node.Alternate? ==> LiesAlternate(code, a, armed, node.alternatives, ko, l)
    requires node.Sequence? ==> LiesAll(code, a, armed, node.items, ko, l)
    requires node.PeekFor? ==> LiesPeekFor(code, a, armed, node.element, ko, l)
    requires node.PeekNot? ==> LiesPeekNot(code, a, armed, node.element, ko, l)
    requires node.Query? ==> LiesQuery(code, a, armed, node.element, l)
    requires node.Star? ==> LiesLoop(code, a, armed, node.element, l, l + 2)
    requires node.Plus? ==> LiesPlus(code, a, armed, node.element, ko, l)
    ensures Lies(code, a, armed, node, ko, l)
  {
    hide LiesAlternate, LiesAll, LiesPeekFor, LiesPeekNot, LiesQuery, LiesLoop, LiesPlus, Size;
  }

  lemma Sizes(x: Node)
    ensures Size(PeekFor(x)) == 2 + Size(x) && Used(PeekFor(x)) == 1 + Used(x)
    ensures Size(PeekNot(x)) == 4 + Size(x) && Used(PeekNot(x)) == 1 + Used(x)
    ensures Size(Query(x)) == 5 + Size(x) && Used(Query(x)) == 2 + Used(x)
    ensures Size(Star(x)) == 5 + Size(x) && Used(Star(x)) == 2 + Used(x)
    ensures Size(Plus(x)) == 5 + 2 * Size(x) && Used(Plus(x)) == 2 + 2 * Used(x)
  {
  }

  lemma ListSizes(ns: Nodes)
    ensures Size(Alternate(ns)) == 2 + SizeAny(ns) && Used(Alternate(ns)) == 1 + UsedAny(ns)
    ensures Size(Sequence(ns)) == SizeAll(ns) && Used(Sequence(ns)) == UsedAll(ns)
    ensures SizeAny(ns) == Size(ns.node) + if ns.More? then 3 + SizeAny(ns.rest) else 0
    ensures UsedAny(ns) == Used(ns.node) + if ns.More? then 1 + UsedAny(ns.rest) else 0
  {
  }

  lemma MoreParts(code: seq<Instr>, a: nat, armed: bool, n: Node, rest: Nodes, ok: nat, ko: nat, l: nat)
    requires LiesAny(code, a, armed, More(n, rest), ok, ko, l)
    ensures Lies(code, a, armed, n, l, l + 1) && Tailed(code, a + Size(n), ok, l, ok)
    ensures LiesAny(code, a + Size(n) + 3, armed, rest, ok, ko, l + 1 + Used(n))
  {
    hide Lies, Size, Used, Tailed;
  }

  lemma LastParts(code: seq<Instr>, a: nat, armed: bool, n: Node, ok: nat, ko: nat, l: nat)
    requires LiesAny(code, a, armed, Last(n), ok, ko, l)
    ensures Lies(code, a, armed, n, ko, l)
  {
    hide Lies;
  }

  // ----- emitted code has this layout -----

  ghost predicate Placed(code: seq<Instr>, a: nat, piece: seq<Instr>) {
    exists pre: seq<Instr>, post: seq<Instr> :: |pre| == a && code == pre + piece + post
  }

  lemma Split(code: seq<Instr>, a: nat, x: seq<Instr>, y: seq<Instr>)
    requires Placed(code, a, x + y)
    ensures Placed(code, a, x) && Placed(code, a + |x|, y)
  {
    var pre, post :| |pre| == a && code == pre + (x + y) + post;
    assert code == pre + x + (y + post);
    assert code == (pre + x) + y + post;
  }

  lemma Around(code: seq<Instr>, a: nat, x: seq<Instr>, y: seq<Instr>, z: seq<Instr>)
    requires Placed(code, a, x + y + z)
    ensures Placed(code, a, x) && Placed(code, a + |x|, y) && Placed(code, a + |x| + |y|, z)
  {
    Split(code, a, x + y, z);
    Split(code, a, x, y);
  }

  lemma Instrs(code: seq<Instr>, a: nat, piece: seq<Instr>)
    requires Placed(code, a, piece) && |piece| <= 4
    ensures a + |piece| <= |code|
    ensures |piece| > 0 ==> code[a] == piece[0]
    ensures |piece| > 1 ==> code[a + 1] == piece[1]
    ensures |piece| > 2 ==> code[a + 2] == piece[2]
    ensures |piece| > 3 ==> code[a + 3] == piece[3]
  {
    var pre, post :| |pre| == a && code == pre + piece + post;
  }

  lemma {:induction false} CompileSize(armed: bool, node: Node, ko: nat, l: nat)
    ensures |Compile(armed, node, ko, l).code| == Size(node)
    ensures Compile(armed, node, ko, l).next == l + Used(node)
    decreases node, 0
  {
    hide Loop;
    match node
    case Name(r, v) => if v.Some? { DosOne(Set(Offset(armed, v.value), v.value)); }
    case Alternate(ns) => AnySize(armed, ns, l, ko, l + 1);
    case Sequence(ns) => AllSize(armed, ns, ko, l);
    case PeekFor(x) => CompileSize(armed, x, ko, l + 1);
    case PeekNot(x) => CompileSize(armed, x, l, l + 1);
    case Query(x) => CompileSize(armed, x, l, l + 2);
    case Star(x) => CompileSize(armed, x, l + 1, l + 2); LoopSize(l, l + 1, Compile(armed, x, l + 1, l + 2).code);
    case Plus(x) => PlusSize(armed, x, ko, l);
    case _ =>
  }

  lemma LoopSize(again: nat, out: nat, body: seq<Instr>)
    ensures |Loop(again, out, body)| == 5 + |body|
  {
  }

  lemma PlusParts(armed: bool, x: Node, ko: nat, l: nat)
    ensures var first := Compile(armed, x, ko, l + 2);
            var e := Compile(armed, x, l + 1, first.next);
            Compile(armed, Plus(x), ko, l) == Emitted(first.code + Loop(l, l + 1, e.code), e.next)
    ensures Size(Plus(x)) == 2 * Size(x) + 5 && Used(Plus(x)) == 2 * Used(x) + 2
  {
    hide Loop;
  }

  lemma {:induction false} PlusSize(armed: bool, x: Node, ko: nat, l: nat)
    ensures |Compile(armed, Plus(x), ko, l).code| == Size(Plus(x))
    ensures Compile(armed, Plus(x), ko, l).next == l + Used(Plus(x))
    decreases x, 1
  {
    hide Compile, Size, Used, Loop;
    CompileSize(armed, x, ko, l + 2);
    CompileSize(armed, x, l + 1, l + 2 + Used(x));
    PlusParts(armed, x, ko, l);
    LoopSize(l, l + 1, Compile(armed, x, l + 1, l + 2 + Used(x)).code);
  }

  lemma {:induction false} AnySize(armed: bool, ns: Nodes, ok: nat, ko: nat, l: nat)
    ensures |CompileAny(armed, ns, ok, ko, l).code| == SizeAny(ns)
    ensures CompileAny(armed, ns, ok, ko, l).next == l + UsedAny(ns)
    decreases ns
  {
    match ns
    case Last(n) => CompileSize(armed, n, ko, l);
    case More(n, rest) =>
      CompileSize(armed, n, l, l + 1);
      AnySize(armed, rest, ok, ko, l + 1 + Used(n));
  }

  lemma {:induction false} AllSize(armed: bool, ns: Nodes, ko: nat, l: nat)
    ensures |CompileAll(armed, ns, ko, l).code| == SizeAll(ns)
    ensures CompileAll(armed, ns, ko, l).next == l + UsedAll(ns)
    decreases ns
  {
    CompileSize(armed, ns.node, ko, l);
    if ns.More? { AllSize(armed, ns.rest, ko, l + Used(ns.node)); }
  }

  lemma DosOne(t: Thunk)
    ensures Dos([t]) == [Do(t)]
  {
    assert Dos([t][1..]) == [];
  }

  lemma NameLies(code: seq<Instr>, a: nat, armed: bool, r: nat, v: Option<nat>, ko: nat, l: nat)
    requires Placed(code, a, Compile(armed, Name(r, v), ko, l).code)
    ensures Lies(code, a, armed, Name(r, v), ko, l)
  {
    Split(code, a, [Call(r, ko)], Dos(SetThunks(armed, v)));
    Instrs(code, a, [Call(r, ko)]);
    if v.Some? {
      DosOne(Set(Offset(armed, v.value), v.value));
      Instrs(code, a + 1, Dos(SetThunks(armed, v)));
    }
  }

  /** A save in front, the element in the middle, and up to four instructions behind. */
  lemma Wrapped(code: seq<Instr>, a: nat, slot: nat, body: seq<Instr>, tail: seq<Instr>)
    requires Placed(code, a, [Save(slot)] + body + tail) && |tail| <= 4
    ensures Placed(code, a + 1, body) && a + 1 + |body| + |tail| <= |code|
    ensures code[a] == Save(slot)
    ensures |tail| > 0 ==> code[a + 1 + |body|] == tail[0]
    ensures |tail| > 1 ==> code[a + 2 + |body|] == tail[1]
    ensures |tail| > 2 ==> code[a + 3 + |body|] == tail[2]
    ensures |tail| > 3 ==> code[a + 4 + |body|] == tail[3]
  {
    Around(code, a, [Save(slot)], body, tail);
    Instrs(code, a, [Save(slot)]);
    Instrs(code, a + 1 + |body|, tail);
  }

  lemma {:induction false} CompileLies(code: seq<Instr>, a: nat, armed: bool, node: Node, ko: nat, l: nat)
    requires Placed(code, a, Compile(armed, node, ko, l).code)
    ensures Lies(code, a, armed, node, ko, l)
    decreases node, 2
  {
    hide Placed, Lies, Size, Used;
    if Leaf(node) {
      LeafLies(code, a, armed, node, ko, l);
    } else if node.Name? {
      NameLies(code, a, armed, node.rule, node.variable, ko, l);
    } else {
      CompileSize(armed, node, ko, l);
      PlacedSize(code, a, Compile(armed, node, ko, l).code);
      match node {
        case Alternate(ns) => AlternateLies(code, a, armed, ns, ko, l);
        case Sequence(ns) => AllLies(code, a, armed, ns, ko, l);
        case PeekFor(x) => PeekForLies(code, a, armed, x, ko, l);
        case PeekNot(x) => PeekNotLies(code, a, armed, x, ko, l);
        case Query(x) => QueryLies(code, a, armed, x, l);
        case Star(x) => StarLies(code, a, armed, x, l, l + 2);
        case Plus(x) => PlusCode(armed, x, ko, l); PlusLies(code, a, armed, x, ko, l);
      }
      Close(code, a, armed, node, ko, l);
    }
  }

  lemma LeafLies(code: seq<Instr>, a: nat, armed: bool, node: Node, ko: nat, l: nat)
    requires Leaf(node) && Placed(code, a, Compile(armed, node, ko, l).code)
    ensures Lies(code, a, armed, node, ko, l)
  {
    Instrs(code, a, Compile(armed, node, ko, l).code);
  }

  lemma PlacedSize(code: seq<Instr>, a: nat, piece: seq<Instr>)
    requires Placed(code, a, piece)
    ensures a + |piece| <= |code|
  {
  }

  lemma {:induction false} AlternateLies(code: seq<Instr>, a: nat, armed: bool, ns: Nodes, ko: nat, l: nat)
    requires Placed(code, a, [Save(l)] + CompileAny(armed, ns, l, ko, l + 1).code + [Label(l)])
    ensures LiesAlternate(code, a, armed, ns, ko, l)
    decreases ns, 3
  {
    hide Placed, LiesAny, CompileAny, SizeAny, UsedAny;
    AnySize(armed, ns, l, ko, l + 1);
    Wrapped(code, a, l, CompileAny(armed, ns, l, ko, l + 1).code, [Label(l)]);
    AnyLies(code, a + 1, armed, ns, l, ko, l + 1);
  }

  lemma {:induction false} PeekForLies(code: seq<Instr>, a: nat, armed: bool, x: Node, ko: nat, l: nat)
    requires Placed(code, a, [Save(l)] + Compile(armed, x, ko, l + 1).code + [Restore(l)])
    ensures LiesPeekFor(code, a, armed, x, ko, l)
    decreases x, 3
  {
    hide Placed, Lies, Compile, Size, Used;
    CompileSize(armed, x, ko, l + 1);
    Wrapped(code, a, l, Compile(armed, x, ko, l + 1).code, [Restore(l)]);
    CompileLies(code, a + 1, armed, x, ko, l + 1);
  }

  lemma {:induction false} PeekNotLies(code: seq<Instr>, a: nat, armed: bool, x: Node, ko: nat, l: nat)
    requires Placed(code, a, [Save(l)] + Compile(armed, x, l, l + 1).code + [Goto(ko), Label(l), Restore(l)])
    ensures LiesPeekNot(code, a, armed, x, ko, l)
    decreases x, 3
  {
    hide Placed, Lies, Compile, Size, Used;
    CompileSize(armed, x, l, l + 1);
    Wrapped(code, a, l, Compile(armed, x, l, l + 1).code, [Goto(ko), Label(l), Restore(l)]);
    CompileLies(code, a + 1, armed, x, l, l + 1);
  }

  lemma {:induction false} QueryLies(code: seq<Instr>, a: nat, armed: bool, x: Node, l: nat)
    requires Placed(code, a, [Save(l)] + Compile(armed, x, l, l + 2).code
                             + [Goto(l + 1), Label(l), Restore(l), Label(l + 1)])
    ensures LiesQuery(code, a, armed, x, l)
    decreases x, 3
  {
    hide Placed, Lies, Compile, Size, Used;
    CompileSize(armed, x, l, l + 2);
    Wrapped(code, a, l, Compile(armed, x, l, l + 2).code, [Goto(l + 1), Label(l), Restore(l), Label(l + 1)]);
    CompileLies(code, a + 1, armed, x, l, l + 2);
  }

  lemma {:induction false} StarLies(code: seq<Instr>, a: nat, armed: bool, x: Node, l: nat, lb: nat)
    requires Placed(code, a, Loop(l, l + 1, Compile(armed, x, l + 1, lb).code))
    ensures LiesLoop(code, a, armed, x, l, lb)
    decreases x, 3
  {
    hide Placed, Lies, Compile, Size, Used;
    var body := Compile(armed, x, l + 1, lb).code;
    CompileSize(armed, x, l + 1, lb);
    Around(code, a, [Label(l), Save(l + 1)], body, [Goto(l), Label(l + 1), Restore(l + 1)]);
    Instrs(code, a, [Label(l), Save(l + 1)]);
    Instrs(code, a + 2 + |body|, [Goto(l), Label(l + 1), Restore(l + 1)]);
    CompileLies(code, a + 2, armed, x, l + 1, lb);
  }

  lemma PlusCode(armed: bool, x: Node, ko: nat, l: nat)
    ensures Compile(armed, Plus(x), ko, l).code
         == Compile(armed, x, ko, l + 2).code + Loop(l, l + 1, Compile(armed, x, l + 1, l + 2 + Used(x)).code)
  {
    hide Loop, Used, Size;
    CompileSize(armed, x, ko, l + 2);
  }

  lemma {:induction false} PlusLies(code: seq<Instr>, a: nat, armed: bool, x: Node, ko: nat, l: nat)
    requires Placed(code, a, Compile(armed, x, ko, l + 2).code
                             + Loop(l, l + 1, Compile(armed, x, l + 1, l + 2 + Used(x)).code))
    ensures LiesPlus(code, a, armed, x, ko, l)
    decreases x, 4
  {
    hide Placed, Lies, Compile, Size, Used, Loop, LiesLoop;
    CompileSize(armed, x, ko, l + 2);
    Split(code, a, Compile(armed, x, ko, l + 2).code, Loop(l, l + 1, Compile(armed, x, l + 1, l + 2 + Used(x)).code));
    CompileLies(code, a, armed, x, ko, l + 2);
    StarLies(code, a + Size(x), armed, x, l, l + 2 + Used(x));
  }

  lemma {:induction false} AnyLies(code: seq<Instr>, a: nat, armed: bool, ns: Nodes, ok: nat, ko: nat, l: nat)
    requires Placed(code, a, CompileAny(armed, ns, ok, ko, l).code)
    ensures LiesAny(code, a, armed, ns, ok, ko, l)
    decreases ns, 2
  {
    hide Placed, Lies, Compile, Size, Used;
    match ns
    case Last(n) => CompileLies(code, a, armed, n, ko, l);
    case More(n, rest) =>
      var e := Compile(armed, n, l, l + 1);
      var tail := [Goto(ok), Label(l), Restore(ok)];
      CompileSize(armed, n, l, l + 1);
      Around(code, a, e.code, tail, CompileAny(armed, rest, ok, ko, e.next).code);
      CompileLies(code, a, armed, n, l, l + 1);
      Instrs(code, a + Size(n), tail);
      AnyLies(code, a + Size(n) + 3, armed, rest, ok, ko, e.next);
  }

  lemma {:induction false} AllLies(code: seq<Instr>, a: nat, armed: bool, ns: Nodes, ko: nat, l: nat)
    requires Placed(code, a, CompileAll(armed, ns, ko, l).code)
    ensures LiesAll(code, a, armed, ns, ko, l)
    decreases ns, 2
  {
    hide Placed, Lies, Compile, Size, Used;
    CompileSize(armed, ns.node, ko, l);
    if ns.More? {
      Split(code, a, Compile(armed, ns.node, ko, l).code, CompileAll(armed, ns.rest, ko, l + Used(ns.node)).code);
      AllLies(code, a + Size(ns.node), armed, ns.rest, ko, l + Used(ns.node));
    }
    CompileLies(code, a, armed, ns.node, ko, l);
  }

  // ----- rules -----

  function Bit(b: bool): nat { if b then 1 else 0 }

  /** Where the rule's expression starts, and where its failure exit is. */
  function BodyAt(rule: Rule): nat { Bit(!Safe(rule)) + Bit(rule.variables > 0) }

  function ExitAt(rule: Rule): nat { BodyAt(rule) + Size(rule.expression) + Bit(rule.variables > 0) + 1 }

  ghost predicate RuleLies(code: seq<Instr>, rule: Rule, l: nat) {
    var b := BodyAt(rule);
    var x := ExitAt(rule);
    && Resolved(code)
    && x + (if Safe(rule) then 0 else 3) <= |code|
    && (!Safe(rule) ==> code[0] == Save(0))
    && (rule.variables > 0 ==> code[b - 1] == Do(Push(rule.variables)) && code[x - 2] == Do(Pop(rule.variables)))
    && Lies(code, b, HasAction(rule.expression), rule.expression, l, l + 1)
    && code[x - 1] == Return(true)
    && (!Safe(rule) ==> code[x] == Label(l) && code[x + 1] == Restore(0) && code[x + 2] == Return(false))
  }

  lemma PrologueLies(code: seq<Instr>, rule: Rule)
    requires Placed(code, 0, Prologue(rule))
    ensures |Prologue(rule)| == BodyAt(rule) <= |code|
    ensures !Safe(rule) ==> code[0] == Save(0)
    ensures rule.variables > 0 ==> code[BodyAt(rule) - 1] == Do(Push(rule.variables))
  {
    DosOne(Push(rule.variables));
    Instrs(code, 0, Prologue(rule));
  }

  lemma EpilogueLies(code: seq<Instr>, x: nat, rule: Rule, ko: nat)
    requires Placed(code, x, Epilogue(rule, ko))
    ensures var y := x + Bit(rule.variables > 0) + 1;
            && y + (if Safe(rule) then 0 else 3) <= |code|
            && (rule.variables > 0 ==> code[y - 2] == Do(Pop(rule.variables)))
            && code[y - 1] == Return(true)
            && (!Safe(rule) ==> code[y] == Label(ko) && code[y + 1] == Restore(0) && code[y + 2] == Return(false))
  {
    var exit := if Safe(rule) then [] else [Label(ko), Restore(0), Return(false)];
    DosOne(Pop(rule.variables));
    Split(code, x, Dos(PopThunks(rule.variables)) + [Return(true)], exit);
    Instrs(code, x, Dos(PopThunks(rule.variables)) + [Return(true)]);
    Instrs(code, x + Bit(rule.variables > 0) + 1, exit);
  }

  lemma RuleResolved(rule: Rule, l: nat)
    ensures Resolved(CompileRule(rule, l).code)
  {
    RuleJumpsResolved(rule, l);
    DistinctResolved(CompileRule(rule, l).code);
  }

  lemma Whole(code: seq<Instr>, piece: seq<Instr>)
    requires code == piece
    ensures Placed(code, 0, piece)
  {
    assert code == [] + piece + [];
  }

  /** The three parts of a rule's function are where the counts say. */
  lemma RulePlaced(code: seq<Instr>, rule: Rule, l: nat, pre: seq<Instr>, body: seq<Instr>, post: seq<Instr>)
    requires code == pre + body + post && |body| == Size(rule.expression) && |pre| == BodyAt(rule)
    ensures Placed(code, 0, pre) && Placed(code, BodyAt(rule), body)
    ensures Placed(code, BodyAt(rule) + Size(rule.expression), post)
  {
    hide Placed, Size, BodyAt;
    Whole(code, pre + body + post);
    Around(code, 0, pre, body, post);
  }

  lemma PrologueSize(rule: Rule)
    ensures |Prologue(rule)| == BodyAt(rule)
  {
    DosOne(Push(rule.variables));
  }

  lemma BodyLies(code: seq<Instr>, rule: Rule, l: nat)
    requires Resolved(code) && Placed(code, 0, Prologue(rule))
    requires Placed(code, BodyAt(rule), Compile(HasAction(rule.expression), rule.expression, l, l + 1).code)
    requires Placed(code, BodyAt(rule) + Size(rule.expression), Epilogue(rule, l))
    ensures RuleLies(code, rule, l)
  {
    hide Placed, Lies, Compile, Prologue, Epilogue, Resolved, Safe, HasAction, Size, Used;
    PrologueLies(code, rule);
    CompileLies(code, BodyAt(rule), HasAction(rule.expression), rule.expression, l, l + 1);
    EpilogueLies(code, BodyAt(rule) + Size(rule.expression), rule, l);
  }

  lemma RuleLaidOut(rule: Rule, l: nat)
    ensures RuleLies(CompileRule(rule, l).code, rule, l)
  {
    hide Placed, Compile, Prologue, Epilogue, Resolved, HasAction, Size, Used, BodyAt, RuleLies;
    RuleResolved(rule, l);
    CompileSize(HasAction(rule.expression), rule.expression, l, l + 1);
    PrologueSize(rule);
    var code := CompileRule(rule, l).code;
    RulePlaced(code, rule, l, Prologue(rule), Compile(HasAction(rule.expression), rule.expression, l, l + 1).code,
               Epilogue(rule, l));
    BodyLies(code, rule, l);
  }
}
