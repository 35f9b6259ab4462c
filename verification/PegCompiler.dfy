/** The code greg emits for a grammar: one instruction list per rule, with
    numbered labels, numbered save slots and an explicit failure label. */
module PegCompiler {
  import opened Common
  import opened Peg

  datatype Instr =
    | Label(id: nat)
    | Goto(target: nat)
    | Save(slot: nat)
    | Restore(slot: nat)
    | MatchDot(ko: nat)
    | MatchChar(c: Byte, ko: nat)
    | MatchString(text: seq<Byte>, ko: nat)
    | MatchClass(members: set<Byte>, ko: nat)
    | Test(predicate_: nat, ko: nat)
    | Call(rule: nat, ko: nat)
    | Do(thunk: Thunk)
    | Return(result: bool)

  /** Emitted code together with the next label not yet handed out. */
  datatype Emitted = Emitted(code: seq<Instr>, next: nat)

  function Dos(ts: seq<Thunk>): seq<Instr> {
    if ts == [] then [] else [Do(ts[0])] + Dos(ts[1..])
  }

  /** Code that falls through when `node` matches and goes to label `ko` when it does not. */
  function Compile(armed: bool, node: Node, ko: nat, l: nat): Emitted
    decreases node
  {
    match node
    case Dot => Emitted([MatchDot(ko)], l)
    case Name(r, v) => Emitted([Call(r, ko)] + Dos(SetThunks(armed, v)), l)
    case Literal(s) => Emitted(if |s| == 1 then [MatchChar(s[0], ko)] else [MatchString(s, ko)], l)
    case Class(cs) => Emitted([MatchClass(cs, ko)], l)
    case Action(a) => Emitted([Do(Act(a))], l)
    case Predicate(k) => Emitted([Test(k, ko)], l)
    case Alternate(ns) =>
      var ok := l;
      var e := CompileAny(armed, ns, ok, ko, l + 1);
      Emitted([Save(ok)] + e.code + [Label(ok)], e.next)
    case Sequence(ns) => CompileAll(armed, ns, ko, l)
    case PeekFor(x) =>
      var ok := l;
      var e := Compile(armed, x, ko, l + 1);
      Emitted([Save(ok)] + e.code + [Restore(ok)], e.next)
    case PeekNot(x) =>
      var ok := l;
      var e := Compile(armed, x, ok, l + 1);
      Emitted([Save(ok)] + e.code + [Goto(ko), Label(ok), Restore(ok)], e.next)
    case Query(x) =>
      var qko, qok := l, l + 1;
      var e := Compile(armed, x, qko, l + 2);
      Emitted([Save(qko)] + e.code + [Goto(qok), Label(qko), Restore(qko), Label(qok)], e.next)
    case Star(x) =>
      var again, out := l, l + 1;
      var e := Compile(armed, x, out, l + 2);
      Emitted(Loop(again, out, e.code), e.next)
    case Plus(x) =>
      var again, out := l, l + 1;
      var first := Compile(armed, x, ko, l + 2);
      var e := Compile(armed, x, out, first.next);
      Emitted(first.code + Loop(again, out, e.code), e.next)
  }

  function Loop(again: nat, out: nat, body: seq<Instr>): seq<Instr> {
    [Label(again), Save(out)] + body + [Goto(again), Label(out), Restore(out)]
  }

  function CompileAny(armed: bool, ns: Nodes, ok: nat, ko: nat, l: nat): Emitted
    decreases ns
  {
    match ns
    case Last(n) => Compile(armed, n, ko, l)
    case More(n, rest) =>
      var e := Compile(armed, n, l, l + 1);
      var f := CompileAny(armed, rest, ok, ko, e.next);
      Emitted(e.code + [Goto(ok), Label(l), Restore(ok)] + f.code, f.next)
  }

  function CompileAll(armed: bool, ns: Nodes, ko: nat, l: nat): Emitted
    decreases ns
  {
    match ns
    case Last(n) => Compile(armed, n, ko, l)
    case More(n, rest) =>
      var e := Compile(armed, n, ko, l);
      var f := CompileAll(armed, rest, ko, e.next);
      Emitted(e.code + f.code, f.next)
  }

  /** A rule whose expression cannot fail has neither a save nor a failure exit. */
  predicate Safe(rule: Rule) { rule.expression.Query? || rule.expression.Star? }

  function Prologue(rule: Rule): seq<Instr> {
    (if Safe(rule) then [] else [Save(0)]) + Dos(PushThunks(rule.variables))
  }

  function Epilogue(rule: Rule, ko: nat): seq<Instr> {
    (Dos(PopThunks(rule.variables)) + [Return(true)])
    + if Safe(rule) then [] else [Label(ko), Restore(0), Return(false)]
  }

  function CompileRule(rule: Rule, l: nat): Emitted {
    var e := Compile(HasAction(rule.expression), rule.expression, l, l + 1);
    Emitted(Prologue(rule) + e.code + Epilogue(rule, l), e.next)
  }

  function Program(rules: seq<Rule>, l: nat): seq<seq<Instr>> {
    if rules == [] then [] else
    var e := CompileRule(rules[0], l);
    [e.code] + Program(rules[1..], e.next)
  }

  // ----- every goto reaches exactly one label of its function -----

  function Target(i: Instr): Option<nat> {
    match i
    case Goto(t) => Some(t)
    case MatchDot(ko) => Some(ko)
    case MatchChar(_, ko) => Some(ko)
    case MatchString(_, ko) => Some(ko)
    case MatchClass(_, ko) => Some(ko)
    case Test(_, ko) => Some(ko)
    case Call(_, ko) => Some(ko)
    case _ => None
  }

  ghost function Labels(code: seq<Instr>): set<nat> {
    set i | 0 <= i < |code| && code[i].Label? :: code[i].id
  }

  ghost function Targets(code: seq<Instr>): set<nat> {
    set i | 0 <= i < |code| && Target(code[i]).Some? :: Target(code[i]).value
  }

  /** No label is defined twice. */
  ghost predicate Distinct(code: seq<Instr>) {
    forall i, j | 0 <= i < j < |code| && code[i].Label? && code[j].Label? :: code[i].id != code[j].id
  }

  ghost predicate Between(ls: set<nat>, lo: nat, hi: nat) {
    forall x | x in ls :: lo <= x < hi
  }

  lemma Join(a: seq<Instr>, b: seq<Instr>)
    ensures Labels(a + b) == Labels(a) + Labels(b)
    ensures Targets(a + b) == Targets(a) + Targets(b)
    ensures Distinct(a) && Distinct(b) && Labels(a) !! Labels(b) ==> Distinct(a + b)
  {
    var c := a + b;
    forall x | x in Labels(a) + Labels(b) ensures x in Labels(c) {
      if x in Labels(a) {
        var i :| 0 <= i < |a| && a[i].Label? && a[i].id == x;
        assert c[i] == a[i];
      } else {
        var i :| 0 <= i < |b| && b[i].Label? && b[i].id == x;
        assert c[|a| + i] == b[i];
      }
    }
    forall x | x in Targets(a) + Targets(b) ensures x in Targets(c) {
      if x in Targets(a) {
        var i :| 0 <= i < |a| && Target(a[i]) == Some(x);
        assert c[i] == a[i];
      } else {
        var i :| 0 <= i < |b| && Target(b[i]) == Some(x);
        assert c[|a| + i] == b[i];
      }
    }
    if Distinct(a) && Distinct(b) && Labels(a) !! Labels(b) {
      forall i, j | 0 <= i < j < |c| && c[i].Label? && c[j].Label? ensures c[i].id != c[j].id {
        if i < |a| <= j {
          assert a[i].id in Labels(a) && b[j - |a|].id in Labels(b);
        }
      }
    }
  }

  lemma Single(i: Instr)
    ensures Distinct([i])
    ensures Labels([i]) == if i.Label? then {i.id} else {}
    ensures Targets([i]) == if Target(i).Some? then {Target(i).value} else {}
  {
    assert [i][0] == i;
  }

  lemma {:induction false} DosPlain(ts: seq<Thunk>)
    ensures Labels(Dos(ts)) == {} && Targets(Dos(ts)) == {} && Distinct(Dos(ts))
  {
    if ts != [] {
      DosPlain(ts[1..]);
      Single(Do(ts[0]));
      Join([Do(ts[0])], Dos(ts[1..]));
    }
  }

  /** What a stretch of emitted code defines and where it jumps. */
  ghost predicate Shaped(e: Emitted, l: nat, outside: set<nat>) {
    && l <= e.next
    && Distinct(e.code)
    && Between(Labels(e.code), l, e.next)
    && Targets(e.code) <= Labels(e.code) + outside
  }

  lemma Pair(a: Instr, b: Instr)
    ensures Labels([a, b]) == Labels([a]) + Labels([b]) && Targets([a, b]) == Targets([a]) + Targets([b])
    ensures (a.Label? && b.Label? ==> a.id != b.id) ==> Distinct([a, b])
  {
    Single(a); Single(b);
    Join([a], [b]);
    assert [a] + [b] == [a, b];
  }

  /** The tail that closes a node: jump over, define a label, undo. */
  lemma Tail(goto_: nat, label_: nat, slot: nat)
    ensures var t := [Goto(goto_), Label(label_), Restore(slot)];
            Labels(t) == {label_} && Targets(t) == {goto_} && Distinct(t)
  {
    var t := [Goto(goto_), Label(label_), Restore(slot)];
    assert t[0].target == goto_ && t[1].id == label_;
    assert Target(t[0]) == Some(goto_) && t[1].Label?;
  }

  /** Code wrapped in a few instructions with labels of their own. */
  lemma Enclose(pre: seq<Instr>, e: Emitted, post: seq<Instr>, l: nat, m: nat, inside: set<nat>, outside: set<nat>)
    requires l <= m && Shaped(e, m, inside)
    requires Distinct(pre) && Distinct(post) && Labels(pre) !! Labels(post)
    requires Between(Labels(pre) + Labels(post), l, m)
    requires Targets(pre) + Targets(post) + inside <= Labels(pre) + Labels(post) + outside
    ensures Shaped(Emitted(pre + e.code + post, e.next), l, outside)
  {
    Join(pre, e.code);
    assert Labels(pre) !! Labels(e.code) && Labels(post) !! Labels(e.code);
    Join(pre + e.code, post);
  }

  lemma Append(e: Emitted, f: Emitted, l: nat, outside: set<nat>)
    requires Shaped(e, l, outside) && Shaped(f, e.next, outside)
    ensures Shaped(Emitted(e.code + f.code, f.next), l, outside)
  {
    Join(e.code, f.code);
  }

  lemma LoopShape(l: nat, body: Emitted)
    requires Shaped(body, l + 2, {l + 1})
    ensures Shaped(Emitted(Loop(l, l + 1, body.code), body.next), l, {})
  {
    Single(Label(l)); Single(Save(l + 1));
    Pair(Label(l), Save(l + 1));
    Tail(l, l + 1, l + 1);
    Enclose([Label(l), Save(l + 1)], body, [Goto(l), Label(l + 1), Restore(l + 1)], l, l + 2, {l + 1}, {});
  }

  lemma LoopLabels(l: nat, body: seq<Instr>)
    ensures Labels(Loop(l, l + 1, body)) == {l, l + 1} + Labels(body)
  {
    Single(Label(l)); Single(Save(l + 1));
    Pair(Label(l), Save(l + 1));
    Tail(l, l + 1, l + 1);
    Join([Label(l), Save(l + 1)], body);
    Join([Label(l), Save(l + 1)] + body, [Goto(l), Label(l + 1), Restore(l + 1)]);
  }

  lemma PlusShape(l: nat, ko: nat, first: Emitted, body: Emitted)
    requires Shaped(first, l + 2, {ko}) && Shaped(body, first.next, {l + 1})
    ensures Shaped(Emitted(first.code + Loop(l, l + 1, body.code), body.next), l, {ko})
  {
    hide Loop, Labels, Targets, Distinct;
    LoopShape(l, body);
    LoopLabels(l, body.code);
    Join(first.code, Loop(l, l + 1, body.code));
  }

  lemma QueryShape(l: nat, body: Emitted)
    requires Shaped(body, l + 2, {l})
    ensures Shaped(Emitted([Save(l)] + body.code + [Goto(l + 1), Label(l), Restore(l), Label(l + 1)], body.next), l, {})
  {
    Single(Save(l)); Single(Label(l + 1));
    Tail(l + 1, l, l);
    Join([Goto(l + 1), Label(l), Restore(l)], [Label(l + 1)]);
    assert [Goto(l + 1), Label(l), Restore(l)] + [Label(l + 1)] == [Goto(l + 1), Label(l), Restore(l), Label(l + 1)];
    Enclose([Save(l)], body, [Goto(l + 1), Label(l), Restore(l), Label(l + 1)], l, l + 2, {l}, {});
  }

  lemma AlternateShape(l: nat, ko: nat, e: Emitted)
    requires Shaped(e, l + 1, {l, ko})
    ensures Shaped(Emitted([Save(l)] + e.code + [Label(l)], e.next), l, {ko})
  {
    Single(Save(l)); Single(Label(l));
    Enclose([Save(l)], e, [Label(l)], l, l + 1, {l, ko}, {ko});
  }

  lemma PeekForShape(l: nat, ko: nat, e: Emitted)
    requires Shaped(e, l + 1, {ko})
    ensures Shaped(Emitted([Save(l)] + e.code + [Restore(l)], e.next), l, {ko})
  {
    Single(Save(l)); Single(Restore(l));
    Enclose([Save(l)], e, [Restore(l)], l, l + 1, {ko}, {ko});
  }

  lemma PeekNotShape(l: nat, ko: nat, e: Emitted)
    requires Shaped(e, l + 1, {l})
    ensures Shaped(Emitted([Save(l)] + e.code + [Goto(ko), Label(l), Restore(l)], e.next), l, {ko})
  {
    Single(Save(l)); Tail(ko, l, l);
    Enclose([Save(l)], e, [Goto(ko), Label(l), Restore(l)], l, l + 1, {l}, {ko});
  }

  predicate Leaf(node: Node) {
    node.Dot? || node.Literal? || node.Class? || node.Action? || node.Predicate?
  }

  lemma LeafShape(armed: bool, node: Node, ko: nat, l: nat)
    requires Leaf(node)
    ensures Shaped(Compile(armed, node, ko, l), l, {ko})
  {
    Single(Compile(armed, node, ko, l).code[0]);
  }

  lemma NameShape(armed: bool, r: nat, v: Option<nat>, ko: nat, l: nat)
    ensures Shaped(Emitted([Call(r, ko)] + Dos(SetThunks(armed, v)), l), l, {ko})
  {
    Single(Call(r, ko));
    DosPlain(SetThunks(armed, v));
    Join([Call(r, ko)], Dos(SetThunks(armed, v)));
  }

  /** Labels are fresh and distinct; every jump stays inside or goes to `ko`.  Code for
      a repetition or an option never mentions `ko`. */
  lemma {:induction false} CompileShape(armed: bool, node: Node, ko: nat, l: nat)
    requires ko < l
    ensures Shaped(Compile(armed, node, ko, l), l, if node.Query? || node.Star? then {} else {ko})
    decreases node
  {
    match node
    case Name(r, v) => NameShape(armed, r, v, ko, l);
    case Alternate(ns) =>
      AnyShape(armed, ns, l, ko, l + 1);
      AlternateShape(l, ko, CompileAny(armed, ns, l, ko, l + 1));
    case Sequence(ns) => AllShape(armed, ns, ko, l);
    case PeekFor(x) =>
      CompileShape(armed, x, ko, l + 1);
      PeekForShape(l, ko, Compile(armed, x, ko, l + 1));
    case PeekNot(x) =>
      CompileShape(armed, x, l, l + 1);
      PeekNotShape(l, ko, Compile(armed, x, l, l + 1));
    case Query(x) =>
      CompileShape(armed, x, l, l + 2);
      QueryShape(l, Compile(armed, x, l, l + 2));
    case Star(x) =>
      CompileShape(armed, x, l + 1, l + 2);
      LoopShape(l, Compile(armed, x, l + 1, l + 2));
    case Plus(x) =>
      var first := Compile(armed, x, ko, l + 2);
      CompileShape(armed, x, ko, l + 2);
      CompileShape(armed, x, l + 1, first.next);
      PlusShape(l, ko, first, Compile(armed, x, l + 1, first.next));
    case _ => LeafShape(armed, node, ko, l);
  }

  lemma {:induction false} AnyShape(armed: bool, ns: Nodes, ok: nat, ko: nat, l: nat)
    requires ko < l && ok < l
    ensures Shaped(CompileAny(armed, ns, ok, ko, l), l, {ok, ko})
    decreases ns
  {
    match ns
    case Last(n) => CompileShape(armed, n, ko, l);
    case More(n, rest) =>
      var e := Compile(armed, n, l, l + 1);
      var tail := [Goto(ok), Label(l), Restore(ok)];
      CompileShape(armed, n, l, l + 1);
      AnyShape(armed, rest, ok, ko, e.next);
      Tail(ok, l, ok);
      Enclose([], e, tail, l, l + 1, {l}, {ok, ko});
      assert [] + e.code + tail == e.code + tail;
      Append(Emitted(e.code + tail, e.next), CompileAny(armed, rest, ok, ko, e.next), l, {ok, ko});
  }

  lemma {:induction false} AllShape(armed: bool, ns: Nodes, ko: nat, l: nat)
    requires ko < l
    ensures Shaped(CompileAll(armed, ns, ko, l), l, {ko})
    decreases ns
  {
    match ns
    case Last(n) => CompileShape(armed, n, ko, l);
    case More(n, rest) =>
      var e := Compile(armed, n, ko, l);
      CompileShape(armed, n, ko, l);
      AllShape(armed, rest, ko, e.next);
      Append(e, CompileAll(armed, rest, ko, e.next), l, {ko});
  }

  lemma PrologueShape(rule: Rule)
    ensures Labels(Prologue(rule)) == {} && Targets(Prologue(rule)) == {} && Distinct(Prologue(rule))
  {
    DosPlain(PushThunks(rule.variables));
    Single(Save(0));
    Join(if Safe(rule) then [] else [Save(0)], Dos(PushThunks(rule.variables)));
  }

  lemma EpilogueShape(rule: Rule, ko: nat)
    ensures Labels(Epilogue(rule, ko)) == (if Safe(rule) then {} else {ko})
    ensures Targets(Epilogue(rule, ko)) == {} && Distinct(Epilogue(rule, ko))
  {
    var exit := [Label(ko), Restore(0), Return(false)];
    DosPlain(PopThunks(rule.variables));
    Single(Return(true));
    Join(Dos(PopThunks(rule.variables)), [Return(true)]);
    assert Labels(exit) == {ko} && Targets(exit) == {} by { assert exit[0].id == ko; }
    Join(Dos(PopThunks(rule.variables)) + [Return(true)], if Safe(rule) then [] else exit);
  }

  /** Every jump in a rule's function has exactly one label to land on, whether or not
      the function has a failure exit. */
  lemma RuleJumpsResolved(rule: Rule, l: nat)
    ensures var e := CompileRule(rule, l);
            l < e.next && Distinct(e.code) && Targets(e.code) <= Labels(e.code)
  {
    CompileShape(HasAction(rule.expression), rule.expression, l, l + 1);
    PrologueShape(rule);
    EpilogueShape(rule, l);
    Enclose(Prologue(rule), Compile(HasAction(rule.expression), rule.expression, l, l + 1), Epilogue(rule, l),
            l, l + 1, if Safe(rule) then {} else {l}, {});
  }

  lemma {:induction false} ProgramSize(rules: seq<Rule>, l: nat)
    ensures |Program(rules, l)| == |rules|
    decreases rules
  {
    if rules != [] { ProgramSize(rules[1..], CompileRule(rules[0], l).next); }
  }

  /** The label counter when the r-th rule is reached: where the rules before it stopped. */
  function Counter(rules: seq<Rule>, l: nat, r: nat): nat
    requires r <= |rules|
    decreases r
  {
    if r == 0 then l else Counter(rules[1..], CompileRule(rules[0], l).next, r - 1)
  }

  /** Each rule's code is the rule compiled with the counter as the rules before it left it. */
  lemma {:induction false} ProgramAt(rules: seq<Rule>, l: nat, r: nat)
    requires r < |rules|
    ensures |Program(rules, l)| == |rules| && l <= Counter(rules, l, r)
    ensures Program(rules, l)[r] == CompileRule(rules[r], Counter(rules, l, r)).code
    decreases rules
  {
    ProgramSize(rules, l);
    if r > 0 {
      RuleJumpsResolved(rules[0], l);
      ProgramAt(rules[1..], CompileRule(rules[0], l).next, r - 1);
    }
  }

  /** A rule's function ends with the return of a success if its expression is an option or a repetition, and
      with that of a failure otherwise. */
  lemma LastInstr(rule: Rule, l: nat)
    ensures var code := CompileRule(rule, l).code;
            |code| > 0 && code[|code| - 1] == Return(rule.expression.Query? || rule.expression.Star?)
  {
    hide Compile;
  }

  // ----- rules with an action -----

  predicate IsAct(i: Instr) { i.Do? && i.thunk.Act? }

  /** Some instruction queues an action. */
  ghost predicate Queues(code: seq<Instr>) { exists i :: 0 <= i < |code| && IsAct(code[i]) }

  lemma QueuesJoin(a: seq<Instr>, b: seq<Instr>)
    ensures Queues(a + b) <==> Queues(a) || Queues(b)
  {
    if i :| 0 <= i < |a| && IsAct(a[i]) { assert IsAct((a + b)[i]); }
    if i :| 0 <= i < |b| && IsAct(b[i]) { assert IsAct((a + b)[|a| + i]); }
    if i :| 0 <= i < |a + b| && IsAct((a + b)[i]) {
      assert i < |a| ==> IsAct(a[i]);
      assert i >= |a| ==> IsAct(b[i - |a|]);
    }
  }

  lemma QueuesWrapped(pre: seq<Instr>, body: seq<Instr>, post: seq<Instr>)
    requires !Queues(pre) && !Queues(post)
    ensures Queues(pre + body + post) <==> Queues(body)
  {
    QueuesJoin(pre + body, post);
    QueuesJoin(pre, body);
  }

  lemma {:induction false} NoQueues(code: seq<Instr>)
    requires forall i | 0 <= i < |code| :: !IsAct(code[i])
    ensures !Queues(code)
  {
  }

  /** A rule counts as having an action exactly when its function queues one. */
  lemma {:induction false} ActionQueued(armed: bool, node: Node, ko: nat, l: nat)
    ensures HasAction(node) <==> Queues(Compile(armed, node, ko, l).code)
    decreases node, 0
  {
    match node
    case Action(a) => assert IsAct([Do(Act(a))][0]);
    case Name(r, v) =>
      assert Dos(SetThunks(armed, v)) == if v.Some? then [Do(SetThunks(armed, v)[0])] else [] by {
        assert v.Some? ==> SetThunks(armed, v)[1..] == [];
      }
      NoQueues([Call(r, ko)] + Dos(SetThunks(armed, v)));
    case Alternate(ns) =>
      AnyQueued(armed, ns, l, ko, l + 1);
      QueuesWrapped([Save(l)], CompileAny(armed, ns, l, ko, l + 1).code, [Label(l)]);
    case Sequence(ns) => AllQueued(armed, ns, ko, l);
    case PeekFor(x) =>
      ActionQueued(armed, x, ko, l + 1);
      QueuesWrapped([Save(l)], Compile(armed, x, ko, l + 1).code, [Restore(l)]);
    case PeekNot(x) =>
      ActionQueued(armed, x, l, l + 1);
      QueuesWrapped([Save(l)], Compile(armed, x, l, l + 1).code, [Goto(ko), Label(l), Restore(l)]);
    case Query(x) =>
      ActionQueued(armed, x, l, l + 2);
      QueuesWrapped([Save(l)], Compile(armed, x, l, l + 2).code, [Goto(l + 1), Label(l), Restore(l), Label(l + 1)]);
    case Star(x) =>
      ActionQueued(armed, x, l + 1, l + 2);
      LoopQueues(l, l + 1, Compile(armed, x, l + 1, l + 2).code);
    case Plus(x) =>
      var first := Compile(armed, x, ko, l + 2);
      ActionQueued(armed, x, ko, l + 2);
      ActionQueued(armed, x, l + 1, first.next);
      LoopQueues(l, l + 1, Compile(armed, x, l + 1, first.next).code);
      QueuesJoin(first.code, Loop(l, l + 1, Compile(armed, x, l + 1, first.next).code));
    case _ =>
  }

  lemma LoopQueues(again: nat, out: nat, body: seq<Instr>)
    ensures Queues(Loop(again, out, body)) <==> Queues(body)
  {
    QueuesWrapped([Label(again), Save(out)], body, [Goto(again), Label(out), Restore(out)]);
  }

  lemma {:induction false} AnyQueued(armed: bool, ns: Nodes, ok: nat, ko: nat, l: nat)
    ensures AnyAction(ns) <==> Queues(CompileAny(armed, ns, ok, ko, l).code)
    decreases ns
  {
    match ns
    case Last(n) => ActionQueued(armed, n, ko, l);
    case More(n, rest) =>
      var e := Compile(armed, n, l, l + 1);
      var f := CompileAny(armed, rest, ok, ko, e.next);
      ActionQueued(armed, n, l, l + 1);
      AnyQueued(armed, rest, ok, ko, e.next);
      var jump := [Goto(ok), Label(l), Restore(ok)];
      NoQueues(jump);
      QueuesJoin(e.code, jump);
      QueuesJoin(e.code + jump, f.code);
  }

  lemma {:induction false} AllQueued(armed: bool, ns: Nodes, ko: nat, l: nat)
    ensures AnyAction(ns) <==> Queues(CompileAll(armed, ns, ko, l).code)
    decreases ns
  {
    match ns
    case Last(n) => ActionQueued(armed, n, ko, l);
    case More(n, rest) =>
      var e := Compile(armed, n, ko, l);
      ActionQueued(armed, n, ko, l);
      AllQueued(armed, rest, ko, e.next);
      QueuesJoin(e.code, CompileAll(armed, rest, ko, e.next).code);
  }
}
