/** The machine that runs emitted rule functions, and the proof that it computes
    what the grammar means.

    The machine is a deterministic small-step one.  It keeps, as the emitted C
    does, a position, an array of queued actions with a fill mark, and for each
    active function its program counter and its saved positions.  Failing does
    not repair anything by itself: `yymatchString` leaves the position advanced when the
    input ends inside the literal, and queued actions stay in the array above the
    mark.  Only a `Restore` puts the two marks back. */
module PegMachine {
  import opened Common
  import opened Peg
  import opened PegCompiler
  import opened PegLayout
  import opened PegMatch

  /** `thunks[..thunkpos]` is the queue; entries above the mark are leftovers. */
  datatype Regs = Regs(pos: nat, thunks: seq<Thunk>, thunkpos: nat)

  datatype Mark = Mark(pos: nat, thunkpos: nat)

  datatype Stack = Empty | Frame(rule: nat, pc: nat, slots: map<nat, Mark>, below: Stack)

  datatype Config =
    | Running(rule: nat, pc: nat, slots: map<nat, Mark>, stack: Stack, g: Regs)
    | Halted(result: bool, g: Regs)
    | Stuck

  datatype Machine = Machine(env: Env, prog: seq<seq<Instr>>)

  function Enqueue(g: Regs, t: Thunk): Regs {
    var thunks := if g.thunkpos < |g.thunks| then g.thunks[g.thunkpos := t] else g.thunks + [t];
    Regs(g.pos, thunks, g.thunkpos + 1)
  }

  ghost function Jump(m: Machine, c: Config, id: nat): Config
    requires c.Running? && c.rule < |m.prog|
  {
    c.(pc := Find(m.prog[c.rule], id))
  }

  /** Fall through on a match, go to `ko` otherwise; the position moves either way. */
  ghost function Branch(m: Machine, c: Config, hit: Hit, ko: nat): Config
    requires c.Running? && c.rule < |m.prog|
  {
    var g' := c.g.(pos := hit.pos);
    Running(c.rule, if hit.ok then c.pc + 1 else Find(m.prog[c.rule], ko), c.slots, c.stack, g')
  }

  ghost function Leave(m: Machine, c: Config, result: bool): Config
    requires c.Running?
  {
    match c.stack
    case Empty => Halted(result, c.g)
    case Frame(r, pc, slots, below) =>
      if r >= |m.prog| || pc >= |m.prog[r]| || !m.prog[r][pc].Call? then Stuck else
      var caller := Running(r, pc, slots, below, c.g);
      if result then caller.(pc := pc + 1) else Jump(m, caller, m.prog[r][pc].ko)
  }

  ghost function Step(m: Machine, c: Config): Config {
    if !c.Running? then c else
    if c.rule >= |m.prog| || c.pc >= |m.prog[c.rule]| then Stuck else
    var input := m.env.input;
    match m.prog[c.rule][c.pc]
    case Label(_) => c.(pc := c.pc + 1)
    case Goto(t) => Jump(m, c, t)
    case Save(n) => c.(pc := c.pc + 1, slots := c.slots[n := Mark(c.g.pos, c.g.thunkpos)])
    case Restore(n) =>
      if n !in c.slots then Stuck else
      c.(pc := c.pc + 1, g := c.g.(pos := c.slots[n].pos, thunkpos := c.slots[n].thunkpos))
    case MatchDot(ko) => Branch(m, c, DotAt(input, c.g.pos), ko)
    case MatchChar(x, ko) => Branch(m, c, CharAt(input, c.g.pos, x), ko)
    case MatchString(s, ko) => Branch(m, c, StringAt(input, c.g.pos, c.g.pos, s), ko)
    case MatchClass(cs, ko) => Branch(m, c, ClassAt(input, c.g.pos, cs), ko)
    case Test(k, ko) => Branch(m, c, Hit(m.env.holds(k, c.g.pos), c.g.pos), ko)
    case Call(r, _) => Running(r, 0, map[], Frame(c.rule, c.pc, c.slots, c.stack), c.g)
    case Do(t) => c.(pc := c.pc + 1, g := Enqueue(c.g, t))
    case Return(b) => Leave(m, c, b)
  }

  ghost function Run(m: Machine, n: nat, c: Config): Config {
    if n == 0 then c else Run(m, n - 1, Step(m, c))
  }

  lemma {:induction false} RunOn(m: Machine, a: nat, b: nat, c: Config)
    ensures Run(m, a + b, c) == Run(m, b, Run(m, a, c))
  {
    if a > 0 { RunOn(m, a - 1, b, Step(m, c)); }
  }

  lemma Run1(m: Machine, c: Config)
    ensures Run(m, 1, c) == Step(m, c)
  {
    assert Run(m, 0, Step(m, c)) == Step(m, c);
  }

  lemma Run0(m: Machine, c: Config)
    ensures Run(m, 0, c) == c
  {
  }

  /** One more step at the front, or at the end, of a run. */
  lemma First(m: Machine, k: nat, c: Config)
    ensures Run(m, 1 + k, c) == Run(m, k, Step(m, c))
  {
  }

  lemma Then(m: Machine, n: nat, c: Config)
    ensures Run(m, n + 1, c) == Step(m, Run(m, n, c))
  {
    RunOn(m, n, 1, c);
    Run1(m, Run(m, n, c));
  }

  lemma {:induction false} HaltStays(m: Machine, n: nat, c: Config)
    requires !c.Running?
    ensures Run(m, n, c) == c
  {
    if n > 0 { HaltStays(m, n - 1, c); }
  }

  // ----- where a stretch of code leaves the machine -----

  ghost predicate At(g: Regs, p: nat, q: seq<Thunk>) {
    g.pos == p && g.thunkpos == |q| <= |g.thunks| && g.thunks[..|q|] == q
  }

  /** The queue has `q` below everything queued since. */
  ghost predicate Above(g: Regs, q: seq<Thunk>) {
    |q| <= g.thunkpos <= |g.thunks| && g.thunks[..|q|] == q
  }

  /** Saved marks outside the labels of the code in between are untouched. */
  ghost predicate Agree(s: map<nat, Mark>, s': map<nat, Mark>, lo: nat, hi: nat) {
    forall n: nat | !(lo <= n < hi) :: (n in s <==> n in s') && (n in s ==> s[n] == s'[n])
  }

  ghost predicate LabelAt(m: Machine, c: Config, i: nat, id: nat) {
    c.Running? && c.rule < |m.prog| && i < |m.prog[c.rule]| && m.prog[c.rule][i] == Label(id)
  }

  ghost predicate Same(c: Config, c': Config, pc: nat, lo: nat, hi: nat) {
    c.Running? && c'.Running? && c'.rule == c.rule && c'.pc == pc && c'.stack == c.stack
    && Agree(c.slots, c'.slots, lo, hi)
  }

  /** Success falls through with the outcome's position and queue; failure is at the
      failure label with the old queue still at the bottom; divergence has been
      running for at least as many steps as there was fuel. */
  ghost predicate Lands(c: Config, c': Config, exit: nat, kp: nat, lo: nat, hi: nat, q: seq<Thunk>,
                        out: Outcome, fuel: nat, n: nat)
  {
    match out
    case Ok(p', q') => Same(c, c', exit, lo, hi) && At(c'.g, p', q')
    case Fail => Same(c, c', kp, lo, hi) && Above(c'.g, q)
    case Diverge => c'.Running? && n >= fuel
  }

  lemma EnqueueAt(g: Regs, p: nat, q: seq<Thunk>, t: Thunk)
    requires At(g, p, q)
    ensures At(Enqueue(g, t), p, q + [t])
  {
    var g' := Enqueue(g, t);
    assert g'.thunks[..|q|] == g.thunks[..|q|];
    assert g'.thunks[..|q| + 1] == g'.thunks[..|q|] + [t];
  }

  /** Putting the marks back to an earlier point recovers the queue of that point. */
  lemma RestoreAt(g: Regs, p: nat, q: seq<Thunk>)
    requires Above(g, q)
    ensures At(g.(pos := p, thunkpos := |q|), p, q)
  {
  }

  lemma AtIsAbove(g: Regs, p: nat, q': seq<Thunk>, q: seq<Thunk>)
    requires At(g, p, q') && q <= q'
    ensures Above(g, q)
  {
    assert g.thunks[..|q|] == g.thunks[..|q'|][..|q|];
  }

  lemma AboveDown(g: Regs, q': seq<Thunk>, q: seq<Thunk>)
    requires Above(g, q') && q <= q'
    ensures Above(g, q)
  {
    assert g.thunks[..|q|] == g.thunks[..|q'|][..|q|];
  }

  ghost predicate Fetches(m: Machine, c: Config, i: Instr) {
    c.Running? && c.rule < |m.prog| && c.pc < |m.prog[c.rule]| && m.prog[c.rule][c.pc] == i
  }

  lemma StepSave(m: Machine, c: Config, slot: nat)
    requires Fetches(m, c, Save(slot))
    ensures Step(m, c) == c.(pc := c.pc + 1, slots := c.slots[slot := Mark(c.g.pos, c.g.thunkpos)])
  {
  }

  lemma StepLabel(m: Machine, c: Config, id: nat)
    requires Fetches(m, c, Label(id))
    ensures Step(m, c) == c.(pc := c.pc + 1)
  {
  }

  lemma StepGoto(m: Machine, c: Config, id: nat, i: nat)
    requires Fetches(m, c, Goto(id)) && LabelAt(m, c, i, id) && Resolved(m.prog[c.rule])
    ensures Step(m, c) == c.(pc := i)
  {
  }

  lemma StepRestore(m: Machine, c: Config, slot: nat, p: nat, q: seq<Thunk>)
    requires Fetches(m, c, Restore(slot)) && slot in c.slots && c.slots[slot] == Mark(p, |q|) && Above(c.g, q)
    ensures Step(m, c).Running? && At(Step(m, c).g, p, q)
    ensures Step(m, c) == c.(pc := c.pc + 1, g := Step(m, c).g)
  {
    RestoreAt(c.g, p, q);
  }

  lemma StepDo(m: Machine, c: Config, t: Thunk, p: nat, q: seq<Thunk>)
    requires Fetches(m, c, Do(t)) && At(c.g, p, q)
    ensures Step(m, c).Running? && At(Step(m, c).g, p, q + [t])
    ensures Step(m, c) == c.(pc := c.pc + 1, g := Step(m, c).g)
  {
    EnqueueAt(c.g, p, q, t);
  }

  lemma AgreeTrans(s: map<nat, Mark>, s': map<nat, Mark>, s'': map<nat, Mark>,
                   lo: nat, hi: nat, lo': nat, hi': nat, lo'': nat, hi'': nat)
    requires Agree(s, s', lo, hi) && Agree(s', s'', lo', hi')
    requires lo'' <= lo && hi <= hi'' && lo'' <= lo' && hi' <= hi''
    ensures Agree(s, s'', lo'', hi'')
  {
  }

  /** A mark saved before a stretch of code is still there after it. */
  lemma Kept(s: map<nat, Mark>, s': map<nat, Mark>, slot: nat, mark: Mark, lo: nat, hi: nat, lo': nat)
    requires Agree(s[slot := mark], s', lo, hi) && lo' <= slot < lo <= hi
    ensures slot in s' && s'[slot] == mark && Agree(s, s', lo', hi)
  {
  }

  /** The two instructions at every failure label: arrive, and put the marks back. */
  lemma BackTo(m: Machine, c: Config, id: nat, slot: nat, p: nat, q: seq<Thunk>) returns (c': Config)
    requires Fetches(m, c, Label(id)) && Fetches(m, c.(pc := c.pc + 1), Restore(slot))
    requires slot in c.slots && c.slots[slot] == Mark(p, |q|) && Above(c.g, q)
    ensures c' == Run(m, 2, c)
    ensures c'.Running? && c' == c.(pc := c.pc + 2, g := c'.g) && At(c'.g, p, q)
  {
    var c1 := Step(m, c);
    StepLabel(m, c, id);
    StepRestore(m, c1, slot, p, q);
    c' := Step(m, c1);
    First(m, 1, c);
    Run1(m, c1);
  }

  // ----- the simulation -----

  /** The functions loaded into the machine are the ones emitted for the grammar. */
  ghost predicate Ready(m: Machine) {
    WellFormed(m.env.rules) && m.prog == Program(m.env.rules, 1)
  }

  ghost predicate Laid(m: Machine, r: nat) {
    r < |m.prog| && r < |m.env.rules| && exists l: nat :: 0 < l && RuleLies(m.prog[r], m.env.rules[r], l)
  }

  /** What the simulation needs of a ready machine. */
  ghost predicate Loaded(m: Machine) {
    WellFormed(m.env.rules) && forall r: nat | r < |m.env.rules| :: Laid(m, r)
  }

  lemma ReadyLoaded(m: Machine)
    requires Ready(m)
    ensures Loaded(m)
  {
    forall r: nat | r < |m.env.rules| ensures Laid(m, r) {
      ProgramAt(m.env.rules, 1, r);
      RuleLaidOut(m.env.rules[r], Counter(m.env.rules, 1, r));
    }
  }

  /** What every part of the simulation assumes about where it starts. */
  ghost predicate Starts(m: Machine, c: Config, p: nat, q: seq<Thunk>) {
    && Loaded(m) && c.Running? && c.rule < |m.prog| && Resolved(m.prog[c.rule])
    && At(c.g, p, q) && p <= |m.env.input|
  }

  lemma {:induction false} SimNode(m: Machine, c: Config, armed: bool, node: Node, ko: nat, kp: nat, l: nat,
                                   p: nat, q: seq<Thunk>, fuel: nat, vars: nat)
    returns (n: nat, c': Config)
    requires Starts(m, c, p, q) && Lies(m.prog[c.rule], c.pc, armed, node, ko, l)
    requires Closed(node, |m.env.rules|, vars)
    requires node.Query? || node.Star? || LabelAt(m, c, kp, ko)
    ensures c' == Run(m, n, c)
    ensures Lands(c, c', c.pc + Size(node), kp, l, l + Used(node), q, Eval(m.env, armed, node, p, q, fuel), fuel, n)
    decreases fuel, 2, node, 2
  {
    hide *;
    match node
    case Name(r, v) => n, c' := SimName(m, c, armed, r, v, ko, kp, l, p, q, fuel, vars);
    case Alternate(ns) => n, c' := SimAlternate(m, c, armed, ns, ko, kp, l, p, q, fuel, vars);
    case Sequence(ns) => n, c' := SimSequence(m, c, armed, ns, ko, kp, l, p, q, fuel, vars);
    case PeekFor(e) => n, c' := SimPeekFor(m, c, armed, e, ko, kp, l, p, q, fuel, vars);
    case PeekNot(e) => n, c' := SimPeekNot(m, c, armed, e, ko, kp, l, p, q, fuel, vars);
    case Query(e) => n, c' := SimQuery(m, c, armed, e, ko, kp, l, p, q, fuel, vars);
    case Star(e) => n, c' := SimStar(m, c, armed, e, ko, kp, l, p, q, fuel, vars);
    case Plus(e) => n, c' := SimPlus(m, c, armed, e, ko, kp, l, p, q, fuel, vars);
    case _ => LeafCases(node); n, c' := SimLeaf(m, c, armed, node, ko, kp, l, p, q, fuel);
  }

  lemma LeafCases(node: Node)
    ensures Leaf(node) || node.Name? || node.Alternate? || node.Sequence? || node.PeekFor? || node.PeekNot?
            || node.Query? || node.Star? || node.Plus?
  {
  }

  lemma {:induction false} SimSequence(m: Machine, c: Config, armed: bool, ns: Nodes, ko: nat, kp: nat, l: nat,
                                       p: nat, q: seq<Thunk>, fuel: nat, vars: nat)
    returns (n: nat, c': Config)
    requires Starts(m, c, p, q) && Lies(m.prog[c.rule], c.pc, armed, Sequence(ns), ko, l)
    requires Closed(Sequence(ns), |m.env.rules|, vars) && LabelAt(m, c, kp, ko)
    ensures c' == Run(m, n, c)
    ensures Lands(c, c', c.pc + Size(Sequence(ns)), kp, l, l + Used(Sequence(ns)), q,
                  Eval(m.env, armed, Sequence(ns), p, q, fuel), fuel, n)
    decreases fuel, 2, ns, 3
  {
    hide Lands, Loaded, At, Resolved, Run, LabelAt, SizeAll, UsedAll, LiesAll, EvalAll, AllClosed, Lies, Size, Used;
    Open(m.prog[c.rule], c.pc, armed, Sequence(ns), ko, l);
    ListSizes(ns);
    n, c' := SimAll(m, c, armed, ns, ko, kp, l, p, q, fuel, vars);
  }

  lemma {:induction false} SimStar(m: Machine, c: Config, armed: bool, x: Node, ko: nat, kp: nat, l: nat,
                                   p: nat, q: seq<Thunk>, fuel: nat, vars: nat)
    returns (n: nat, c': Config)
    requires Starts(m, c, p, q) && Lies(m.prog[c.rule], c.pc, armed, Star(x), ko, l)
    requires Closed(Star(x), |m.env.rules|, vars)
    ensures c' == Run(m, n, c)
    ensures Lands(c, c', c.pc + Size(Star(x)), kp, l, l + Used(Star(x)), q,
                  Eval(m.env, armed, Star(x), p, q, fuel), fuel, n)
    decreases fuel, 2, x, 4
  {
    hide Lands, Loaded, At, Resolved, Run, LiesLoop, Lies, Size, Used;
    Open(m.prog[c.rule], c.pc, armed, Star(x), ko, l);
    Sizes(x);
    n, c' := SimLoop(m, c, armed, x, kp, l, l + 2, p, q, fuel, vars);
  }

  lemma StepBranch(m: Machine, c: Config, hit: Hit, ko: nat, kp: nat, p: nat, q: seq<Thunk>, out: Outcome)
    requires LabelAt(m, c, kp, ko) && Resolved(m.prog[c.rule]) && At(c.g, p, q)
    requires out == if hit.ok then Ok(hit.pos, q) else Fail
    ensures Lands(c, Branch(m, c, hit, ko), c.pc + 1, kp, 0, 0, q, out, 0, 1)
  {
  }

  lemma SimLeaf(m: Machine, c: Config, armed: bool, node: Node, ko: nat, kp: nat, l: nat,
                p: nat, q: seq<Thunk>, fuel: nat)
    returns (n: nat, c': Config)
    requires Leaf(node) && Starts(m, c, p, q) && Lies(m.prog[c.rule], c.pc, armed, node, ko, l)
    requires LabelAt(m, c, kp, ko)
    ensures c' == Run(m, n, c)
    ensures Lands(c, c', c.pc + Size(node), kp, l, l + Used(node), q, Eval(m.env, armed, node, p, q, fuel), fuel, n)
  {
    n, c' := 1, Step(m, c);
    Run1(m, c);
    var out := Eval(m.env, armed, node, p, q, fuel);
    var input := m.env.input;
    match node
    case Dot => StepBranch(m, c, DotAt(input, p), ko, kp, p, q, out);
    case Class(cs) => StepBranch(m, c, ClassAt(input, p, cs), ko, kp, p, q, out);
    case Predicate(k) => StepBranch(m, c, Hit(m.env.holds(k, p), p), ko, kp, p, q, out);
    case Action(a) => StepDo(m, c, Act(a), p, q);
    case Literal(s) =>
      if |s| == 1 {
        CharAtPrefix(input, p, s);
        StepBranch(m, c, CharAt(input, p, s[0]), ko, kp, p, q, out);
      } else {
        StringAtPrefix(input, p, p, s);
        StepBranch(m, c, StringAt(input, p, p, s), ko, kp, p, q, out);
      }
  }

  lemma {:induction false} SimName(m: Machine, c: Config, armed: bool, r: nat, v: Option<nat>, ko: nat, kp: nat,
                                   l: nat, p: nat, q: seq<Thunk>, fuel: nat, vars: nat)
    returns (n: nat, c': Config)
    requires Starts(m, c, p, q) && Lies(m.prog[c.rule], c.pc, armed, Name(r, v), ko, l)
    requires Closed(Name(r, v), |m.env.rules|, vars) && LabelAt(m, c, kp, ko)
    ensures c' == Run(m, n, c)
    ensures Lands(c, c', c.pc + Size(Name(r, v)), kp, l, l + Used(Name(r, v)), q,
                  Eval(m.env, armed, Name(r, v), p, q, fuel), fuel, n)
    decreases fuel, 1
  {
    hide Run, Step;
    var out := EvalRule(m.env, r, p, q, fuel);
    if fuel == 0 {
      Run0(m, c);
      n, c' := 0, c;
    } else {
      var c1 := Step(m, c);
      StepCall(m, c, r, ko);
      var k, c2 := SimRule(m, c1, r, p, q, fuel);
      First(m, k, c);
      n, c' := 1 + k, c2;
      if out.Ok? || out.Fail? {
        StepReturn(m, c, c2, r, ko, kp, out.Ok?);
        Then(m, n, c);
        n, c' := n + 1, Step(m, c2);
        if out.Ok? && v.Some? {
          StepDo(m, c', Set(Offset(armed, v.value), v.value), out.pos, out.queue);
          Then(m, n, c);
          n, c' := n + 1, Step(m, c');
        }
        assert out.Ok? && v.None? ==> out.queue + [] == out.queue;
      }
    }
  }

  lemma StepCall(m: Machine, c: Config, r: nat, ko: nat)
    requires Fetches(m, c, Call(r, ko))
    ensures Step(m, c) == Running(r, 0, map[], Frame(c.rule, c.pc, c.slots, c.stack), c.g)
  {
  }

  lemma StepReturn(m: Machine, c: Config, c2: Config, r: nat, ko: nat, kp: nat, result: bool)
    requires Fetches(m, c, Call(r, ko)) && LabelAt(m, c, kp, ko) && Resolved(m.prog[c.rule])
    requires Fetches(m, c2, Return(result)) && c2.stack == Frame(c.rule, c.pc, c.slots, c.stack)
    ensures Step(m, c2) == c.(pc := if result then c.pc + 1 else kp, g := c2.g)
  {
  }

  /** A rule's function, from its first instruction to the return it reaches.  When it is
      about to return 0, position and queue are exactly as at entry. */
  lemma {:induction false} SimRule(m: Machine, c: Config, r: nat, p: nat, q: seq<Thunk>, fuel: nat)
    returns (n: nat, c': Config)
    requires Loaded(m) && c.Running? && c.rule == r < |m.env.rules| && c.pc == 0 && fuel > 0
    requires At(c.g, p, q) && p <= |m.env.input|
    ensures c' == Run(m, n, c)
    ensures match EvalRule(m.env, r, p, q, fuel)
            case Ok(p', q') => Returning(m, c, c', true) && At(c'.g, p', q')
            case Fail => Returning(m, c, c', false) && At(c'.g, p, q)
            case Diverge => c'.Running? && n + 1 >= fuel
    decreases fuel, 0
  {
    hide Lies, Closed, Run, Step, Eval, Resolved, Size, Used;
    var rule := m.env.rules[r];
    var armed := HasAction(rule.expression);
    assert Laid(m, r);
    var lr: nat :| 0 < lr && RuleLies(m.prog[r], rule, lr);
    var c1 := SimPrologue(m, c, rule, lr, p, q);
    var q1 := q + PushThunks(rule.variables);
    var k, c2 := SimNode(m, c1, armed, rule.expression, lr, ExitAt(rule), lr + 1, p, q1, fuel - 1, rule.variables);
    n, c' := BodyAt(rule) + k, c2;
    RunOn(m, BodyAt(rule), k, c);
    var out := Eval(m.env, armed, rule.expression, p, q1, fuel - 1);
    if out.Ok? {
      var c3 := SimReturn(m, c2, rule, lr, out.pos, out.queue);
      RunOn(m, n, Bit(rule.variables > 0), c);
      n, c' := n + Bit(rule.variables > 0), c3;
    } else if out.Fail? {
      SafeNeverFails(m.env, armed, rule.expression, p, q1, fuel - 1);
      AboveDown(c2.g, q1, q);
      c' := BackTo(m, c2, lr, 0, p, q);
      RunOn(m, n, 2, c);
      n := n + 2;
    }
  }

  ghost predicate Returning(m: Machine, c: Config, c': Config, result: bool) {
    c.Running? && c'.Running? && c'.rule == c.rule && c'.stack == c.stack && Fetches(m, c', Return(result))
  }

  lemma SafeNeverFails(env: Env, armed: bool, node: Node, p: nat, q: seq<Thunk>, fuel: nat)
    ensures node.Query? || node.Star? ==> Eval(env, armed, node, p, q, fuel) != Fail
  {
    if node.Star? { StarNeverFails(env, armed, node.element, p, q, fuel); }
  }

  lemma {:induction false} StarNeverFails(env: Env, armed: bool, e: Node, p: nat, q: seq<Thunk>, fuel: nat)
    ensures EvalStar(env, armed, e, p, q, fuel) != Fail
    decreases fuel
  {
    if fuel > 0 {
      var out := Eval(env, armed, e, p, q, fuel);
      if out.Ok? { StarNeverFails(env, armed, e, out.pos, out.queue, fuel - 1); }
    }
  }

  lemma SimPrologue(m: Machine, c: Config, rule: Rule, l: nat, p: nat, q: seq<Thunk>) returns (c': Config)
    requires c.Running? && c.rule < |m.prog| && RuleLies(m.prog[c.rule], rule, l) && c.pc == 0 && At(c.g, p, q)
    ensures c' == Run(m, BodyAt(rule), c)
    ensures c'.Running? && c'.rule == c.rule && c'.pc == BodyAt(rule) && c'.stack == c.stack
    ensures At(c'.g, p, q + PushThunks(rule.variables))
    ensures !Safe(rule) ==> 0 in c'.slots && c'.slots[0] == Mark(p, |q|)
  {
    c' := c;
    assert q + [] == q;
    if !Safe(rule) {
      StepSave(m, c, 0);
      Run1(m, c);
      c' := Step(m, c);
    }
    if rule.variables > 0 {
      StepDo(m, c', Push(rule.variables), p, q);
      Then(m, Bit(!Safe(rule)), c);
      c' := Step(m, c');
    }
  }

  lemma SimReturn(m: Machine, c: Config, rule: Rule, l: nat, p: nat, q: seq<Thunk>) returns (c': Config)
    requires c.Running? && c.rule < |m.prog| && RuleLies(m.prog[c.rule], rule, l) && At(c.g, p, q)
    requires c.pc == BodyAt(rule) + Size(rule.expression)
    ensures c' == Run(m, Bit(rule.variables > 0), c)
    ensures Returning(m, c, c', true) && At(c'.g, p, q + PopThunks(rule.variables))
  {
    c' := c;
    assert q + [] == q;
    if rule.variables > 0 {
      StepDo(m, c, Pop(rule.variables), p, q);
      Run1(m, c);
      c' := Step(m, c);
    }
  }

  lemma {:induction false} SimAll(m: Machine, c: Config, armed: bool, ns: Nodes, ko: nat, kp: nat, l: nat,
                                  p: nat, q: seq<Thunk>, fuel: nat, vars: nat)
    returns (n: nat, c': Config)
    requires Starts(m, c, p, q) && LiesAll(m.prog[c.rule], c.pc, armed, ns, ko, l)
    requires AllClosed(ns, |m.env.rules|, vars) && LabelAt(m, c, kp, ko)
    ensures c' == Run(m, n, c)
    ensures Lands(c, c', c.pc + SizeAll(ns), kp, l, l + UsedAll(ns), q,
                  EvalAll(m.env, armed, ns, p, q, fuel), fuel, n)
    decreases fuel, 2, ns, 2
  {
    hide Lies, Run, Step, Eval, Closed, Resolved, Loaded;
    n, c' := SimNode(m, c, armed, ns.node, ko, kp, l, p, q, fuel, vars);
    var out := Eval(m.env, armed, ns.node, p, q, fuel);
    EvalForward(m.env, armed, ns.node, p, q, fuel);
    if out.Ok? && ns.More? {
      var l' := l + Used(ns.node);
      var k, c'' := SimAll(m, c', armed, ns.rest, ko, kp, l', out.pos, out.queue, fuel, vars);
      RunOn(m, n, k, c);
      var out' := EvalAll(m.env, armed, ns.rest, out.pos, out.queue, fuel);
      if !out'.Diverge? {
        AgreeTrans(c.slots, c'.slots, c''.slots, l, l', l', l' + UsedAll(ns.rest), l, l' + UsedAll(ns.rest));
        if out'.Fail? { AboveDown(c''.g, out.queue, q); }
      }
      n, c' := n + k, c'';
    }
  }

  lemma {:induction false} SimAlternate(m: Machine, c: Config, armed: bool, ns: Nodes, ko: nat, kp: nat, l: nat,
                                        p: nat, q: seq<Thunk>, fuel: nat, vars: nat)
    returns (n: nat, c': Config)
    requires Starts(m, c, p, q) && Lies(m.prog[c.rule], c.pc, armed, Alternate(ns), ko, l)
    requires Closed(Alternate(ns), |m.env.rules|, vars) && LabelAt(m, c, kp, ko)
    ensures c' == Run(m, n, c)
    ensures Lands(c, c', c.pc + Size(Alternate(ns)), kp, l, l + Used(Alternate(ns)), q,
                  Eval(m.env, armed, Alternate(ns), p, q, fuel), fuel, n)
    decreases fuel, 2, ns, 3
  {
    hide Lies, LiesAny, Run, Step, EvalAny, AllClosed, Resolved, Loaded, Agree, Above, Size, Used, SizeAny, UsedAny;
    var hi := l + 1 + UsedAny(ns);
    Open(m.prog[c.rule], c.pc, armed, Alternate(ns), ko, l);
    ListSizes(ns);
    var c1 := Step(m, c);
    StepSave(m, c, l);
    var k, c2 := SimAny(m, c1, armed, ns, l, c1.pc + SizeAny(ns), ko, kp, l + 1, p, q, fuel, vars);
    First(m, k, c);
    n, c' := 1 + k, c2;
    var out := EvalAny(m.env, armed, ns, p, q, fuel);
    if !out.Diverge? { Kept(c.slots, c2.slots, l, Mark(p, |q|), l + 1, hi, l); }
    if out.Ok? {
      StepLabel(m, c2, l);
      Then(m, 1 + k, c);
      n, c' := k + 2, Step(m, c2);
    }
  }

  lemma {:induction false} SimAny(m: Machine, c: Config, armed: bool, ns: Nodes, ok: nat, okp: nat, ko: nat, kp: nat,
                                  l: nat, p: nat, q: seq<Thunk>, fuel: nat, vars: nat)
    returns (n: nat, c': Config)
    requires Starts(m, c, p, q) && LiesAny(m.prog[c.rule], c.pc, armed, ns, ok, ko, l)
    requires AllClosed(ns, |m.env.rules|, vars) && LabelAt(m, c, kp, ko)
    requires ok < l && LabelAt(m, c, okp, ok) && okp == c.pc + SizeAny(ns)
    requires ok in c.slots && c.slots[ok] == Mark(p, |q|)
    ensures c' == Run(m, n, c)
    ensures Lands(c, c', okp, kp, l, l + UsedAny(ns), q, EvalAny(m.env, armed, ns, p, q, fuel), fuel, n)
    decreases fuel, 2, ns, 2
  {
    hide Lies, LiesAny, Closed, Run, Step, At, Above, Resolved, Eval, Loaded, Size, Used, SizeAny, UsedAny;
    ListSizes(ns);
    match ns
    case Last(x) =>
      LastParts(m.prog[c.rule], c.pc, armed, x, ok, ko, l);
      n, c' := SimNode(m, c, armed, x, ko, kp, l, p, q, fuel, vars);
    case More(x, rest) =>
      MoreParts(m.prog[c.rule], c.pc, armed, x, rest, ok, ko, l);
      var l', hi := l + 1 + Used(x), l + UsedAny(ns);
      n, c' := SimNode(m, c, armed, x, l, c.pc + Size(x) + 1, l + 1, p, q, fuel, vars);
      var out := Eval(m.env, armed, x, p, q, fuel);
      if out.Ok? {
        StepGoto(m, c', ok, okp);
        Then(m, n, c);
        n, c' := n + 1, Step(m, c');
      } else if out.Fail? {
        var c2 := BackTo(m, c', l, ok, p, q);
        RunOn(m, n, 2, c);
        var k, c3 := SimAny(m, c2, armed, rest, ok, okp, ko, kp, l', p, q, fuel, vars);
        RunOn(m, n + 2, k, c);
        if !EvalAny(m.env, armed, rest, p, q, fuel).Diverge? {
          AgreeTrans(c.slots, c2.slots, c3.slots, l + 1, l', l', hi, l, hi);
        }
        n, c' := n + 2 + k, c3;
      }
  }

  lemma {:induction false} SimPeekFor(m: Machine, c: Config, armed: bool, x: Node, ko: nat, kp: nat, l: nat,
                                      p: nat, q: seq<Thunk>, fuel: nat, vars: nat)
    returns (n: nat, c': Config)
    requires Starts(m, c, p, q) && Lies(m.prog[c.rule], c.pc, armed, PeekFor(x), ko, l)
    requires Closed(PeekFor(x), |m.env.rules|, vars) && LabelAt(m, c, kp, ko)
    ensures c' == Run(m, n, c)
    ensures Lands(c, c', c.pc + Size(PeekFor(x)), kp, l, l + Used(PeekFor(x)), q,
                  Eval(m.env, armed, PeekFor(x), p, q, fuel), fuel, n)
    decreases fuel, 2, x, 3
  {
    hide Lies, Run, Step, Resolved, Loaded, Above, Agree, Size, Used;
    Open(m.prog[c.rule], c.pc, armed, PeekFor(x), ko, l);
    Sizes(x);
    var hi := l + 1 + Used(x);
    var c1 := Step(m, c);
    StepSave(m, c, l);
    var k, c2 := SimNode(m, c1, armed, x, ko, kp, l + 1, p, q, fuel, vars);
    First(m, k, c);
    n, c' := 1 + k, c2;
    var out := Eval(m.env, armed, x, p, q, fuel);
    if !out.Diverge? { Kept(c.slots, c2.slots, l, Mark(p, |q|), l + 1, hi, l); }
    if out.Ok? {
      EvalForward(m.env, armed, x, p, q, fuel);
      AtIsAbove(c2.g, out.pos, out.queue, q);
      StepRestore(m, c2, l, p, q);
      Then(m, 1 + k, c);
      n, c' := k + 2, Step(m, c2);
    }
  }

  lemma {:induction false} SimPeekNot(m: Machine, c: Config, armed: bool, x: Node, ko: nat, kp: nat, l: nat,
                                      p: nat, q: seq<Thunk>, fuel: nat, vars: nat)
    returns (n: nat, c': Config)
    requires Starts(m, c, p, q) && Lies(m.prog[c.rule], c.pc, armed, PeekNot(x), ko, l)
    requires Closed(PeekNot(x), |m.env.rules|, vars) && LabelAt(m, c, kp, ko)
    ensures c' == Run(m, n, c)
    ensures Lands(c, c', c.pc + Size(PeekNot(x)), kp, l, l + Used(PeekNot(x)), q,
                  Eval(m.env, armed, PeekNot(x), p, q, fuel), fuel, n)
    decreases fuel, 2, x, 3
  {
    hide Lies, Run, Step, Resolved, Loaded, Above, Agree, Size, Used;
    Open(m.prog[c.rule], c.pc, armed, PeekNot(x), ko, l);
    Sizes(x);
    var hi := l + 1 + Used(x);
    var c1 := Step(m, c);
    StepSave(m, c, l);
    var k, c2 := SimNode(m, c1, armed, x, l, c.pc + 2 + Size(x), l + 1, p, q, fuel, vars);
    First(m, k, c);
    n, c' := 1 + k, c2;
    var out := Eval(m.env, armed, x, p, q, fuel);
    if !out.Diverge? { Kept(c.slots, c2.slots, l, Mark(p, |q|), l + 1, hi, l); }
    if out.Ok? {
      EvalForward(m.env, armed, x, p, q, fuel);
      AtIsAbove(c2.g, out.pos, out.queue, q);
      StepGoto(m, c2, ko, kp);
      Then(m, 1 + k, c);
      n, c' := k + 2, Step(m, c2);
    } else if out.Fail? {
      c' := BackTo(m, c2, l, l, p, q);
      RunOn(m, 1 + k, 2, c);
      n := k + 3;
    }
  }

  lemma {:induction false} SimQuery(m: Machine, c: Config, armed: bool, x: Node, ko: nat, kp: nat, l: nat,
                                    p: nat, q: seq<Thunk>, fuel: nat, vars: nat)
    returns (n: nat, c': Config)
    requires Starts(m, c, p, q) && Lies(m.prog[c.rule], c.pc, armed, Query(x), ko, l)
    requires Closed(Query(x), |m.env.rules|, vars)
    ensures c' == Run(m, n, c)
    ensures Lands(c, c', c.pc + Size(Query(x)), kp, l, l + Used(Query(x)), q,
                  Eval(m.env, armed, Query(x), p, q, fuel), fuel, n)
    decreases fuel, 2, x, 3
  {
    hide Lies, Run, Step, Resolved, Loaded, Above, Agree, Size, Used;
    Open(m.prog[c.rule], c.pc, armed, Query(x), ko, l);
    Sizes(x);
    var hi, t := l + 2 + Used(x), c.pc + 1 + Size(x);
    var c1 := Step(m, c);
    StepSave(m, c, l);
    var k, c2 := SimNode(m, c1, armed, x, l, t + 1, l + 2, p, q, fuel, vars);
    First(m, k, c);
    n, c' := 1 + k, c2;
    var out := Eval(m.env, armed, x, p, q, fuel);
    if !out.Diverge? {
      Kept(c.slots, c2.slots, l, Mark(p, |q|), l + 2, hi, l);
      if out.Ok? {
        StepGoto(m, c2, l + 1, t + 3);
        Then(m, n, c);
        n, c' := n + 1, Step(m, c2);
      } else {
        c' := BackTo(m, c2, l, l, p, q);
        RunOn(m, n, 2, c);
        n := n + 2;
      }
      StepLabel(m, c', l + 1);
      Then(m, n, c);
      n, c' := n + 1, Step(m, c');
    }
  }

  lemma {:induction false} SimLoop(m: Machine, c: Config, armed: bool, x: Node, kp: nat, l: nat, lb: nat,
                                   p: nat, q: seq<Thunk>, fuel: nat, vars: nat)
    returns (n: nat, c': Config)
    requires l + 2 <= lb
    requires Starts(m, c, p, q) && LiesLoop(m.prog[c.rule], c.pc, armed, x, l, lb)
    requires Closed(x, |m.env.rules|, vars)
    ensures c' == Run(m, n, c)
    ensures Lands(c, c', c.pc + 5 + Size(x), kp, l, lb + Used(x), q,
                  EvalStar(m.env, armed, x, p, q, fuel), fuel, n)
    decreases fuel, 2, x, 3
  {
    hide Lies, Closed, Run, Step, Eval, Loaded, Above, Agree, Size, Used;
    if fuel == 0 {
      Run0(m, c);
      n, c' := 0, c;
    } else {
      var hi, t := lb + Used(x), c.pc + 2 + Size(x);
      var c1 := SimLoopHead(m, c, l);
      var k, c2 := SimNode(m, c1, armed, x, l + 1, t + 1, lb, p, q, fuel, vars);
      RunOn(m, 2, k, c);
      n, c' := 2 + k, c2;
      var out := Eval(m.env, armed, x, p, q, fuel);
      if !out.Diverge? { Kept(c.slots, c2.slots, l + 1, Mark(p, |q|), lb, hi, l); }
      if out.Fail? {
        c' := BackTo(m, c2, l + 1, l + 1, p, q);
        RunOn(m, n, 2, c);
        n := n + 2;
      } else if out.Ok? {
        EvalForward(m.env, armed, x, p, q, fuel);
        StepGoto(m, c2, l, c.pc);
        Then(m, n, c);
        var c3 := Step(m, c2);
        var j, c4 := SimLoop(m, c3, armed, x, kp, l, lb, out.pos, out.queue, fuel - 1, vars);
        RunOn(m, n + 1, j, c);
        StarNeverFails(m.env, armed, x, out.pos, out.queue, fuel - 1);
        if !EvalStar(m.env, armed, x, out.pos, out.queue, fuel - 1).Diverge? {
          AgreeTrans(c.slots, c3.slots, c4.slots, l, hi, l, hi, l, hi);
        }
        n, c' := n + 1 + j, c4;
      }
    }
  }

  lemma SimLoopHead(m: Machine, c: Config, l: nat) returns (c': Config)
    requires Fetches(m, c, Label(l)) && Fetches(m, c.(pc := c.pc + 1), Save(l + 1))
    ensures c' == Run(m, 2, c)
    ensures c' == c.(pc := c.pc + 2, slots := c.slots[l + 1 := Mark(c.g.pos, c.g.thunkpos)])
  {
    var c1 := Step(m, c);
    StepLabel(m, c, l);
    StepSave(m, c1, l + 1);
    First(m, 1, c);
    Run1(m, c1);
    c' := Step(m, c1);
  }

  lemma {:induction false} SimPlus(m: Machine, c: Config, armed: bool, x: Node, ko: nat, kp: nat, l: nat,
                                   p: nat, q: seq<Thunk>, fuel: nat, vars: nat)
    returns (n: nat, c': Config)
    requires Starts(m, c, p, q) && Lies(m.prog[c.rule], c.pc, armed, Plus(x), ko, l)
    requires Closed(Plus(x), |m.env.rules|, vars) && LabelAt(m, c, kp, ko)
    ensures c' == Run(m, n, c)
    ensures Lands(c, c', c.pc + Size(Plus(x)), kp, l, l + Used(Plus(x)), q,
                  Eval(m.env, armed, Plus(x), p, q, fuel), fuel, n)
    decreases fuel, 2, x, 4
  {
    hide Lies, LiesLoop, Run, Step, Resolved, Loaded, Size, Used;
    Open(m.prog[c.rule], c.pc, armed, Plus(x), ko, l);
    Sizes(x);
    var lb, hi := l + 2 + Used(x), l + 2 + 2 * Used(x);
    n, c' := SimNode(m, c, armed, x, ko, kp, l + 2, p, q, fuel, vars);
    var out := Eval(m.env, armed, x, p, q, fuel);
    if out.Ok? {
      EvalForward(m.env, armed, x, p, q, fuel);
      var k, c2 := SimLoop(m, c', armed, x, kp, l, lb, out.pos, out.queue, fuel, vars);
      RunOn(m, n, k, c);
      StarNeverFails(m.env, armed, x, out.pos, out.queue, fuel);
      if !EvalStar(m.env, armed, x, out.pos, out.queue, fuel).Diverge? {
        AgreeTrans(c.slots, c'.slots, c2.slots, l + 2, lb, l, hi, l, hi);
      }
      n, c' := n + k, c2;
    }
  }

  // ----- the theorems -----

  /** The machine as it stands when rule `r` is entered from outside. */
  function Entry(r: nat, g: Regs): Config { Running(r, 0, map[], Empty, g) }

  ghost predicate Matches(env: Env, r: nat, p: nat, q: seq<Thunk>, out: Outcome) {
    !out.Diverge? && exists fuel: nat :: EvalRule(env, r, p, q, fuel) == out
  }

  ghost predicate HaltsAt(m: Machine, c: Config, g': Regs, result: bool) {
    exists n: nat :: Run(m, n, c) == Halted(result, g')
  }

  /** One run per fuel: it halts with the outcome, or is still running after that many steps. */
  lemma RuleRun(m: Machine, r: nat, g: Regs, p: nat, q: seq<Thunk>, fuel: nat) returns (n: nat, c': Config)
    requires Ready(m) && r < |m.env.rules| && At(g, p, q) && p <= |m.env.input|
    ensures c' == Run(m, n, Entry(r, g))
    ensures match EvalRule(m.env, r, p, q, fuel)
            case Ok(p', q') => c'.Halted? && c'.result && At(c'.g, p', q')
            case Fail => c'.Halted? && !c'.result && At(c'.g, p, q)
            case Diverge => c'.Running? && n + 1 >= fuel
  {
    var c := Entry(r, g);
    ReadyLoaded(m);
    if fuel == 0 {
      n, c' := 0, c;
    } else {
      n, c' := SimRule(m, c, r, p, q, fuel);
      if !EvalRule(m.env, r, p, q, fuel).Diverge? {
        Then(m, n, c);
        n, c' := n + 1, Step(m, c');
      }
    }
  }

  /** Whatever a halting run ends with is what the grammar says. */
  lemma HaltMeans(m: Machine, r: nat, g: Regs, p: nat, q: seq<Thunk>, g': Regs, result: bool) returns (out: Outcome)
    requires Ready(m) && r < |m.env.rules| && At(g, p, q) && p <= |m.env.input|
    requires HaltsAt(m, Entry(r, g), g', result)
    ensures Matches(m.env, r, p, q, out)
    ensures if result then out.Ok? && At(g', out.pos, out.queue) else out.Fail? && At(g', p, q)
  {
    var c := Entry(r, g);
    var n: nat :| Run(m, n, c) == Halted(result, g');
    var fuel := n + 2;
    out := EvalRule(m.env, r, p, q, fuel);
    var k, c' := RuleRun(m, r, g, p, q, fuel);
    if k >= n {
      RunOn(m, n, k - n, c);
      HaltStays(m, k - n, Halted(result, g'));
    } else {
      RunOn(m, k, n - k, c);
      HaltStays(m, n - k, c');
    }
  }

  /** The emitted function of a rule returns 1 at (p', q') exactly when the rule matches
      there with that queue of actions, and returns 0 exactly when the rule fails; and a
      function returning 0 has put position and queue back. */
  lemma CompilerCorrect(m: Machine, r: nat, g: Regs, p: nat, q: seq<Thunk>)
    requires Ready(m) && r < |m.env.rules| && At(g, p, q) && p <= |m.env.input|
    ensures forall p': nat, q': seq<Thunk> :: Matches(m.env, r, p, q, Ok(p', q'))
              <==> exists g': Regs :: HaltsAt(m, Entry(r, g), g', true) && At(g', p', q')
    ensures Matches(m.env, r, p, q, Fail) <==> exists g': Regs :: HaltsAt(m, Entry(r, g), g', false)
    ensures forall g': Regs :: HaltsAt(m, Entry(r, g), g', false) ==> At(g', p, q)
  {
    var c := Entry(r, g);
    forall p': nat, q': seq<Thunk>
      ensures Matches(m.env, r, p, q, Ok(p', q')) <==> exists g': Regs :: HaltsAt(m, c, g', true) && At(g', p', q')
    {
      if Matches(m.env, r, p, q, Ok(p', q')) {
        var fuel: nat :| EvalRule(m.env, r, p, q, fuel) == Ok(p', q');
        var n, c' := RuleRun(m, r, g, p, q, fuel);
        assert HaltsAt(m, c, c'.g, true);
      }
      if exists g': Regs :: HaltsAt(m, c, g', true) && At(g', p', q') {
        var g': Regs :| HaltsAt(m, c, g', true) && At(g', p', q');
        var out := HaltMeans(m, r, g, p, q, g', true);
      }
    }
    if Matches(m.env, r, p, q, Fail) {
      var fuel: nat :| EvalRule(m.env, r, p, q, fuel) == Fail;
      var n, c' := RuleRun(m, r, g, p, q, fuel);
      assert HaltsAt(m, c, c'.g, false);
    }
    forall g': Regs | HaltsAt(m, c, g', false)
      ensures At(g', p, q) && Matches(m.env, r, p, q, Fail)
    {
      var out := HaltMeans(m, r, g, p, q, g', false);
    }
  }

  /** Emitted code is never stuck: every restore finds its mark, every jump its label. */
  lemma NeverStuck(m: Machine, r: nat, g: Regs, p: nat, q: seq<Thunk>, n: nat)
    requires Ready(m) && r < |m.env.rules| && At(g, p, q) && p <= |m.env.input|
    ensures Run(m, n, Entry(r, g)) != Stuck
  {
    var c := Entry(r, g);
    var k, c' := RuleRun(m, r, g, p, q, n + 1);
    if k >= n {
      RunOn(m, n, k - n, c);
      if Run(m, n, c) == Stuck { HaltStays(m, k - n, Stuck); }
    } else {
      RunOn(m, k, n - k, c);
      HaltStays(m, n - k, c');
    }
  }
}
