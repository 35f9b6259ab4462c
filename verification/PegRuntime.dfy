/** Emitted code on the buffered matcher.  The machine of `PegMachine` looks at the whole input; here
    each of its steps is carried out on the buffer, which knows only what it has read so far. */
module PegRuntime {
  import opened Common
  import opened PegActions
  import opened Peg
  import opened PegCompiler
  import opened PegLayout
  import opened PegMatch
  import opened PegMachine
  import opened PegBuffer

  /** Saved positions lie in the part of the input that is in the buffer. */
  ghost predicate Buffered(slots: map<nat, Mark>, lo: nat, hi: nat) {
    forall n | n in slots :: lo <= slots[n].pos <= hi
  }

  ghost predicate StackBuffered(stack: Stack, lo: nat, hi: nat) {
    match stack
    case Empty => true
    case Frame(_, _, slots, below) => Buffered(slots, lo, hi) && StackBuffered(below, lo, hi)
  }

  lemma {:induction false} StackStays(stack: Stack, lo: nat, hi: nat, hi': nat)
    requires StackBuffered(stack, lo, hi) && hi <= hi'
    ensures StackBuffered(stack, lo, hi')
    decreases stack
  {
    if stack.Frame? { StackStays(stack.below, lo, hi, hi'); }
  }

  /** The configuration's position is the buffer's, and it can go back wherever it may want to. */
  ghost predicate InStep(c: Config, at: nat, lo: nat, hi: nat) {
    match c
    case Running(_, _, slots, stack, g) => g.pos == at && Buffered(slots, lo, hi) && StackBuffered(stack, lo, hi)
    case Halted(_, g) => g.pos == at
    case Stuck => true
  }

  lemma StaysInStep(c: Config, at: nat, lo: nat, hi: nat, hi': nat)
    requires c.Running? && InStep(c, at, lo, hi) && hi <= hi'
    ensures Buffered(c.slots, lo, hi') && StackBuffered(c.stack, lo, hi')
  {
    StackStays(c.stack, lo, hi, hi');
  }

  /** The place of a label. */
  method FindLabel(code: seq<Instr>, id: nat) returns (i: nat)
    requires Resolved(code)
    ensures i == Find(code, id)
  {
    i := 0;
    while i < |code|
      invariant i <= |code| && forall k | 0 <= k < i :: code[k] != Label(id)
    {
      if code[i] == Label(id) { return; }
      i := i + 1;
    }
  }

  /** The four tests, on the buffer. */
  method TestOn(g: Greg, i: Instr, env: Env) returns (hit: Hit)
    requires g.Valid() && g.input == env.input && IsTest(i)
    modifies g, g.buf
    ensures g.Valid() && (g.buf == old(g.buf) || fresh(g.buf)) && g.offset == old(g.offset) && g.read >= old(g.read)
    ensures hit == Tested(env, i, old(g.At())) && hit.pos == g.At()
  {
    var ok;
    match i {
      case MatchDot(_) => ok := g.YyMatchDot();
      case MatchChar(x, _) => ok := g.YyMatchChar(x);
      case MatchString(s, _) => ok := g.YyMatchString(s);
      case MatchClass(cs, _) => ok := g.YyMatchClass(cs);
      case Test(k, _) => ok := env.holds(k, g.offset + g.pos);
    }
    hit := Hit(ok, g.offset + g.pos);
  }

  predicate IsTest(i: Instr) { i.MatchDot? || i.MatchChar? || i.MatchString? || i.MatchClass? || i.Test? }

  /** The same tests on the whole input. */
  ghost function Tested(env: Env, i: Instr, p: nat): Hit
    requires IsTest(i)
  {
    match i
    case MatchDot(_) => DotAt(env.input, p)
    case MatchChar(x, _) => CharAt(env.input, p, x)
    case MatchString(s, _) => StringAt(env.input, p, p, s)
    case MatchClass(cs, _) => ClassAt(env.input, p, cs)
    case Test(k, _) => Hit(env.holds(k, p), p)
  }

  ghost predicate Labelled(m: Machine) {
    forall r | 0 <= r < |m.prog| :: Resolved(m.prog[r])
  }

  /** One step on the buffer is one step on the whole input. */
  method StepOn(m: Machine, g: Greg, c: Config) returns (c': Config)
    requires g.Valid() && g.input == m.env.input && Labelled(m) && InStep(c, g.At(), g.offset, g.read)
    modifies g, g.buf
    ensures g.Valid() && (g.buf == old(g.buf) || fresh(g.buf)) && g.offset == old(g.offset)
    ensures c' == Step(m, c) && InStep(c', g.At(), g.offset, g.read)
  {
    hide Find, StringAt, Resolved;
    if !c.Running? { return c; }
    if c.rule >= |m.prog| || c.pc >= |m.prog[c.rule]| { return Stuck; }
    var i := m.prog[c.rule][c.pc];
    if IsTest(i) {
      c' := BranchOn(m, g, c);
    } else {
      match i
      case Label(_) => c' := c.(pc := c.pc + 1);
      case Goto(t) =>
        var pc := FindLabel(m.prog[c.rule], t);
        c' := c.(pc := pc);
      case Save(n) => c' := c.(pc := c.pc + 1, slots := c.slots[n := Mark(g.offset + g.pos, c.g.thunkpos)]);
      case Restore(n) =>
        if n !in c.slots { return Stuck; }
        g.Reset(c.slots[n].pos - g.offset);
        c' := c.(pc := c.pc + 1, g := c.g.(pos := g.offset + g.pos, thunkpos := c.slots[n].thunkpos));
      case Call(r, _) => c' := Running(r, 0, map[], Frame(c.rule, c.pc, c.slots, c.stack), c.g);
      case Do(t) => c' := c.(pc := c.pc + 1, g := Enqueue(c.g, t));
      case Return(b) => c' := LeaveOn(m, g, c, b);
    }
  }

  method BranchOn(m: Machine, g: Greg, c: Config) returns (c': Config)
    requires g.Valid() && g.input == m.env.input && Labelled(m) && InStep(c, g.At(), g.offset, g.read)
    requires c.Running? && c.rule < |m.prog| && c.pc < |m.prog[c.rule]| && IsTest(m.prog[c.rule][c.pc])
    modifies g, g.buf
    ensures g.Valid() && (g.buf == old(g.buf) || fresh(g.buf)) && g.offset == old(g.offset)
    ensures c' == Step(m, c) && InStep(c', g.At(), g.offset, g.read)
  {
    hide Find, StringAt, Resolved, StackBuffered;
    var i := m.prog[c.rule][c.pc];
    var hit := TestOn(g, i, m.env);
    StaysInStep(c, c.g.pos, g.offset, old(g.read), g.read);
    var pc := c.pc + 1;
    if !hit.ok { pc := FindLabel(m.prog[c.rule], i.ko); }
    c' := Running(c.rule, pc, c.slots, c.stack, c.g.(pos := hit.pos));
  }

  method LeaveOn(m: Machine, g: Greg, c: Config, result: bool) returns (c': Config)
    requires g.Valid() && Labelled(m) && c.Running? && InStep(c, g.At(), g.offset, g.read)
    ensures c' == Leave(m, c, result) && InStep(c', g.At(), g.offset, g.read)
  {
    hide Find, Resolved;
    match c.stack
    case Empty => c' := Halted(result, c.g);
    case Frame(r, pc, slots, below) =>
      if r >= |m.prog| || pc >= |m.prog[r]| || !m.prog[r][pc].Call? { return Stuck; }
      var pc' := pc + 1;
      if !result { pc' := FindLabel(m.prog[r], m.prog[r][pc].ko); }
      c' := Running(r, pc', slots, below, c.g);
  }

  /** A rule's function called on the buffer, for n steps: exactly what it does on the whole input.
      So `CompilerCorrect` holds of it. */
  method CallOn(m: Machine, g: Greg, r: nat, n: nat) returns (c: Config)
    requires g.Valid() && g.input == m.env.input && Labelled(m)
    modifies g, g.buf
    ensures g.Valid() && g.offset == old(g.offset)
    ensures c == Run(m, n, Entry(r, Regs(old(g.At()), [], 0)))
    ensures c.Halted? ==> c.g.pos == g.At() && g.thunkpos == c.g.thunkpos
    ensures g.buf == old(g.buf) || fresh(g.buf)
  {
    hide Step, InStep;
    c := Entry(r, Regs(g.offset + g.pos, [], 0));
    ghost var start := c;
    EntryInStep(r, g.At(), g.offset, g.read);
    for k := 0 to n
      invariant g.Valid() && (g.buf == old(g.buf) || fresh(g.buf)) && g.offset == old(g.offset)
      invariant c == Run(m, k, start) && InStep(c, g.At(), g.offset, g.read)
    {
      Then(m, k, start);
      c := StepOn(m, g, c);
    }
    HaltedInStep(c, g.At(), g.offset, g.read);
    if c.Halted? { g.thunkpos := c.g.thunkpos; }
  }

  lemma EntryInStep(r: nat, at: nat, lo: nat, hi: nat)
    ensures InStep(Entry(r, Regs(at, [], 0)), at, lo, hi)
  {
  }

  lemma HaltedInStep(c: Config, at: nat, lo: nat, hi: nat)
    requires InStep(c, at, lo, hi)
    ensures c.Halted? ==> c.g.pos == at
  {
  }

  /** Compiled grammars are such machines. */
  lemma ReadyLabelled(m: Machine)
    requires Ready(m)
    ensures Labelled(m)
  {
    hide Resolved;
    ReadyLoaded(m);
    ProgramSize(m.env.rules, 1);
    forall r | 0 <= r < |m.prog| ensures Resolved(m.prog[r]) { assert Laid(m, r); }
  }

  // ----- a whole parse -----

  /** One parse from rule `r`, given up if it has not ended after n steps: where the rule matches, the
      queued actions are run, each seeing the variables of its rule, and what was matched is dropped, so
      that the next parse begins behind it;
      where it fails, the next parse begins at the same place.  `out` is what the grammar says. */
  method ParseFrom(m: Machine, g: Greg, vs: ValueStack, r: nat, n: nat, ss: nat -> int)
    returns (ok: Option<bool>, inside: bool, views: map<nat, seq<int>>, ghost out: Outcome)
    requires Ready(m) && r < |m.env.rules| && g.Valid() && g.input == m.env.input
    requires vs.Valid() && vs.vals as object != g.buf && vs.val == 0
    modifies g, g.buf, vs, vs.vals
    ensures g.Valid() && vs.Valid() && vs.val == 0
    ensures ok.None? ==> Run(m, n, Entry(r, Regs(old(g.offset), [], 0))).Running?
    ensures ok.Some? ==> Matches(m.env, r, old(g.offset), [], out) && g.pos == 0 && g.thunkpos == 0
    ensures ok == Some(false) ==> out.Fail? && g.offset == old(g.offset)
    ensures ok == Some(true) ==> out.Ok? && g.offset == out.pos && (!AnyZero(out.queue) ==> inside)
    ensures ok == Some(true) && inside ==>
              var stores := Stores(out.queue, ss, 0, 0, map[]);
              forall i | i in stores :: 0 <= i < vs.vals.Length && vs.vals[i] == stores[i]
    ensures ok == Some(true) && inside ==>
              forall k | 0 <= k < |out.queue| && out.queue[k].Act? :: k in views && Shows(out.queue, ss, k, views[k])
  {
    hide Ready, Run, Step, Matches, Frames, Stores, Shows;
    ok, inside, views, out := None, true, map[], Diverge;
    g.Reset(0);
    g.YyBegin();
    g.YyEnd();
    ghost var start := g.offset;
    ReadyLabelled(m);
    var c := CallOn(m, g, r, n);
    NeverStuck(m, r, Regs(start, [], 0), start, [], n);
    if c.Halted? {
      HaltsNow(m, Entry(r, Regs(start, [], 0)), n, c);
      out := HaltMeans(m, r, Regs(start, [], 0), start, [], c.g, c.result);
      ok := Some(c.result);
      if c.result {
        MatchNests(m, r, start, out);
        inside, views := vs.YyDone(c.g.thunks[..c.g.thunkpos], ss);
      }
      g.YyCommit();
    }
  }

  lemma HaltsNow(m: Machine, c: Config, n: nat, c': Config)
    requires c' == Run(m, n, c) && c'.Halted?
    ensures HaltsAt(m, c, c'.g, c'.result)
  {
  }

  lemma MatchNests(m: Machine, r: nat, p: nat, out: Outcome)
    requires Ready(m) && Matches(m.env, r, p, [], out) && out.Ok?
    ensures Frames(false, out.queue, []) == Some([])
  {
    var fuel: nat :| EvalRule(m.env, r, p, [], fuel) == out;
    ParseBalanced(m.env, r, p, fuel);
  }
}
