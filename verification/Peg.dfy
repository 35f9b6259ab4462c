/** Grammar trees of the greg parser generator and what they mean.

    A parse reads bytes from a fixed input and queues actions.  Matching is
    defined by a fuel-indexed evaluator: every call of a rule and every
    iteration of a repetition spends one unit, and a run that needs more than it
    has been given is `Diverge`.  A grammar that recurses on its left, or repeats
    something that matches the empty string, diverges at every fuel. */
module Peg {
  import opened Common

  type Byte = b: int | 0 <= b < 256

  /** `variable` is a position in the variable list of the rule that contains the name. */
  datatype Node =
    | Dot
    | Name(rule: nat, variable: Option<nat>)
    | Literal(text: seq<Byte>)
    | Class(members: set<Byte>)
    | Action(action: nat)
    | Predicate(predicate_: nat)
    | Alternate(alternatives: Nodes)
    | Sequence(items: Nodes)
    | PeekFor(element: Node)
    | PeekNot(element: Node)
    | Query(element: Node)
    | Star(element: Node)
    | Plus(element: Node)

  /** The sibling chain of an Alternate or a Sequence: never empty. */
  datatype Nodes = Last(node: Node) | More(node: Node, rest: Nodes)

  datatype Rule = Rule(variables: nat, expression: Node)

  /** A queued entry: a user action, or one of the three frame operations. */
  datatype Thunk = Act(action: nat) | Push(count: nat) | Pop(count: nat) | Set(offset: int, variable: nat)

  /** Predicates are user code; here an arbitrary test of the position. */
  datatype Env = Env(rules: seq<Rule>, input: seq<Byte>, holds: (nat, nat) -> bool)

  datatype Outcome = Ok(pos: nat, queue: seq<Thunk>) | Fail | Diverge

  // ----- static facts about nodes -----

  predicate HasAction(node: Node) {
    match node
    case Action(_) => true
    case Alternate(ns) => AnyAction(ns)
    case Sequence(ns) => AnyAction(ns)
    case PeekFor(e) => HasAction(e)
    case PeekNot(e) => HasAction(e)
    case Query(e) => HasAction(e)
    case Star(e) => HasAction(e)
    case Plus(e) => HasAction(e)
    case _ => false
  }

  predicate AnyAction(ns: Nodes) {
    HasAction(ns.node) || (ns.More? && AnyAction(ns.rest))
  }

  /** Every name refers to one of `rules` rules and every variable to one of `vars` variables. */
  predicate Closed(node: Node, rules: nat, vars: nat) {
    match node
    case Name(r, v) => r < rules && (v.Some? ==> v.value < vars)
    case Alternate(ns) => AllClosed(ns, rules, vars)
    case Sequence(ns) => AllClosed(ns, rules, vars)
    case PeekFor(e) => Closed(e, rules, vars)
    case PeekNot(e) => Closed(e, rules, vars)
    case Query(e) => Closed(e, rules, vars)
    case Star(e) => Closed(e, rules, vars)
    case Plus(e) => Closed(e, rules, vars)
    case _ => true
  }

  predicate AllClosed(ns: Nodes, rules: nat, vars: nat) {
    Closed(ns.node, rules, vars) && (ns.More? ==> AllClosed(ns.rest, rules, vars))
  }

  /** Every rule that is used is defined (an undefined one has no function to call). */
  predicate WellFormed(rules: seq<Rule>) {
    forall r | 0 <= r < |rules| :: Closed(rules[r].expression, |rules|, rules[r].variables)
  }

  /** Variable offsets are assigned while the rule's actions are printed, so a rule
      with no action leaves every offset at its initial 0. */
  function Offset(armed: bool, variable: nat): int {
    if armed then -1 - variable else 0
  }

  function SetThunks(armed: bool, variable: Option<nat>): seq<Thunk> {
    if variable.Some? then [Set(Offset(armed, variable.value), variable.value)] else []
  }

  function PushThunks(vars: nat): seq<Thunk> { if vars > 0 then [Push(vars)] else [] }

  function PopThunks(vars: nat): seq<Thunk> { if vars > 0 then [Pop(vars)] else [] }

  // ----- meaning -----

  predicate AtPrefix(input: seq<Byte>, p: nat, text: seq<Byte>) {
    p + |text| <= |input| && input[p..p + |text|] == text
  }

  /** `armed` says whether the rule containing `node` has an action. */
  ghost function Eval(env: Env, armed: bool, node: Node, p: nat, q: seq<Thunk>, fuel: nat): Outcome
    decreases fuel, 1, node, 0
  {
    match node
    case Dot => if p < |env.input| then Ok(p + 1, q) else Fail
    case Literal(s) => if AtPrefix(env.input, p, s) then Ok(p + |s|, q) else Fail
    case Class(cs) => if p < |env.input| && env.input[p] in cs then Ok(p + 1, q) else Fail
    case Action(a) => Ok(p, q + [Act(a)])
    case Predicate(k) => if env.holds(k, p) then Ok(p, q) else Fail
    case Name(r, v) =>
      (match EvalRule(env, r, p, q, fuel)
       case Ok(p', q') => Ok(p', q' + SetThunks(armed, v))
       case other => other)
    case Alternate(ns) => EvalAny(env, armed, ns, p, q, fuel)
    case Sequence(ns) => EvalAll(env, armed, ns, p, q, fuel)
    case PeekFor(e) =>
      (match Eval(env, armed, e, p, q, fuel)
       case Ok(_, _) => Ok(p, q)
       case other => other)
    case PeekNot(e) =>
      (match Eval(env, armed, e, p, q, fuel)
       case Ok(_, _) => Fail
       case Fail => Ok(p, q)
       case Diverge => Diverge)
    case Query(e) =>
      (match Eval(env, armed, e, p, q, fuel)
       case Fail => Ok(p, q)
       case other => other)
    case Star(e) => EvalStar(env, armed, e, p, q, fuel)
    case Plus(e) =>
      (match Eval(env, armed, e, p, q, fuel)
       case Ok(p', q') => EvalStar(env, armed, e, p', q', fuel)
       case other => other)
  }

  /** Ordered choice: each alternative starts afresh from the same position and queue. */
  ghost function EvalAny(env: Env, armed: bool, ns: Nodes, p: nat, q: seq<Thunk>, fuel: nat): Outcome
    decreases fuel, 1, ns, 0
  {
    match Eval(env, armed, ns.node, p, q, fuel)
    case Fail => if ns.More? then EvalAny(env, armed, ns.rest, p, q, fuel) else Fail
    case other => other
  }

  ghost function EvalAll(env: Env, armed: bool, ns: Nodes, p: nat, q: seq<Thunk>, fuel: nat): Outcome
    decreases fuel, 1, ns, 0
  {
    match Eval(env, armed, ns.node, p, q, fuel)
    case Ok(p', q') => if ns.More? then EvalAll(env, armed, ns.rest, p', q', fuel) else Ok(p', q')
    case other => other
  }

  /** As many matches of `e` as possible, never given back. */
  ghost function EvalStar(env: Env, armed: bool, e: Node, p: nat, q: seq<Thunk>, fuel: nat): Outcome
    decreases fuel, 1, e, 1
  {
    if fuel == 0 then Diverge else
    match Eval(env, armed, e, p, q, fuel)
    case Ok(p', q') => EvalStar(env, armed, e, p', q', fuel - 1)
    case Fail => Ok(p, q)
    case Diverge => Diverge
  }

  ghost function EvalRule(env: Env, r: nat, p: nat, q: seq<Thunk>, fuel: nat): Outcome
    decreases fuel, 0
  {
    if fuel == 0 || r >= |env.rules| then Diverge else
    var rule := env.rules[r];
    match Eval(env, HasAction(rule.expression), rule.expression, p, q + PushThunks(rule.variables), fuel - 1)
    case Ok(p', q') => Ok(p', q' + PopThunks(rule.variables))
    case other => other
  }

  // ----- a match moves forward and only appends to the queue -----

  ghost predicate Forward(env: Env, p: nat, q: seq<Thunk>, out: Outcome) {
    out.Ok? ==> p <= out.pos && (p <= |env.input| ==> out.pos <= |env.input|) && q <= out.queue
  }

  lemma {:induction false} EvalForward(env: Env, armed: bool, node: Node, p: nat, q: seq<Thunk>, fuel: nat)
    ensures Forward(env, p, q, Eval(env, armed, node, p, q, fuel))
    decreases fuel, 1, node, 0
  {
    match node
    case Name(r, v) => RuleForward(env, r, p, q, fuel);
    case Alternate(ns) => AnyForward(env, armed, ns, p, q, fuel);
    case Sequence(ns) => AllForward(env, armed, ns, p, q, fuel);
    case Query(e) => EvalForward(env, armed, e, p, q, fuel);
    case Star(e) => StarForward(env, armed, e, p, q, fuel);
    case Plus(e) =>
      EvalForward(env, armed, e, p, q, fuel);
      var out := Eval(env, armed, e, p, q, fuel);
      if out.Ok? { StarForward(env, armed, e, out.pos, out.queue, fuel); }
    case _ =>
  }

  lemma {:induction false} AnyForward(env: Env, armed: bool, ns: Nodes, p: nat, q: seq<Thunk>, fuel: nat)
    ensures Forward(env, p, q, EvalAny(env, armed, ns, p, q, fuel))
    decreases fuel, 1, ns, 0
  {
    EvalForward(env, armed, ns.node, p, q, fuel);
    if ns.More? { AnyForward(env, armed, ns.rest, p, q, fuel); }
  }

  lemma {:induction false} AllForward(env: Env, armed: bool, ns: Nodes, p: nat, q: seq<Thunk>, fuel: nat)
    ensures Forward(env, p, q, EvalAll(env, armed, ns, p, q, fuel))
    decreases fuel, 1, ns, 0
  {
    EvalForward(env, armed, ns.node, p, q, fuel);
    var out := Eval(env, armed, ns.node, p, q, fuel);
    if out.Ok? && ns.More? { AllForward(env, armed, ns.rest, out.pos, out.queue, fuel); }
  }

  lemma {:induction false} StarForward(env: Env, armed: bool, e: Node, p: nat, q: seq<Thunk>, fuel: nat)
    ensures Forward(env, p, q, EvalStar(env, armed, e, p, q, fuel))
    decreases fuel, 1, e, 1
  {
    if fuel > 0 {
      EvalForward(env, armed, e, p, q, fuel);
      var out := Eval(env, armed, e, p, q, fuel);
      if out.Ok? { StarForward(env, armed, e, out.pos, out.queue, fuel - 1); }
    }
  }

  lemma {:induction false} RuleForward(env: Env, r: nat, p: nat, q: seq<Thunk>, fuel: nat)
    ensures Forward(env, p, q, EvalRule(env, r, p, q, fuel))
    decreases fuel, 0
  {
    if fuel > 0 && r < |env.rules| {
      var rule := env.rules[r];
      EvalForward(env, HasAction(rule.expression), rule.expression, p, q + PushThunks(rule.variables), fuel - 1);
    }
  }
}
