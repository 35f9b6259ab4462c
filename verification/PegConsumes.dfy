/** The test greg runs on every rule to see whether it must consume input. */
module PegConsumes {
  import opened Common
  import opened Peg

  /** What the recursion uses up: the rules not yet under examination. */
  ghost function Unreached(rules: seq<Rule>, reached: set<nat>): set<nat> {
    Below(|rules|) - reached
  }

  /** `reached` is the set of rules flagged as being under examination: a flag is set for
      the time its rule's expression is looked at. */
  ghost predicate Consumes(rules: seq<Rule>, node: Node, reached: set<nat>)
    decreases Unreached(rules, reached), 1, node
  {
    match node
    case Dot => true
    case Name(r, _) => RuleConsumes(rules, r, reached)
    case Literal(s) => |s| > 0
    case Class(_) => true
    case Alternate(ns) => AllConsume(rules, ns, reached)
    case Sequence(ns) => AnyConsumes(rules, ns, reached)
    case Plus(e) => Consumes(rules, e, reached)
    case _ => false
  }

  ghost predicate RuleConsumes(rules: seq<Rule>, r: nat, reached: set<nat>)
    decreases Unreached(rules, reached), 0
  {
    r < |rules| && r !in reached &&
    (assert r in Unreached(rules, reached) && r !in Unreached(rules, reached + {r});
     Consumes(rules, rules[r].expression, reached + {r}))
  }

  ghost predicate AllConsume(rules: seq<Rule>, ns: Nodes, reached: set<nat>)
    decreases Unreached(rules, reached), 1, ns
  {
    Consumes(rules, ns.node, reached) && (ns.More? ==> AllConsume(rules, ns.rest, reached))
  }

  ghost predicate AnyConsumes(rules: seq<Rule>, ns: Nodes, reached: set<nat>)
    decreases Unreached(rules, reached), 1, ns
  {
    Consumes(rules, ns.node, reached) || (ns.More? && AnyConsumes(rules, ns.rest, reached))
  }

  /** If the answer is yes, every successful match moves the position forward, whatever
      rules were flagged, also in mutually recursive grammars. */
  lemma {:induction false} ConsumesSound(env: Env, armed: bool, node: Node, reached: set<nat>,
                                         p: nat, q: seq<Thunk>, fuel: nat)
    requires Consumes(env.rules, node, reached)
    ensures var out := Eval(env, armed, node, p, q, fuel); out.Ok? ==> p < out.pos
    decreases fuel, 1, node
  {
    match node
    case Name(r, v) => RuleConsumesSound(env, r, reached, p, q, fuel);
    case Alternate(ns) => AllConsumeSound(env, armed, ns, reached, p, q, fuel);
    case Sequence(ns) => AnyConsumesSound(env, armed, ns, reached, p, q, fuel);
    case Plus(e) =>
      ConsumesSound(env, armed, e, reached, p, q, fuel);
      var out := Eval(env, armed, e, p, q, fuel);
      if out.Ok? { StarForward(env, armed, e, out.pos, out.queue, fuel); }
    case _ =>
  }

  lemma {:induction false} RuleConsumesSound(env: Env, r: nat, reached: set<nat>, p: nat, q: seq<Thunk>, fuel: nat)
    requires RuleConsumes(env.rules, r, reached)
    ensures var out := EvalRule(env, r, p, q, fuel); out.Ok? ==> p < out.pos
    decreases fuel, 0
  {
    if fuel > 0 {
      var rule := env.rules[r];
      ConsumesSound(env, HasAction(rule.expression), rule.expression, reached + {r},
                    p, q + PushThunks(rule.variables), fuel - 1);
    }
  }

  lemma {:induction false} AllConsumeSound(env: Env, armed: bool, ns: Nodes, reached: set<nat>,
                                           p: nat, q: seq<Thunk>, fuel: nat)
    requires AllConsume(env.rules, ns, reached)
    ensures var out := EvalAny(env, armed, ns, p, q, fuel); out.Ok? ==> p < out.pos
    decreases fuel, 1, ns
  {
    ConsumesSound(env, armed, ns.node, reached, p, q, fuel);
    if ns.More? { AllConsumeSound(env, armed, ns.rest, reached, p, q, fuel); }
  }

  lemma {:induction false} AnyConsumesSound(env: Env, armed: bool, ns: Nodes, reached: set<nat>,
                                            p: nat, q: seq<Thunk>, fuel: nat)
    requires AnyConsumes(env.rules, ns, reached)
    ensures var out := EvalAll(env, armed, ns, p, q, fuel); out.Ok? ==> p < out.pos
    decreases fuel, 1, ns
  {
    EvalForward(env, armed, ns.node, p, q, fuel);
    var out := Eval(env, armed, ns.node, p, q, fuel);
    if Consumes(env.rules, ns.node, reached) { ConsumesSound(env, armed, ns.node, reached, p, q, fuel); }
    if out.Ok? && ns.More? {
      AllForward(env, armed, ns.rest, out.pos, out.queue, fuel);
      if AnyConsumes(env.rules, ns.rest, reached) {
        AnyConsumesSound(env, armed, ns.rest, reached, out.pos, out.queue, fuel);
      }
    }
  }

  // ----- what an answer of 0 means -----

  /** A derivation, at most n rules deep, that consumes nothing: predicates and lookahead may hold, an option
      or a repetition may match nothing, and a rule in `stop` or on the way to itself counts as reached. */
  ghost predicate Vanishes(rules: seq<Rule>, node: Node, stop: set<nat>, n: nat)
    decreases n, node
  {
    match node
    case Dot => false
    case Class(_) => false
    case Literal(s) => s == []
    case Name(r, _) => r >= |rules| || r in stop || (n > 0 && Vanishes(rules, rules[r].expression, stop + {r}, n - 1))
    case Alternate(ns) => AnyVanishes(rules, ns, stop, n)
    case Sequence(ns) => AllVanish(rules, ns, stop, n)
    case Plus(e) => Vanishes(rules, e, stop, n)
    case _ => true
  }

  ghost predicate AnyVanishes(rules: seq<Rule>, ns: Nodes, stop: set<nat>, n: nat)
    decreases n, ns
  {
    Vanishes(rules, ns.node, stop, n) || (ns.More? && AnyVanishes(rules, ns.rest, stop, n))
  }

  ghost predicate AllVanish(rules: seq<Rule>, ns: Nodes, stop: set<nat>, n: nat)
    decreases n, ns
  {
    Vanishes(rules, ns.node, stop, n) && (ns.More? ==> AllVanish(rules, ns.rest, stop, n))
  }

  /** The answer is 0 exactly when there is such a derivation, and then there is one no deeper than the
      rules not yet under examination; so the answer is 1 exactly when there is none of any depth. */
  lemma {:induction false} ConsumesExact(rules: seq<Rule>, node: Node, reached: set<nat>, n: nat)
    ensures Consumes(rules, node, reached) ==> !Vanishes(rules, node, reached, n)
    ensures !Consumes(rules, node, reached) ==> Vanishes(rules, node, reached, |Unreached(rules, reached)|)
    decreases Unreached(rules, reached), 1, node
  {
    match node
    case Name(r, _) => RuleExact(rules, r, reached, n);
    case Alternate(ns) => ListExact(rules, ns, reached, n);
    case Sequence(ns) => ListExact(rules, ns, reached, n);
    case Plus(e) => ConsumesExact(rules, e, reached, n);
    case _ =>
  }

  lemma {:induction false} RuleExact(rules: seq<Rule>, r: nat, reached: set<nat>, n: nat)
    ensures RuleConsumes(rules, r, reached) ==> !Vanishes(rules, Name(r, None), reached, n)
    ensures !RuleConsumes(rules, r, reached) ==> Vanishes(rules, Name(r, None), reached, |Unreached(rules, reached)|)
    decreases Unreached(rules, reached), 0
  {
    if r < |rules| && r !in reached {
      var rest := Unreached(rules, reached + {r});
      assert Unreached(rules, reached) == rest + {r} && r !in rest;
      ConsumesExact(rules, rules[r].expression, reached + {r}, if n > 0 then n - 1 else 0);
    }
  }

  lemma {:induction false} ListExact(rules: seq<Rule>, ns: Nodes, reached: set<nat>, n: nat)
    ensures AllConsume(rules, ns, reached) ==> !AnyVanishes(rules, ns, reached, n)
    ensures !AllConsume(rules, ns, reached) ==> AnyVanishes(rules, ns, reached, |Unreached(rules, reached)|)
    ensures AnyConsumes(rules, ns, reached) ==> !AllVanish(rules, ns, reached, n)
    ensures !AnyConsumes(rules, ns, reached) ==> AllVanish(rules, ns, reached, |Unreached(rules, reached)|)
    decreases Unreached(rules, reached), 1, ns
  {
    ConsumesExact(rules, ns.node, reached, n);
    if ns.More? { ListExact(rules, ns.rest, reached, n); }
  }
}
