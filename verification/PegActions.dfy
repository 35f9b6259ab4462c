/** The queue of actions a successful parse leaves, and what running it does to
    the semantic value stack.

    A rule with variables queues a push of its frame before its expression and a
    pop after it; `name:rule` queues a store into the current frame.  Backtracking
    throws queued entries away, never in the middle of a frame. */
module PegActions {
  import opened Common
  import opened Peg

  /** Where an action finds variable i of its rule, from the top of the frame: the first variable is just
      below the top. */
  function VarAt(i: nat): int { -1 - i }

  /** Some store is at offset 0. */
  ghost predicate AnyZero(d: seq<Thunk>) { exists k :: 0 <= k < |d| && IsZero(d[k]) }

  predicate IsZero(t: Thunk) { t.Set? && t.offset == 0 }

  /** The open frames after running `d`, innermost last; None when a pop does not match
      the frame it closes or a store misses its variable's place in the innermost frame.  Unless `strict`, a store at
      offset 0, just above the frame, is let pass: that is where the stores of a rule without
      an action go, and of no other. */
  function Frames(strict: bool, d: seq<Thunk>, open: seq<nat>): Option<seq<nat>>
    decreases |d|
  {
    if d == [] then Some(open) else
    match d[0]
    case Act(_) => Frames(strict, d[1..], open)
    case Push(n) => Frames(strict, d[1..], open + [n])
    case Pop(n) =>
      if open != [] && open[|open| - 1] == n then Frames(strict, d[1..], open[..|open| - 1]) else None
    case Set(o, i) =>
      if open != [] && i < open[|open| - 1] && (o == VarAt(i) || (!strict && o == 0)) then Frames(strict, d[1..], open)
      else None
  }

  lemma {:induction false} FramesAppend(strict: bool, d: seq<Thunk>, e: seq<Thunk>, open: seq<nat>)
    ensures Frames(strict, d + e, open)
         == match Frames(strict, d, open) case None => None case Some(o) => Frames(strict, e, o)
    decreases |d|
  {
    if d == [] {
      assert d + e == e;
    } else {
      assert (d + e)[1..] == d[1..] + e;
      match d[0]
      case Act(_) => FramesAppend(strict, d[1..], e, open);
      case Push(n) => FramesAppend(strict, d[1..], e, open + [n]);
      case Pop(n) => if open != [] { FramesAppend(strict, d[1..], e, open[..|open| - 1]); }
      case Set(_, _) => FramesAppend(strict, d[1..], e, open);
    }
  }

  /** `q'` is `q` followed by entries that leave the open frames as they were, whenever
      the innermost of them is the frame of a rule with `vars` variables. */
  ghost predicate Balanced(strict: bool, vars: nat, q: seq<Thunk>, q': seq<Thunk>) {
    exists d: seq<Thunk> {:trigger Neutral(strict, vars, d)} :: q' == q + d && Neutral(strict, vars, d)
  }

  ghost predicate Neutral(strict: bool, vars: nat, d: seq<Thunk>) {
    forall open: seq<nat> | Innermost(open, vars) :: Frames(strict, d, open) == Some(open)
  }

  predicate Innermost(open: seq<nat>, vars: nat) {
    vars > 0 ==> open != [] && open[|open| - 1] == vars
  }

  /** Every rule that has variables has an action, so that its offsets were assigned. */
  ghost predicate Armed(rules: seq<Rule>) {
    forall r | 0 <= r < |rules| :: rules[r].variables > 0 ==> HasAction(rules[r].expression)
  }

  lemma BalancedRefl(strict: bool, vars: nat, q: seq<Thunk>)
    ensures Balanced(strict, vars, q, q)
  {
    assert q == q + [];
    assert Neutral(strict, vars, []);
  }

  lemma BalancedOne(strict: bool, vars: nat, q: seq<Thunk>, t: Thunk)
    requires Neutral(strict, vars, [t])
    ensures Balanced(strict, vars, q, q + [t])
  {
  }

  lemma BalancedTrans(strict: bool, vars: nat, q: seq<Thunk>, q': seq<Thunk>, q'': seq<Thunk>)
    requires Balanced(strict, vars, q, q') && Balanced(strict, vars, q', q'')
    ensures Balanced(strict, vars, q, q'')
  {
    var d: seq<Thunk> :| q' == q + d && Neutral(strict, vars, d);
    var e: seq<Thunk> :| q'' == q' + e && Neutral(strict, vars, e);
    assert q'' == q + (d + e);
    forall open: seq<nat> | Innermost(open, vars) ensures Frames(strict, d + e, open) == Some(open) {
      FramesAppend(strict, d, e, open);
    }
    assert Neutral(strict, vars, d + e);
  }

  /** A rule's entries are neutral inside any frame. */
  lemma FrameNeutral(strict: bool, vars: nat, outer: nat, q: seq<Thunk>, q': seq<Thunk>)
    requires Balanced(strict, vars, q + PushThunks(vars), q')
    ensures Balanced(strict, outer, q, q' + PopThunks(vars))
  {
    var d: seq<Thunk> :| q' == q + PushThunks(vars) + d && Neutral(strict, vars, d);
    var e := PushThunks(vars) + d + PopThunks(vars);
    assert q' + PopThunks(vars) == q + e;
    forall open: seq<nat> | Innermost(open, outer) ensures Frames(strict, e, open) == Some(open) {
      if vars == 0 {
        assert e == d;
      } else {
        var inner := open + [vars];
        assert Innermost(inner, vars);
        FramesAppend(strict, PushThunks(vars) + d, PopThunks(vars), open);
        FramesAppend(strict, PushThunks(vars), d, open);
        assert [Push(vars)][1..] == [] && [Pop(vars)][1..] == [] && inner[..|open|] == open;
      }
    }
    assert Neutral(strict, outer, e);
  }

  /** A store lands where the actions of its rule look for the variable exactly when the rule has an action. */
  lemma SetInsideIffArmed(armed: bool, variable: nat, vars: nat, open: seq<nat>)
    requires variable < vars && Innermost(open, vars)
    ensures Frames(true, [Set(Offset(armed, variable), variable)], open) == Some(open) <==> armed
    ensures Frames(false, [Set(Offset(armed, variable), variable)], open) == Some(open)
  {
    assert [Set(Offset(armed, variable), variable)][1..] == [];
  }

  /** A match of `name:rule` ends with a store for that variable, which goes where the actions of the rule look
      for it if there are any. */
  lemma NameStores(env: Env, armed: bool, r: nat, i: nat, p: nat, q: seq<Thunk>, fuel: nat)
    ensures var out := Eval(env, armed, Name(r, Some(i)), p, q, fuel);
            var plain := Eval(env, armed, Name(r, None), p, q, fuel);
            && (out.Ok? <==> plain.Ok?)
            && (out.Ok? ==> out.pos == plain.pos && out.queue == plain.queue + [Set(if armed then VarAt(i) else 0, i)])
  {
    var out := EvalRule(env, r, p, q, fuel);
    if out.Ok? { assert out.queue + [] == out.queue; }
  }

  // ----- every match queues balanced entries -----

  ghost predicate OutBalanced(strict: bool, vars: nat, q: seq<Thunk>, out: Outcome) {
    out.Ok? ==> Balanced(strict, vars, q, out.queue)
  }

  ghost predicate Fits(env: Env, strict: bool, armed: bool, vars: nat) {
    WellFormed(env.rules) && (strict ==> Armed(env.rules) && (vars > 0 ==> armed))
  }

  lemma {:induction false} EvalBalanced(env: Env, strict: bool, armed: bool, vars: nat, node: Node,
                                        p: nat, q: seq<Thunk>, fuel: nat)
    requires Fits(env, strict, armed, vars) && Closed(node, |env.rules|, vars)
    ensures OutBalanced(strict, vars, q, Eval(env, armed, node, p, q, fuel))
    decreases fuel, 1, node, 0
  {
    hide Balanced;
    BalancedRefl(strict, vars, q);
    match node
    case Name(r, v) => NameBalanced(env, strict, armed, vars, r, v, p, q, fuel);
    case Action(a) =>
      ActNeutral(strict, vars, a);
      BalancedOne(strict, vars, q, Act(a));
    case Alternate(ns) => AnyBalanced(env, strict, armed, vars, ns, p, q, fuel);
    case Sequence(ns) => AllBalanced(env, strict, armed, vars, ns, p, q, fuel);
    case Query(e) => EvalBalanced(env, strict, armed, vars, e, p, q, fuel);
    case Star(e) => StarBalanced(env, strict, armed, vars, e, p, q, fuel);
    case Plus(e) =>
      EvalBalanced(env, strict, armed, vars, e, p, q, fuel);
      var out := Eval(env, armed, e, p, q, fuel);
      if out.Ok? {
        StarBalanced(env, strict, armed, vars, e, out.pos, out.queue, fuel);
        var out' := EvalStar(env, armed, e, out.pos, out.queue, fuel);
        if out'.Ok? { BalancedTrans(strict, vars, q, out.queue, out'.queue); }
      }
    case _ =>
  }

  lemma ActNeutral(strict: bool, vars: nat, a: nat)
    ensures Neutral(strict, vars, [Act(a)])
  {
    assert [Act(a)][1..] == [];
  }

  lemma {:induction false} NameBalanced(env: Env, strict: bool, armed: bool, vars: nat, r: nat, v: Option<nat>,
                                        p: nat, q: seq<Thunk>, fuel: nat)
    requires Fits(env, strict, armed, vars) && Closed(Name(r, v), |env.rules|, vars)
    ensures OutBalanced(strict, vars, q, Eval(env, armed, Name(r, v), p, q, fuel))
    decreases fuel, 0, 1
  {
    hide Balanced;
    RuleBalanced(env, strict, vars, r, p, q, fuel);
    var out := EvalRule(env, r, p, q, fuel);
    if out.Ok? && v.Some? {
      var t := Set(Offset(armed, v.value), v.value);
      forall open: seq<nat> | Innermost(open, vars) ensures Frames(strict, [t], open) == Some(open) {
        SetInsideIffArmed(armed, v.value, vars, open);
      }
      BalancedOne(strict, vars, out.queue, t);
      BalancedTrans(strict, vars, q, out.queue, out.queue + [t]);
    } else if out.Ok? {
      assert out.queue + [] == out.queue;
    }
  }

  lemma {:induction false} AnyBalanced(env: Env, strict: bool, armed: bool, vars: nat, ns: Nodes,
                                       p: nat, q: seq<Thunk>, fuel: nat)
    requires Fits(env, strict, armed, vars) && AllClosed(ns, |env.rules|, vars)
    ensures OutBalanced(strict, vars, q, EvalAny(env, armed, ns, p, q, fuel))
    decreases fuel, 1, ns, 0
  {
    hide Balanced;
    EvalBalanced(env, strict, armed, vars, ns.node, p, q, fuel);
    if ns.More? { AnyBalanced(env, strict, armed, vars, ns.rest, p, q, fuel); }
  }

  lemma {:induction false} AllBalanced(env: Env, strict: bool, armed: bool, vars: nat, ns: Nodes,
                                       p: nat, q: seq<Thunk>, fuel: nat)
    requires Fits(env, strict, armed, vars) && AllClosed(ns, |env.rules|, vars)
    ensures OutBalanced(strict, vars, q, EvalAll(env, armed, ns, p, q, fuel))
    decreases fuel, 1, ns, 0
  {
    hide Balanced;
    EvalBalanced(env, strict, armed, vars, ns.node, p, q, fuel);
    var out := Eval(env, armed, ns.node, p, q, fuel);
    if out.Ok? && ns.More? {
      AllBalanced(env, strict, armed, vars, ns.rest, out.pos, out.queue, fuel);
      var out' := EvalAll(env, armed, ns.rest, out.pos, out.queue, fuel);
      if out'.Ok? { BalancedTrans(strict, vars, q, out.queue, out'.queue); }
    }
  }

  lemma {:induction false} StarBalanced(env: Env, strict: bool, armed: bool, vars: nat, e: Node,
                                        p: nat, q: seq<Thunk>, fuel: nat)
    requires Fits(env, strict, armed, vars) && Closed(e, |env.rules|, vars)
    ensures OutBalanced(strict, vars, q, EvalStar(env, armed, e, p, q, fuel))
    decreases fuel, 1, e, 1
  {
    hide Balanced;
    BalancedRefl(strict, vars, q);
    if fuel > 0 {
      EvalBalanced(env, strict, armed, vars, e, p, q, fuel);
      var out := Eval(env, armed, e, p, q, fuel);
      if out.Ok? {
        StarBalanced(env, strict, armed, vars, e, out.pos, out.queue, fuel - 1);
        var out' := EvalStar(env, armed, e, out.pos, out.queue, fuel - 1);
        if out'.Ok? { BalancedTrans(strict, vars, q, out.queue, out'.queue); }
      }
    }
  }

  lemma {:induction false} RuleBalanced(env: Env, strict: bool, outer: nat, r: nat, p: nat, q: seq<Thunk>, fuel: nat)
    requires WellFormed(env.rules) && (strict ==> Armed(env.rules))
    ensures OutBalanced(strict, outer, q, EvalRule(env, r, p, q, fuel))
    decreases fuel, 0, 0
  {
    hide Balanced;
    if fuel > 0 && r < |env.rules| {
      var rule := env.rules[r];
      var armed := HasAction(rule.expression);
      var q1 := q + PushThunks(rule.variables);
      EvalBalanced(env, strict, armed, rule.variables, rule.expression, p, q1, fuel - 1);
      var out := Eval(env, armed, rule.expression, p, q1, fuel - 1);
      if out.Ok? { FrameNeutral(strict, rule.variables, outer, q, out.queue); }
    }
  }

  /** Stores at offset 0 are the only ones that can miss. */
  lemma {:induction false} StrictIff(d: seq<Thunk>, open: seq<nat>)
    requires Frames(false, d, open).Some?
    ensures Frames(true, d, open) == (if AnyZero(d) then None else Frames(false, d, open))
    decreases |d|
  {
    if d != [] {
      ZeroFirst(d);
      match d[0]
      case Act(_) => StrictIff(d[1..], open);
      case Push(n) => StrictIff(d[1..], open + [n]);
      case Pop(n) => StrictIff(d[1..], open[..|open| - 1]);
      case Set(_, _) => StrictIff(d[1..], open);
    }
  }

  lemma ZeroFirst(d: seq<Thunk>)
    requires d != []
    ensures AnyZero(d) <==> IsZero(d[0]) || AnyZero(d[1..])
  {
    if k :| 0 <= k < |d| && IsZero(d[k]) { assert k > 0 ==> IsZero(d[1..][k - 1]); }
    if k :| 0 <= k < |d[1..]| && IsZero(d[1..][k]) { assert IsZero(d[k + 1]); }
  }

  /** In the queue left by any successful parse from any rule the pushes and pops nest and none
      stays open, and every store goes to its variable's place in the frame of the rule it belongs
      to or, if that rule has no action, to offset 0.  So all stores are inside their frames exactly when no
      rule without an action has stored; in particular when every rule with variables has one. */
  lemma ParseBalanced(env: Env, r: nat, p: nat, fuel: nat)
    requires WellFormed(env.rules)
    ensures var out := EvalRule(env, r, p, [], fuel);
            out.Ok? ==> && Frames(false, out.queue, []) == Some([])
                        && (Frames(true, out.queue, []) == Some([]) <==> !AnyZero(out.queue))
                        && (Armed(env.rules) ==> !AnyZero(out.queue))
  {
    var out := EvalRule(env, r, p, [], fuel);
    if out.Ok? {
      RuleBalanced(env, false, 0, r, p, [], fuel);
      var d: seq<Thunk> :| out.queue == [] + d && Neutral(false, 0, d);
      assert d == out.queue && Innermost([], 0);
      StrictIff(d, []);
      if Armed(env.rules) {
        RuleBalanced(env, true, 0, r, p, [], fuel);
        var e: seq<Thunk> :| out.queue == [] + e && Neutral(true, 0, e);
        assert e == out.queue;
      }
    }
  }

  /** Without an action the guarantee fails: `S = x:A` and `A = ''` parse the empty input
      and store at offset 0, just above the frame. */
  lemma UnarmedStoreMisses()
    ensures var rules := [Rule(1, Name(1, Some(0))), Rule(0, Literal([]))];
            var env := Env(rules, [], (k, p) => true);
            WellFormed(rules) && EvalRule(env, 0, 0, [], 2) == Ok(0, [Push(1), Set(0, 0), Pop(1)])
            && Frames(true, [Push(1), Set(0, 0), Pop(1)], []) == None
  {
    var rules := [Rule(1, Name(1, Some(0))), Rule(0, Literal([]))];
    var env := Env(rules, [], (k, p) => true);
    assert EvalRule(env, 1, 0, [Push(1)], 1) == Ok(0, [Push(1)]) by {
      assert Eval(env, false, Literal([]), 0, [Push(1)], 0) == Ok(0, [Push(1)]);
    }
    assert Eval(env, false, Name(1, Some(0)), 0, [Push(1)], 1) == Ok(0, [Push(1)] + [Set(0, 0)]);
    assert [Push(1), Set(0, 0), Pop(1)][1..] == [Set(0, 0), Pop(1)];
    assert Frames(true, [Set(0, 0), Pop(1)], [1]) == None;
  }

  // ----- running the queue -----

  function Sum(open: seq<nat>): nat {
    if open == [] then 0 else Sum(open[..|open| - 1]) + open[|open| - 1]
  }

  lemma SumPush(open: seq<nat>, n: nat)
    ensures Sum(open + [n]) == Sum(open) + n
  {
    assert (open + [n])[..|open|] == open;
  }

  lemma FramesStep(d: seq<Thunk>, k: nat)
    requires k < |d|
    ensures Frames(false, d[..k + 1], [])
         == match Frames(false, d[..k], []) case None => None case Some(o) => Frames(false, [d[k]], o)
  {
    assert d[..k + 1] == d[..k] + [d[k]];
    FramesAppend(false, d[..k], [d[k]], []);
  }

  lemma FramesPrefix(d: seq<Thunk>, k: nat)
    requires k <= |d| && Frames(false, d, []).Some?
    ensures Frames(false, d[..k], []).Some?
  {
    assert d == d[..k] + d[k..];
    FramesAppend(false, d[..k], d[k..], []);
  }

  lemma NoFrames()
    ensures Frames(false, [], []) == Some([]) && Sum([]) == 0
  {
  }

  /** One entry of a queue that nests: what it does to the open frames. */
  lemma OneEntry(d: seq<Thunk>, k: nat, open: seq<nat>)
    requires k < |d| && Frames(false, d, []).Some? && Frames(false, d[..k], []) == Some(open)
    ensures Frames(false, d[..k + 1], []) == Some(Opened(open, d[k]))
    ensures Sum(Opened(open, d[k])) == Sum(open) + Lift(d[k])
    ensures d[k].Pop? ==> open != [] && open[|open| - 1] == d[k].count
    ensures d[k].Set? ==> open != [] && d[k].variable < open[|open| - 1] && d[k].offset in {0, VarAt(d[k].variable)}
    ensures d[k].Set? ==> 0 <= Sum(open) + d[k].offset
  {
    FramesStep(d, k);
    FramesPrefix(d, k + 1);
    assert [d[k]][1..] == [];
    if d[k].Push? { SumPush(open, d[k].count); }
  }

  ghost function Opened(open: seq<nat>, t: Thunk): seq<nat> {
    match t
    case Push(n) => open + [n]
    case Pop(_) => if open == [] then [] else open[..|open| - 1]
    case _ => open
  }

  function Lift(t: Thunk): int {
    match t case Push(n) => n as int case Pop(n) => 0 - n as int case _ => 0
  }

  // ----- what actions read -----

  /** The variables of the open rules: each entered rule starts with none set, and a store sets one of the
      innermost rule, unless that rule has no action. */
  function Bound(d: seq<Thunk>, ss: nat -> int, k: nat): seq<map<nat, int>>
    requires k <= |d|
  {
    if k == 0 then [] else
    var env := Bound(d, ss, k - 1);
    match d[k - 1]
    case Act(_) => env
    case Push(_) => env + [map[]]
    case Pop(_) => if env == [] then [] else env[..|env| - 1]
    case Set(o, i) =>
      if env == [] || o == 0 then env else env[|env| - 1 := Bind(env[|env| - 1], i, ss(k - 1))]
  }

  function Bind(f: map<nat, int>, i: nat, v: int): map<nat, int> {
    map j | j in f.Keys + {i} :: if j == i then v else f[j]
  }

  /** Every variable that is set is at its place in its rule's frame of the buffer `m`. */
  ghost predicate InPlace(open: seq<nat>, env: seq<map<nat, int>>, m: map<int, int>) {
    |env| == |open| && forall f, i | 0 <= f < |env| && i in env[f] :: At(open, m, f, i, env[f][i])
  }

  ghost predicate At(open: seq<nat>, m: map<int, int>, f: int, i: nat, v: int)
    requires 0 <= f < |open|
  {
    i < open[f] && Sum(open[..f + 1]) + VarAt(i) in m && m[Sum(open[..f + 1]) + VarAt(i)] == v
  }

  /** Frames lie above one another. */
  lemma {:induction false} SumUpTo(open: seq<nat>, f: nat)
    requires f <= |open|
    ensures Sum(open[..f]) <= Sum(open) && (f < |open| ==> Sum(open[..f]) + open[f] <= Sum(open))
    decreases |open|
  {
    var n := |open| - 1;
    if f < |open| {
      assert open[..n][..f] == open[..f];
      SumUpTo(open[..n], f);
    } else {
      assert open[..f] == open;
    }
  }

  /** A store does not disturb the variables of the other rules, nor the other variables of its own. */
  lemma SetInPlace(open: seq<nat>, env: seq<map<nat, int>>, m: map<int, int>, o: int, i: nat, v: int)
    requires InPlace(open, env, m) && open != [] && i < open[|open| - 1] && o in {0, VarAt(i)}
    ensures var n := |open| - 1;
            InPlace(open, if o == 0 then env else env[n := Bind(env[n], i, v)], m[Sum(open) + o := v])
  {
    hide Sum;
    var n := |open| - 1;
    var env' := if o == 0 then env else env[n := Bind(env[n], i, v)];
    var m' := m[Sum(open) + o := v];
    assert open[..n + 1] == open;
    forall f, j | 0 <= f < |env'| && j in env'[f] ensures At(open, m', f, j, env'[f][j]) {
      SumBelow(open, f);
      if f == n && j == i && o != 0 {
        assert At(open, m', n, i, v);
      } else {
        assert j in env[f] && env'[f][j] == env[f][j];
        assert At(open, m, f, j, env[f][j]);
      }
    }
  }

  lemma SumBelow(open: seq<nat>, f: nat)
    requires f < |open|
    ensures f < |open| - 1 ==> Sum(open[..f + 1]) + open[|open| - 1] <= Sum(open)
    ensures f == |open| - 1 ==> Sum(open[..f + 1]) == Sum(open)
  {
    var n := |open| - 1;
    if f < n {
      SumUpTo(open[..n], f + 1);
      assert open[..n][..f + 1] == open[..f + 1];
    } else {
      assert open[..f + 1] == open;
    }
  }

  lemma PushInPlace(open: seq<nat>, env: seq<map<nat, int>>, m: map<int, int>, n: nat)
    requires InPlace(open, env, m)
    ensures InPlace(open + [n], env + [map[]], m)
  {
    var open', env' := open + [n], env + [map[]];
    forall f, j | 0 <= f < |env'| && j in env'[f] ensures At(open', m, f, j, env'[f][j]) {
      assert At(open, m, f, j, env[f][j]);
      assert open'[..f + 1] == open[..f + 1];
    }
  }

  lemma PopInPlace(open: seq<nat>, env: seq<map<nat, int>>, m: map<int, int>)
    requires InPlace(open, env, m) && open != []
    ensures InPlace(open[..|open| - 1], env[..|open| - 1], m)
  {
    var n := |open| - 1;
    forall f, j | 0 <= f < n && j in env[..n][f] ensures At(open[..n], m, f, j, env[f][j]) {
      assert At(open, m, f, j, env[f][j]);
      assert open[..n][..f + 1] == open[..f + 1];
    }
  }

  /** The buffer up to the top shows an action the variables of its rule, the last value stored in each. */
  ghost predicate Shows(d: seq<Thunk>, ss: nat -> int, k: nat, view: seq<int>)
    requires k <= |d|
  {
    var env := Bound(d, ss, k);
    env != [] ==>
      forall i | i in env[|env| - 1] :: 0 <= |view| + VarAt(i) < |view| && view[|view| + VarAt(i)] == env[|env| - 1][i]
  }

  lemma InPlaceShows(d: seq<Thunk>, ss: nat -> int, k: nat, open: seq<nat>, m: map<int, int>, view: seq<int>)
    requires k <= |d| && InPlace(open, Bound(d, ss, k), m) && |view| == Sum(open)
    requires forall i | i in m && 0 <= i < |view| :: view[i] == m[i]
    ensures Shows(d, ss, k, view)
  {
    var env := Bound(d, ss, k);
    if env != [] {
      var n := |env| - 1;
      assert open[..n + 1] == open;
      SumUpTo(open, n);
      forall i | i in env[n] ensures 0 <= |view| + VarAt(i) < |view| && view[|view| + VarAt(i)] == env[n][i] {
        assert At(open, m, n, i, env[n][i]);
      }
    }
  }

  /** What the stores of `d[k..]` leave in the buffer, on top of `m`, when the top is at `val`. */
  ghost function Stores(d: seq<Thunk>, ss: nat -> int, val: int, k: nat, m: map<int, int>): map<int, int>
    decreases |d| - k
  {
    if k >= |d| then m else
    match d[k]
    case Act(_) => Stores(d, ss, val, k + 1, m)
    case Push(n) => Stores(d, ss, val + n, k + 1, m)
    case Pop(n) => Stores(d, ss, val - n, k + 1, m)
    case Set(o, _) => Stores(d, ss, val, k + 1, m[val + o := ss(k)])
  }

  /** The value stack of a parser: `val` is a position in the buffer `vals`. */
  class ValueStack {
    var vals: array<int>
    var val: int

    ghost predicate Valid()
      reads this
    {
      0 < vals.Length && 0 <= val <= vals.Length
    }

    constructor (size: nat)
      requires size > 0
      ensures Valid() && val == 0
    {
      vals := new int[size];
      val := 0;
    }

    /** Move up by a frame, enlarging the buffer when the new top is beyond it. */
    method YyPush(count: nat)
      requires Valid()
      modifies this
      ensures Valid() && val == old(val) + count
      ensures vals == old(vals) || fresh(vals)
      ensures old(vals).Length <= vals.Length
      ensures forall i | 0 <= i < old(vals).Length :: vals[i] == old(vals[i])
    {
      var off := val + count;
      if off > vals.Length {
        var len := vals.Length;
        while len < off + 1
          invariant 0 < len && vals.Length <= len
          decreases off + 1 - len
        {
          len := len * 2;
        }
        var old_ := vals;
        vals := new int[len](i requires 0 <= i reads old_ => if i < old_.Length then old_[i] else 0);
      }
      val := off;
    }

    /** Run the queued entries in order; `ss(k)` is the semantic value current at the k-th.
        `val` comes back to the bottom.  `inside` says whether every store was within the buffer,
        as it is when no store is at offset 0; then each is there at the end unless overwritten, and
        `views[k]`, the buffer up to the top as the action at k finds it, shows the variables of its rule. */
    method YyDone(queue: seq<Thunk>, ss: nat -> int) returns (inside: bool, views: map<nat, seq<int>>)
      requires Valid() && val == 0
      requires Frames(false, queue, []) == Some([])
      modifies this, vals
      ensures Valid() && val == 0
      ensures !AnyZero(queue) ==> inside
      ensures var m := Stores(queue, ss, 0, 0, map[]);
              inside ==> forall i | i in m :: 0 <= i < vals.Length && vals[i] == m[i]
      ensures inside ==> forall k | 0 <= k < |queue| && queue[k].Act? :: k in views && Shows(queue, ss, k, views[k])
    {
      hide Frames, Sum, Bound, Shows, InPlace;
      ghost var m: map<int, int> := map[];
      ghost var open: seq<nat> := [];
      NoFrames();
      NothingBound(queue, ss);
      ghost var was := vals;
      inside, views := true, map[];
      for k := 0 to |queue|
        invariant Valid() && (vals == was || fresh(vals))
        invariant Frames(false, queue[..k], []) == Some(open) && val == Sum(open)
        invariant Stores(queue, ss, 0, 0, map[]) == Stores(queue, ss, val, k, m)
        invariant !AnyZero(queue) ==> inside
        invariant inside ==> forall i | i in m :: 0 <= i < vals.Length && vals[i] == m[i]
        invariant InPlace(open, Bound(queue, ss, k), m)
        invariant inside ==> forall j | 0 <= j < k && queue[j].Act? :: j in views && Shows(queue, ss, j, views[j])
      {
        OneEntry(queue, k, open);
        BoundNext(queue, ss, k, open, m);
        match queue[k]
        case Act(_) =>
          views := views[k := vals[..val]];
          if inside { InPlaceShows(queue, ss, k, open, m, views[k]); }
        case Push(n) =>
          YyPush(n);
          open := open + [n];
        case Pop(n) =>
          val := val - n;
          open := open[..|open| - 1];
        case Set(o, _) =>
          if val + o < vals.Length {
            vals[val + o] := ss(k);
          } else {
            inside := false;
          }
          m := m[val + o := ss(k)];
      }
      assert queue[..|queue|] == queue;
    }
  }

  lemma NothingBound(d: seq<Thunk>, ss: nat -> int)
    ensures InPlace([], Bound(d, ss, 0), map[])
  {
  }

  /** One entry keeps every set variable in its place. */
  lemma BoundNext(d: seq<Thunk>, ss: nat -> int, k: nat, open: seq<nat>, m: map<int, int>)
    requires k < |d| && InPlace(open, Bound(d, ss, k), m)
    requires d[k].Pop? ==> open != []
    requires d[k].Set? ==> open != [] && d[k].variable < open[|open| - 1] && d[k].offset in {0, VarAt(d[k].variable)}
    ensures InPlace(Opened(open, d[k]), Bound(d, ss, k + 1),
                    if d[k].Set? then m[Sum(open) + d[k].offset := ss(k)] else m)
  {
    match d[k]
    case Act(_) =>
    case Push(n) => PushInPlace(open, Bound(d, ss, k), m, n);
    case Pop(_) => PopInPlace(open, Bound(d, ss, k), m);
    case Set(o, i) => SetInPlace(open, Bound(d, ss, k), m, o, i, ss(k));
  }
}
