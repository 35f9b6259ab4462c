/** The compiler's own walk: one context object whose scope stack, loop stack and operator
    counter change as the tree is visited. */
module CompileContext {
  import opened Common
  import opened Scoping

  class Context {
    var vars: Vars
    var loops: seq<nat>
    var counter: nat

    constructor ()
      ensures vars == [{}] && loops == [] && counter == 0
    {
      vars, loops, counter := [{}], [], 0;
    }

    ghost function Loop(): Option<nat>
      reads this`loops
    {
      if loops == [] then None else Some(loops[|loops| - 1])
    }

    method PushVarsStack()
      modifies this`vars
      ensures vars == old(vars) + [{}]
    {
      vars := vars + [{}];
    }

    method PopVarsStack()
      requires vars != []
      modifies this`vars
      ensures vars == old(vars)[..|old(vars)| - 1]
    {
      vars := vars[..|vars| - 1];
    }

    method Define(k: Name)
      requires vars != []
      modifies this`vars
      ensures vars == DefLex(old(vars), k)
    {
      vars := vars[|vars| - 1 := vars[|vars| - 1] + {k}];
    }

    /** Walks outwards; the innermost declaration wins. */
    method Find(k: Name) returns (r: Option<nat>)
      ensures r == FindLex(vars, k)
      ensures r.Some? ==> r.value < |vars| && k in vars[|vars| - 1 - r.value]
      ensures r.Some? ==> forall i | |vars| - r.value <= i < |vars| :: k !in vars[i]
      ensures r.None? ==> forall i | 0 <= i < |vars| :: k !in vars[i]
    {
      var i := |vars| - 1;
      assert vars[..|vars|] == vars;
      while i >= 0
        invariant -1 <= i < |vars|
        invariant forall j | i < j < |vars| :: k !in vars[j]
        invariant FindLex(vars, k) == Further(FindLex(vars[..i + 1], k), |vars| - 1 - i)
      {
        assert vars[..i + 1][..i] == vars[..i];
        if k in vars[i] { return Some(|vars| - i - 1); }
        i := i - 1;
      }
      r := None;
    }

    method Expr(e: Expr) returns (r: Option<CExpr>)
      modifies this`counter
      ensures Wrote(CompileExpr(vars, old(counter), e), r, counter)
      decreases e
    {
      match e
      case Const(v) => r := Some(CConst(v));
      case Var(x) => r := Some(CGetLex(User(x)));
      case Assign(x, e') =>
        var up := Find(User(x));
        if up.None? { return None; }
        var c := Expr(e');
        if c.None? { return None; }
        r := Some(CAssign(up.value, User(x), c.value));
      case Prim(op, e') =>
        var c := Expr(e');
        if c.None? { return None; }
        r := Some(CPrim(op, c.value));
      case Logical(kind, a, b) =>
        var tmp := Temp(kind, counter);
        counter := counter + 1;
        var ca := Expr(a);
        if ca.None? { return None; }
        var cb := Expr(b);
        if cb.None? { return None; }
        r := Some(CShort(TestOf(kind), OpOf(kind), CAssign(0, tmp, ca.value), CAssign(0, tmp, cb.value), CGetLex(tmp)));
    }

    method Statement(s: Stmt) returns (r: Option<Code>)
      modifies this
      ensures Emitted(Compile(old(vars), old(Loop()), old(counter), s), r, vars, counter)
      ensures r.Some? ==> loops == old(loops)
      decreases s, 1
    {
      match s
      case Eval(e) =>
        var c := Expr(e);
        if c.None? { return None; }
        r := Some(Cons(CEval(c.value), Nil));
      case My(x, e) =>
        if vars == [] { return None; }
        Define(User(x));
        var up := Find(User(x));
        if up.None? { return None; }
        var c := Expr(e);
        if c.None? { return None; }
        r := Some(Cons(CEval(CAssign(up.value, User(x), c.value)), Nil));
      case Block(body) =>
        r := BlockOf(body);
      case If(cond, a, b) =>
        r := IfOf(cond, a, b);
      case While(cond, body) =>
        var c := Expr(cond);
        if c.None? { return None; }
        loops := loops + [|vars|];
        var cb := BlockOf(body);
        if cb.None? { return None; }
        loops := loops[..|loops| - 1];
        r := Some(Cons(CWhile(c.value, cb.value), Nil));
      case Next => r := Leave(CContinue);
      case Last => r := Leave(CBreak);
    }

    method IfOf(cond: Expr, a: Stmts, b: Stmts) returns (r: Option<Code>)
      modifies this
      ensures Emitted(Compile(old(vars), old(Loop()), old(counter), If(cond, a, b)), r, vars, counter)
      ensures r.Some? ==> loops == old(loops)
      decreases If(cond, a, b), 0
    {
      var c := Expr(cond);
      if c.None? { return None; }
      var ca := All(a);
      if ca.None? { return None; }
      var cb := All(b);
      if cb.None? { return None; }
      r := Some(Cons(CIf(c.value, ca.value, cb.value), Nil));
    }

    /** One pop for every scope opened since the loop started, then the jump. */
    method Leave(last: CStmt) returns (r: Option<Code>)
      ensures r.Some? <==> loops != [] && loops[|loops| - 1] <= |vars|
      ensures r.Some? ==> r.value == Pops(|vars| - loops[|loops| - 1], last)
    {
      if loops == [] || loops[|loops| - 1] > |vars| { return None; }
      var k := |vars| - loops[|loops| - 1];
      var code := Cons(last, Nil);
      for i := 0 to k
        invariant code == Pops(i, last)
      {
        code := Cons(CPopScope, code);
      }
      r := Some(code);
    }

    method BlockOf(body: Stmts) returns (r: Option<Code>)
      modifies this
      ensures Emitted(CompileBlock(old(vars), old(Loop()), old(counter), body), r, vars, counter)
      ensures r.Some? ==> loops == old(loops)
      decreases body, 1
    {
      PushVarsStack();
      var c := All(body);
      if c.None? { return None; }
      PopVarsStack();
      r := Some(Cons(CPushScope, Join(c.value, Cons(CPopScope, Nil))));
    }

    method All(ss: Stmts) returns (r: Option<Code>)
      modifies this
      ensures Emitted(CompileAll(old(vars), old(Loop()), old(counter), ss), r, vars, counter)
      ensures r.Some? ==> loops == old(loops)
      decreases ss, 0
    {
      match ss
      case Done => r := Some(Nil);
      case Then(s, rest) =>
        var a := Statement(s);
        if a.None? { return None; }
        var b := All(rest);
        if b.None? { return None; }
        r := Some(Join(a.value, b.value));
    }
  }

  function Further(r: Option<nat>, d: nat): Option<nat> {
    match r case None => None case Some(u) => Some(u + d)
  }

  /** The walk aborts exactly where the translation is undefined, and otherwise leaves its result. */
  ghost predicate Wrote(c: Option<ExprOut>, r: Option<CExpr>, counter: nat) {
    match c case None => r.None? case Some(o) => r == Some(o.e) && counter == o.n
  }

  ghost predicate Emitted(c: Option<StmtOut>, r: Option<Code>, vars: Vars, counter: nat) {
    match c case None => r.None? case Some(o) => r == Some(o.code) && vars == o.vars && counter == o.n
  }
}
