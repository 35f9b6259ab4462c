/** How pone programs with blocks, assignments, logical operators and `while` loops become
    runtime calls that push scopes, pop scopes and assign by distance. */
module Scoping {
  import opened Common

  datatype Logic = LogicalOr | LogicalAnd | Dor

  /** A variable of the program, or the temporary of one logical operator. */
  datatype Name = User(id: nat) | Temp(op: Logic, number: nat)

  type Frame = map<Name, int>

  /** What the fragment leaves open: truth, definedness, the other operators, global names. */
  datatype World = World(so: int -> bool, defined: int -> bool, prim: (nat, int) -> int, globals: Frame)

  datatype Expr =
    | Const(v: int)
    | Var(x: nat)
    | Assign(x: nat, e: Expr)
    | Prim(op: nat, e: Expr)
    | Logical(kind: Logic, a: Expr, b: Expr)

  /** Bodies of `if` are plain statement lists; a `while` body is a block. */
  datatype Stmt =
    | Eval(e: Expr)
    | My(x: nat, e: Expr)
    | Block(body: Stmts)
    | If(cond: Expr, thn: Stmts, els: Stmts)
    | While(cond: Expr, body: Stmts)
    | Next
    | Last

  datatype Stmts = Done | Then(first: Stmt, rest: Stmts)

  // ----- scope chains, innermost frame last -----

  /** `pone_get_lex`: the innermost frame that has the name, then the globals. */
  ghost function Lookup(w: World, fs: seq<Frame>, k: Name): Option<int>
    decreases |fs|
  {
    if fs == [] then (if k in w.globals then Some(w.globals[k]) else None)
    else if k in fs[|fs| - 1] then Some(fs[|fs| - 1][k])
    else Lookup(w, fs[..|fs| - 1], k)
  }

  /** Assignment to the innermost frame that has the name. */
  ghost function Update(fs: seq<Frame>, k: Name, v: int): seq<Frame>
    decreases |fs|
  {
    if fs == [] then []
    else if k in fs[|fs| - 1] then fs[..|fs| - 1] + [fs[|fs| - 1][k := v]]
    else Update(fs[..|fs| - 1], k, v) + [fs[|fs| - 1]]
  }

  /** `pone_assign`: a fixed number of frames up. */
  ghost function AssignUp(fs: seq<Frame>, up: nat, k: Name, v: int): seq<Frame>
    requires up < |fs|
  {
    var i := |fs| - 1 - up;
    fs[i := fs[i][k := v]]
  }

  // ----- meaning of the source -----

  datatype Value = Val(v: int, fs: seq<Frame>) | Thrown

  /** Whether a logical operator takes its right operand. */
  ghost predicate TakesRight(w: World, kind: Logic, v: int) {
    match kind
    case LogicalOr => !w.so(v)
    case LogicalAnd => w.so(v)
    case Dor => !w.defined(v)
  }

  ghost function Value_(w: World, e: Expr, fs: seq<Frame>): Value {
    match e
    case Const(v) => Val(v, fs)
    case Var(x) => (match Lookup(w, fs, User(x)) case None => Thrown case Some(v) => Val(v, fs))
    case Assign(x, e) =>
      (match Value_(w, e, fs) case Thrown => Thrown case Val(v, fs') => Val(v, Update(fs', User(x), v)))
    case Prim(op, e) =>
      (match Value_(w, e, fs) case Thrown => Thrown case Val(v, fs') => Val(w.prim(op, v), fs'))
    case Logical(kind, a, b) =>
      (match Value_(w, a, fs)
       case Thrown => Thrown
       case Val(v, fs') => if TakesRight(w, kind, v) then Value_(w, b, fs') else Val(v, fs'))
  }

  datatype Outcome = Normal(fs: seq<Frame>) | Nexting(fs: seq<Frame>) | Lasting(fs: seq<Frame>) | Throwing | Diverging

  ghost function Cut(out: Outcome, n: nat): Outcome {
    match out
    case Normal(fs) => Normal(Take(fs, n))
    case Nexting(fs) => Nexting(Take(fs, n))
    case Lasting(fs) => Lasting(Take(fs, n))
    case other => other
  }

  ghost function Take(fs: seq<Frame>, n: nat): seq<Frame> { if n <= |fs| then fs[..n] else fs }

  /** Scopes are lexical: however a block is left, the frames inside it are gone. */
  ghost function Exec(w: World, s: Stmt, fs: seq<Frame>, fuel: nat): Outcome
    decreases fuel, s, 1
  {
    match s
    case Eval(e) => (match Value_(w, e, fs) case Thrown => Throwing case Val(_, fs') => Normal(fs'))
    case My(x, e) =>
      (match Value_(w, e, fs)
       case Thrown => Throwing
       case Val(v, fs') => if fs' == [] then Throwing else Normal(AssignUp(fs', 0, User(x), v)))
    case Block(body) => Cut(ExecAll(w, body, fs + [map[]], fuel), |fs|)
    case If(c, a, b) =>
      (match Value_(w, c, fs)
       case Thrown => Throwing
       case Val(v, fs') => if w.so(v) then ExecAll(w, a, fs', fuel) else ExecAll(w, b, fs', fuel))
    case While(c, body) => ExecWhile(w, c, body, fs, fuel)
    case Next => Nexting(fs)
    case Last => Lasting(fs)
  }

  ghost function ExecAll(w: World, ss: Stmts, fs: seq<Frame>, fuel: nat): Outcome
    decreases fuel, ss, 0
  {
    match ss
    case Done => Normal(fs)
    case Then(s, rest) =>
      (match Exec(w, s, fs, fuel) case Normal(fs') => ExecAll(w, rest, fs', fuel) case other => other)
  }

  ghost function ExecWhile(w: World, c: Expr, body: Stmts, fs: seq<Frame>, fuel: nat): Outcome
    decreases fuel, body, 2
  {
    if fuel == 0 then Diverging else
    match Value_(w, c, fs)
    case Thrown => Throwing
    case Val(v, fs') =>
      if !w.so(v) then Normal(fs') else
      match Cut(ExecAll(w, body, fs' + [map[]], fuel), |fs'|)
      case Normal(fs'') => ExecWhile(w, c, body, fs'', fuel - 1)
      case Nexting(fs'') => ExecWhile(w, c, body, fs'', fuel - 1)
      case Lasting(fs'') => Normal(fs'')
      case other => other
  }

  // ----- the emitted code -----

  /** C's `||` and `&&`. */
  datatype COp = COr | CAnd

  /** The runtime's two tests. */
  datatype Test = So | Defined

  /** `CShort` is `(test(left) || right, result)` or the same with `&&`. */
  datatype CExpr =
    | CConst(v: int)
    | CGetLex(k: Name)
    | CAssign(up: nat, k: Name, e: CExpr)
    | CPrim(op: nat, e: CExpr)
    | CShort(test: Test, short: COp, left: CExpr, right: CExpr, result: CExpr)

  datatype CStmt =
    | CEval(e: CExpr)
    | CPushScope
    | CPopScope
    | CIf(cond: CExpr, thn: Code, els: Code)
    | CWhile(cond: CExpr, body: Code)
    | CContinue
    | CBreak

  datatype Code = Nil | Cons(head: CStmt, tail: Code)

  function Join(a: Code, b: Code): Code {
    match a case Nil => b case Cons(s, rest) => Cons(s, Join(rest, b))
  }

  ghost function CValue(w: World, e: CExpr, fs: seq<Frame>): Value {
    match e
    case CConst(v) => Val(v, fs)
    case CGetLex(k) => (match Lookup(w, fs, k) case None => Thrown case Some(v) => Val(v, fs))
    case CAssign(up, k, e) =>
      (match CValue(w, e, fs)
       case Thrown => Thrown
       case Val(v, fs') => if up < |fs'| then Val(v, AssignUp(fs', up, k, v)) else Thrown)
    case CPrim(op, e) =>
      (match CValue(w, e, fs) case Thrown => Thrown case Val(v, fs') => Val(w.prim(op, v), fs'))
    case CShort(test, op, left, right, result) =>
      (match CValue(w, left, fs)
       case Thrown => Thrown
       case Val(v, fs') =>
         var truth := if test.So? then w.so(v) else w.defined(v);
         if (op.COr? && !truth) || (op.CAnd? && truth)
         then (match CValue(w, right, fs') case Thrown => Thrown case Val(_, fs'') => CValue(w, result, fs''))
         else CValue(w, result, fs'))
  }

  /** C control flow: `continue` and `break` leave the scope chain as the calls before them left it. */
  ghost function CExec(w: World, s: CStmt, fs: seq<Frame>, fuel: nat): Outcome
    decreases fuel, s, 1
  {
    match s
    case CEval(e) => (match CValue(w, e, fs) case Thrown => Throwing case Val(_, fs') => Normal(fs'))
    case CPushScope => Normal(fs + [map[]])
    case CPopScope => if fs == [] then Throwing else Normal(fs[..|fs| - 1])
    case CIf(c, a, b) =>
      (match CValue(w, c, fs)
       case Thrown => Throwing
       case Val(v, fs') => if w.so(v) then CExecAll(w, a, fs', fuel) else CExecAll(w, b, fs', fuel))
    case CWhile(c, body) => CExecWhile(w, c, body, fs, fuel)
    case CContinue => Nexting(fs)
    case CBreak => Lasting(fs)
  }

  ghost function CExecAll(w: World, code: Code, fs: seq<Frame>, fuel: nat): Outcome
    decreases fuel, code, 0
  {
    match code
    case Nil => Normal(fs)
    case Cons(s, rest) =>
      (match CExec(w, s, fs, fuel) case Normal(fs') => CExecAll(w, rest, fs', fuel) case other => other)
  }

  ghost function CExecWhile(w: World, c: CExpr, body: Code, fs: seq<Frame>, fuel: nat): Outcome
    decreases fuel, body, 2
  {
    if fuel == 0 then Diverging else
    match CValue(w, c, fs)
    case Thrown => Throwing
    case Val(v, fs') =>
      if !w.so(v) then Normal(fs') else
      match CExecAll(w, body, fs', fuel)
      case Normal(fs'') => CExecWhile(w, c, body, fs'', fuel - 1)
      case Nexting(fs'') => CExecWhile(w, c, body, fs'', fuel - 1)
      case Lasting(fs'') => Normal(fs'')
      case other => other
  }

  // ----- the translation -----

  type Vars = seq<set<Name>>

  /** `find_lex`: how many scopes out the innermost declaration is; None where the compiler aborts. */
  function FindLex(vars: Vars, k: Name): Option<nat>
    decreases |vars|
  {
    if vars == [] then None
    else if k in vars[|vars| - 1] then Some(0)
    else match FindLex(vars[..|vars| - 1], k) case None => None case Some(u) => Some(u + 1)
  }

  function DefLex(vars: Vars, k: Name): Vars
    requires vars != []
  {
    vars[|vars| - 1 := vars[|vars| - 1] + {k}]
  }

  /** An emitted expression and the next operator number. */
  datatype ExprOut = ExprOut(e: CExpr, n: nat)

  function TestOf(kind: Logic): Test { if kind.Dor? then Defined else So }

  function OpOf(kind: Logic): COp { if kind.LogicalAnd? then CAnd else COr }

  function CompileExpr(vars: Vars, n: nat, e: Expr): Option<ExprOut>
    decreases e
  {
    match e
    case Const(v) => Some(ExprOut(CConst(v), n))
    case Var(x) => Some(ExprOut(CGetLex(User(x)), n))
    case Assign(x, e) =>
      (match FindLex(vars, User(x))
       case None => None
       case Some(up) =>
         match CompileExpr(vars, n, e)
         case None => None
         case Some(c) => Some(ExprOut(CAssign(up, User(x), c.e), c.n)))
    case Prim(op, e) =>
      (match CompileExpr(vars, n, e) case None => None case Some(c) => Some(ExprOut(CPrim(op, c.e), c.n)))
    case Logical(kind, a, b) =>
      var tmp := Temp(kind, n);
      (match CompileExpr(vars, n + 1, a)
       case None => None
       case Some(ca) =>
         match CompileExpr(vars, ca.n, b)
         case None => None
         case Some(cb) =>
           var short := CShort(TestOf(kind), OpOf(kind), CAssign(0, tmp, ca.e), CAssign(0, tmp, cb.e), CGetLex(tmp));
           Some(ExprOut(short, cb.n)))
  }

  function Pops(k: nat, last: CStmt): Code {
    if k == 0 then Cons(last, Nil) else Cons(CPopScope, Pops(k - 1, last))
  }

  datatype StmtOut = StmtOut(code: Code, vars: Vars, n: nat)

  /** `loop` is the number of scopes open where the innermost loop started. */
  function Compile(vars: Vars, loop: Option<nat>, n: nat, s: Stmt): (r: Option<StmtOut>)
    ensures r.Some? ==> |r.value.vars| == |vars|
    decreases s
  {
    match s
    case Eval(e) =>
      (match CompileExpr(vars, n, e) case None => None case Some(c) => Some(StmtOut(Cons(CEval(c.e), Nil), vars, c.n)))
    case My(x, e) =>
      if vars == [] then None else
      var vars' := DefLex(vars, User(x));
      (match FindLex(vars', User(x))
       case None => None
       case Some(up) =>
         match CompileExpr(vars', n, e)
         case None => None
         case Some(c) => Some(StmtOut(Cons(CEval(CAssign(up, User(x), c.e)), Nil), vars', c.n)))
    case Block(body) => CompileBlock(vars, loop, n, body)
    case If(cond, a, b) =>
      (match CompileExpr(vars, n, cond)
       case None => None
       case Some(c) =>
         match CompileAll(vars, loop, c.n, a)
         case None => None
         case Some(ca) =>
           match CompileAll(ca.vars, loop, ca.n, b)
           case None => None
           case Some(cb) => Some(StmtOut(Cons(CIf(c.e, ca.code, cb.code), Nil), cb.vars, cb.n)))
    case While(cond, body) =>
      (match CompileExpr(vars, n, cond)
       case None => None
       case Some(c) =>
         match CompileBlock(vars, Some(|vars|), c.n, body)
         case None => None
         case Some(cb) => Some(StmtOut(Cons(CWhile(c.e, cb.code), Nil), cb.vars, cb.n)))
    case Next =>
      if loop.None? || loop.value > |vars| then None else Some(StmtOut(Pops(|vars| - loop.value, CContinue), vars, n))
    case Last =>
      if loop.None? || loop.value > |vars| then None else Some(StmtOut(Pops(|vars| - loop.value, CBreak), vars, n))
  }

  function CompileBlock(vars: Vars, loop: Option<nat>, n: nat, body: Stmts): (r: Option<StmtOut>)
    ensures r.Some? ==> |r.value.vars| == |vars|
    decreases body, 1
  {
    match CompileAll(vars + [{}], loop, n, body)
    case None => None
    case Some(c) => Some(StmtOut(Cons(CPushScope, Join(c.code, Cons(CPopScope, Nil))), c.vars[..|c.vars| - 1], c.n))
  }

  function CompileAll(vars: Vars, loop: Option<nat>, n: nat, ss: Stmts): (r: Option<StmtOut>)
    ensures r.Some? ==> |r.value.vars| == |vars|
    decreases ss, 0
  {
    match ss
    case Done => Some(StmtOut(Nil, vars, n))
    case Then(s, rest) =>
      match Compile(vars, loop, n, s)
      case None => None
      case Some(a) =>
        match CompileAll(a.vars, loop, a.n, rest)
        case None => None
        case Some(b) => Some(StmtOut(Join(a.code, b.code), b.vars, b.n))
  }
}
