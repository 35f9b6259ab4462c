/** The emitted runtime calls do what the program means: the scope chain is as deep as the
    compiler thinks at every point, leaving a loop from any depth restores the loop's depth,
    and an assignment by distance is the assignment meant exactly when the frame at that
    distance has the variable. */
module ScopingProof {
  import opened Common
  import opened Scoping

  // ----- the relations -----

  /** The same user variables with the same values; the target may have temporaries besides. */
  ghost predicate Like(fs: seq<Frame>, gs: seq<Frame>) {
    |fs| == |gs| && forall i | 0 <= i < |fs| :: Alike(fs[i], gs[i])
  }

  ghost predicate Alike(f: Frame, g: Frame) {
    forall x: nat :: (User(x) in f <==> User(x) in g) && (User(x) in f ==> f[User(x)] == g[User(x)])
  }

  /** As many scopes as the compiler thinks, and no variable in any that it has not declared there. */
  ghost predicate Covers(vars: Vars, fs: seq<Frame>) {
    |vars| == |fs| && forall i | 0 <= i < |fs| :: Under(fs[i], vars[i])
  }

  ghost predicate Under(f: Frame, vs: set<Name>) { forall k | k in f :: k in vs }

  /** The frame the compiler has an assignment go to has the variable. */
  ghost predicate Hit(vars: Vars, fs: seq<Frame>, x: nat) {
    var up := FindLex(vars, User(x));
    up.Some? ==> up.value < |fs| && User(x) in fs[|fs| - 1 - up.value]
  }

  // ----- no assignment of a run misses -----

  ghost predicate HitsExpr(w: World, vars: Vars, e: Expr, fs: seq<Frame>) {
    match e
    case Assign(x, e') =>
      HitsExpr(w, vars, e', fs) && (match Value_(w, e', fs) case Thrown => true case Val(_, fs') => Hit(vars, fs', x))
    case Prim(_, e') => HitsExpr(w, vars, e', fs)
    case Logical(kind, a, b) =>
      HitsExpr(w, vars, a, fs) &&
      (match Value_(w, a, fs)
       case Thrown => true
       case Val(v, fs') => TakesRight(w, kind, v) ==> HitsExpr(w, vars, b, fs'))
    case _ => true
  }

  /** The declarations the compiler has seen after a statement, run or not. */
  function After(vars: Vars, s: Stmt): (r: Vars)
    ensures |r| == |vars|
    decreases s
  {
    match s
    case My(x, _) => if vars == [] then vars else DefLex(vars, User(x))
    case If(_, a, b) => AfterAll(AfterAll(vars, a), b)
    case _ => vars
  }

  function AfterAll(vars: Vars, ss: Stmts): (r: Vars)
    ensures |r| == |vars|
    decreases ss
  {
    match ss case Done => vars case Then(s, rest) => AfterAll(After(vars, s), rest)
  }

  ghost predicate Hits(w: World, vars: Vars, s: Stmt, fs: seq<Frame>, fuel: nat)
    decreases fuel, s, 1
  {
    match s
    case Eval(e) => HitsExpr(w, vars, e, fs)
    case My(x, e) => HitsExpr(w, After(vars, s), e, fs)
    case Block(body) => HitsAll(w, vars + [{}], body, fs + [map[]], fuel)
    case If(c, a, b) =>
      HitsExpr(w, vars, c, fs) &&
      (match Value_(w, c, fs)
       case Thrown => true
       case Val(v, fs') =>
         if w.so(v) then HitsAll(w, vars, a, fs', fuel) else HitsAll(w, AfterAll(vars, a), b, fs', fuel))
    case While(c, body) => HitsWhile(w, vars, c, body, fs, fuel)
    case _ => true
  }

  ghost predicate HitsAll(w: World, vars: Vars, ss: Stmts, fs: seq<Frame>, fuel: nat)
    decreases fuel, ss, 0
  {
    match ss
    case Done => true
    case Then(s, rest) =>
      Hits(w, vars, s, fs, fuel) &&
      (match Exec(w, s, fs, fuel) case Normal(fs') => HitsAll(w, After(vars, s), rest, fs', fuel) case _ => true)
  }

  ghost predicate HitsWhile(w: World, vars: Vars, c: Expr, body: Stmts, fs: seq<Frame>, fuel: nat)
    decreases fuel, body, 2
  {
    fuel > 0 ==>
      HitsExpr(w, vars, c, fs) &&
      (match Value_(w, c, fs)
       case Thrown => true
       case Val(v, fs') =>
         w.so(v) ==>
           HitsAll(w, vars + [{}], body, fs' + [map[]], fuel) &&
           (match Cut(ExecAll(w, body, fs' + [map[]], fuel), |fs'|)
            case Normal(fs'') => HitsWhile(w, vars, c, body, fs'', fuel - 1)
            case Nexting(fs'') => HitsWhile(w, vars, c, body, fs'', fuel - 1)
            case _ => true))
  }

  // ----- scope chains -----

  lemma LikeSplit(fs: seq<Frame>, gs: seq<Frame>)
    requires Like(fs, gs) && fs != []
    ensures Like(fs[..|fs| - 1], gs[..|gs| - 1]) && Alike(fs[|fs| - 1], gs[|gs| - 1])
  {
  }

  lemma LikePush(fs: seq<Frame>, gs: seq<Frame>, f: Frame, g: Frame)
    requires Like(fs, gs) && Alike(f, g)
    ensures Like(fs + [f], gs + [g])
  {
  }

  lemma LikeTake(fs: seq<Frame>, gs: seq<Frame>, n: nat)
    requires Like(fs, gs) && n <= |fs|
    ensures Like(fs[..n], gs[..n])
  {
  }

  lemma CoversTake(vars: Vars, fs: seq<Frame>, n: nat)
    requires Covers(vars, fs) && n <= |fs|
    ensures Covers(vars[..n], fs[..n])
  {
  }

  lemma {:induction false} LookupLike(w: World, fs: seq<Frame>, gs: seq<Frame>, x: nat)
    requires Like(fs, gs)
    ensures Lookup(w, fs, User(x)) == Lookup(w, gs, User(x))
    decreases |fs|
  {
    if fs != [] {
      LikeSplit(fs, gs);
      LookupLike(w, fs[..|fs| - 1], gs[..|gs| - 1], x);
    }
  }

  /** Frame i has the name, and none further in does. */
  ghost predicate Nearest(fs: seq<Frame>, k: Name, i: nat) {
    i < |fs| && k in fs[i] && forall j | i < j < |fs| :: k !in fs[j]
  }

  ghost predicate Nowhere(fs: seq<Frame>, k: Name) { forall j | 0 <= j < |fs| :: k !in fs[j] }

  /** Lookup reads the innermost frame that has the name. */
  lemma {:induction false} LookupReads(w: World, fs: seq<Frame>, k: Name, i: nat)
    requires Nearest(fs, k, i)
    ensures Lookup(w, fs, k) == Some(fs[i][k])
    decreases |fs|
  {
    var n := |fs| - 1;
    if i < n { LookupReads(w, fs[..n], k, i); }
  }

  /** Where no frame has it, the globals; where they have not either, nothing. */
  lemma {:induction false} LookupGlobal(w: World, fs: seq<Frame>, k: Name)
    requires Nowhere(fs, k)
    ensures Lookup(w, fs, k) == if k in w.globals then Some(w.globals[k]) else None
    decreases |fs|
  {
    if fs != [] { LookupGlobal(w, fs[..|fs| - 1], k); }
  }

  /** The innermost frame that has the name gets the value, and nothing else changes. */
  lemma {:induction false} UpdateWrites(fs: seq<Frame>, k: Name, v: int, i: nat)
    requires Nearest(fs, k, i)
    ensures Update(fs, k, v) == fs[i := fs[i][k := v]]
    decreases |fs|
  {
    var n := |fs| - 1;
    if i < n {
      UpdateWrites(fs[..n], k, v, i);
      assert fs[i := fs[i][k := v]] == fs[..n][i := fs[i][k := v]] + [fs[n]];
    }
  }

  lemma {:induction false} UpdateNothing(fs: seq<Frame>, k: Name, v: int)
    requires Nowhere(fs, k)
    ensures Update(fs, k, v) == fs
    decreases |fs|
  {
    if fs != [] { UpdateNothing(fs[..|fs| - 1], k, v); }
  }

  /** The frame that many places out gets the value, and nothing else changes. */
  lemma AssignUpWrites(fs: seq<Frame>, up: nat, k: Name, v: int, i: nat, j: Name)
    requires up < |fs| && i < |fs|
    ensures var gs := AssignUp(fs, up, k, v);
            && |gs| == |fs|
            && (i + up + 1 == |fs| && j == k ==> j in gs[i] && gs[i][j] == v)
            && (i + up + 1 != |fs| || j != k ==> (j in gs[i] <==> j in fs[i]) && (j in fs[i] ==> gs[i][j] == fs[i][j]))
  {
  }

  /** Assignment at the distance `find_lex` computes is assignment to the innermost frame that has the
      variable, exactly when the frame at that distance has it; then a lookup reads the value. */
  lemma AssignHitsIff(w: World, vars: Vars, fs: seq<Frame>, x: nat, v: int)
    requires Covers(vars, fs) && FindLex(vars, User(x)).Some?
    ensures var up := FindLex(vars, User(x)).value;
            && up < |fs|
            && (Update(fs, User(x), v) == AssignUp(fs, up, User(x), v) <==> User(x) in fs[|fs| - 1 - up])
            && (User(x) in fs[|fs| - 1 - up] ==> Lookup(w, AssignUp(fs, up, User(x), v), User(x)) == Some(v))
  {
    var up := FindLex(vars, User(x)).value;
    FoundAt(vars, User(x));
    var i := |fs| - 1 - up;
    assert forall j | i < j < |fs| :: Under(fs[j], vars[j]);
    if User(x) in fs[i] {
      UpdateWrites(fs, User(x), v, i);
      LookupReads(w, AssignUp(fs, up, User(x), v), User(x), i);
    } else {
      UpdateSize(fs, User(x), v);
      UpdateKeys(fs, User(x), v, i);
      assert User(x) in AssignUp(fs, up, User(x), v)[i];
    }
  }

  lemma {:induction false} UpdateSize(fs: seq<Frame>, k: Name, v: int)
    ensures |Update(fs, k, v)| == |fs|
    decreases |fs|
  {
    if fs != [] && k !in fs[|fs| - 1] { UpdateSize(fs[..|fs| - 1], k, v); }
  }

  lemma AssignUpLike(fs: seq<Frame>, gs: seq<Frame>, up: nat, x: nat, v: int)
    requires Like(fs, gs) && up < |fs|
    ensures Like(AssignUp(fs, up, User(x), v), AssignUp(gs, up, User(x), v))
  {
    var i := |fs| - 1 - up;
    assert Alike(fs[i], gs[i]);
  }

  lemma AssignUpTemp(w: World, fs: seq<Frame>, gs: seq<Frame>, k: Name, v: int)
    requires Like(fs, gs) && gs != [] && k.Temp?
    ensures Like(fs, AssignUp(gs, 0, k, v)) && Lookup(w, AssignUp(gs, 0, k, v), k) == Some(v)
  {
    var gs' := AssignUp(gs, 0, k, v);
    forall i | 0 <= i < |fs| ensures Alike(fs[i], gs'[i]) { assert Alike(fs[i], gs[i]); }
  }

  lemma AssignUpCovers(vars: Vars, fs: seq<Frame>, x: nat, up: nat, v: int)
    requires Covers(vars, fs) && FindLex(vars, User(x)) == Some(up) && up < |fs|
    ensures Covers(vars, AssignUp(fs, up, User(x), v))
  {
    FoundAt(vars, User(x));
    var fs' := AssignUp(fs, up, User(x), v);
    forall j | 0 <= j < |fs'| ensures Under(fs'[j], vars[j]) { assert Under(fs[j], vars[j]); }
  }

  /** `find_lex` finds the innermost declaration. */
  lemma {:induction false} FoundAt(vars: Vars, k: Name)
    requires FindLex(vars, k).Some?
    ensures var up := FindLex(vars, k).value;
            up < |vars| && k in vars[|vars| - 1 - up] && forall j | |vars| - 1 - up < j < |vars| :: k !in vars[j]
    decreases |vars|
  {
    var n := |vars| - 1;
    if k !in vars[n] {
      FoundAt(vars[..n], k);
      assert forall j | 0 <= j < n :: vars[..n][j] == vars[j];
    }
  }

  // ----- expressions -----

  ghost predicate SameValue(vars: Vars, a: Value, b: Value) {
    match a
    case Thrown => b.Thrown?
    case Val(v, fs) => b.Val? && b.v == v && Like(fs, b.fs) && Covers(vars, fs)
  }

  lemma {:induction false} ExprCorrect(w: World, vars: Vars, n: nat, e: Expr,
                                       fs: seq<Frame>, gs: seq<Frame>)
    requires Covers(vars, fs) && Like(fs, gs) && vars != [] && CompileExpr(vars, n, e).Some?
    requires HitsExpr(w, vars, e, fs)
    ensures SameValue(vars, Value_(w, e, fs), CValue(w, CompileExpr(vars, n, e).value.e, gs))
    decreases e, 1
  {
    hide Covers, Like;
    match e
    case Const(v) =>
    case Var(x) => LookupLike(w, fs, gs, x);
    case Prim(op, e') => ExprCorrect(w, vars, n, e', fs, gs);
    case Assign(x, e') =>
      ExprCorrect(w, vars, n, e', fs, gs);
      var a := Value_(w, e', fs);
      if a.Val? {
        var b := CValue(w, CompileExpr(vars, n, e').value.e, gs);
        var up := FindLex(vars, User(x)).value;
        AssignHitsIff(w, vars, a.fs, x, a.v);
        AssignUpCovers(vars, a.fs, x, up, a.v);
        LikeSize(a.fs, b.fs);
        AssignUpLike(a.fs, b.fs, up, x, a.v);
      }
    case Logical(kind, l, r) => LogicalCorrect(w, vars, n, kind, l, r, fs, gs);
  }

  /** An assignment in states that agree leaves states that agree exactly when it does not miss. */
  lemma AssignAgreesIff(w: World, vars: Vars, n: nat, x: nat, e: Expr, fs: seq<Frame>, gs: seq<Frame>)
    requires Covers(vars, fs) && Like(fs, gs) && vars != [] && CompileExpr(vars, n, Assign(x, e)).Some?
    requires HitsExpr(w, vars, e, fs) && Value_(w, e, fs).Val?
    ensures var a, b := Value_(w, Assign(x, e), fs), CValue(w, CompileExpr(vars, n, Assign(x, e)).value.e, gs);
            a.Val? && b.Val? && a.v == b.v && (Like(a.fs, b.fs) <==> Hit(vars, Value_(w, e, fs).fs, x))
  {
    hide Covers, Like, Update;
    ExprCorrect(w, vars, n, e, fs, gs);
    var a, b := Value_(w, e, fs), CValue(w, CompileExpr(vars, n, e).value.e, gs);
    var up := FindLex(vars, User(x)).value;
    AssignHitsIff(w, vars, a.fs, x, a.v);
    LikeSize(a.fs, b.fs);
    AssignUpLike(a.fs, b.fs, up, x, a.v);
    if !Hit(vars, a.fs, x) { MissDiffers(a.fs, b.fs, up, x, a.v); }
  }

  /** A missed assignment adds a variable to a frame that means to have none. */
  lemma MissDiffers(fs: seq<Frame>, gs: seq<Frame>, up: nat, x: nat, v: int)
    requires |fs| == |gs| && up < |fs| && User(x) !in fs[|fs| - 1 - up]
    ensures !Like(Update(fs, User(x), v), AssignUp(gs, up, User(x), v))
  {
    var i := |fs| - 1 - up;
    var fs', gs' := Update(fs, User(x), v), AssignUp(gs, up, User(x), v);
    UpdateSize(fs, User(x), v);
    UpdateKeys(fs, User(x), v, i);
    assert User(x) !in fs'[i] && User(x) in gs'[i];
  }

  lemma {:induction false} UpdateKeys(fs: seq<Frame>, k: Name, v: int, i: nat)
    requires i < |fs|
    ensures |Update(fs, k, v)| == |fs| && Update(fs, k, v)[i].Keys == fs[i].Keys
    decreases |fs|
  {
    var n := |fs| - 1;
    UpdateSize(fs[..n], k, v);
    if k !in fs[n] && i < n { UpdateKeys(fs[..n], k, v, i); }
  }

  lemma LikeSize(fs: seq<Frame>, gs: seq<Frame>)
    requires Like(fs, gs)
    ensures |fs| == |gs|
  {
  }

  lemma CoversSize(vars: Vars, fs: seq<Frame>)
    requires Covers(vars, fs)
    ensures |vars| == |fs|
  {
  }

  /** One side of a logical operator, stored in its temporary and read back. */
  lemma StoredCorrect(w: World, vars: Vars, tmp: Name, a: Value, b: Value)
    requires SameValue(vars, a, b) && vars != [] && tmp.Temp? && a.Val?
    ensures b.fs != [] && Like(a.fs, AssignUp(b.fs, 0, tmp, b.v))
    ensures Lookup(w, AssignUp(b.fs, 0, tmp, b.v), tmp) == Some(a.v)
  {
    CoversSize(vars, a.fs);
    AssignUpTemp(w, a.fs, b.fs, tmp, b.v);
  }

  lemma {:induction false} LogicalCorrect(w: World, vars: Vars, n: nat, kind: Logic, l: Expr, r: Expr,
                                          fs: seq<Frame>, gs: seq<Frame>)
    requires Covers(vars, fs) && Like(fs, gs) && vars != [] && CompileExpr(vars, n, Logical(kind, l, r)).Some?
    requires HitsExpr(w, vars, Logical(kind, l, r), fs)
    ensures SameValue(vars, Value_(w, Logical(kind, l, r), fs),
                      CValue(w, CompileExpr(vars, n, Logical(kind, l, r)).value.e, gs))
    decreases Logical(kind, l, r), 0
  {
    hide Covers, Like;
    var tmp := Temp(kind, n);
    var cl := CompileExpr(vars, n + 1, l).value;
    var cr := CompileExpr(vars, cl.n, r).value;
    ExprCorrect(w, vars, n + 1, l, fs, gs);
    var a, b := Value_(w, l, fs), CValue(w, cl.e, gs);
    if a.Val? {
      StoredCorrect(w, vars, tmp, a, b);
      var gs1 := AssignUp(b.fs, 0, tmp, b.v);
      assert CValue(w, CAssign(0, tmp, cl.e), gs) == Val(a.v, gs1);
      if TakesRight(w, kind, a.v) {
        ExprCorrect(w, vars, cl.n, r, a.fs, gs1);
        var a', b' := Value_(w, r, a.fs), CValue(w, cr.e, gs1);
        if a'.Val? {
          StoredCorrect(w, vars, tmp, a', b');
          assert CValue(w, CAssign(0, tmp, cr.e), gs1) == Val(a'.v, AssignUp(b'.fs, 0, tmp, b'.v));
        }
      }
    }
  }

  // ----- what compiling a statement declares -----

  /** What the compiler declares does not depend on where it is in a loop or in its counting. */
  lemma {:induction false} StmtDeclares(vars: Vars, loop: Option<nat>, n: nat, s: Stmt)
    requires Compile(vars, loop, n, s).Some?
    ensures Compile(vars, loop, n, s).value.vars == After(vars, s)
    decreases s, 1
  {
    match s
    case Block(body) => BlockDeclares(vars, loop, n, body);
    case While(cond, body) => BlockDeclares(vars, Some(|vars|), CompileExpr(vars, n, cond).value.n, body);
    case If(cond, a, b) =>
      var c := CompileExpr(vars, n, cond).value;
      AllDeclares(vars, loop, c.n, a);
      var ca := CompileAll(vars, loop, c.n, a).value;
      AllDeclares(ca.vars, loop, ca.n, b);
    case _ =>
  }

  lemma {:induction false} AllDeclares(vars: Vars, loop: Option<nat>, n: nat, ss: Stmts)
    requires CompileAll(vars, loop, n, ss).Some?
    ensures CompileAll(vars, loop, n, ss).value.vars == AfterAll(vars, ss)
    decreases ss, 0
  {
    if ss.Then? {
      StmtDeclares(vars, loop, n, ss.first);
      var a := Compile(vars, loop, n, ss.first).value;
      AllDeclares(a.vars, loop, a.n, ss.rest);
    }
  }

  lemma {:induction false} BlockDeclares(vars: Vars, loop: Option<nat>, n: nat, body: Stmts)
    requires CompileBlock(vars, loop, n, body).Some?
    ensures CompileBlock(vars, loop, n, body).value.vars == vars
    decreases body, 1
  {
    AllDeclares(vars + [{}], loop, n, body);
    AllBelow(vars + [{}], body);
    assert (vars + [{}])[..|vars|] == vars;
  }

  /** Only the innermost scope gains declarations, and it loses none. */
  ghost predicate Grown(vars: Vars, vars': Vars) {
    && vars != [] && |vars'| == |vars| && vars'[..|vars| - 1] == vars[..|vars| - 1]
    && vars[|vars| - 1] <= vars'[|vars| - 1]
  }

  lemma {:induction false} StmtBelow(vars: Vars, s: Stmt)
    requires vars != []
    ensures Grown(vars, After(vars, s))
    decreases s, 1
  {
    if s.If? {
      AllBelow(vars, s.thn);
      AllBelow(AfterAll(vars, s.thn), s.els);
    }
  }

  lemma {:induction false} AllBelow(vars: Vars, ss: Stmts)
    requires vars != []
    ensures Grown(vars, AfterAll(vars, ss))
    decreases ss, 0
  {
    if ss.Then? {
      StmtBelow(vars, ss.first);
      AllBelow(After(vars, ss.first), ss.rest);
    }
  }

  lemma GrownCovers(vars: Vars, vars': Vars, fs: seq<Frame>)
    requires Grown(vars, vars') && Covers(vars, fs)
    ensures Covers(vars', fs)
  {
    var m := |vars| - 1;
    forall i | 0 <= i < |fs| ensures Under(fs[i], vars'[i]) {
      assert Under(fs[i], vars[i]);
      assert i < m ==> vars'[..m][i] == vars[..m][i];
    }
  }

  // ----- running emitted code -----

  ghost function AndThen(w: World, out: Outcome, code: Code, fuel: nat): Outcome {
    match out case Normal(fs) => CExecAll(w, code, fs, fuel) case other => other
  }

  lemma {:induction false} JoinRuns(w: World, a: Code, b: Code, fs: seq<Frame>, fuel: nat)
    ensures CExecAll(w, Join(a, b), fs, fuel) == AndThen(w, CExecAll(w, a, fs, fuel), b, fuel)
    decreases a
  {
    if a.Cons? {
      var out := CExec(w, a.head, fs, fuel);
      if out.Normal? { JoinRuns(w, a.tail, b, out.fs, fuel); }
    }
  }

  /** The pops before `continue` or `break` leave the loop's own scopes. */
  lemma {:induction false} PopsRun(w: World, k: nat, last: CStmt, fs: seq<Frame>, fuel: nat)
    requires k <= |fs| && (last.CContinue? || last.CBreak?)
    ensures CExecAll(w, Pops(k, last), fs, fuel)
         == if last.CContinue? then Nexting(fs[..|fs| - k]) else Lasting(fs[..|fs| - k])
    decreases k
  {
    if k > 0 {
      PopsRun(w, k - 1, last, fs[..|fs| - 1], fuel);
      assert fs[..|fs| - 1][..|fs| - k] == fs[..|fs| - k];
    } else {
      assert fs[..|fs|] == fs;
    }
  }

  // ----- statements -----

  /** Leaving for the loop: the chain is cut to the depth at which the loop started. */
  ghost predicate LeftTo(vars: Vars, loop: Option<nat>, fs: seq<Frame>, gs: seq<Frame>) {
    && loop.Some? && loop.value <= |fs| && loop.value <= |vars|
    && Like(fs[..loop.value], gs) && Covers(vars[..loop.value], fs[..loop.value])
  }

  ghost predicate Agrees(vars: Vars, loop: Option<nat>, a: Outcome, b: Outcome) {
    match a
    case Normal(fs) => b.Normal? && Like(fs, b.fs) && Covers(vars, fs)
    case Nexting(fs) => b.Nexting? && LeftTo(vars, loop, fs, b.fs)
    case Lasting(fs) => b.Lasting? && LeftTo(vars, loop, fs, b.fs)
    case Throwing => b.Throwing?
    case Diverging => b.Diverging?
  }

  /** Declarations in the innermost scope do not disturb an agreement. */
  lemma AgreesGrown(vars: Vars, vars': Vars, loop: Option<nat>, a: Outcome, b: Outcome)
    requires Agrees(vars, loop, a, b) && Grown(vars, vars') && (loop.Some? ==> loop.value < |vars|)
    ensures Agrees(vars', loop, a, b)
  {
    if a.Normal? { GrownCovers(vars, vars', a.fs); }
    if loop.Some? {
      var m := |vars| - 1;
      assert vars'[..m][..loop.value] == vars'[..loop.value] && vars[..m][..loop.value] == vars[..loop.value];
    }
  }

  lemma LeaveCorrect(w: World, vars: Vars, loop: Option<nat>, n: nat, s: Stmt, fs: seq<Frame>, gs: seq<Frame>,
                     fuel: nat)
    requires Covers(vars, fs) && Like(fs, gs) && (loop.Some? ==> loop.value < |vars|) && (s.Next? || s.Last?)
    requires Compile(vars, loop, n, s).Some?
    ensures Agrees(Compile(vars, loop, n, s).value.vars, loop, Exec(w, s, fs, fuel),
                   CExecAll(w, Compile(vars, loop, n, s).value.code, gs, fuel))
  {
    hide Compile, Exec, CExecAll;
    var last := LeaveCode(w, vars, loop, n, s, fs, fuel);
    CoversTake(vars, fs, loop.value);
    LikeTake(fs, gs, loop.value);
    PopsRun(w, |vars| - loop.value, last, gs, fuel);
  }

  lemma LeaveCode(w: World, vars: Vars, loop: Option<nat>, n: nat, s: Stmt, fs: seq<Frame>, fuel: nat)
    returns (last: CStmt)
    requires Compile(vars, loop, n, s).Some? && (s.Next? || s.Last?)
    ensures loop.Some? && loop.value <= |vars|
    ensures Compile(vars, loop, n, s) == Some(StmtOut(Pops(|vars| - loop.value, last), vars, n))
    ensures s.Next? ==> last == CContinue && Exec(w, s, fs, fuel) == Nexting(fs)
    ensures s.Last? ==> last == CBreak && Exec(w, s, fs, fuel) == Lasting(fs)
  {
    last := if s.Next? then CContinue else CBreak;
  }

  lemma MyCorrect(w: World, vars: Vars, loop: Option<nat>, n: nat, x: nat, e: Expr,
                  fs: seq<Frame>, gs: seq<Frame>, fuel: nat)
    requires Covers(vars, fs) && Like(fs, gs) && vars != [] && Compile(vars, loop, n, My(x, e)).Some?
    requires HitsExpr(w, DefLex(vars, User(x)), e, fs)
    ensures Agrees(Compile(vars, loop, n, My(x, e)).value.vars, loop, Exec(w, My(x, e), fs, fuel),
                   CExecAll(w, Compile(vars, loop, n, My(x, e)).value.code, gs, fuel))
  {
    hide Covers, Like, CValue, Value_;
    var vars' := DefLex(vars, User(x));
    assert Grown(vars, vars');
    GrownCovers(vars, vars', fs);
    ExprCorrect(w, vars', n, e, fs, gs);
    var c := CompileExpr(vars', n, e).value.e;
    var a, b := Value_(w, e, fs), CValue(w, c, gs);
    OneRuns(w, CEval(CAssign(0, User(x), c)), gs, fuel);
    AssignValue(w, x, c, gs);
    if a.Val? {
      CoversSize(vars', a.fs);
      LikeSize(a.fs, b.fs);
      AssignUpLike(a.fs, b.fs, 0, x, a.v);
      AssignUpCovers(vars', a.fs, x, 0, a.v);
    }
  }

  lemma OneRuns(w: World, s: CStmt, gs: seq<Frame>, fuel: nat)
    ensures CExecAll(w, Cons(s, Nil), gs, fuel) == CExec(w, s, gs, fuel)
  {
    var out := CExec(w, s, gs, fuel);
    if out.Normal? { assert CExecAll(w, Nil, out.fs, fuel) == out; }
  }

  lemma AssignValue(w: World, x: nat, c: CExpr, gs: seq<Frame>)
    ensures CValue(w, CAssign(0, User(x), c), gs)
         == match CValue(w, c, gs)
            case Thrown => Thrown
            case Val(v, gs') => if 0 < |gs'| then Val(v, AssignUp(gs', 0, User(x), v)) else Thrown
  {
  }

  /** A statement and its code, from states that agree and with no assignment that misses, end in
      states that agree. */
  lemma {:induction false} StmtCorrect(w: World, vars: Vars, loop: Option<nat>, n: nat, s: Stmt,
                                       fs: seq<Frame>, gs: seq<Frame>, fuel: nat)
    requires Covers(vars, fs) && Like(fs, gs) && vars != [] && (loop.Some? ==> loop.value < |vars|)
    requires Compile(vars, loop, n, s).Some? && Hits(w, vars, s, fs, fuel)
    ensures Agrees(Compile(vars, loop, n, s).value.vars, loop, Exec(w, s, fs, fuel),
                   CExecAll(w, Compile(vars, loop, n, s).value.code, gs, fuel))
    decreases fuel, s, 1
  {
    hide Covers, Like, CValue, Value_, Agrees, Compile, Exec, CExecAll;
    match s
    case Eval(e) => EvalCorrect(w, vars, loop, n, e, fs, gs, fuel);
    case My(x, e) => MyCorrect(w, vars, loop, n, x, e, fs, gs, fuel);
    case Block(body) => BlockStmtCorrect(w, vars, loop, n, body, fs, gs, fuel);
    case If(cond, a, b) => IfCorrect(w, vars, loop, n, cond, a, b, fs, gs, fuel);
    case While(cond, body) => WhileStmtCorrect(w, vars, loop, n, cond, body, fs, gs, fuel);
    case Next => LeaveCorrect(w, vars, loop, n, s, fs, gs, fuel);
    case Last => LeaveCorrect(w, vars, loop, n, s, fs, gs, fuel);
  }

  lemma {:induction false} EvalCorrect(w: World, vars: Vars, loop: Option<nat>, n: nat, e: Expr,
                                       fs: seq<Frame>, gs: seq<Frame>, fuel: nat)
    requires Covers(vars, fs) && Like(fs, gs) && vars != [] && Compile(vars, loop, n, Eval(e)).Some?
    requires HitsExpr(w, vars, e, fs)
    ensures Agrees(Compile(vars, loop, n, Eval(e)).value.vars, loop, Exec(w, Eval(e), fs, fuel),
                   CExecAll(w, Compile(vars, loop, n, Eval(e)).value.code, gs, fuel))
  {
    hide Covers, Like, CValue, Value_;
    ExprCorrect(w, vars, n, e, fs, gs);
    OneRuns(w, CEval(CompileExpr(vars, n, e).value.e), gs, fuel);
  }

  lemma {:induction false} BlockStmtCorrect(w: World, vars: Vars, loop: Option<nat>, n: nat, body: Stmts,
                                       fs: seq<Frame>, gs: seq<Frame>, fuel: nat)
    requires (loop.Some? ==> loop.value < |vars|) && HitsAll(w, vars + [{}], body, fs + [map[]], fuel)
    requires Covers(vars, fs) && Like(fs, gs) && vars != [] && Compile(vars, loop, n, Block(body)).Some?
    ensures Agrees(Compile(vars, loop, n, Block(body)).value.vars, loop, Exec(w, Block(body), fs, fuel),
                   CExecAll(w, Compile(vars, loop, n, Block(body)).value.code, gs, fuel))
    decreases fuel, Block(body), 0
  {
    hide *;
    BlockUnfolds(w, vars, loop, n, body, fs, fuel);
    BlockCorrect(w, vars, loop, n, body, fs, gs, fuel);
    BlockDeclares(vars, loop, n, body);
  }

  lemma {:induction false} WhileStmtCorrect(w: World, vars: Vars, loop: Option<nat>, n: nat, cond: Expr, body: Stmts,
                                       fs: seq<Frame>, gs: seq<Frame>, fuel: nat)
    requires HitsWhile(w, vars, cond, body, fs, fuel)
    requires Covers(vars, fs) && Like(fs, gs) && vars != [] && Compile(vars, loop, n, While(cond, body)).Some?
    ensures Agrees(Compile(vars, loop, n, While(cond, body)).value.vars, loop, Exec(w, While(cond, body), fs, fuel),
                   CExecAll(w, Compile(vars, loop, n, While(cond, body)).value.code, gs, fuel))
    decreases fuel, While(cond, body), 0
  {
    hide *;
    var c, cb := WhileUnfolds(w, vars, loop, n, cond, body, fs, gs, fuel);
    WhileCorrect(w, vars, n, cond, body, fs, gs, fuel);
    OneRuns(w, CWhile(c.e, cb.code), gs, fuel);
    BlockDeclares(vars, Some(|vars|), c.n, body);
  }

  lemma BlockUnfolds(w: World, vars: Vars, loop: Option<nat>, n: nat, body: Stmts, fs: seq<Frame>, fuel: nat)
    ensures Compile(vars, loop, n, Block(body)) == CompileBlock(vars, loop, n, body)
    ensures Exec(w, Block(body), fs, fuel) == Cut(ExecAll(w, body, fs + [map[]], fuel), |fs|)
  {
  }

  lemma WhileUnfolds(w: World, vars: Vars, loop: Option<nat>, n: nat, cond: Expr, body: Stmts,
                     fs: seq<Frame>, gs: seq<Frame>, fuel: nat) returns (c: ExprOut, cb: StmtOut)
    requires Compile(vars, loop, n, While(cond, body)).Some?
    ensures CompileExpr(vars, n, cond) == Some(c) && CompileBlock(vars, Some(|vars|), c.n, body) == Some(cb)
    ensures Compile(vars, loop, n, While(cond, body)) == Some(StmtOut(Cons(CWhile(c.e, cb.code), Nil), cb.vars, cb.n))
    ensures Exec(w, While(cond, body), fs, fuel) == ExecWhile(w, cond, body, fs, fuel)
    ensures CExec(w, CWhile(c.e, cb.code), gs, fuel) == CExecWhile(w, c.e, cb.code, gs, fuel)
  {
    hide CompileExpr, CompileBlock, ExecWhile, CExecWhile;
    c := CompileExpr(vars, n, cond).value;
    cb := CompileBlock(vars, Some(|vars|), c.n, body).value;
  }

  lemma {:induction false} IfCorrect(w: World, vars: Vars, loop: Option<nat>, n: nat, cond: Expr, a: Stmts, b: Stmts,
                                     fs: seq<Frame>, gs: seq<Frame>, fuel: nat)
    requires Covers(vars, fs) && Like(fs, gs) && vars != [] && (loop.Some? ==> loop.value < |vars|)
    requires Compile(vars, loop, n, If(cond, a, b)).Some? && Hits(w, vars, If(cond, a, b), fs, fuel)
    ensures Agrees(Compile(vars, loop, n, If(cond, a, b)).value.vars, loop, Exec(w, If(cond, a, b), fs, fuel),
                   CExecAll(w, Compile(vars, loop, n, If(cond, a, b)).value.code, gs, fuel))
    decreases fuel, If(cond, a, b), 0
  {
    hide Covers, Like, CValue, Value_, Agrees;
    var c := CompileExpr(vars, n, cond).value;
    var ca := CompileAll(vars, loop, c.n, a).value;
    AllDeclares(vars, loop, c.n, a);
    AllBelow(vars, a);
    var cb := CompileAll(ca.vars, loop, ca.n, b).value;
    AllDeclares(ca.vars, loop, ca.n, b);
    AllBelow(ca.vars, b);
    ExprCorrect(w, vars, n, cond, fs, gs);
    var va, vb := Value_(w, cond, fs), CValue(w, c.e, gs);
    OneRuns(w, CIf(c.e, ca.code, cb.code), gs, fuel);
    if va.Val? && w.so(va.v) {
      AllCorrect(w, vars, loop, c.n, a, va.fs, vb.fs, fuel);
      AgreesGrown(ca.vars, cb.vars, loop, ExecAll(w, a, va.fs, fuel), CExecAll(w, ca.code, vb.fs, fuel));
    } else if va.Val? {
      GrownCovers(vars, ca.vars, va.fs);
      AllCorrect(w, ca.vars, loop, ca.n, b, va.fs, vb.fs, fuel);
    } else {
      AgreesThrowing(cb.vars, loop);
    }
  }

  lemma AgreesThrowing(vars: Vars, loop: Option<nat>)
    ensures Agrees(vars, loop, Throwing, Throwing)
  {
  }

  lemma {:induction false} AllCorrect(w: World, vars: Vars, loop: Option<nat>, n: nat, ss: Stmts,
                                      fs: seq<Frame>, gs: seq<Frame>, fuel: nat)
    requires Covers(vars, fs) && Like(fs, gs) && vars != [] && (loop.Some? ==> loop.value < |vars|)
    requires CompileAll(vars, loop, n, ss).Some? && HitsAll(w, vars, ss, fs, fuel)
    ensures Agrees(CompileAll(vars, loop, n, ss).value.vars, loop, ExecAll(w, ss, fs, fuel),
                   CExecAll(w, CompileAll(vars, loop, n, ss).value.code, gs, fuel))
    decreases fuel, ss, 0
  {
    hide Covers, Like, LeftTo;
    if ss.Then? {
      StmtCorrect(w, vars, loop, n, ss.first, fs, gs, fuel);
      StmtDeclares(vars, loop, n, ss.first);
      StmtBelow(vars, ss.first);
      var a := Compile(vars, loop, n, ss.first).value;
      var b := CompileAll(a.vars, loop, a.n, ss.rest).value;
      JoinRuns(w, a.code, b.code, gs, fuel);
      var out, out' := Exec(w, ss.first, fs, fuel), CExecAll(w, a.code, gs, fuel);
      if out.Normal? {
        AllCorrect(w, a.vars, loop, a.n, ss.rest, out.fs, out'.fs, fuel);
      } else {
        AllDeclares(a.vars, loop, a.n, ss.rest);
        AllBelow(a.vars, ss.rest);
        AgreesGrown(a.vars, b.vars, loop, out, out');
      }
    }
  }

  /** A block is entered and left at the same depth, whichever way it is left. */
  lemma {:induction false} BlockCorrect(w: World, vars: Vars, loop: Option<nat>, n: nat, body: Stmts,
                                        fs: seq<Frame>, gs: seq<Frame>, fuel: nat)
    requires Covers(vars, fs) && Like(fs, gs) && (loop.Some? ==> loop.value <= |vars|)
    requires CompileBlock(vars, loop, n, body).Some? && HitsAll(w, vars + [{}], body, fs + [map[]], fuel)
    ensures Agrees(vars, loop, Cut(ExecAll(w, body, fs + [map[]], fuel), |fs|),
                   CExecAll(w, CompileBlock(vars, loop, n, body).value.code, gs, fuel))
    decreases fuel, body, 1
  {
    hide Covers, Like, LeftTo, Agrees, Cut, HitsAll, CompileAll;
    var c := BlockRuns(w, vars, loop, n, body, gs, fuel);
    Enter(vars, fs, gs);
    AllCorrect(w, vars + [{}], loop, n, body, fs + [map[]], gs + [map[]], fuel);
    AllDeclares(vars + [{}], loop, n, body);
    AllBelow(vars + [{}], body);
    var out, out' := ExecAll(w, body, fs + [map[]], fuel), CExecAll(w, c.code, gs + [map[]], fuel);
    CoversSize(vars, fs);
    BlockLeaves(w, vars, c.vars, loop, |fs|, out, out', fuel);
  }

  lemma BlockRuns(w: World, vars: Vars, loop: Option<nat>, n: nat, body: Stmts, gs: seq<Frame>, fuel: nat)
    returns (c: StmtOut)
    requires CompileBlock(vars, loop, n, body).Some?
    ensures CompileAll(vars + [{}], loop, n, body) == Some(c)
    ensures CExecAll(w, CompileBlock(vars, loop, n, body).value.code, gs, fuel)
         == AndThen(w, CExecAll(w, c.code, gs + [map[]], fuel), Cons(CPopScope, Nil), fuel)
  {
    hide CompileAll, AndThen;
    c := CompileAll(vars + [{}], loop, n, body).value;
    JoinRuns(w, c.code, Cons(CPopScope, Nil), gs + [map[]], fuel);
    assert CExec(w, CPushScope, gs, fuel) == Normal(gs + [map[]]);
  }

  lemma Enter(vars: Vars, fs: seq<Frame>, gs: seq<Frame>)
    requires Covers(vars, fs) && Like(fs, gs)
    ensures Covers(vars + [{}], fs + [map[]]) && Like(fs + [map[]], gs + [map[]])
  {
    LikePush(fs, gs, map[], map[]);
  }

  lemma BlockLeaves(w: World, vars: Vars, inner: Vars, loop: Option<nat>, depth: nat, out: Outcome, out': Outcome,
                    fuel: nat)
    requires Agrees(inner, loop, out, out') && |inner| == |vars| + 1 && inner[..|vars|] == (vars + [{}])[..|vars|]
    requires depth == |vars| && (loop.Some? ==> loop.value <= |vars|)
    ensures Agrees(vars, loop, Cut(out, depth), AndThen(w, out', Cons(CPopScope, Nil), fuel))
  {
    hide Covers, Like;
    assert (vars + [{}])[..|vars|] == vars;
    match out
    case Normal(fs) =>
      CoversSize(inner, fs);
      LikeSize(fs, out'.fs);
      CoversTake(inner, fs, depth);
      LikeTake(fs, out'.fs, depth);
      OneRuns(w, CPopScope, out'.fs, fuel);
    case Nexting(fs) => CutKeeps(vars, inner, loop, depth, fs, out'.fs);
    case Lasting(fs) => CutKeeps(vars, inner, loop, depth, fs, out'.fs);
    case _ =>
  }

  lemma CutKeeps(vars: Vars, inner: Vars, loop: Option<nat>, depth: nat, fs: seq<Frame>, gs: seq<Frame>)
    requires LeftTo(inner, loop, fs, gs) && |inner| == |vars| + 1 && inner[..|vars|] == vars
    requires depth == |vars| && loop.value <= |vars|
    ensures LeftTo(vars, loop, Take(fs, depth), gs)
  {
    assert Take(fs, depth)[..loop.value] == fs[..loop.value];
    assert inner[..|vars|][..loop.value] == inner[..loop.value];
  }

  lemma {:induction false} WhileCorrect(w: World, vars: Vars, n: nat, cond: Expr, body: Stmts,
                                        fs: seq<Frame>, gs: seq<Frame>, fuel: nat)
    requires Covers(vars, fs) && Like(fs, gs) && vars != [] && CompileExpr(vars, n, cond).Some?
    requires CompileBlock(vars, Some(|vars|), CompileExpr(vars, n, cond).value.n, body).Some?
    requires HitsWhile(w, vars, cond, body, fs, fuel)
    ensures forall loop :: Agrees(vars, loop, ExecWhile(w, cond, body, fs, fuel),
              CExecWhile(w, CompileExpr(vars, n, cond).value.e,
                         CompileBlock(vars, Some(|vars|), CompileExpr(vars, n, cond).value.n, body).value.code, gs,
                                      fuel))
    decreases fuel, body, 2
  {
    hide Covers, Like, CValue, Value_, LeftTo, Cut;
    if fuel > 0 {
      var c := CompileExpr(vars, n, cond).value;
      ExprCorrect(w, vars, n, cond, fs, gs);
      var a, b := Value_(w, cond, fs), CValue(w, c.e, gs);
      if a.Val? && w.so(a.v) {
        BlockCorrect(w, vars, Some(|vars|), c.n, body, a.fs, b.fs, fuel);
        var out := Cut(ExecAll(w, body, a.fs + [map[]], fuel), |a.fs|);
        var out' := CExecAll(w, CompileBlock(vars, Some(|vars|), c.n, body).value.code, b.fs, fuel);
        CoversSize(vars, a.fs);
        CutSize(ExecAll(w, body, a.fs + [map[]], fuel), |a.fs|);
        if out.Nexting? || out.Lasting? { LeftHere(vars, out.fs, out'.fs); }
        if out.Normal? || out.Nexting? { WhileCorrect(w, vars, n, cond, body, out.fs, out'.fs, fuel - 1); }
      }
    }
  }

  lemma CutSize(out: Outcome, n: nat)
    ensures Cut(out, n).Nexting? || Cut(out, n).Lasting? ==> |Cut(out, n).fs| <= n
  {
  }

  lemma LeftHere(vars: Vars, fs: seq<Frame>, gs: seq<Frame>)
    requires LeftTo(vars, Some(|vars|), fs, gs) && |fs| <= |vars|
    ensures Covers(vars, fs) && Like(fs, gs)
  {
    assert fs[..|vars|] == fs && vars[..|vars|] == vars;
  }

  // ----- whole programs -----

  /** Both finish with the same variables, both throw, or both run on. */
  ghost predicate SameEnd(out: Outcome, out': Outcome) {
    || (out.Normal? && out'.Normal? && |out'.fs| == 1 && Like(out.fs, out'.fs))
    || (out.Throwing? && out'.Throwing?) || (out.Diverging? && out'.Diverging?)
  }

  /** Every program, from the compiler's starting point: its code ends as it does on every run on which
      no assignment misses the frame it is meant for. */
  lemma RunCorrect(w: World, ss: Stmts, fuel: nat)
    requires CompileAll([{}], None, 0, ss).Some? && HitsAll(w, [{}], ss, [map[]], fuel)
    ensures SameEnd(ExecAll(w, ss, [map[]], fuel), CExecAll(w, CompileAll([{}], None, 0, ss).value.code, [map[]], fuel))
  {
    AllCorrect(w, [{}], None, 0, ss, [map[]], [map[]], fuel);
  }

  // ----- temporaries -----

  function ExprTemps(e: CExpr): seq<Name> {
    match e
    case CAssign(_, k, e) => ExprTemps(e)
    case CPrim(_, e) => ExprTemps(e)
    case CShort(_, _, l, r, g) => (if g.CGetLex? then [g.k] else []) + ExprTemps(l) + ExprTemps(r)
    case _ => []
  }

  function StmtTemps(s: CStmt): seq<Name> {
    match s
    case CEval(e) => ExprTemps(e)
    case CIf(c, a, b) => ExprTemps(c) + CodeTemps(a) + CodeTemps(b)
    case CWhile(c, body) => ExprTemps(c) + CodeTemps(body)
    case _ => []
  }

  function CodeTemps(code: Code): seq<Name> {
    match code case Nil => [] case Cons(s, rest) => StmtTemps(s) + CodeTemps(rest)
  }

  /** Temporaries numbered upwards from `n`, in order of appearance, without gaps. */
  ghost predicate Numbered(ks: seq<Name>, n: nat, m: nat) {
    n + |ks| == m && forall i | 0 <= i < |ks| :: ks[i].Temp? && ks[i].number == n + i
  }

  lemma {:induction false} ExprNumbered(vars: Vars, n: nat, e: Expr)
    requires CompileExpr(vars, n, e).Some?
    ensures var c := CompileExpr(vars, n, e).value; Numbered(ExprTemps(c.e), n, c.n)
    decreases e
  {
    match e
    case Assign(_, e') => ExprNumbered(vars, n, e');
    case Prim(_, e') => ExprNumbered(vars, n, e');
    case Logical(_, a, b) =>
      ExprNumbered(vars, n + 1, a);
      ExprNumbered(vars, CompileExpr(vars, n + 1, a).value.n, b);
    case _ =>
  }

  lemma {:induction false} JoinTemps(a: Code, b: Code)
    ensures CodeTemps(Join(a, b)) == CodeTemps(a) + CodeTemps(b)
  {
    if a.Cons? { JoinTemps(a.tail, b); }
  }

  lemma {:induction false} PopsTemps(k: nat, last: CStmt)
    requires StmtTemps(last) == []
    ensures CodeTemps(Pops(k, last)) == []
  {
    if k > 0 { PopsTemps(k - 1, last); }
  }

  lemma {:induction false} StmtNumbered(vars: Vars, loop: Option<nat>, n: nat, s: Stmt)
    requires Compile(vars, loop, n, s).Some?
    ensures var c := Compile(vars, loop, n, s).value; Numbered(CodeTemps(c.code), n, c.n)
    decreases s, 1
  {
    match s
    case Eval(e) => ExprNumbered(vars, n, e);
    case My(x, e) => ExprNumbered(DefLex(vars, User(x)), n, e);
    case Block(body) => BlockNumbered(vars, loop, n, body);
    case If(cond, a, b) =>
      ExprNumbered(vars, n, cond);
      var c := CompileExpr(vars, n, cond).value;
      AllNumbered(vars, loop, c.n, a);
      var ca := CompileAll(vars, loop, c.n, a).value;
      AllNumbered(ca.vars, loop, ca.n, b);
    case While(cond, body) =>
      ExprNumbered(vars, n, cond);
      BlockNumbered(vars, Some(|vars|), CompileExpr(vars, n, cond).value.n, body);
    case Next => PopsTemps(|vars| - loop.value, CContinue);
    case Last => PopsTemps(|vars| - loop.value, CBreak);
  }

  lemma {:induction false} AllNumbered(vars: Vars, loop: Option<nat>, n: nat, ss: Stmts)
    requires CompileAll(vars, loop, n, ss).Some?
    ensures var c := CompileAll(vars, loop, n, ss).value; Numbered(CodeTemps(c.code), n, c.n)
    decreases ss, 0
  {
    if ss.Then? {
      StmtNumbered(vars, loop, n, ss.first);
      var a := Compile(vars, loop, n, ss.first).value;
      AllNumbered(a.vars, loop, a.n, ss.rest);
      JoinTemps(a.code, CompileAll(a.vars, loop, a.n, ss.rest).value.code);
    }
  }

  lemma {:induction false} BlockNumbered(vars: Vars, loop: Option<nat>, n: nat, body: Stmts)
    requires CompileBlock(vars, loop, n, body).Some?
    ensures var c := CompileBlock(vars, loop, n, body).value; Numbered(CodeTemps(c.code), n, c.n)
    decreases body, 1
  {
    AllNumbered(vars + [{}], loop, n, body);
    var c := CompileAll(vars + [{}], loop, n, body).value;
    JoinTemps(c.code, Cons(CPopScope, Nil));
  }

  /** No two operators of a program share a temporary. */
  lemma TemporariesDistinct(ss: Stmts, i: nat, j: nat)
    requires CompileAll([{}], None, 0, ss).Some?
    requires i < j < |CodeTemps(CompileAll([{}], None, 0, ss).value.code)|
    ensures var ks := CodeTemps(CompileAll([{}], None, 0, ss).value.code); ks[i] != ks[j]
  {
    AllNumbered([{}], None, 0, ss);
  }
}
