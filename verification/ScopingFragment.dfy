/** Programs whose assignments can be seen, without running them, never to miss: in particular those
    with every `my` directly in its block. */
module ScopingFragment {
  import opened Common
  import opened Scoping
  import opened ScopingProof

  // ----- variables that are surely there -----

  /** The compiler sends an assignment to x to a frame that surely has it. */
  ghost predicate Sure(vars: Vars, must: Vars, x: nat) {
    var up := FindLex(vars, User(x));
    up.Some? ==> up.value < |must| && User(x) in must[|must| - 1 - up.value]
  }

  ghost predicate SureExpr(vars: Vars, must: Vars, e: Expr) {
    match e
    case Assign(x, e') => SureExpr(vars, must, e') && Sure(vars, must, x)
    case Prim(_, e') => SureExpr(vars, must, e')
    case Logical(_, a, b) => SureExpr(vars, must, a) && SureExpr(vars, must, b)
    case _ => true
  }

  function Meet(a: Vars, b: Vars): (m: Vars)
    requires |a| == |b|
    ensures |m| == |a|
  {
    seq(|a|, i requires 0 <= i < |a| => a[i] * b[i])
  }

  /** What is surely there after a statement: after an `if`, what both of its branches leave. */
  function MustAfter(must: Vars, s: Stmt): (r: Vars)
    ensures |r| == |must|
    decreases s
  {
    match s
    case My(x, _) => if must == [] then must else DefLex(must, User(x))
    case If(_, a, b) => Meet(MustAfterAll(must, a), MustAfterAll(must, b))
    case _ => must
  }

  function MustAfterAll(must: Vars, ss: Stmts): (r: Vars)
    ensures |r| == |must|
    decreases ss
  {
    match ss case Done => must case Then(s, rest) => MustAfterAll(MustAfter(must, s), rest)
  }

  ghost predicate SureStmt(vars: Vars, must: Vars, s: Stmt)
    decreases s
  {
    match s
    case Eval(e) => SureExpr(vars, must, e)
    case My(x, e) => SureExpr(After(vars, s), must, e)
    case Block(body) => SureAll(vars + [{}], must + [{}], body)
    case If(c, a, b) => SureExpr(vars, must, c) && SureAll(vars, must, a) && SureAll(AfterAll(vars, a), must, b)
    case While(c, body) => SureExpr(vars, must, c) && SureAll(vars + [{}], must + [{}], body)
    case _ => true
  }

  ghost predicate SureAll(vars: Vars, must: Vars, ss: Stmts)
    decreases ss
  {
    match ss
    case Done => true
    case Then(s, rest) => SureStmt(vars, must, s) && SureAll(After(vars, s), MustAfter(must, s), rest)
  }

  // ----- they are there -----

  /** The frames have at least these variables; there may be more frames inside. */
  ghost predicate Has(must: Vars, fs: seq<Frame>) {
    |must| <= |fs| && forall i | 0 <= i < |must| :: must[i] <= fs[i].Keys
  }

  ghost predicate Weaker(a: Vars, b: Vars) {
    |a| == |b| && forall i | 0 <= i < |a| :: a[i] <= b[i]
  }

  lemma HasWeaker(a: Vars, b: Vars, fs: seq<Frame>)
    requires Weaker(a, b) && Has(b, fs)
    ensures Has(a, fs)
  {
  }

  lemma {:induction false} MustGrows(must: Vars, s: Stmt)
    ensures Weaker(must, MustAfter(must, s))
    decreases s, 1
  {
    if s.If? {
      MustAllGrows(must, s.thn);
      MustAllGrows(must, s.els);
    }
  }

  lemma {:induction false} MustAllGrows(must: Vars, ss: Stmts)
    ensures Weaker(must, MustAfterAll(must, ss))
    decreases ss, 0
  {
    if ss.Then? {
      MustGrows(must, ss.first);
      MustAllGrows(MustAfter(must, ss.first), ss.rest);
    }
  }

  lemma HasUpdated(must: Vars, fs: seq<Frame>, k: Name, v: int)
    requires Has(must, fs)
    ensures |Update(fs, k, v)| == |fs| && Has(must, Update(fs, k, v))
  {
    UpdateSize(fs, k, v);
    forall i | 0 <= i < |must| ensures must[i] <= Update(fs, k, v)[i].Keys { UpdateKeys(fs, k, v, i); }
  }

  /** An expression whose assignments are sure hits, and takes no variable away. */
  lemma {:induction false} ExprSure(w: World, vars: Vars, must: Vars, e: Expr, fs: seq<Frame>)
    requires SureExpr(vars, must, e) && Has(must, fs) && |must| == |fs|
    ensures HitsExpr(w, vars, e, fs)
    ensures var a := Value_(w, e, fs); a.Val? ==> |a.fs| == |fs| && Has(must, a.fs)
    decreases e
  {
    hide Has;
    match e
    case Assign(x, e') =>
      ExprSure(w, vars, must, e', fs);
      var a := Value_(w, e', fs);
      if a.Val? {
        SureHit(vars, must, a.fs, x);
        HasUpdated(must, a.fs, User(x), a.v);
      }
    case Prim(_, e') => ExprSure(w, vars, must, e', fs);
    case Logical(_, l, r) =>
      ExprSure(w, vars, must, l, fs);
      var a := Value_(w, l, fs);
      if a.Val? { ExprSure(w, vars, must, r, a.fs); }
    case _ =>
  }

  lemma SureHit(vars: Vars, must: Vars, fs: seq<Frame>, x: nat)
    requires Sure(vars, must, x) && Has(must, fs) && |must| == |fs|
    ensures Hit(vars, fs, x)
  {
  }

  /** However a statement ends, what was there is still there; if it ends normally, what it surely
      declares is there too. */
  ghost predicate Leaves(must: Vars, must': Vars, out: Outcome) {
    match out
    case Normal(fs) => |fs| == |must'| && Has(must', fs)
    case Nexting(fs) => Has(must, fs)
    case Lasting(fs) => Has(must, fs)
    case _ => true
  }

  lemma LeavesWeaker(must: Vars, must1: Vars, must2: Vars, must3: Vars, out: Outcome)
    requires Leaves(must1, must3, out) && Weaker(must, must1) && Weaker(must2, must3)
    ensures Leaves(must, must2, out)
  {
    match out
    case Normal(fs) => HasWeaker(must2, must3, fs);
    case Nexting(fs) => HasWeaker(must, must1, fs);
    case Lasting(fs) => HasWeaker(must, must1, fs);
    case _ =>
  }

  lemma MeetWeaker(a: Vars, b: Vars)
    requires |a| == |b|
    ensures Weaker(Meet(a, b), a) && Weaker(Meet(a, b), b)
  {
  }

  lemma MeetSelf(a: Vars)
    ensures Meet(a, a) == a
  {
    assert forall i | 0 <= i < |a| :: a[i] * a[i] == a[i];
  }

  lemma WeakerRefl(a: Vars)
    ensures Weaker(a, a)
  {
  }

  lemma {:induction false} StmtSure(w: World, vars: Vars, must: Vars, s: Stmt, fs: seq<Frame>, fuel: nat)
    requires SureStmt(vars, must, s) && Has(must, fs) && |must| == |fs| && must != []
    ensures Hits(w, vars, s, fs, fuel) && Leaves(must, MustAfter(must, s), Exec(w, s, fs, fuel))
    decreases fuel, s, 1
  {
    hide Has, Weaker, Meet;
    match s
    case Eval(e) => ExprSure(w, vars, must, e, fs);
    case My(x, e) =>
      ExprSure(w, After(vars, s), must, e, fs);
      var a := Value_(w, e, fs);
      if a.Val? { HasDeclared(must, a.fs, x, a.v); }
    case Block(body) => BlockSure(w, vars, must, body, fs, fuel);
    case If(c, a, b) =>
      ExprSure(w, vars, must, c, fs);
      var v := Value_(w, c, fs);
      var ma, mb := MustAfterAll(must, a), MustAfterAll(must, b);
      MeetWeaker(ma, mb);
      WeakerRefl(must);
      if v.Val? && w.so(v.v) {
        AllSure(w, vars, must, a, v.fs, fuel);
        LeavesWeaker(must, must, Meet(ma, mb), ma, ExecAll(w, a, v.fs, fuel));
      } else if v.Val? {
        AllSure(w, AfterAll(vars, a), must, b, v.fs, fuel);
        LeavesWeaker(must, must, Meet(ma, mb), mb, ExecAll(w, b, v.fs, fuel));
      }
    case While(c, body) => WhileSure(w, vars, must, c, body, fs, fuel);
    case _ =>
  }

  lemma HasDeclared(must: Vars, fs: seq<Frame>, x: nat, v: int)
    requires Has(must, fs) && |must| == |fs| && must != []
    ensures Has(DefLex(must, User(x)), AssignUp(fs, 0, User(x), v))
  {
  }

  lemma {:induction false} AllSure(w: World, vars: Vars, must: Vars, ss: Stmts, fs: seq<Frame>, fuel: nat)
    requires SureAll(vars, must, ss) && Has(must, fs) && |must| == |fs| && must != []
    ensures HitsAll(w, vars, ss, fs, fuel) && Leaves(must, MustAfterAll(must, ss), ExecAll(w, ss, fs, fuel))
    decreases fuel, ss, 0
  {
    hide Has, Weaker;
    if ss.Then? {
      var must1 := MustAfter(must, ss.first);
      StmtSure(w, vars, must, ss.first, fs, fuel);
      MustGrows(must, ss.first);
      var out := Exec(w, ss.first, fs, fuel);
      if out.Normal? {
        AllSure(w, After(vars, ss.first), must1, ss.rest, out.fs, fuel);
        WeakerRefl(MustAfterAll(must, ss));
        LeavesWeaker(must, must1, MustAfterAll(must, ss), MustAfterAll(must, ss), ExecAll(w, ss, fs, fuel));
      }
    }
  }

  lemma {:induction false} BlockSure(w: World, vars: Vars, must: Vars, body: Stmts, fs: seq<Frame>, fuel: nat)
    requires SureAll(vars + [{}], must + [{}], body) && Has(must, fs) && |must| == |fs|
    ensures HitsAll(w, vars + [{}], body, fs + [map[]], fuel)
    ensures Leaves(must, must, Cut(ExecAll(w, body, fs + [map[]], fuel), |fs|))
    ensures var out := Cut(ExecAll(w, body, fs + [map[]], fuel), |fs|);
            out.Normal? || out.Nexting? || out.Lasting? ==> |out.fs| == |fs|
    decreases fuel, body, 1
  {
    hide Weaker;
    assert Has(must + [{}], fs + [map[]]);
    AllSure(w, vars + [{}], must + [{}], body, fs + [map[]], fuel);
    MustAllGrows(must + [{}], body);
    var out := ExecAll(w, body, fs + [map[]], fuel);
    WeakerRefl(must + [{}]);
    LeavesWeaker(must + [{}], must + [{}], must + [{}], MustAfterAll(must + [{}], body), out);
    HasCut(must, out, |fs|);
  }

  lemma HasCut(must: Vars, out: Outcome, n: nat)
    requires Leaves(must + [{}], must + [{}], out) && n == |must|
    ensures Leaves(must, must, Cut(out, n))
    ensures Cut(out, n).Normal? || Cut(out, n).Nexting? || Cut(out, n).Lasting? ==> |Cut(out, n).fs| == n
  {
    if out.Normal? || out.Nexting? || out.Lasting? {
      forall i | 0 <= i < n ensures must[i] <= out.fs[i].Keys { assert (must + [{}])[i] == must[i]; }
    }
  }

  lemma {:induction false} WhileSure(w: World, vars: Vars, must: Vars, c: Expr, body: Stmts, fs: seq<Frame>, fuel: nat)
    requires SureExpr(vars, must, c) && SureAll(vars + [{}], must + [{}], body)
    requires Has(must, fs) && |must| == |fs| && must != []
    ensures HitsWhile(w, vars, c, body, fs, fuel) && Leaves(must, must, ExecWhile(w, c, body, fs, fuel))
    decreases fuel, body, 2
  {
    hide Has, Cut;
    if fuel > 0 {
      ExprSure(w, vars, must, c, fs);
      var a := Value_(w, c, fs);
      if a.Val? && w.so(a.v) {
        BlockSure(w, vars, must, body, a.fs, fuel);
        var out := Cut(ExecAll(w, body, a.fs + [map[]], fuel), |a.fs|);
        if out.Normal? || out.Nexting? { WhileSure(w, vars, must, c, body, out.fs, fuel - 1); }
      }
    }
  }

  /** A program whose assignments are sure ends as its code does, on every run. */
  lemma SureCorrect(w: World, ss: Stmts, fuel: nat)
    requires SureAll([{}], [{}], ss) && CompileAll([{}], None, 0, ss).Some?
    ensures SameEnd(ExecAll(w, ss, [map[]], fuel), CExecAll(w, CompileAll([{}], None, 0, ss).value.code, [map[]], fuel))
  {
    AllSure(w, [{}], [{}], ss, [map[]], fuel);
    RunCorrect(w, ss, fuel);
  }

  // ----- `my` directly in its block -----

  predicate Assigns(e: Expr, x: nat) {
    match e
    case Assign(y, e) => y == x || Assigns(e, x)
    case Prim(_, e) => Assigns(e, x)
    case Logical(_, a, b) => Assigns(a, x) || Assigns(b, x)
    case _ => false
  }

  /** `my` stands directly in its block (not in a branch of an `if`), and its initialiser assigns the
      variable being declared only if the block, with the names `top` so far, has declared it before. */
  predicate Plain(s: Stmt, direct: bool, top: set<Name>) {
    match s
    case My(x, e) => direct && (!Assigns(e, x) || User(x) in top)
    case Block(body) => AllPlain(body, true, {})
    case If(_, a, b) => AllPlain(a, false, top) && AllPlain(b, false, top)
    case While(_, body) => AllPlain(body, true, {})
    case _ => true
  }

  predicate AllPlain(ss: Stmts, direct: bool, top: set<Name>) {
    match ss
    case Done => true
    case Then(s, rest) => Plain(s, direct, top) && AllPlain(rest, direct, if s.My? then top + {User(s.x)} else top)
  }

  /** There, what has been declared is there. */
  lemma {:induction false} PlainSure(vars: Vars, s: Stmt, direct: bool)
    requires vars != [] && Plain(s, direct, vars[|vars| - 1])
    ensures SureStmt(vars, vars, s) && MustAfter(vars, s) == After(vars, s)
    ensures !s.My? ==> After(vars, s) == vars
    decreases s, 1
  {
    match s
    case Eval(e) => DeclaredSure(vars, vars, e);
    case My(x, e) => InitSure(vars, x, e);
    case Block(body) => AllPlainSure(vars + [{}], body, true);
    case If(c, a, b) =>
      DeclaredSure(vars, vars, c);
      AllPlainSure(vars, a, false);
      AllPlainSure(vars, b, false);
      MeetSelf(vars);
    case While(c, body) =>
      DeclaredSure(vars, vars, c);
      AllPlainSure(vars + [{}], body, true);
    case _ =>
  }

  lemma {:induction false} AllPlainSure(vars: Vars, ss: Stmts, direct: bool)
    requires vars != [] && AllPlain(ss, direct, vars[|vars| - 1])
    ensures SureAll(vars, vars, ss) && MustAfterAll(vars, ss) == AfterAll(vars, ss)
    ensures !direct ==> AfterAll(vars, ss) == vars
    decreases ss, 0
  {
    if ss.Then? {
      PlainSure(vars, ss.first, direct);
      AllPlainSure(After(vars, ss.first), ss.rest, direct);
    }
  }

  lemma {:induction false} DeclaredSure(vars: Vars, must: Vars, e: Expr)
    requires must == vars
    ensures SureExpr(vars, must, e)
    decreases e
  {
    match e
    case Assign(x, e') =>
      DeclaredSure(vars, must, e');
      if FindLex(vars, User(x)).Some? { FoundAt(vars, User(x)); }
    case Prim(_, e') => DeclaredSure(vars, must, e');
    case Logical(_, a, b) =>
      DeclaredSure(vars, must, a);
      DeclaredSure(vars, must, b);
    case _ =>
  }

  lemma {:induction false} InitSure(vars: Vars, x: nat, e: Expr)
    requires vars != [] && (!Assigns(e, x) || User(x) in vars[|vars| - 1])
    ensures SureExpr(DefLex(vars, User(x)), vars, e)
    decreases e
  {
    if User(x) in vars[|vars| - 1] {
      assert vars[|vars| - 1] + {User(x)} == vars[|vars| - 1];
      assert DefLex(vars, User(x)) == vars;
      DeclaredSure(vars, vars, e);
    } else {
      match e
      case Assign(y, e') =>
        InitSure(vars, x, e');
        OtherName(vars, x, y);
        if FindLex(vars, User(y)).Some? { FoundAt(vars, User(y)); }
      case Prim(_, e') => InitSure(vars, x, e');
      case Logical(_, a, b) =>
        InitSure(vars, x, a);
        InitSure(vars, x, b);
      case _ =>
    }
  }

  lemma OtherName(vars: Vars, x: nat, y: nat)
    requires vars != [] && x != y
    ensures FindLex(DefLex(vars, User(x)), User(y)) == FindLex(vars, User(y))
  {
    assert DefLex(vars, User(x))[..|vars| - 1] == vars[..|vars| - 1];
  }

  /** A program with every `my` directly in its block ends as its code does, on every run. */
  lemma ProgramCorrect(w: World, ss: Stmts, fuel: nat)
    requires AllPlain(ss, true, {}) && CompileAll([{}], None, 0, ss).Some?
    ensures SameEnd(ExecAll(w, ss, [map[]], fuel), CExecAll(w, CompileAll([{}], None, 0, ss).value.code, [map[]], fuel))
  {
    AllPlainSure([{}], ss, true);
    SureCorrect(w, ss, fuel);
  }

  // ----- outside the fragment -----

  /** An outer variable 0 with value v. */
  function Outer(v: int): Frame { map[User(0) := v] }

  /** Assignment of 2 from an inner scope without the variable: the program means the outer
      variable, distance 0 means a new inner one. */
  lemma InnerAssignments()
    ensures Update([Outer(1), map[]], User(0), 2) == [Outer(2), map[]]
    ensures forall v :: AssignUp([Outer(v), map[]], 0, User(0), 2) == [Outer(v), Outer(2)]
    ensures forall v :: AssignUp([Outer(v), Outer(2)], 0, User(0), 2) == [Outer(v), Outer(2)]
    ensures DefLex([{User(0)}, {}], User(0)) == [{User(0)}, {User(0)}]
  {
    var x := User(0);
    var none: Frame := map[];
    var fs := [Outer(1), none];
    var one := [Outer(1)];
    assert fs[..1] == one && one[..0] == [];
    assert one[0][x := 2] == Outer(2);
    assert Update(one, x, 2) == [] + [Outer(2)];
    assert Update(fs, x, 2) == Update(fs[..1], x, 2) + [none];
    assert none[x := 2] == Outer(2) && Outer(2)[x := 2] == Outer(2);
    var bare: set<Name> := {};
    assert bare + {x} == {x};
  }

  /** `{ my $x = ($x = 2); }`: the initialiser's assignment is resolved to the variable being declared. */
  function SelfInit(): Stmts { Then(My(0, Assign(0, Const(2))), Done) }

  function SelfInitCode(): CStmt { CEval(CAssign(0, User(0), CAssign(0, User(0), CConst(2)))) }

  lemma SelfInitCompiles()
    ensures CompileAll([{User(0)}] + [{}], None, 0, SelfInit())
         == Some(StmtOut(Cons(SelfInitCode(), Nil), [{User(0)}, {User(0)}], 0))
  {
    hide DefLex, CompileAll;
    InnerAssignments();
    assert [{User(0)}] + [{}] == [{User(0)}, {}];
    var vars := [{User(0)}, {User(0)}];
    assert CompileExpr(vars, 0, Assign(0, Const(2))) == Some(ExprOut(CAssign(0, User(0), CConst(2)), 0));
    OneCompiles([{User(0)}, {}], None, 0, SelfInit().first);
  }

  lemma OneCompiles(vars: Vars, loop: Option<nat>, n: nat, s: Stmt)
    requires Compile(vars, loop, n, s).Some?
    ensures var c := Compile(vars, loop, n, s).value;
            CompileAll(vars, loop, n, Then(s, Done)) == Some(StmtOut(Join(c.code, Nil), c.vars, c.n))
  {
    var c := Compile(vars, loop, n, s).value;
    assert CompileAll(c.vars, loop, c.n, Done) == Some(StmtOut(Nil, c.vars, c.n));
  }

  /** A block whose body, compiled to `c`, runs from `fs` to `fs'`. */
  lemma BlockEnds(w: World, body: Stmts, c: StmtOut, gs: seq<Frame>, gs': seq<Frame>, fuel: nat) returns (b: StmtOut)
    requires CompileAll([{User(0)}] + [{}], None, 0, body) == Some(c) && gs' != []
    requires CExecAll(w, c.code, gs + [map[]], fuel) == Normal(gs')
    ensures CompileBlock([{User(0)}], None, 0, body) == Some(b)
    ensures CExecAll(w, b.code, gs, fuel) == Normal(gs'[..|gs'| - 1])
  {
    hide CompileAll, CExecAll;
    b := CompileBlock([{User(0)}], None, 0, body).value;
    var c' := BlockRuns(w, [{User(0)}], None, 0, body, gs, fuel);
    OneRuns(w, CPopScope, gs', fuel);
  }

  lemma SelfInitRuns(w: World, fuel: nat)
    ensures CExecAll(w, Cons(SelfInitCode(), Nil), [Outer(1)] + [map[]], fuel) == Normal([Outer(1), Outer(2)])
  {
    hide AssignUp, CExecAll;
    InnerAssignments();
    var fs := [Outer(1), map[]];
    assert [Outer(1)] + [map[]] == fs;
    assert CValue(w, SelfInitCode().e.e, fs) == Val(2, [Outer(1), Outer(2)]);
    OneRuns(w, SelfInitCode(), fs, fuel);
  }

  lemma SelfInitMisses(w: World, fuel: nat) returns (c: StmtOut)
    ensures CompileBlock([{User(0)}], None, 0, SelfInit()) == Some(c)
    ensures Exec(w, Block(SelfInit()), [Outer(1)], fuel) == Normal([Outer(2)])
    ensures CExecAll(w, c.code, [Outer(1)], fuel) == Normal([Outer(1)])
  {
    hide *;
    SelfInitCompiles();
    SelfInitMeans(w, fuel);
    SelfInitRuns(w, fuel);
    var body := StmtOut(Cons(SelfInitCode(), Nil), [{User(0)}, {User(0)}], 0);
    c := BlockEnds(w, SelfInit(), body, [Outer(1)], [Outer(1), Outer(2)], fuel);
    assert [Outer(1), Outer(2)][..1] == [Outer(1)];
  }

  lemma SelfInitMeans(w: World, fuel: nat)
    ensures Exec(w, Block(SelfInit()), [Outer(1)], fuel) == Normal([Outer(2)])
  {
    hide Update, AssignUp;
    InnerAssignments();
    var fs := [Outer(1), map[]];
    assert [Outer(1)] + [map[]] == fs;
    assert Value_(w, Assign(0, Const(2)), fs) == Val(2, [Outer(2), map[]]);
    assert ExecAll(w, SelfInit(), fs, fuel) == Normal([Outer(2), Outer(2)]);
  }

  /** `{ if (0) { my $x = 3; } $x = 2; }`: the branch never runs, but what follows was compiled as if it had. */
  function MyInBranch(): Stmts { Then(Branch(), Then(Eval(Assign(0, Const(2))), Done)) }

  function Branch(): Stmt { If(Const(0), Then(My(0, Const(3)), Done), Done) }

  function BranchCode(): CStmt { CIf(CConst(0), Cons(CEval(CAssign(0, User(0), CConst(3))), Nil), Nil) }

  function AssignCode(): CStmt { CEval(CAssign(0, User(0), CConst(2))) }

  lemma MyInBranchCompiles()
    ensures CompileAll([{User(0)}] + [{}], None, 0, MyInBranch())
         == Some(StmtOut(Join(Cons(BranchCode(), Nil), Cons(AssignCode(), Nil)), [{User(0)}, {User(0)}], 0))
  {
    hide DefLex, CompileAll;
    InnerAssignments();
    var vars, vars' := [{User(0)}, {}], [{User(0)}, {User(0)}];
    assert [{User(0)}] + [{}] == vars;
    OneCompiles(vars, None, 0, My(0, Const(3)));
    NoneCompiles(vars', None, 0);
    assert Compile(vars, None, 0, Branch()) == Some(StmtOut(Cons(BranchCode(), Nil), vars', 0));
    OneCompiles(vars', None, 0, Eval(Assign(0, Const(2))));
    FirstCompiles(vars, None, 0, MyInBranch());
  }

  lemma NoneCompiles(vars: Vars, loop: Option<nat>, n: nat)
    ensures CompileAll(vars, loop, n, Done) == Some(StmtOut(Nil, vars, n))
  {
  }

  lemma FirstCompiles(vars: Vars, loop: Option<nat>, n: nat, ss: Stmts)
    requires ss.Then? && Compile(vars, loop, n, ss.first).Some?
    requires var a := Compile(vars, loop, n, ss.first).value; CompileAll(a.vars, loop, a.n, ss.rest).Some?
    ensures var a := Compile(vars, loop, n, ss.first).value; var b := CompileAll(a.vars, loop, a.n, ss.rest).value;
            CompileAll(vars, loop, n, ss) == Some(StmtOut(Join(a.code, b.code), b.vars, b.n))
  {
  }

  lemma MyInBranchMisses(w: World, fuel: nat) returns (c: StmtOut)
    requires !w.so(0)
    ensures CompileBlock([{User(0)}], None, 0, MyInBranch()) == Some(c)
    ensures Exec(w, Block(MyInBranch()), [Outer(1)], fuel) == Normal([Outer(2)])
    ensures CExecAll(w, c.code, [Outer(1)], fuel) == Normal([Outer(1)])
  {
    hide *;
    MyInBranchCompiles();
    MyInBranchMeans(w, fuel);
    MyInBranchRuns(w, fuel);
    var code := Join(Cons(BranchCode(), Nil), Cons(AssignCode(), Nil));
    c := BlockEnds(w, MyInBranch(), StmtOut(code, [{User(0)}, {User(0)}], 0), [Outer(1)], [Outer(1), Outer(2)], fuel);
    assert [Outer(1), Outer(2)][..1] == [Outer(1)];
  }

  lemma MyInBranchRuns(w: World, fuel: nat)
    requires !w.so(0)
    ensures CExecAll(w, Join(Cons(BranchCode(), Nil), Cons(AssignCode(), Nil)), [Outer(1)] + [map[]], fuel)
         == Normal([Outer(1), Outer(2)])
  {
    hide AssignUp, CExecAll, Join;
    InnerAssignments();
    var fs := [Outer(1), map[]];
    assert [Outer(1)] + [map[]] == fs;
    BranchSkips(w, fs, fuel);
    assert CValue(w, CConst(2), fs) == Val(2, fs);
    assert CValue(w, AssignCode().e, fs) == Val(2, [Outer(1), Outer(2)]);
    assert CExec(w, AssignCode(), fs, fuel) == Normal([Outer(1), Outer(2)]);
    OneRuns(w, BranchCode(), fs, fuel);
    OneRuns(w, AssignCode(), fs, fuel);
    JoinRuns(w, Cons(BranchCode(), Nil), Cons(AssignCode(), Nil), fs, fuel);
  }

  lemma BranchSkips(w: World, fs: seq<Frame>, fuel: nat)
    requires !w.so(0)
    ensures CExec(w, BranchCode(), fs, fuel) == Normal(fs)
  {
  }

  lemma MyInBranchMeans(w: World, fuel: nat)
    requires !w.so(0)
    ensures Exec(w, Block(MyInBranch()), [Outer(1)], fuel) == Normal([Outer(2)])
  {
    hide Update;
    InnerAssignments();
    var fs := [Outer(1), map[]];
    assert [Outer(1)] + [map[]] == fs;
    BranchSkipped(w, fs, fuel);
    assert Value_(w, Const(2), fs) == Val(2, fs);
    assert Value_(w, Assign(0, Const(2)), fs) == Val(2, [Outer(2), map[]]);
    assert Exec(w, MyInBranch().rest.first, fs, fuel) == Normal([Outer(2), map[]]);
    assert ExecAll(w, MyInBranch().rest, fs, fuel) == Normal([Outer(2), map[]]);
  }

  lemma BranchSkipped(w: World, fs: seq<Frame>, fuel: nat)
    requires !w.so(0)
    ensures Exec(w, Branch(), fs, fuel) == Normal(fs)
  {
  }

  lemma NeitherPlain()
    ensures !AllPlain(SelfInit(), true, {}) && !AllPlain(MyInBranch(), true, {})
  {
    assert !AllPlain(Branch().thn, false, {});
  }
}
