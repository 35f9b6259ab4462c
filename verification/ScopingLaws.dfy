/** What the statements of the language mean, as laws a programmer would state. */
module ScopingLaws {
  import opened Scoping
  import opened ScopingProof

  /** `or` gives its left operand when that is true, `and` when that is false, defined-or when that is
      defined; and the right one in all other cases, evaluated only then. */
  lemma LogicalLaw(w: World, kind: Logic, a: Expr, b: Expr, fs: seq<Frame>)
    ensures var l, out := Value_(w, a, fs), Value_(w, Logical(kind, a, b), fs);
            && (l.Thrown? ==> out.Thrown?)
            && (l.Val? && kind.LogicalOr? ==> out == if w.so(l.v) then l else Value_(w, b, l.fs))
            && (l.Val? && kind.LogicalAnd? ==> out == if w.so(l.v) then Value_(w, b, l.fs) else l)
            && (l.Val? && kind.Dor? ==> out == if w.defined(l.v) then l else Value_(w, b, l.fs))
  {
  }

  /** A variable that has just been declared is read with its value, wherever else the name is declared. */
  lemma MyLaw(w: World, x: nat, e: Expr, fs: seq<Frame>, fuel: nat)
    requires Value_(w, e, fs).Val? && Value_(w, e, fs).fs != []
    ensures var a, out := Value_(w, e, fs), Exec(w, My(x, e), fs, fuel);
            && out.Normal? && |out.fs| == |a.fs| && out.fs[..|a.fs| - 1] == a.fs[..|a.fs| - 1]
            && Value_(w, Var(x), out.fs) == Val(a.v, out.fs)
  {
    var a := Value_(w, e, fs);
    var gs := AssignUp(a.fs, 0, User(x), a.v);
    LookupReads(w, gs, User(x), |gs| - 1);
  }

  /** A declaration in a block is gone behind it. */
  lemma BlockLaw(w: World, x: nat, v: int, fs: seq<Frame>, fuel: nat)
    ensures Exec(w, Block(Then(My(x, Const(v)), Done)), fs, fuel) == Normal(fs)
  {
    var gs := fs + [map[]];
    assert Exec(w, My(x, Const(v)), gs, fuel) == Normal(AssignUp(gs, 0, User(x), v));
    var hs := AssignUp(gs, 0, User(x), v);
    assert ExecAll(w, Done, hs, fuel) == Normal(hs);
    assert ExecAll(w, Then(My(x, Const(v)), Done), gs, fuel) == Normal(hs);
    assert hs[..|fs|] == fs;
  }

  /** Exactly one branch of an `if` runs, by the truth of the condition. */
  lemma IfLaw(w: World, c: Expr, a: Stmts, b: Stmts, fs: seq<Frame>, fuel: nat)
    requires Value_(w, c, fs).Val?
    ensures var v := Value_(w, c, fs);
            Exec(w, If(c, a, b), fs, fuel) == ExecAll(w, if w.so(v.v) then a else b, v.fs, fuel)
  {
  }

  /** `next` at the end of a body does nothing. */
  lemma {:induction false} NextLaw(w: World, c: Expr, fs: seq<Frame>, fuel: nat)
    ensures ExecWhile(w, c, Then(Next, Done), fs, fuel) == ExecWhile(w, c, Done, fs, fuel)
    decreases fuel
  {
    if fuel > 0 {
      var a := Value_(w, c, fs);
      if a.Val? && w.so(a.v) {
        var gs := a.fs + [map[]];
        assert Exec(w, Next, gs, fuel) == Nexting(gs);
        assert ExecAll(w, Then(Next, Done), gs, fuel) == Nexting(gs);
        assert ExecAll(w, Done, gs, fuel) == Normal(gs);
        assert gs[..|a.fs|] == a.fs;
        NextLaw(w, c, a.fs, fuel - 1);
      }
    }
  }

  /** `last` leaves the loop as the condition left it, and a false condition does not enter it. */
  lemma LastLaw(w: World, c: Expr, body: Stmts, rest: Stmts, fs: seq<Frame>, fuel: nat)
    requires fuel > 0 && Value_(w, c, fs).Val?
    ensures var a := Value_(w, c, fs);
            && (!w.so(a.v) ==> ExecWhile(w, c, body, fs, fuel) == Normal(a.fs))
            && ExecWhile(w, c, Then(Last, rest), fs, fuel) == Normal(a.fs)
  {
    var a := Value_(w, c, fs);
    var gs := a.fs + [map[]];
    assert Exec(w, Last, gs, fuel) == Lasting(gs);
    assert ExecAll(w, Then(Last, rest), gs, fuel) == Lasting(gs);
    assert gs[..|a.fs|] == a.fs;
  }

  /** A loop with a true condition is its body, in a scope, and then the loop. */
  lemma WhileLaw(w: World, c: Expr, body: Stmts, fs: seq<Frame>, fuel: nat)
    requires fuel > 0 && Value_(w, c, fs).Val? && w.so(Value_(w, c, fs).v)
    ensures var out := Exec(w, Block(body), Value_(w, c, fs).fs, fuel);
            && (out.Normal? ==> ExecWhile(w, c, body, fs, fuel) == ExecWhile(w, c, body, out.fs, fuel - 1))
            && (out.Throwing? ==> ExecWhile(w, c, body, fs, fuel).Throwing?)
  {
    var a := Value_(w, c, fs);
    assert Exec(w, Block(body), a.fs, fuel) == Cut(ExecAll(w, body, a.fs + [map[]], fuel), |a.fs|);
  }
}
