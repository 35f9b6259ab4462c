/** The laws that define the derived operators of parsing expressions from the basic ones, and that
    literals and classes obey, hold of the meaning given to grammars. */
module PegLaws {
  import opened Peg

  /** `&e` is `!!e`. */
  lemma PeekForLaw(env: Env, armed: bool, e: Node, p: nat, q: seq<Thunk>, fuel: nat)
    ensures Eval(env, armed, PeekFor(e), p, q, fuel) == Eval(env, armed, PeekNot(PeekNot(e)), p, q, fuel)
  {
    assert Eval(env, armed, PeekNot(e), p, q, fuel)
        == match Eval(env, armed, e, p, q, fuel) case Ok(_, _) => Fail case Fail => Ok(p, q) case Diverge => Diverge;
  }

  /** `e?` is `e / ''`. */
  lemma QueryLaw(env: Env, armed: bool, e: Node, p: nat, q: seq<Thunk>, fuel: nat)
    requires p <= |env.input|
    ensures Eval(env, armed, Query(e), p, q, fuel)
         == Eval(env, armed, Alternate(More(e, Last(Literal([])))), p, q, fuel)
  {
    assert Eval(env, armed, Literal([]), p, q, fuel) == Ok(p, q);
    assert EvalAny(env, armed, Last(Literal([])), p, q, fuel) == Ok(p, q);
  }

  /** `e+` is `e e*`. */
  lemma PlusLaw(env: Env, armed: bool, e: Node, p: nat, q: seq<Thunk>, fuel: nat)
    ensures Eval(env, armed, Plus(e), p, q, fuel) == Eval(env, armed, Sequence(More(e, Last(Star(e)))), p, q, fuel)
  {
    var out := Eval(env, armed, e, p, q, fuel);
    if out.Ok? {
      var rest := Eval(env, armed, Star(e), out.pos, out.queue, fuel);
      assert EvalAll(env, armed, Last(Star(e)), out.pos, out.queue, fuel) == rest;
    }
  }

  /** A literal is the sequence of its parts. */
  lemma LiteralLaw(env: Env, armed: bool, s: seq<Byte>, t: seq<Byte>, p: nat, q: seq<Thunk>, fuel: nat)
    ensures Eval(env, armed, Literal(s + t), p, q, fuel)
         == Eval(env, armed, Sequence(More(Literal(s), Last(Literal(t)))), p, q, fuel)
  {
    PrefixSplits(env.input, p, s, t);
    assert Eval(env, armed, Literal(t), p + |s|, q, fuel)
        == if AtPrefix(env.input, p + |s|, t) then Ok(p + |s| + |t|, q) else Fail;
    var last := EvalAll(env, armed, Last(Literal(t)), p + |s|, q, fuel);
    assert last == Eval(env, armed, Literal(t), p + |s|, q, fuel);
    var both := More(Literal(s), Last(Literal(t)));
    assert EvalAll(env, armed, both, p, q, fuel) == if AtPrefix(env.input, p, s) then last else Fail;
  }

  lemma PrefixSplits(input: seq<Byte>, p: nat, s: seq<Byte>, t: seq<Byte>)
    ensures AtPrefix(input, p, s + t) <==> AtPrefix(input, p, s) && AtPrefix(input, p + |s|, t)
  {
    var n := p + |s|;
    var end := n + |t|;
    if end <= |input| {
      assert input[p..end] == input[p..n] + input[n..end];
      if AtPrefix(input, p, s + t) {
        assert input[p..end][..|s|] == s && input[p..end][|s|..] == t;
      }
    }
  }

  /** A literal of one byte is the class of that byte, and `.` the class of all. */
  lemma ClassLaw(env: Env, armed: bool, b: Byte, cs: set<Byte>, p: nat, q: seq<Thunk>, fuel: nat)
    requires forall x: Byte :: x in cs
    ensures Eval(env, armed, Literal([b]), p, q, fuel) == Eval(env, armed, Class({b}), p, q, fuel)
    ensures Eval(env, armed, Dot, p, q, fuel) == Eval(env, armed, Class(cs), p, q, fuel)
  {
    if p < |env.input| { assert env.input[p..p + 1] == [env.input[p]]; }
  }
}
