/** Calls, tries and throws. The runtime keeps a handler stack and jumps; what a program means
    is structured exceptions, where a call or a try is entered and left with the same scope. */
module Exceptions {
  import opened Common

  /** A scope object: the outermost one, or one opened inside another. */
  datatype Lex = Top | Inner(id: nat, parent: Lex)

  /** A value; `None` is nil. */
  type Value = Option<int>

  /** What is called: a C-level Code carries no scope, any other the scope it was created in, which
      may be the current one. */
  datatype Code = Bare | Closure(lex: Lex) | Here

  /** What a function body does to the world, in order. */
  datatype Cmd =
    | PushScope
    | PopScope
    | Call(site: nat, code: Code, body: Body)
    | Try(site: nat, code: Code, body: Body)
    | Throw(v: Value)
    | Return(v: Value)
    | Observe

  datatype Body = End | Step(first: Cmd, rest: Body)

  /** What a program can see: its scope, the call sites above it, `$@`, and results of calls. */
  datatype Note = At(lex: Lex, callers: seq<nat>, errvar: Value) | Result(v: Value)

  // ----- structured exceptions -----

  datatype Ended = Fin(lex: Lex) | Gave(v: Value, lex: Lex) | Raised(v: Value) | Stuck

  /** The error variable, the observations so far, and how many scopes have been created. */
  datatype Seen = Seen(errvar: Value, log: seq<Note>, scopes: nat)

  datatype Run = Run(end: Ended, seen: Seen)

  function Noted(s: Seen, v: Value): Seen { s.(log := s.log + [Result(v)]) }

  /** The value of a body that came to its end. */
  function Given(e: Ended): Value
    requires e.Fin? || e.Gave?
  {
    match e case Fin(_) => None case Gave(v, _) => v
  }

  /** The scope a call runs in, and the one it leaves when its body ended in `ended`. */
  function Inside(code: Code, lex: Lex): Lex { if code.Closure? then code.lex else lex }

  function Outside(code: Code, lex: Lex, ended: Lex): Lex { if code.Bare? then ended else lex }

  function RunCmd(c: Cmd, lex: Lex, callers: seq<nat>, s: Seen): Run
    decreases c
  {
    match c
    case PushScope => Run(Fin(Inner(s.scopes, lex)), s.(scopes := s.scopes + 1))
    case PopScope => if lex.Top? then Run(Stuck, s) else Run(Fin(lex.parent), s)
    case Call(site, code, body) =>
      var r := RunBody(body, Inside(code, lex), callers + [site], s);
      if r.end.Fin? || r.end.Gave? then Run(Fin(Outside(code, lex, r.end.lex)), Noted(r.seen, Given(r.end))) else r
    case Try(site, code, body) =>
      var r := RunBody(body, Inside(code, lex), callers + [site], s);
      if r.end.Fin? || r.end.Gave? then Run(Fin(Outside(code, lex, r.end.lex)), Noted(r.seen, Given(r.end)))
      else if r.end.Raised? then Run(Fin(lex), Noted(r.seen.(errvar := r.end.v), None))
      else r
    case Throw(v) => Run(Raised(v), s)
    case Return(v) => Run(Gave(v, lex), s)
    case Observe => Run(Fin(lex), s.(log := s.log + [At(lex, callers, s.errvar)]))
  }

  function RunBody(b: Body, lex: Lex, callers: seq<nat>, s: Seen): Run
    decreases b
  {
    match b
    case End => Run(Fin(lex), s)
    case Step(c, rest) =>
      var r := RunCmd(c, lex, callers, s);
      if r.end.Fin? then RunBody(rest, r.end.lex, callers, r.seen) else r
  }

  // ----- the runtime -----

  /** `jump` stands for the saved machine state: which try to come back to. */
  datatype Handler = Handler(lex: Lex, callers: nat, jump: nat)

  datatype Regs = Regs(lex: Lex, callers: seq<nat>, handlers: seq<Handler>, errvar: Value, log: seq<Note>,
                       scopes: nat)

  datatype Outcome = Done | Returns(v: Value) | Jumps(to: nat) | Aborts

  /** A jump to `mine` lands here with nil; any other goes on. */
  function Land(out: Outcome, mine: nat): Outcome {
    if out == Jumps(mine) then Returns(None) else out
  }

  ghost function Innermost(r: Regs): Handler
    requires r.handlers != []
  {
    r.handlers[|r.handlers| - 1]
  }

  /** There is a handler, and it was pushed no deeper than we are now. */
  ghost predicate Ready(r: Regs) {
    r.handlers != [] && Innermost(r).callers <= |r.callers|
  }

  /** How the runtime's ending follows the meaning `m`, from registers `a` to registers `b`. */
  ghost predicate Follows(m: Run, out: Outcome, a: Regs, b: Regs)
    requires Ready(a)
  {
    match m.end
    case Fin(lex) =>
      out == Done && b == a.(lex := lex, errvar := m.seen.errvar, log := m.seen.log, scopes := m.seen.scopes)
    case Gave(v, lex) =>
      out == Returns(v) && b == a.(lex := lex, errvar := m.seen.errvar, log := m.seen.log, scopes := m.seen.scopes)
    case Raised(v) => out == Jumps(Innermost(a).jump) && b == Rewound(a, v, m.seen)
    case Stuck => out == Aborts
  }

  /** The registers at the innermost handler after a throw of `v`. */
  ghost function Rewound(a: Regs, v: Value, seen: Seen): Regs
    requires Ready(a)
  {
    var h := Innermost(a);
    Regs(h.lex, a.callers[..h.callers], a.handlers[..|a.handlers| - 1], v, seen.log, seen.scopes)
  }

  ghost function Meaning(c: Cmd, a: Regs): Run {
    RunCmd(c, a.lex, a.callers, Seen(a.errvar, a.log, a.scopes))
  }

  ghost function BodyMeaning(b: Body, a: Regs): Run {
    RunBody(b, a.lex, a.callers, Seen(a.errvar, a.log, a.scopes))
  }

  /** How the body of a call ends that is made in `a`. */
  ghost function BodyEnd(code: Code, site: nat, body: Body, a: Regs): Ended {
    BodyMeaning(body, a.(lex := Inside(code, a.lex), callers := a.callers + [site])).end
  }

  class World {
    var lex: Lex
    var callers: seq<nat>
    var handlers: seq<Handler>
    var errvar: Value
    var log: seq<Note>
    var scopes: nat
    var jumps: nat

    ghost function Now(): Regs
      reads this
    {
      Regs(lex, callers, handlers, errvar, log, scopes)
    }

    method HandlerPush() returns (jump: nat)
      modifies this
      ensures Now() == old(Now()).(handlers := old(handlers) + [Handler(lex, |callers|, jump)])
      ensures Ready(Now())
    {
      jump := jumps;
      jumps := jumps + 1;
      handlers := handlers + [Handler(lex, |callers|, jump)];
    }

    method HandlerPop()
      requires handlers != []
      modifies this
      ensures Now() == old(Now()).(handlers := old(handlers)[..|old(handlers)| - 1])
    {
      handlers := handlers[..|handlers| - 1];
    }

    method Throw(v: Value) returns (out: Outcome)
      requires Ready(Now())
      modifies this
      ensures out == Jumps(old(Innermost(Now())).jump)
      ensures Now() == Rewound(old(Now()), v, Seen(old(errvar), old(log), old(scopes)))
    {
      errvar := v;
      var h := handlers[|handlers| - 1];
      lex := h.lex;
      while |callers| > h.callers
        invariant h.callers <= |callers| <= |old(callers)| && callers == old(callers)[..|callers|]
        invariant lex == h.lex && errvar == v && handlers == old(handlers) && log == old(log) && scopes == old(scopes)
      {
        callers := callers[..|callers| - 1];
      }
      handlers := handlers[..|handlers| - 1];
      out := Jumps(h.jump);
    }

    /** `pone_code_vcall`: a closure runs in its own scope and gives the caller's back. */
    method VCall(site: nat, code: Code, body: Body) returns (out: Outcome)
      requires Ready(Now())
      modifies this
      ensures CallFollows(Call(site, code, body), out, old(Now()), Now())
      ensures !code.Bare? && out.Returns? ==> lex == old(lex)
      ensures out.Returns? ==> callers == old(callers) && handlers == old(handlers)
      ensures var e := BodyEnd(code, site, body, old(Now()));
              (forall v, l :: e == Gave(v, l) ==> out == Returns(v)) && (e.Fin? ==> out == Returns(None))
      decreases body, 1
    {
      callers := callers + [site];
      var orig := lex;
      if code.Closure? { lex := code.lex; }
      out := DoAll(body);
      if out.Done? { out := Returns(None); }
      if out.Returns? {
        if !code.Bare? { lex := orig; }
        callers := callers[..|callers| - 1];
      }
    }

    /** `pone_try`: comes back with call depth and handlers as they were, and the scope too if
        the code carries one or the body threw. */
    method Try(site: nat, code: Code, body: Body) returns (out: Outcome)
      requires Ready(Now())
      modifies this
      ensures CallFollows(Cmd.Try(site, code, body), out, old(Now()), Now())
      ensures out.Returns? || out.Aborts?
      ensures out.Returns? ==> callers == old(callers) && handlers == old(handlers)
      ensures !code.Bare? && out.Returns? ==> lex == old(lex)
      ensures var e := BodyEnd(code, site, body, old(Now()));
              && (forall v, l :: e == Gave(v, l) ==> out == Returns(v)) && (e.Fin? ==> out == Returns(None))
              && (forall v :: e == Raised(v) ==> out == Returns(None) && errvar == v && lex == old(lex))
      decreases body, 2
    {
      var mine := HandlerPush();
      out := VCall(site, code, body);
      if out.Returns? { HandlerPop(); }
      out := Land(out, mine);
    }

    method Do(c: Cmd) returns (out: Outcome)
      requires Ready(Now())
      modifies this
      ensures Follows(Meaning(c, old(Now())), out, old(Now()), Now())
      decreases c, 0
    {
      out := Done;
      match c
      case PushScope =>
        lex := Inner(scopes, lex);
        scopes := scopes + 1;
      case PopScope => if lex.Top? { out := Aborts; } else { lex := lex.parent; }
      case Call(site, code, body) =>
        out := VCall(site, code, body);
        out := Finish(out);
      case Try(site, code, body) =>
        out := this.Try(site, code, body);
        out := Finish(out);
      case Throw(v) => out := this.Throw(v);
      case Return(v) => out := Returns(v);
      case Observe => log := log + [At(lex, callers, errvar)];
    }

    method Finish(o: Outcome) returns (out: Outcome)
      modifies this`log
      ensures o.Returns? ==> out == Done && log == old(log) + [Result(o.v)]
      ensures !o.Returns? ==> out == o && log == old(log)
    {
      out := o;
      if o.Returns? {
        log := log + [Result(o.v)];
        out := Done;
      }
    }

    method DoAll(b: Body) returns (out: Outcome)
      requires Ready(Now())
      modifies this
      ensures Follows(BodyMeaning(b, old(Now())), out, old(Now()), Now())
      decreases b, 0
    {
      out := Done;
      match b
      case End =>
      case Step(c, rest) =>
        out := Do(c);
        if out.Done? { out := DoAll(rest); }
    }
  }

  /** As `Follows`, before the result has been noted. */
  ghost predicate CallFollows(c: Cmd, out: Outcome, a: Regs, b: Regs)
    requires Ready(a)
  {
    var m := Meaning(c, a);
    match m.end
    case Fin(lex) =>
      && out.Returns? && m.seen.log == b.log + [Result(out.v)]
      && b == a.(lex := lex, errvar := m.seen.errvar, log := b.log, scopes := m.seen.scopes)
    case Gave(_, _) => false
    case Raised(v) => out == Jumps(Innermost(a).jump) && b == Rewound(a, v, m.seen)
    case Stuck => out == Aborts
  }

  // ----- Codes that carry no scope -----

  /** What a body does to the scope chain: how far below the starting scope it goes (`low`, at
      most 0), and how many scopes more than at the start it ends with. */
  datatype Net = Net(low: int, end: int)

  function Then(a: Net, b: Net): Net {
    Net(if a.low < a.end + b.low then a.low else a.end + b.low, a.end + b.end)
  }

  /** The body ends in a throw that none of its tries catches. */
  predicate Raises(b: Body) {
    match b
    case End => false
    case Step(c, rest) =>
      match c
      case Throw(_) => true
      case Return(_) => false
      case Call(_, _, body) => Raises(body) || Raises(rest)
      case _ => Raises(rest)
  }

  /** Calls of a Code that carries a scope change nothing; a call of one that carries none does
      what its body does, unless a try has caught it. */
  function CmdNet(c: Cmd): Net {
    match c
    case PushScope => Net(0, 1)
    case PopScope => Net(-1, -1)
    case Call(_, code, body) => if code.Bare? then BodyNet(body) else Net(0, 0)
    case Try(_, code, body) => if code.Bare? && !Raises(body) then BodyNet(body) else Net(0, 0)
    case _ => Net(0, 0)
  }

  function BodyNet(b: Body): Net {
    match b
    case End => Net(0, 0)
    case Step(c, rest) => if c.Return? then Net(0, 0) else Then(CmdNet(c), BodyNet(rest))
  }

  function Depth(lex: Lex): nat { match lex case Top => 0 case Inner(_, parent) => Depth(parent) + 1 }

  function Up(lex: Lex, k: nat): Lex {
    if k == 0 || lex.Top? then lex else Up(lex.parent, k - 1)
  }

  /** `k` scopes numbered from `from` up stand on `base`. */
  ghost predicate Stacked(lex: Lex, k: nat, base: Lex, from: nat) {
    if k == 0 then lex == base else lex.Inner? && lex.id >= from && Stacked(lex.parent, k - 1, base, from)
  }

  /** From scope a to scope b as `n` says, by scopes created since there were `from` of them. */
  ghost predicate Moved(a: Lex, b: Lex, n: Net, from: nat) {
    n.low <= 0 && n.low <= n.end && -n.low <= Depth(a) && Stacked(b, n.end - n.low, Up(a, -n.low), from)
  }

  lemma {:induction false} UpDepth(lex: Lex, k: nat)
    requires k <= Depth(lex)
    ensures Depth(Up(lex, k)) == Depth(lex) - k
    decreases k
  {
    if k > 0 { UpDepth(lex.parent, k - 1); }
  }

  lemma {:induction false} UpUp(lex: Lex, j: nat, k: nat)
    requires j + k <= Depth(lex)
    ensures Up(Up(lex, j), k) == Up(lex, j + k)
    decreases j
  {
    if j > 0 { UpUp(lex.parent, j - 1, k); }
  }

  lemma {:induction false} StackedDepth(lex: Lex, k: nat, base: Lex, from: nat)
    requires Stacked(lex, k, base, from)
    ensures Depth(lex) == Depth(base) + k
    decreases k
  {
    if k > 0 { StackedDepth(lex.parent, k - 1, base, from); }
  }

  /** Going up j of k stacked scopes. */
  lemma {:induction false} StackedUp(lex: Lex, k: nat, base: Lex, from: nat, j: nat)
    requires Stacked(lex, k, base, from) && j <= k
    ensures Stacked(Up(lex, j), k - j, base, from)
    decreases j
  {
    if j > 0 { StackedUp(lex.parent, k - 1, base, from, j - 1); }
  }

  lemma {:induction false} StackedJoin(lex: Lex, j: nat, mid: Lex, k: nat, base: Lex, from: nat, from': nat)
    requires Stacked(lex, j, mid, from') && Stacked(mid, k, base, from) && from <= from'
    ensures Stacked(lex, j + k, base, from)
    decreases j
  {
    if j > 0 { StackedJoin(lex.parent, j - 1, mid, k, base, from, from'); }
  }

  lemma {:induction false} StackedSince(lex: Lex, k: nat, base: Lex, from: nat, from': nat)
    requires Stacked(lex, k, base, from') && from <= from'
    ensures Stacked(lex, k, base, from)
    decreases k
  {
    if k > 0 { StackedSince(lex.parent, k - 1, base, from, from'); }
  }

  lemma MovedThen(a: Lex, b: Lex, c: Lex, m: Net, n: Net, from: nat, from': nat)
    requires Moved(a, b, m, from) && Moved(b, c, n, from') && from <= from'
    ensures Moved(a, c, Then(m, n), from)
  {
    var k, down := m.end - m.low, -n.low;
    var base := Up(a, -m.low);
    StackedDepth(b, k, base, from);
    UpDepth(a, -m.low);
    if down <= k {
      StackedUp(b, k, base, from, down);
      StackedJoin(c, n.end - n.low, Up(b, down), k - down, base, from, from');
    } else {
      StackedUp(b, k, base, from, k);
      UpUp(b, k, down - k);
      UpUp(a, -m.low, down - k);
      StackedSince(c, n.end - n.low, Up(b, down), from, from');
    }
  }

  /** A run that is not stuck raises exactly when its body says so, and scopes are only added. */
  lemma {:induction false} RaisesMeans(b: Body, lex: Lex, callers: seq<nat>, s: Seen)
    ensures var r := RunBody(b, lex, callers, s);
            (!r.end.Stuck? ==> (r.end.Raised? <==> Raises(b))) && s.scopes <= r.seen.scopes
    decreases b
  {
    if b.Step? {
      var r := RunCmd(b.first, lex, callers, s);
      if b.first.Call? || b.first.Try? {
        RaisesMeans(b.first.body, Inside(b.first.code, lex), callers + [b.first.site], s);
      }
      if r.end.Fin? { RaisesMeans(b.rest, r.end.lex, callers, r.seen); }
    }
  }

  lemma {:induction false} CmdMoves(c: Cmd, lex: Lex, callers: seq<nat>, s: Seen)
    ensures var e := RunCmd(c, lex, callers, s).end; e.Fin? ==> Moved(lex, e.lex, CmdNet(c), s.scopes)
    decreases c
  {
    match c
    case PopScope => assert lex.Inner? ==> Up(lex, 1) == Up(lex.parent, 0);
    case Call(site, code, body) => BodyMoves(body, Inside(code, lex), callers + [site], s);
    case Try(site, code, body) =>
      BodyMoves(body, Inside(code, lex), callers + [site], s);
      RaisesMeans(body, Inside(code, lex), callers + [site], s);
    case PushScope => assert Stacked(lex, 0, lex, s.scopes);
    case _ =>
  }

  lemma {:induction false} BodyMoves(b: Body, lex: Lex, callers: seq<nat>, s: Seen)
    ensures var e := RunBody(b, lex, callers, s).end; e.Fin? || e.Gave? ==> Moved(lex, e.lex, BodyNet(b), s.scopes)
    decreases b
  {
    hide RunCmd, CmdNet, Moved, Then;
    if b == End { MovedNowhere(lex, s.scopes); }
    if b.Step? {
      if b.first.Return? {
        ReturnsHere(b.first, lex, callers, s);
        MovedNowhere(lex, s.scopes);
        return;
      }
      NotGiven(b.first, lex, callers, s);
      var r, e := RunCmd(b.first, lex, callers, s), RunBody(b, lex, callers, s).end;
      if r.end.Fin? && (e.Fin? || e.Gave?) {
        CmdMoves(b.first, lex, callers, s);
        ScopesGrow(b.first, lex, callers, s);
        BodyMoves(b.rest, r.end.lex, callers, r.seen);
        MovedThen(lex, r.end.lex, e.lex, CmdNet(b.first), BodyNet(b.rest), s.scopes, r.seen.scopes);
      }
    }
  }

  lemma MovedNowhere(lex: Lex, from: nat)
    ensures Moved(lex, lex, Net(0, 0), from)
  {
  }

  lemma ReturnsHere(c: Cmd, lex: Lex, callers: seq<nat>, s: Seen)
    requires c.Return?
    ensures RunCmd(c, lex, callers, s).end == Gave(c.v, lex)
  {
  }

  lemma NotGiven(c: Cmd, lex: Lex, callers: seq<nat>, s: Seen)
    requires !c.Return?
    ensures !RunCmd(c, lex, callers, s).end.Gave?
  {
  }

  lemma ScopesGrow(c: Cmd, lex: Lex, callers: seq<nat>, s: Seen)
    ensures s.scopes <= RunCmd(c, lex, callers, s).seen.scopes
  {
    if c.Call? || c.Try? { RaisesMeans(c.body, Inside(c.code, lex), callers + [c.site], s); }
  }

  /** A body that ends normally ends in the scope it began in exactly when it closes what it opens
      and nothing else: its net is 0 and it never goes below its start.  So this is when a call of
      a Code without a scope leaves the caller's scope in place. */
  lemma RestoresIff(b: Body, lex: Lex, callers: seq<nat>, s: Seen)
    requires lex.Inner? ==> lex.id < s.scopes
    requires var e := RunBody(b, lex, callers, s).end; e.Fin? || e.Gave?
    ensures RunBody(b, lex, callers, s).end.lex == lex <==> BodyNet(b) == Net(0, 0)
  {
    hide RunBody, BodyNet;
    var n, lex' := BodyNet(b), RunBody(b, lex, callers, s).end.lex;
    BodyMoves(b, lex, callers, s);
    UpDepth(lex, -n.low);
    StackedDepth(lex', n.end - n.low, Up(lex, -n.low), s.scopes);
  }

  /** A class method is a Code without a scope, and a `return` closes nothing: each such call leaves
      the method's own scope behind. */
  lemma MethodLeaks(site: nat, v: Value, lex: Lex, callers: seq<nat>, s: Seen)
    ensures RunCmd(Call(site, Bare, Step(PushScope, Step(Return(v), End))), lex, callers, s).end
         == Fin(Inner(s.scopes, lex))
    ensures BodyNet(Step(PushScope, Step(Return(v), End))) == Net(0, 1)
  {
    var body := Step(PushScope, Step(Return(v), End));
    var s' := s.(scopes := s.scopes + 1);
    assert RunCmd(Return(v), Inner(s.scopes, lex), callers + [site], s').end == Gave(v, Inner(s.scopes, lex));
    assert RunBody(body.rest, Inner(s.scopes, lex), callers + [site], s').end == Gave(v, Inner(s.scopes, lex));
    assert RunCmd(PushScope, lex, callers + [site], s) == Run(Fin(Inner(s.scopes, lex)), s');
    assert RunBody(body, lex, callers + [site], s).end == Gave(v, Inner(s.scopes, lex));
    assert BodyNet(body.rest) == Net(0, 0);
  }

  // ----- what a called body sees -----

  function Run1(c: Cmd): Body { Step(c, End) }

  /** A body that looks about itself sees the scope its Code carries, or the caller's, and its call site on
      top of the callers; the call then gives nil, or the value returned. */
  lemma CalleeSees(site: nat, code: Code, v: Value, lex: Lex, callers: seq<nat>, s: Seen)
    ensures var at := At(if code.Closure? then code.lex else lex, callers + [site], s.errvar);
            && RunCmd(Call(site, code, Run1(Observe)), lex, callers, s).seen.log == s.log + [at, Result(None)]
            && RunCmd(Try(site, code, Run1(Observe)), lex, callers, s).seen.log == s.log + [at, Result(None)]
            && RunCmd(Call(site, code, Run1(Return(v))), lex, callers, s).seen.log == s.log + [Result(v)]
            && RunCmd(Try(site, code, Run1(Return(v))), lex, callers, s).seen.log == s.log + [Result(v)]
  {
    var inner, cs := Inside(code, lex), callers + [site];
    var s' := s.(log := s.log + [At(inner, cs, s.errvar)]);
    assert RunCmd(Observe, inner, cs, s) == Run(Fin(inner), s');
    assert RunBody(End, inner, cs, s') == Run(Fin(inner), s');
    assert RunBody(Run1(Observe), inner, cs, s) == Run(Fin(inner), s');
    assert RunCmd(Return(v), inner, cs, s) == Run(Gave(v, inner), s);
    assert RunBody(Run1(Return(v)), inner, cs, s) == Run(Gave(v, inner), s);
    assert (s.log + [At(inner, cs, s.errvar)]) + [Result(None)] == s.log + [At(inner, cs, s.errvar), Result(None)];
  }

  /** Nothing after a return or a throw is run. */
  lemma RestSkipped(v: Value, rest: Body, lex: Lex, callers: seq<nat>, s: Seen)
    ensures RunBody(Step(Return(v), rest), lex, callers, s) == Run(Gave(v, lex), s)
    ensures RunBody(Step(Throw(v), rest), lex, callers, s) == Run(Raised(v), s)
  {
    assert RunCmd(Return(v), lex, callers, s).end.Gave? && RunCmd(Throw(v), lex, callers, s).end.Raised?;
  }

  /** A throw caught at any depth of calls is seen in the error variable, in the scope of the try. */
  lemma CaughtSees(site: nat, site': nat, code: Code, code': Code, v: Value, lex: Lex, callers: seq<nat>, s: Seen)
    ensures var body := Run1(Call(site', code', Run1(Throw(v))));
            RunBody(Step(Try(site, code, body), Run1(Observe)), lex, callers, s).seen.log
            == s.log + [Result(None), At(lex, callers, v)]
  {
    var inner, cs := Inside(code, lex), callers + [site];
    var inner', cs' := Inside(code', inner), cs + [site'];
    assert RunCmd(Throw(v), inner', cs', s) == Run(Raised(v), s);
    assert RunBody(Run1(Throw(v)), inner', cs', s) == Run(Raised(v), s);
    var call := Call(site', code', Run1(Throw(v)));
    assert RunCmd(call, inner, cs, s) == Run(Raised(v), s);
    assert RunBody(Run1(call), inner, cs, s) == Run(Raised(v), s);
    var s1 := Noted(s.(errvar := v), None);
    assert RunCmd(Try(site, code, Run1(call)), lex, callers, s) == Run(Fin(lex), s1);
    var s2 := s1.(log := s1.log + [At(lex, callers, v)]);
    assert RunCmd(Observe, lex, callers, s1) == Run(Fin(lex), s2);
    assert RunBody(End, lex, callers, s2) == Run(Fin(lex), s2);
    assert RunBody(Run1(Observe), lex, callers, s1) == Run(Fin(lex), s2);
  }
}
