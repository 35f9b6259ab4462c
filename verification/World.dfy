/** A world's memory: arenas with a free list, the stacks that keep C-held values alive,
    marking, sweeping. */
module World {
  import opened Common
  import opened Memory

  const ARENA_SIZE: nat := 1024

  ghost function After(free: seq<Ref>, i: nat): Option<Ref> {
    if i + 1 < |free| then Some(free[i + 1]) else None
  }

  /** The free list starting at `head` runs exactly through `free`, in that order. */
  ghost predicate Linked(h: Heap, head: Option<Ref>, free: seq<Ref>) {
    && head == (if free == [] then None else Some(free[0]))
    && (forall i: nat | i < |free| :: free[i] in h && h[free[i]] == Free(After(free, i)))
    && (forall i, j | 0 <= i < j < |free| :: free[i] != free[j])
  }

  /** The slots handed out so far are those below each arena's index. */
  ghost predicate Arenas(h: Heap, idx: seq<nat>) {
    && |idx| > 0
    && (forall a | 0 <= a < |idx| :: idx[a] <= ARENA_SIZE)
    && (forall a | 0 <= a < |idx| - 1 :: idx[a] == ARENA_SIZE)
    && (forall a: nat, i: nat :: Slot(a, i) in h <==> a < |idx| && i < idx[a])
  }

  /** Singletons refer to nothing and are never free; nil and the booleans are singletons only. */
  ghost predicate Kinds(h: Heap) {
    forall r | r in h :: if r.Static? then Kids(h[r]) == {} && !h[r].Free? else !Passed(h[r])
  }

  /** What the sweep would pass over, whether marked or not. */
  predicate Passed(b: Body) { b.Nil? || b.Bool? }

  ghost predicate AllLive(h: Heap, s: set<Ref>) { forall r | r in s :: Live(h, r) }

  ghost predicate OptLive(h: Heap, o: Option<Ref>) { o.Some? ==> Live(h, o.value) }

  ghost predicate SeqLive(h: Heap, s: seq<Ref>) { forall i | 0 <= i < |s| :: Live(h, s[i]) }

  /** Every slot in use is either live or on the free list, exactly once. */
  ghost predicate Sound(h: Heap, idx: seq<nat>, head: Option<Ref>, free: seq<Ref>) {
    Arenas(h, idx) && Linked(h, head, free) && Kinds(h) && Closed(h)
    && forall r | r in h :: h[r].Free? <==> r in free
  }

  /** Nothing to reuse and the last arena used up. */
  predicate Full(head: Option<Ref>, idx: seq<nat>) {
    head.None? && |idx| > 0 && idx[|idx| - 1] == ARENA_SIZE
  }

  /** The head of the free list, else the next slot of the last arena, else the first of a new one. */
  function NextSlot(head: Option<Ref>, idx: seq<nat>): Ref {
    if head.Some? then head.value
    else if Full(head, idx) || idx == [] then Slot(|idx|, 0)
    else Slot(|idx| - 1, idx[|idx| - 1])
  }

  function NextIdx(head: Option<Ref>, idx: seq<nat>): seq<nat> {
    if head.Some? then idx
    else if Full(head, idx) || idx == [] then idx + [1]
    else idx[|idx| - 1 := idx[|idx| - 1] + 1]
  }

  /** Savestack entries never decrease and never exceed the number of temporaries. */
  ghost predicate Ordered(save: seq<nat>, n: nat) {
    && (forall i | 0 <= i < |save| :: save[i] <= n)
    && (forall i, j | 0 <= i < j < |save| :: save[i] <= save[j])
  }

  ghost function Rows(ss: seq<seq<Ref>>): set<Ref> {
    if ss == [] then {} else Rows(ss[..|ss| - 1]) + Range(ss[|ss| - 1])
  }

  // ----- sweeping, as a change of heap -----

  ghost predicate Before(r: Ref, a: nat, i: nat) {
    r.Slot? && (r.arena < a || (r.arena == a && r.index < i))
  }

  /** The sweep has dealt with the slots before (a, i): marked ones are kept and unmarked, live
      ones without a mark are free, and the free list has grown by them. */
  ghost predicate Swept(h0: Heap, m0: set<Ref>, h: Heap, m: set<Ref>, head: Option<Ref>, free: seq<Ref>, a: nat,
                        i: nat) {
    && h.Keys == h0.Keys && Linked(h, head, free)
    && (forall r | r in h :: h[r].Free? <==> r in free)
    && (forall r | r in h && Before(r, a, i) ::
          if r in m0 || h0[r].Free? || Passed(h0[r]) then SameOrFree(h0, h, r) else h[r].Free?)
    && (forall r | r in h && !Before(r, a, i) :: h[r] == h0[r])
    && (forall r | r in m :: r in m0 && !(r in h && Before(r, a, i)))
    && (forall r | r in m0 && !(r in h && Before(r, a, i)) :: r in m)
  }

  ghost predicate SameOrFree(h0: Heap, h: Heap, r: Ref)
    requires r in h0 && r in h
  {
    if h0[r].Free? then h[r].Free? else h[r] == h0[r]
  }

  /** When all slots have been dealt with and the marks were exactly on what is reachable, the
      heap is sound again. */
  lemma SweptSound(h0: Heap, m0: set<Ref>, h: Heap, m: set<Ref>, head: Option<Ref>, free: seq<Ref>,
                   idx: seq<nat>, head0: Option<Ref>, free0: seq<Ref>)
    requires Sound(h0, idx, head0, free0) && Swept(h0, m0, h, m, head, free, |idx|, 0)
    requires forall x, k | x in m0 && x in h0 && k in Kids(h0[x]) :: k in m0
    requires forall r | r in m0 :: Live(h0, r)
    ensures Sound(h, idx, head, free) && (forall r | r in m :: r.Static? && r in h)
    ensures forall r | r in m0 :: r in h && h[r] == h0[r]
    ensures forall r | r in h && r.Slot? && r !in m0 :: h[r].Free?
  {
    forall r | r in h && r.Slot? ensures Before(r, |idx|, 0) { assert Slot(r.arena, r.index) in h0; }
    forall r | r in m ensures r.Static? { assert r in h0; }
    assert forall r | r in m0 :: h[r] == h0[r];
    assert forall r | r in h && r.Static? :: h[r] == h0[r] && Kids(h[r]) == {};
    forall r, k | r in h && k in Kids(h[r]) ensures Live(h, k) {
      assert r.Slot? && !h[r].Free?;
      assert r in m0 && k in Kids(h0[r]);
      assert k in m0 && Live(h0, k);
    }
    assert Arenas(h, idx);
  }

  // ----- exception handlers -----

  /** The handler scopes that are marked: those below the index. */
  function Marked(lexs: seq<Ref>, idx: int): seq<Ref> {
    if 0 < idx <= |lexs| then lexs[..idx] else []
  }

  /** `to` is `n` scopes out from `r`. */
  ghost predicate Encloses(h: Heap, r: Ref, to: Ref, n: nat)
    decreases n
  {
    r in h && if n == 0 then r == to else h[r].Lex? && h[r].parent.Some? && Encloses(h, h[r].parent.value, to, n - 1)
  }

  /** What holds a handler's scope: the temporary at `at`, saved with `base` savestack entries
      below it, is a scope `up` levels inside it. */
  datatype Hold = Hold(at: nat, base: nat, up: nat)

  ghost predicate Held(h: Heap, tmp: seq<Ref>, save: seq<nat>, scope: Ref, k: Hold) {
    && k.at < |tmp| && k.base <= |save|
    && (forall j | k.base <= j < |save| :: save[j] > k.at)
    && Encloses(h, tmp[k.at], scope, k.up)
  }

  /** Every handler's scope is held by a temporary, except that the innermost may still be
      waiting for its call to save one; until then the current scope is inside it.  Before the
      bottom handler is there nothing is claimed. */
  ghost predicate Handlers(h: Heap, tmp: seq<Ref>, save: seq<nat>, lexs: seq<Ref>, idx: int, lex: Option<Ref>,
                           held: seq<Hold>, above: nat)
  {
    || (lexs == [] && idx == 0 && held == [])
    || (&& lexs != [] && -1 <= idx < |lexs| && |held| <= idx + 1 <= |held| + 1
        && (forall i | 0 <= i < |held| :: Held(h, tmp, save, lexs[i], held[i]))
        && (forall i, j | 0 <= i < j < |held| :: held[i].base <= held[j].base)
        && (idx == |held| ==> lex.Some? && Encloses(h, lex.value, lexs[idx], above)))
  }

  /** No scope's enclosing scope ever changes. */
  ghost predicate SameParents(h: Heap, h': Heap) {
    forall x | x in h :: x in h' && (h[x].Lex? ==> h'[x].Lex? && h'[x].parent == h[x].parent)
  }

  lemma {:induction false} EnclosesSame(h: Heap, h': Heap, r: Ref, to: Ref, n: nat)
    requires Encloses(h, r, to, n) && SameParents(h, h')
    ensures Encloses(h', r, to, n)
    decreases n
  {
    if n > 0 { EnclosesSame(h, h', h[r].parent.value, to, n - 1); }
  }

  lemma {:induction false} EnclosesLive(h: Heap, r: Ref, to: Ref, n: nat)
    requires Encloses(h, r, to, n) && Live(h, r) && Closed(h)
    ensures Live(h, to)
    decreases n
  {
    if n > 0 {
      ScopeLive(h, r);
      EnclosesLive(h, h[r].parent.value, to, n - 1);
    }
  }

  /** A collection leaves the chain out of a root alone. */
  lemma {:induction false} EnclosesKept(h: Heap, h': Heap, roots: set<Ref>, r: Ref, to: Ref, n: nat)
    requires Encloses(h, r, to, n) && Reachable(h, roots, r)
    requires forall x | Reachable(h, roots, x) :: x in h' && x in h && h'[x] == h[x]
    ensures Encloses(h', r, to, n)
    decreases n
  {
    hide Reachable;
    if n > 0 {
      var q := h[r].parent.value;
      assert q in Kids(h[r]);
      ReachKid(h, roots, r, q);
      EnclosesKept(h, h', roots, q, to, n - 1);
    }
  }

  /** A change that takes nothing from the stacks and no parent from a scope. */
  lemma HandlersSame(h: Heap, h': Heap, tmp: seq<Ref>, tmp': seq<Ref>, save: seq<nat>, lexs: seq<Ref>, idx: int,
                     lex: Option<Ref>, held: seq<Hold>, above: nat)
    requires Handlers(h, tmp, save, lexs, idx, lex, held, above) && SameParents(h, h') && tmp <= tmp'
    ensures Handlers(h', tmp', save, lexs, idx, lex, held, above)
  {
    hide Encloses, SameParents;
    if lexs != [] {
      forall i | 0 <= i < |held| ensures Held(h', tmp', save, lexs[i], held[i]) {
        assert Held(h, tmp, save, lexs[i], held[i]);
        EnclosesSame(h, h', tmp[held[i].at], lexs[i], held[i].up);
      }
      if idx == |held| { EnclosesSame(h, h', lex.value, lexs[idx], above); }
    }
  }

  lemma SameParentsRefl(h: Heap)
    ensures SameParents(h, h)
  {
  }

  lemma HandlersPush(h: Heap, tmp: seq<Ref>, save: seq<nat>, lexs: seq<Ref>, idx: int, lex: Option<Ref>,
                     held: seq<Hold>, above: nat, l: Ref)
    requires Handlers(h, tmp, save, lexs, idx, lex, held, above) && l in h && h[l].Lex? && h[l].parent == lex
    ensures Handlers(h, tmp, save + [|tmp|], lexs, idx, Some(l), held, above + 1)
  {
    if lexs != [] {
      forall i | 0 <= i < |held| ensures Held(h, tmp, save + [|tmp|], lexs[i], held[i]) {
        assert Held(h, tmp, save, lexs[i], held[i]);
      }
    }
  }

  lemma HandlersPop(h: Heap, tmp: seq<Ref>, save: seq<nat>, lexs: seq<Ref>, idx: int, lex: Option<Ref>,
                    lex': Option<Ref>,
                    held: seq<Hold>, above: nat)
    requires Handlers(h, tmp, save, lexs, idx, lex, held, above) && Ordered(save, |tmp|) && save != []
    requires (lexs == [] || idx < |held|) && (held != [] ==> |save| > held[|held| - 1].base)
    ensures var n := |save| - 1;
            save[n] <= |tmp| && Handlers(h, tmp[..save[n]], save[..n], lexs, idx, lex', held, above)
  {
    hide Encloses;
    var n := |save| - 1;
    var tmp', save' := tmp[..save[n]], save[..n];
    if lexs != [] {
      forall i | 0 <= i < |held| ensures Held(h, tmp', save', lexs[i], held[i]) {
        assert Held(h, tmp, save, lexs[i], held[i]);
        assert i < |held| - 1 ==> held[i].base <= held[|held| - 1].base;
        assert save[n] > held[i].at && tmp'[held[i].at] == tmp[held[i].at];
      }
    }
  }

  lemma HandlersCollected(h: Heap, h': Heap, roots: set<Ref>, tmp: seq<Ref>, save: seq<nat>, lexs: seq<Ref>, idx: int,
                          lex: Option<Ref>, held: seq<Hold>, above: nat)
    requires Handlers(h, tmp, save, lexs, idx, lex, held, above)
    requires (forall i | 0 <= i < |tmp| :: tmp[i] in roots) && (lex.Some? ==> lex.value in roots)
    requires AllLive(h, roots)
    requires forall x | Reachable(h, roots, x) :: x in h' && x in h && h'[x] == h[x]
    ensures Handlers(h', tmp, save, lexs, idx, lex, held, above)
  {
    hide Encloses, Reachable;
    if lexs != [] {
      forall i | 0 <= i < |held| ensures Held(h', tmp, save, lexs[i], held[i]) {
        assert Held(h, tmp, save, lexs[i], held[i]);
        ReachSelf(h, roots, tmp[held[i].at]);
        EnclosesKept(h, h', roots, tmp[held[i].at], lexs[i], held[i].up);
      }
      if idx == |held| {
        ReachSelf(h, roots, lex.value);
        EnclosesKept(h, h', roots, lex.value, lexs[idx], above);
      }
    }
  }

  /** The innermost handler's scope is live, although it is not itself a root. */
  lemma InnermostLive(h: Heap, tmp: seq<Ref>, save: seq<nat>, lexs: seq<Ref>, idx: int, lex: Option<Ref>,
                      held: seq<Hold>, above: nat)
    requires Handlers(h, tmp, save, lexs, idx, lex, held, above) && lexs != [] && 0 <= idx
    requires Closed(h) && SeqLive(h, tmp) && OptLive(h, lex)
    ensures idx < |lexs| && Live(h, lexs[idx])
  {
    hide Encloses, Closed;
    if idx < |held| {
      assert Held(h, tmp, save, lexs[idx], held[idx]);
      EnclosesLive(h, tmp[held[idx].at], lexs[idx], held[idx].up);
    } else {
      EnclosesLive(h, lex.value, lexs[idx], above);
    }
  }

  /** Leaving the innermost handler, by its return or by a throw. */
  lemma HandlersLeave(h: Heap, tmp: seq<Ref>, save: seq<nat>, lexs: seq<Ref>, idx: int, lex: Option<Ref>,
                      lex': Option<Ref>,
                      held: seq<Hold>, above: nat)
    requires Handlers(h, tmp, save, lexs, idx, lex, held, above) && lexs != [] && 0 <= idx
    ensures idx <= |held| && Handlers(h, tmp, save, lexs, idx - 1, lex', held[..idx], above)
  {
    hide Encloses, Held;
  }

  /** The new innermost handler's scope is the current one. */
  lemma HandlersEnter(h: Heap, tmp: seq<Ref>, save: seq<nat>, lexs: seq<Ref>, idx: int, l: Ref, held: seq<Hold>,
                      above: nat)
    requires Handlers(h, tmp, save, lexs, idx, Some(l), held, above) && lexs != [] && |held| == idx + 1 && l in h
    ensures Handlers(h, tmp, save, lexs[..idx + 1] + [l], idx + 1, Some(l), held, 0)
  {
    hide Held;
    var lexs' := lexs[..idx + 1] + [l];
    forall i | 0 <= i < |held| ensures Held(h, tmp, save, lexs'[i], held[i]) { assert lexs'[i] == lexs[i]; }
  }

  lemma PushedHandler(h: Heap, tmp: seq<Ref>, save: seq<nat>, lexs: seq<Ref>, idx: int, l: Ref, held: seq<Hold>,
                      above: nat)
    requires Handlers(h, tmp, save, lexs, idx, Some(l), held, above) && lexs != [] && idx != |held| && Live(h, l)
    requires Closed(h) && SeqLive(h, tmp) && SeqLive(h, Marked(lexs, idx))
    ensures -1 <= idx < |lexs| && idx + 1 == |held|
    ensures Handlers(h, tmp, save, lexs[..idx + 1] + [l], idx + 1, Some(l), held, 0)
    ensures SeqLive(h, Marked(lexs[..idx + 1] + [l], idx + 1))
  {
    hide Held, Closed, Encloses;
    if idx >= 0 { InnermostLive(h, tmp, save, lexs, idx, Some(l), held, above); }
    MarkedGrows(h, lexs, idx, l);
    HandlersEnter(h, tmp, save, lexs, idx, l, held, above);
  }

  /** The call inside a try has saved the scope it was called in. */
  lemma HandlersSaved(h: Heap, tmp: seq<Ref>, save: seq<nat>, lexs: seq<Ref>, idx: int, l: Ref, lex': Option<Ref>,
                      held: seq<Hold>, above: nat)
    requires Handlers(h, tmp, save, lexs, idx, Some(l), held, above) && lexs != [] && |held| == idx
    requires Ordered(save, |tmp|)
    ensures Handlers(h, tmp + [l], save, lexs, idx, lex', held + [Hold(|tmp|, |save|, above)], above)
  {
    hide Encloses;
    var tmp', held' := tmp + [l], held + [Hold(|tmp|, |save|, above)];
    forall i | 0 <= i < |held'| ensures Held(h, tmp', save, lexs[i], held'[i]) {
      assert i < |held| ==> Held(h, tmp, save, lexs[i], held[i]);
    }
    forall i | 0 <= i < |held| ensures held[i].base <= |save| { assert Held(h, tmp, save, lexs[i], held[i]); }
  }

  /** Where no call is being waited for, the current scope does not matter. */
  lemma HandlersAnyScope(h: Heap, tmp: seq<Ref>, save: seq<nat>, lexs: seq<Ref>, idx: int, lex: Option<Ref>,
                         lex': Option<Ref>, held: seq<Hold>, above: nat)
    requires Handlers(h, tmp, save, lexs, idx, lex, held, above) && (lexs == [] || idx < |held|)
    ensures Handlers(h, tmp, save, lexs, idx, lex', held, above)
  {
    hide Held;
  }

  // ----- everything a world keeps outside its heap -----

  /** `callers` is the list of callers as long as it is the first temporary. */
  datatype Control = Ctl(universe: set<Ref>, lex: Option<Ref>, errvar: Option<Ref>, code: Option<Ref>,
                         lexs: seq<Ref>, idx: int, tmp: seq<Ref>, save: seq<nat>, held: seq<Hold>, above: nat,
                         callers: Option<Ref>)

  ghost predicate Listed(c: Control) {
    c.callers.Some? ==> c.tmp != [] && c.tmp[0] == c.callers.value && forall j | 0 <= j < |c.save| :: c.save[j] > 0
  }

  ghost function RootsOf(c: Control): set<Ref> {
    c.universe + Opt(c.lex) + Opt(c.errvar) + Opt(c.code) + Range(Marked(c.lexs, c.idx)) + Range(c.tmp)
  }

  /** The roots are live, every handler's scope is held, and the savestack is in order. */
  ghost predicate Controlled(h: Heap, c: Control) {
    && AllLive(h, c.universe) && OptLive(h, c.lex) && OptLive(h, c.errvar) && OptLive(h, c.code)
    && SeqLive(h, Marked(c.lexs, c.idx)) && SeqLive(h, c.tmp)
    && Handlers(h, c.tmp, c.save, c.lexs, c.idx, c.lex, c.held, c.above)
    && Ordered(c.save, |c.tmp|) && Listed(c)
  }

  /** Until the world is released its list of callers is alive. */
  lemma CallersLive(h: Heap, c: Control)
    requires Controlled(h, c) && c.callers.Some?
    ensures Live(h, c.callers.value)
  {
  }

  ghost predicate Waiting(c: Control) { c.lexs != [] && c.idx == |c.held| }

  lemma ControlledSave(h: Heap, c: Control, v: Ref)
    requires Controlled(h, c) && Live(h, v)
    ensures Controlled(h, c.(tmp := c.tmp + [v]))
  {
    hide Handlers, SameParents, Ordered, Live;
    SameParentsRefl(h);
    HandlersSame(h, h, c.tmp, c.tmp + [v], c.save, c.lexs, c.idx, c.lex, c.held, c.above);
    OrderedPush(c.save, |c.tmp|, |c.tmp| + 1);
  }

  /** The heap gains live values. */
  lemma ControlledGrow(h: Heap, h': Heap, c: Control)
    requires Controlled(h, c) && KeepsLive(h, h') && SameParents(h, h')
    ensures Controlled(h', c)
  {
    hide Handlers, SameParents, Ordered, Live;
    HandlersSame(h, h', c.tmp, c.tmp, c.save, c.lexs, c.idx, c.lex, c.held, c.above);
  }

  lemma ControlledPush(h: Heap, c: Control, l: Ref)
    requires Controlled(h, c) && Live(h, l) && h[l].Lex? && h[l].parent == c.lex
    ensures Controlled(h, c.(lex := Some(l), save := c.save + [|c.tmp|], above := c.above + 1))
  {
    hide Handlers, Ordered;
    HandlersPush(h, c.tmp, c.save, c.lexs, c.idx, c.lex, c.held, c.above, l);
    OrderedPush(c.save, |c.tmp|, |c.tmp|);
  }

  lemma ControlledPop(h: Heap, c: Control)
    requires Controlled(h, c) && Closed(h) && c.lex.Some? && c.lex.value in h && h[c.lex.value].Lex? && c.save != []
    requires !Waiting(c) && (c.held != [] ==> |c.save| > c.held[|c.held| - 1].base)
    ensures var n := |c.save| - 1;
            && c.save[n] <= |c.tmp|
            && Controlled(h, c.(lex := h[c.lex.value].parent, tmp := c.tmp[..c.save[n]], save := c.save[..n]))
  {
    hide Handlers, Ordered, Live, Closed;
    HandlersRange(h, c.tmp, c.save, c.lexs, c.idx, c.lex, c.held, c.above);
    HandlersPop(h, c.tmp, c.save, c.lexs, c.idx, c.lex, h[c.lex.value].parent, c.held, c.above);
    OrderedPop(c.save, |c.tmp|);
    ScopeLive(h, c.lex.value);
  }

  lemma ControlledBottom(h: Heap, c: Control)
    requires Controlled(h, c) && c.lexs == [] && c.lex.Some?
    ensures c.idx == 0 && c.held == [] && Controlled(h, c.(lexs := [c.lex.value], above := 0))
  {
  }

  lemma ControlledTry(h: Heap, c: Control)
    requires Controlled(h, c) && Closed(h) && c.lexs != [] && !Waiting(c) && c.lex.Some?
    ensures -1 <= c.idx < |c.lexs| && |c.held| == c.idx + 1
    ensures Controlled(h, c.(lexs := c.lexs[..c.idx + 1] + [c.lex.value], idx := c.idx + 1, above := 0))
  {
    hide Handlers, Ordered, Closed, Marked, Live;
    HandlersRange(h, c.tmp, c.save, c.lexs, c.idx, c.lex, c.held, c.above);
    PushedHandler(h, c.tmp, c.save, c.lexs, c.idx, c.lex.value, c.held, c.above);
  }

  /** The innermost handler is done with, by a return (`lex` stays) or by a throw. */
  lemma ControlledLeave(h: Heap, c: Control, lex: Option<Ref>)
    requires Controlled(h, c) && c.lexs != [] && 0 <= c.idx && OptLive(h, lex)
    ensures c.idx < |c.lexs| && c.idx <= |c.held|
    ensures Controlled(h, c.(lex := lex, idx := c.idx - 1, held := c.held[..c.idx]))
  {
    hide Handlers, Ordered, Live, Marked;
    HandlersRange(h, c.tmp, c.save, c.lexs, c.idx, c.lex, c.held, c.above);
    HandlersLeave(h, c.tmp, c.save, c.lexs, c.idx, c.lex, lex, c.held, c.above);
    MarkedShrinks(h, c.lexs, c.idx);
  }

  /** The innermost handler's scope is live, although it is not itself a root. */
  lemma HandlerScopeLive(h: Heap, c: Control)
    requires Controlled(h, c) && Closed(h) && c.lexs != [] && 0 <= c.idx
    ensures c.idx < |c.lexs| && Live(h, c.lexs[c.idx])
  {
    hide Handlers, Closed;
    InnermostLive(h, c.tmp, c.save, c.lexs, c.idx, c.lex, c.held, c.above);
  }

  /** A call in scope c.lex, if there is one, of a Code that carries `scope`. */
  ghost function Entered(c: Control, scope: Ref): Control {
    if c.lex.None? then c.(lex := Some(scope)) else
    c.(lex := Some(scope), tmp := c.tmp + [c.lex.value],
       held := if Waiting(c) then c.held + [Hold(|c.tmp|, |c.save|, c.above)] else c.held)
  }

  lemma ControlledCall(h: Heap, c: Control, scope: Ref)
    requires Controlled(h, c) && Live(h, scope)
    ensures Controlled(h, Entered(c, scope)) && !Waiting(Entered(c, scope))
  {
    hide Handlers, Ordered, Live, SameParents;
    HandlersRange(h, c.tmp, c.save, c.lexs, c.idx, c.lex, c.held, c.above);
    if c.lex.None? {
      HandlersAnyScope(h, c.tmp, c.save, c.lexs, c.idx, c.lex, Some(scope), c.held, c.above);
    } else if Waiting(c) {
      HandlersSaved(h, c.tmp, c.save, c.lexs, c.idx, c.lex.value, Some(scope), c.held, c.above);
    } else {
      SameParentsRefl(h);
      HandlersSame(h, h, c.tmp, c.tmp + [c.lex.value], c.save, c.lexs, c.idx, c.lex, c.held, c.above);
      HandlersAnyScope(h, c.tmp + [c.lex.value], c.save, c.lexs, c.idx, c.lex, Some(scope), c.held, c.above);
    }
    OrderedPush(c.save, |c.tmp|, |c.tmp| + 1);
  }

  lemma ControlledReturn(h: Heap, c: Control, lex: Option<Ref>)
    requires Controlled(h, c) && !Waiting(c) && (lex.Some? ==> lex.value in c.tmp)
    ensures Controlled(h, c.(lex := lex))
  {
    hide Handlers, Ordered, Live;
    HandlersRange(h, c.tmp, c.save, c.lexs, c.idx, c.lex, c.held, c.above);
    HandlersAnyScope(h, c.tmp, c.save, c.lexs, c.idx, c.lex, lex, c.held, c.above);
  }

  lemma ControlledThrow(h: Heap, c: Control, val: Ref)
    requires Controlled(h, c) && Live(h, val)
    ensures Controlled(h, c.(errvar := Some(val)))
  {
  }

  /** What a world is cleared to when the call of its worker has returned. */
  ghost function Cleared(c: Control): Control {
    c.(code := None, tmp := [], save := [], held := [], callers := None,
       above := if c.held == [] then c.above else c.held[0].up)
  }

  lemma ControlledClear(h: Heap, c: Control)
    requires Controlled(h, c) && c.idx == 0
    requires c.held != [] ==> c.held[0].at < |c.tmp| && c.lex == Some(c.tmp[c.held[0].at])
    ensures Controlled(h, Cleared(c))
  {
    hide Encloses, Live;
    assert c.held != [] ==> Held(h, c.tmp, c.save, c.lexs[0], c.held[0]);
  }

  lemma RootsLive(h: Heap, c: Control)
    requires Controlled(h, c)
    ensures AllLive(h, RootsOf(c))
  {
    hide Handlers, Ordered, Live;
  }

  /** What a collection from the roots leaves. */
  lemma ControlledCollected(h: Heap, h': Heap, c: Control)
    requires Controlled(h, c)
    requires forall r | Reachable(h, RootsOf(c), r) :: r in h' && r in h && h'[r] == h[r]
    ensures Controlled(h', c) && forall r | r in c.tmp :: r in h && r in h' && h'[r] == h[r]
  {
    hide Reachable, Handlers, Ordered, Marked;
    RootsLive(h, c);
    RootsUnchanged(h, h', RootsOf(c));
    var all := RootsOf(c);
    assert c.lex.Some? ==> c.lex.value in all;
    assert c.errvar.Some? ==> c.errvar.value in all;
    assert c.code.Some? ==> c.code.value in all;
    assert forall i | 0 <= i < |Marked(c.lexs, c.idx)| :: Marked(c.lexs, c.idx)[i] in all;
    assert forall i | 0 <= i < |c.tmp| :: c.tmp[i] in all;
    HandlersCollected(h, h', all, c.tmp, c.save, c.lexs, c.idx, c.lex, c.held, c.above);
  }

  // ----- one event in the life of a world -----

  datatype Snap = Snap(heap: Heap, tmp: seq<Ref>, save: seq<nat>)

  datatype Event = Save | Push | Pop | Collection | Other

  ghost predicate KeepsLive(h: Heap, h': Heap) {
    forall r | Live(h, r) :: Live(h', r)
  }

  ghost predicate Next(s: Snap, e: Event, s': Snap) {
    match e
    case Save => s'.save == s.save && |s'.tmp| > 0 && s'.tmp[..|s'.tmp| - 1] == s.tmp && KeepsLive(s.heap, s'.heap)
    case Push =>
      && |s'.tmp| > 0 && s'.tmp[..|s'.tmp| - 1] == s.tmp && s'.save == s.save + [|s'.tmp|]
      && KeepsLive(s.heap, s'.heap)
    case Pop =>
      && s.save != [] && s.save[|s.save| - 1] <= |s.tmp| && s'.heap == s.heap
      && s'.tmp == s.tmp[..s.save[|s.save| - 1]] && s'.save == s.save[..|s.save| - 1]
    case Collection =>
      && s'.tmp == s.tmp && s'.save == s.save
      && forall r | r in s.tmp && r in s.heap :: r in s'.heap && s'.heap[r] == s.heap[r]
    case Other => s'.tmp == s.tmp && s'.save == s.save && KeepsLive(s.heap, s'.heap)
  }

  class World {
    var heap: Heap
    var marked: set<Ref>            // the values whose GC_MARK flag is set
    var idx: seq<nat>               // per arena, how many of its slots have been handed out
    var freelist: Option<Ref>
    var lex: Option<Ref>
    var errvar: Option<Ref>
    var code: Option<Ref>
    var handlerLexs: seq<Ref>
    var handlerIdx: int
    var tmpstack: seq<Ref>
    var savestack: seq<nat>
    var gcRequested: bool
    var inc: Ref                    // roots held by the universe
    var args: Ref
    var signals: seq<seq<Ref>>
    ghost var free: seq<Ref>
    var callerStack: Ref
    ghost var listed: Option<Ref>   // the list of callers, while it is the first temporary
    ghost var held: seq<Hold>       // for each handler, what holds its scope
    ghost var above: nat

    ghost function UniverseRoots(): set<Ref>
      reads this
    {
      {inc} + {args} + Rows(signals)
    }

    ghost function Roots(): set<Ref>
      reads this
    {
      RootsOf(Control())
    }

    ghost function Control(): Control
      reads this
    {
      Ctl(UniverseRoots(), lex, errvar, code, handlerLexs, handlerIdx, tmpstack, savestack, held, above, listed)
    }

    ghost predicate Valid()
      reads this
    {
      && Sound(heap, idx, freelist, free) && Controlled(heap, Control())
      && forall r | r in marked :: r.Static? && r in heap
    }

    ghost function Now(): Snap
      reads this
    {
      Snap(heap, tmpstack, savestack)
    }

    /** A new world over the singletons: one arena, an outermost scope, the list of callers as the
        first temporary, and room for handlers but none in it. */
    constructor (statics: Heap, nil: Ref, inc: Ref, args: Ref, signals: seq<seq<Ref>>)
      requires forall r | r in statics :: r.Static? && Kids(statics[r]) == {} && !statics[r].Free?
      requires nil in statics && inc in statics && args in statics && Rows(signals) <= statics.Keys
      ensures Valid() && lex == Some(Slot(0, 0)) && heap == statics[Slot(0, 0) := Lex([], None)][Slot(0, 1) := Ary([])]
      ensures tmpstack == [Slot(0, 1)] && savestack == [] && handlerLexs == [] && errvar == Some(nil) && !gcRequested
      ensures callerStack == Slot(0, 1) && listed == Some(callerStack)
      ensures code == None && this.inc == inc && this.args == args
      ensures this.signals == signals && handlerIdx == 0 && held == [] && idx == [2] && freelist == None
    {
      heap := statics[Slot(0, 0) := Lex([], None)][Slot(0, 1) := Ary([])];
      marked, idx, freelist, free := {}, [2], None, [];
      lex, errvar, code := Some(Slot(0, 0)), Some(nil), None;
      handlerLexs, handlerIdx, held, above := [], 0, [], 0;
      tmpstack, savestack, gcRequested := [Slot(0, 1)], [], false;
      this.inc, this.args, this.signals := inc, args, signals;
      callerStack, listed := Slot(0, 1), Some(Slot(0, 1));
      new;
      hide Sound, Controlled, Rows;
      NewWorld(statics, Control());
    }

    // ----- marking -----

    ghost predicate CanMark(s: set<Ref>)
      reads this
    {
      Closed(heap) && AllLive(heap, s)
    }

    /** Mark a value and everything it leads to that is not marked yet. */
    method MarkValue(v: Ref)
      requires CanMark({v})
      modifies this`marked
      ensures Marks(heap, old(marked), marked, {v})
      decreases |heap.Keys - marked|, 0
    {
      hide Marks, Kids, Closed;
      if v in marked {
        MarksSeen(heap, marked, v);
        return;
      }
      ghost var before := marked;
      Shrinks(heap.Keys, marked, v);
      marked := marked + {v};
      KidsLive(heap, v);
      var b := heap[v];
      match b {
        case Str(_, _) => StrMark(v);
        case Ary(_) => AryMark(v);
        case Map(_) => MapMark(v);
        case Code(_, _) => CodeMark(v);
        case Obj(_, _) => ObjMark(v);
        case Lex(_, _) => LexMark(v);
        case _ => NoKids(b); MarksNone(heap, marked);
      }
      MarksNode(heap, before, marked, v);
    }

    /** Mark each value of a list in turn. */
    method MarkAll(vs: seq<Ref>)
      requires CanMark(Range(vs))
      modifies this`marked
      ensures Marks(heap, old(marked), marked, Range(vs))
      decreases |heap.Keys - marked|, 1
    {
      hide Marks, Closed;
      MarksNone(heap, marked);
      assert Range(vs[..0]) == {};
      for i := 0 to |vs|
        invariant Marks(heap, old(marked), marked, Range(vs[..i])) && old(marked) <= marked
      {
        ghost var m := marked;
        Fewer(heap.Keys, old(marked), marked);
        MarkValue(vs[i]);
        MarksThen(heap, old(marked), m, marked, Range(vs[..i]), {vs[i]});
        MarksGrow(heap, m, marked, {vs[i]});
        RangeOne(vs, i);
      }
      assert vs[..|vs|] == vs;
    }

    /** A copied string keeps the string whose buffer it shares. */
    method StrMark(v: Ref)
      requires v in heap && heap[v].Str? && CanMark(Kids(heap[v]))
      modifies this`marked
      ensures Marks(heap, old(marked), marked, Kids(heap[v]))
      ensures Covered(heap[v], marked)
      decreases |heap.Keys - marked|, 1
    {
      hide Marks, Closed, Covered;
      MarksNone(heap, marked);
      if heap[v].source.Some? { MarkValue(heap[v].source.value); }
      MarksCover(heap, old(marked), marked, heap[v]);
    }

    method CodeMark(v: Ref)
      requires v in heap && heap[v].Code? && CanMark(Kids(heap[v]))
      modifies this`marked
      ensures Marks(heap, old(marked), marked, Kids(heap[v]))
      ensures Covered(heap[v], marked)
      decreases |heap.Keys - marked|, 1
    {
      hide Marks, Closed, Covered;
      MarksNone(heap, marked);
      if heap[v].scope.Some? { MarkValue(heap[v].scope.value); }
      MarksCover(heap, old(marked), marked, heap[v]);
    }

    method AryMark(v: Ref)
      requires v in heap && heap[v].Ary? && CanMark(Kids(heap[v]))
      modifies this`marked
      ensures Marks(heap, old(marked), marked, Kids(heap[v]))
      ensures Covered(heap[v], marked)
      decreases |heap.Keys - marked|, 2
    {
      hide Marks, Closed, Covered;
      MarkAll(heap[v].elems);
      MarksCover(heap, old(marked), marked, heap[v]);
    }

    /** Mark key and value of each entry. */
    method MapMark(v: Ref)
      requires v in heap && heap[v].Map? && CanMark(Kids(heap[v]))
      modifies this`marked
      ensures Marks(heap, old(marked), marked, Kids(heap[v]))
      ensures Covered(heap[v], marked)
      decreases |heap.Keys - marked|, 1
    {
      hide Marks, Closed, Covered;
      var es := heap[v].entries;
      MarksNone(heap, marked);
      assert Range(Firsts(es[..0])) + Range(Seconds(es[..0])) == {};
      for i := 0 to |es|
        invariant Marks(heap, old(marked), marked, Range(Firsts(es[..i])) + Range(Seconds(es[..i])))
        invariant old(marked) <= marked
      {
        ghost var m, seen := marked, Range(Firsts(es[..i])) + Range(Seconds(es[..i]));
        assert Firsts(es)[i] == es[i].0 && Seconds(es)[i] == es[i].1;
        Fewer(heap.Keys, old(marked), marked);
        MarkValue(es[i].0);
        ghost var m' := marked;
        MarksGrow(heap, m, m', {es[i].0});
        Fewer(heap.Keys, old(marked), marked);
        MarkValue(es[i].1);
        MarksGrow(heap, m', marked, {es[i].1});
        MarksThen(heap, m, m', marked, {es[i].0}, {es[i].1});
        MarksThen(heap, old(marked), m, marked, seen, {es[i].0} + {es[i].1});
        RangePairs(es, i);
      }
      assert es[..|es|] == es;
      MarksCover(heap, old(marked), marked, heap[v]);
    }

    /** Mark the second components of a list of named values. */
    method MarkValues(es: seq<(string, Ref)>)
      requires CanMark(Range(Seconds(es)))
      modifies this`marked
      ensures Marks(heap, old(marked), marked, Range(Seconds(es)))
      decreases |heap.Keys - marked|, 1
    {
      hide Marks, Closed;
      MarksNone(heap, marked);
      assert Range(Seconds(es[..0])) == {};
      for i := 0 to |es|
        invariant Marks(heap, old(marked), marked, Range(Seconds(es[..i]))) && old(marked) <= marked
      {
        ghost var m := marked;
        assert Seconds(es)[i] == es[i].1;
        Fewer(heap.Keys, old(marked), marked);
        MarkValue(es[i].1);
        MarksGrow(heap, m, marked, {es[i].1});
        MarksThen(heap, old(marked), m, marked, Range(Seconds(es[..i])), {es[i].1});
        RangeSeconds(es, i);
      }
      assert es[..|es|] == es;
    }

    /** Instance variables, then the class. */
    method ObjMark(v: Ref)
      requires v in heap && heap[v].Obj? && CanMark(Kids(heap[v]))
      modifies this`marked
      ensures Marks(heap, old(marked), marked, Kids(heap[v]))
      ensures Covered(heap[v], marked)
      decreases |heap.Keys - marked|, 2
    {
      hide Marks, Closed, Covered;
      ghost var m := marked;
      MarkValues(heap[v].ivars);
      ghost var m' := marked;
      MarksGrow(heap, m, m', Range(Seconds(heap[v].ivars)));
      Fewer(heap.Keys, m, m');
      MarkValue(heap[v].klass);
      MarksThen(heap, m, m', marked, Range(Seconds(heap[v].ivars)), {heap[v].klass});
      MarksCover(heap, old(marked), marked, heap[v]);
    }

    /** Variables, then the enclosing scope. */
    method LexMark(v: Ref)
      requires v in heap && heap[v].Lex? && CanMark(Kids(heap[v]))
      modifies this`marked
      ensures Marks(heap, old(marked), marked, Kids(heap[v]))
      ensures Covered(heap[v], marked)
      decreases |heap.Keys - marked|, 2
    {
      hide Marks, Closed, Covered;
      ghost var m := marked;
      MarkValues(heap[v].vars);
      ghost var m' := marked;
      MarksGrow(heap, m, m', Range(Seconds(heap[v].vars)));
      Fewer(heap.Keys, m, m');
      MarksNone(heap, marked);
      if heap[v].parent.Some? { MarkValue(heap[v].parent.value); }
      MarksThen(heap, m, m', marked, Range(Seconds(heap[v].vars)), Opt(heap[v].parent));
      MarksCover(heap, old(marked), marked, heap[v]);
    }

    // ----- roots -----

    method UniverseMark()
      requires CanMark(UniverseRoots())
      modifies this`marked
      ensures Marks(heap, old(marked), marked, UniverseRoots())
    {
      hide Marks, Closed;
      ghost var m0 := marked;
      MarkValue(inc);
      ghost var m1 := marked;
      MarkValue(args);
      ghost var m2 := marked;
      MarksThen(heap, m0, m1, m2, {inc}, {args});
      MarksNone(heap, marked);
      for i := 0 to |signals|
        invariant Marks(heap, m2, marked, Rows(signals[..i]))
      {
        ghost var m := marked;
        RowsOne(signals, i);
        RowsHas(signals, i);
        MarkAll(signals[i]);
        MarksThen(heap, m2, m, marked, Rows(signals[..i]), Range(signals[i]));
      }
      assert signals[..|signals|] == signals;
      MarksThen(heap, m0, m2, marked, {inc} + {args}, Rows(signals));
    }

    method MarkOpt(o: Option<Ref>)
      requires CanMark(Opt(o))
      modifies this`marked
      ensures Marks(heap, old(marked), marked, Opt(o))
    {
      hide Marks, Closed;
      MarksNone(heap, marked);
      if o.Some? { MarkValue(o.value); }
    }

    /** Scope, error, code, the handler scopes below the handler index, and the temporaries. */
    method WorldMark()
      requires CanMark(Roots())
      modifies this`marked
      ensures Marks(heap, old(marked), marked,
                    Opt(lex) + Opt(errvar) + Opt(code) + Range(Marked(handlerLexs, handlerIdx)) + Range(tmpstack))
    {
      hide Marks, Closed;
      ghost var m0 := marked;
      MarkOpt(lex);
      ghost var m1 := marked;
      MarkOpt(errvar);
      ghost var m2 := marked;
      MarkOpt(code);
      ghost var m3 := marked;
      MarkAll(Marked(handlerLexs, handlerIdx));
      ghost var m4 := marked;
      MarkAll(tmpstack);
      MarksThen(heap, m0, m1, m2, Opt(lex), Opt(errvar));
      MarksThen(heap, m0, m2, m3, Opt(lex) + Opt(errvar), Opt(code));
      MarksThen(heap, m0, m3, m4, Opt(lex) + Opt(errvar) + Opt(code), Range(Marked(handlerLexs, handlerIdx)));
      MarksThen(heap, m0, m4, marked, Opt(lex) + Opt(errvar) + Opt(code) + Range(Marked(handlerLexs, handlerIdx)),
                Range(tmpstack));
    }

    method GcMark()
      requires CanMark(Roots())
      modifies this`marked
      ensures Marks(heap, old(marked), marked, Roots())
    {
      hide Marks, Closed;
      ghost var m0 := marked;
      UniverseMark();
      ghost var m1 := marked;
      WorldMark();
      ghost var w := Opt(lex) + Opt(errvar) + Opt(code) + Range(Marked(handlerLexs, handlerIdx)) + Range(tmpstack);
      MarksThen(heap, m0, m1, marked, UniverseRoots(), w);
      assert UniverseRoots() + w == Roots();
    }

    // ----- sweeping -----

    /** Put a slot on the free list. */
    method ValFree(r: Ref)
      requires r in heap && r !in free && Linked(heap, freelist, free)
      modifies this`heap, this`freelist, this`free
      ensures heap == old(heap)[r := Free(old(freelist))] && freelist == Some(r) && free == [r] + old(free)
      ensures Linked(heap, freelist, free)
    {
      LinkedPush(heap, freelist, free, r);
      heap := heap[r := Free(freelist)];
      freelist := Some(r);
      free := [r] + free;
    }

    method SweepSlot(r: Ref, ghost h0: Heap, ghost m0: set<Ref>)
      requires r.Slot? && r in heap && Swept(h0, m0, heap, marked, freelist, free, r.arena, r.index)
      requires forall x | x in m0 :: Live(h0, x)
      modifies this`heap, this`marked, this`freelist, this`free
      ensures Swept(h0, m0, heap, marked, freelist, free, r.arena, r.index + 1)
    {
      if heap[r].Free? { return; }
      if r in marked {
        marked := marked - {r};
      } else if !Passed(heap[r]) {
        ValFree(r);
      }
    }

    method Collect()
      requires Sound(heap, idx, freelist, free)
      requires forall x, k | x in marked && x in heap && k in Kids(heap[x]) :: k in marked
      requires forall r | r in marked :: Live(heap, r)
      modifies this`heap, this`marked, this`freelist, this`free
      ensures Sound(heap, idx, freelist, free) && forall r | r in marked :: r.Static? && r in heap
      ensures forall r | r in old(marked) :: r in heap && r in old(heap) && heap[r] == old(heap)[r]
      ensures forall r | r in heap && r.Slot? && r !in old(marked) :: heap[r].Free?
      ensures heap.Keys == old(heap).Keys
    {
      ghost var h0, m0 := heap, marked;
      for a := 0 to |idx|
        invariant Swept(h0, m0, heap, marked, freelist, free, a, 0)
      {
        for i := 0 to idx[a]
          invariant Swept(h0, m0, heap, marked, freelist, free, a, i)
        {
          assert Slot(a, i) in h0;
          SweepSlot(Slot(a, i), h0, m0);
        }
        NextArena(h0, m0, heap, marked, freelist, free, idx, a);
      }
      SweptSound(h0, m0, heap, marked, freelist, free, idx, old(freelist), old(free));
    }

    /** A full collection: what is reachable from the roots is unchanged, every other slot that was
        live is free, and no slot is left marked. */
    method GcRun()
      requires Valid()
      modifies this`heap, this`marked, this`freelist, this`free, this`gcRequested
      ensures Valid() && !gcRequested && Roots() == old(Roots()) && heap.Keys == old(heap).Keys
      ensures forall r | Reachable(old(heap), Roots(), r) :: r in heap && r in old(heap) && heap[r] == old(heap)[r]
      ensures forall r | r in heap && r.Slot? && !Reachable(old(heap), Roots(), r) :: heap[r].Free?
      ensures Next(old(Now()), Collection, Now()) && NoDangling(heap)
    {
      hide NoDangling;
      hide Marks, Closed, Reachable, Linked, Arenas, Kinds, Passed, Live, AllLive, Controlled, RootsOf;
      ghost var h0 := heap;
      RootsLive(heap, Control());
      GcMark();
      MarkedWell(h0, old(marked), marked, Roots());
      Collect();
      gcRequested := false;
      ControlledCollected(h0, heap, Control());
      ClosedIff(heap);
    }

    // ----- allocation and the stacks -----

    method SaveTmp(v: Ref)
      requires Valid() && Live(heap, v)
      modifies this`tmpstack
      ensures Valid() && tmpstack == old(tmpstack) + [v] && Next(old(Now()), Save, Now())
    {
      hide Sound, Live, Controlled, KeepsLive;
      ControlledSave(heap, Control(), v);
      KeepsLiveRefl(heap);
      tmpstack := tmpstack + [v];
    }

    /** A slot that is not in use: the head of the free list, else the next one of the last arena,
        else the first of a new arena. */
    method TakeSlot() returns (r: Ref)
      requires Valid()
      modifies this`freelist, this`free, this`idx, this`gcRequested, this`heap
      ensures r.Slot? && !Live(old(heap), r) && heap == old(heap)[r := Int(0)]
      ensures Sound(heap, idx, freelist, free)
      ensures r == NextSlot(old(freelist), old(idx)) && idx == NextIdx(old(freelist), old(idx))
      ensures gcRequested == (old(gcRequested) || Full(old(freelist), old(idx)))
    {
      hide Kids, Controlled;
      if freelist.Some? {
        r := freelist.value;
        freelist := heap[r].next;
        PopFree(heap, idx, old(freelist), free);
        free := free[1..];
        heap := heap[r := Int(0)];
      } else {
        var last := |idx| - 1;
        if idx[last] == ARENA_SIZE {
          gcRequested := true;
          r := Slot(|idx|, 0);
          BumpArena(heap, idx, freelist, free, idx + [1], r);
          idx := idx + [1];
        } else {
          r := Slot(last, idx[last]);
          BumpArena(heap, idx, freelist, free, idx[last := idx[last] + 1], r);
          idx := idx[last := idx[last] + 1];
        }
        heap := heap[r := Int(0)];
      }
    }

    /** A new value: its slot held no live value before, and it is a temporary. */
    method ObjAlloc(b: Body) returns (r: Ref)
      requires Valid() && !b.Free? && !b.Nil? && !b.Bool? && AllLive(heap, Kids(b))
      modifies this`freelist, this`free, this`idx, this`gcRequested, this`heap, this`tmpstack
      ensures Valid() && r.Slot? && !Live(old(heap), r) && heap == old(heap)[r := b]
      ensures tmpstack == old(tmpstack) + [r] && Next(old(Now()), Save, Now())
      ensures r == NextSlot(old(freelist), old(idx))
      ensures gcRequested == (old(gcRequested) || Full(old(freelist), old(idx)))
    {
      hide Sound, Live, AllLive, KeepsLive, Kids, Controlled, SameParents, NextSlot, NextIdx, Full, Rows, Passed;
      NotPassed(b);
      ghost var c := Control();
      r := TakeSlot();
      FillSlot(old(heap), heap, idx, freelist, free, r, b);
      heap := heap[r := b];
      KeepsLiveFill(old(heap), heap, r, b);
      SameParentsFill(old(heap), heap, r, b);
      ControlledGrow(old(heap), heap, c);
      ControlledSave(heap, c, r);
      tmpstack := tmpstack + [r];
    }

    method PushScope()
      requires Valid()
      modifies this`freelist, this`free, this`idx, this`gcRequested, this`heap
      modifies this`tmpstack, this`lex, this`savestack, this`above
      ensures Valid() && lex.Some? && !Live(old(heap), lex.value) && heap == old(heap)[lex.value := Lex([], old(lex))]
      ensures Next(old(Now()), Push, Now())
    {
      hide Sound, KeepsLive, Kids, Controlled, AllLive, NextSlot, Full, Rows;
      LexKids(lex);
      LexLive(heap, Control());
      var l := ObjAlloc(Lex([], lex));
      ControlledPush(heap, Control(), l);
      above := above + 1;
      lex := Some(l);
      savestack := savestack + [|tmpstack|];
    }

    /** Back to the enclosing scope, dropping the temporaries made since the scope was entered.
        A try's body pops no scope that was pushed before it. */
    method PopScope()
      requires Valid() && lex.Some? && heap[lex.value].Lex? && savestack != []
      requires !Waiting(Control()) && (held != [] ==> |savestack| > held[|held| - 1].base)
      modifies this`lex, this`tmpstack, this`savestack
      ensures Valid() && lex == heap[old(lex).value].parent && Next(old(Now()), Pop, Now())
    {
      hide Sound, Controlled;
      LexLive(heap, Control());
      SoundClosed(heap, idx, freelist, free);
      ControlledPop(heap, Control());
      lex := heap[lex.value].parent;
      tmpstack := tmpstack[..savestack[|savestack| - 1]];
      savestack := savestack[..|savestack| - 1];
    }

    // ----- handlers and calls -----

    /** A worker starts: the bottom handler has the scope the worker starts in. */
    method BottomHandler()
      requires Valid() && handlerLexs == [] && lex.Some?
      modifies this`handlerLexs, this`above
      ensures Valid() && handlerLexs == [lex.value] && handlerIdx == 0
      ensures Waiting(Control()) && Next(old(Now()), Other, Now())
    {
      hide Sound, Controlled, KeepsLive;
      ControlledBottom(heap, Control());
      KeepsLiveRefl(heap);
      handlerLexs, above := [lex.value], 0;
    }

    /** A try begins.  The scope above which it will rewind is written one past the index. */
    method HandlerPush()
      requires Valid() && handlerLexs != [] && !Waiting(Control()) && lex.Some?
      modifies this`handlerLexs, this`handlerIdx, this`above
      ensures Valid() && Waiting(Control()) && handlerIdx == old(handlerIdx) + 1
      ensures -1 <= old(handlerIdx) < |old(handlerLexs)|
      ensures handlerLexs == old(handlerLexs)[..handlerIdx] + [lex.value]
      ensures Next(old(Now()), Other, Now())
    {
      hide Sound, Controlled, KeepsLive;
      SoundClosed(heap, idx, freelist, free);
      ControlledTry(heap, Control());
      KeepsLiveRefl(heap);
      handlerLexs := handlerLexs[..handlerIdx + 1] + [lex.value];
      handlerIdx, above := handlerIdx + 1, 0;
    }

    /** A try's call has returned. */
    method HandlerPop()
      requires Valid() && handlerLexs != [] && 0 <= handlerIdx
      modifies this`handlerIdx, this`held
      ensures Valid() && !Waiting(Control()) && handlerIdx == old(handlerIdx) - 1 && Next(old(Now()), Other, Now())
    {
      hide Sound, Controlled, KeepsLive;
      LexLive(heap, Control());
      ControlledLeave(heap, Control(), lex);
      KeepsLiveRefl(heap);
      held := held[..handlerIdx];
      handlerIdx := handlerIdx - 1;
    }

    /** A collection that was asked for is run where a call begins; what is reachable stays. */
    method SafePoint(ghost scope: Ref)
      requires Valid() && Reachable(heap, Roots(), scope)
      modifies this`heap, this`marked, this`freelist, this`free, this`gcRequested
      ensures Valid() && !gcRequested && Live(heap, scope) && Next(old(Now()), Collection, Now())
    {
      hide Sound, Live, Controlled, Reachable, RootsOf, Rows;
      ReachableLive(heap, idx, freelist, free, Control(), scope);
      CollectionRefl(Now());
      if gcRequested {
        ghost var h := heap;
        GcRun();
        LiveSame(h, heap, scope);
      }
    }

    /** A call begins: a pending collection is run, the caller's scope, if there is one, is saved as a
        temporary, and the code's own scope takes its place.  `at` is where the caller's scope is saved. */
    method CallEnter(scope: Ref) returns (at: Option<nat>, ghost mid: Snap)
      requires Valid() && Reachable(heap, Roots(), scope)
      modifies this`heap, this`marked, this`freelist, this`free, this`gcRequested, this`tmpstack, this`lex, this`held
      ensures Valid() && !Waiting(Control()) && lex == Some(scope) && Next(old(Now()), Collection, mid)
      ensures old(lex).Some? ==>
                at == Some(|old(tmpstack)|) && tmpstack == old(tmpstack) + [old(lex).value] && Next(mid, Save, Now())
      ensures old(lex).None? ==> at == None && tmpstack == old(tmpstack) && Next(mid, Other, Now())
    {
      hide Sound, Live, Controlled, Reachable, KeepsLive, RootsOf, Rows;
      SafePoint(scope);
      mid := Now();
      ghost var c := Control();
      ControlledCall(heap, c, scope);
      KeepsLiveRefl(heap);
      held := Entered(c, scope).held;
      at := None;
      if lex.Some? {
        at := Some(|tmpstack|);
        tmpstack := tmpstack + [lex.value];
      }
      lex := Some(scope);
    }

    /** A call returns, early or not: the scope saved at its beginning is put back. */
    method ReturnTo(at: Option<nat>)
      requires Valid() && !Waiting(Control()) && (at.Some? ==> at.value < |tmpstack|)
      modifies this`lex
      ensures Valid() && lex == (if at.Some? then Some(tmpstack[at.value]) else None) && Next(old(Now()), Other, Now())
    {
      hide Sound, Controlled, KeepsLive;
      ControlledReturn(heap, Control(), if at.Some? then Some(tmpstack[at.value]) else None);
      KeepsLiveRefl(heap);
      lex := if at.Some? then Some(tmpstack[at.value]) else None;
    }

    /** A module is run in no scope: the current one is saved and left. */
    method LeaveScope() returns (at: Option<nat>)
      requires Valid() && lex.Some? && !Waiting(Control())
      modifies this`tmpstack, this`lex
      ensures Valid() && lex == None && at == Some(|old(tmpstack)|) && tmpstack == old(tmpstack) + [old(lex).value]
      ensures Next(old(Now()), Save, Now())
    {
      hide Sound, Live, Controlled, KeepsLive;
      ghost var c := Control();
      LexLive(heap, c);
      ControlledSave(heap, c, lex.value);
      ControlledReturn(heap, c.(tmp := c.tmp + [lex.value]), None);
      KeepsLiveRefl(heap);
      at := Some(|tmpstack|);
      tmpstack, lex := tmpstack + [lex.value], None;
    }

    /** The program asks for a collection. */
    method RequestGc()
      requires Valid()
      modifies this`gcRequested
      ensures Valid() && gcRequested
    {
      gcRequested := true;
    }

    /** A throw takes the value and the scope of the innermost handler, which is live although the
        collector does not mark it as a handler scope.  Neither stack is rewound. */
    method Throw(val: Ref)
      requires Valid() && Live(heap, val) && handlerLexs != [] && 0 <= handlerIdx
      modifies this`errvar, this`lex, this`handlerIdx, this`held
      ensures Valid() && errvar == Some(val) && old(handlerIdx) < |handlerLexs|
      ensures lex == Some(handlerLexs[old(handlerIdx)]) && Live(heap, handlerLexs[old(handlerIdx)])
      ensures handlerIdx == old(handlerIdx) - 1 && !Waiting(Control()) && Next(old(Now()), Other, Now())
    {
      hide Sound, Controlled, KeepsLive, Live;
      SoundClosed(heap, idx, freelist, free);
      ghost var c := Control();
      HandlerScopeLive(heap, c);
      ControlledThrow(heap, c, val);
      ControlledLeave(heap, c.(errvar := Some(val)), Some(handlerLexs[handlerIdx]));
      KeepsLiveRefl(heap);
      errvar := Some(val);
      lex := Some(handlerLexs[handlerIdx]);
      held := held[..handlerIdx];
      handlerIdx := handlerIdx - 1;
    }

    /** The program changes a value in place; the enclosing scope of a scope never changes. */
    method Mutate(r: Ref, b: Body)
      requires Valid() && r.Slot? && Live(heap, r) && !b.Free? && !b.Nil? && !b.Bool? && AllLive(heap, Kids(b))
      requires heap[r].Lex? ==> b.Lex? && b.parent == heap[r].parent
      modifies this`heap
      ensures Valid() && heap == old(heap)[r := b] && Next(old(Now()), Other, Now())
    {
      hide Sound, AllLive, KeepsLive, Kids, Controlled, SameParents;
      Overwrite(heap, idx, freelist, free, r, b);
      heap := heap[r := b];
      KeepsLiveFill(old(heap), heap, r, b);
      SameParentsMutate(old(heap), heap, r, b);
      ControlledGrow(old(heap), heap, Control());
    }

    /** Nothing is a temporary any more.  The worker's call has returned, so no try is open and the current
        scope is the one that call was made in. */
    method Clear()
      requires Valid() && handlerIdx == 0
      requires held != [] ==> held[0].at < |tmpstack| && lex == Some(tmpstack[held[0].at])
      modifies this`tmpstack, this`savestack, this`code, this`held, this`above, this`listed
      ensures Valid() && tmpstack == [] && savestack == [] && code == None && held == []
    {
      hide Sound, Controlled, Rows;
      ControlledClear(heap, Control());
      above := if held == [] then above else held[0].up;
      held, listed := [], None;
      tmpstack, savestack, code := [], [], None;
    }

    /** A world is cleared before it is reused, and a collection that was asked for is run from what is left. */
    method Release()
      requires Valid() && handlerIdx == 0
      requires held != [] ==> held[0].at < |tmpstack| && lex == Some(tmpstack[held[0].at])
      modifies this`tmpstack, this`savestack, this`code, this`held, this`above, this`listed
      modifies this`heap, this`marked, this`freelist, this`free, this`gcRequested
      ensures Valid() && tmpstack == [] && savestack == [] && code == None && !gcRequested
      ensures heap.Keys == old(heap).Keys && (!old(gcRequested) ==> heap == old(heap))
      ensures old(gcRequested) ==>
                forall r | Reachable(old(heap), Roots(), r) :: r in heap && r in old(heap) && heap[r] == old(heap)[r]
      ensures old(gcRequested) ==>
                forall r | r in heap && r.Slot? && !Reachable(old(heap), Roots(), r) :: heap[r].Free?
    {
      hide Sound, Reachable, Controlled, RootsOf, Rows, Next;
      Clear();
      if gcRequested { GcRun(); }
    }
  }

  /** Nothing but the first temporary holds the list of callers: a worker's world that is released with a
      collection asked for loses it, and `callerStack` goes on pointing to a free slot. */
  method ReleasedWorldLosesCallers(statics: Heap, nil: Ref, inc: Ref, args: Ref, signals: seq<seq<Ref>>)
    returns (w: World)
    requires forall r | r in statics :: r.Static? && Kids(statics[r]) == {} && !statics[r].Free?
    requires nil in statics && inc in statics && args in statics && Rows(signals) <= statics.Keys
    ensures fresh(w) && w.Valid() && w.callerStack in w.heap && w.heap[w.callerStack].Free?
  {
    hide Sound, Controlled, Reachable, RootsOf, Rows, Kids;
    w := new World(statics, nil, inc, args, signals);
    w.RequestGc();
    LoseCallers(w, statics);
  }

  method LoseCallers(w: World, ghost statics: Heap)
    requires w.Valid() && w.handlerIdx == 0 && w.held == [] && w.handlerLexs == [] && w.gcRequested
    requires forall x | x in statics :: x.Static? && Kids(statics[x]) == {}
    requires w.heap == statics[Slot(0, 0) := Lex([], None)][Slot(0, 1) := Ary([])] && w.callerStack == Slot(0, 1)
    requires w.UniverseRoots() <= statics.Keys && w.lex == Some(Slot(0, 0))
    requires w.errvar.Some? && w.errvar.value in statics
    modifies w
    ensures w.Valid() && w.callerStack in w.heap && w.heap[w.callerStack].Free?
  {
    hide Sound, Controlled, Reachable, RootsOf, Rows, Kids, Next;
    ghost var h := w.heap;
    w.Release();
    FewRoots(w.Control());
    NotReached(statics, h, w.Roots(), Slot(0, 1));
  }

  lemma FewRoots(c: Control)
    requires c.code == None && c.lexs == [] && c.tmp == []
    ensures RootsOf(c) == c.universe + Opt(c.lex) + Opt(c.errvar)
  {
  }

  lemma NotReached(statics: Heap, h: Heap, roots: set<Ref>, r: Ref)
    requires forall x | x in statics :: x.Static? && Kids(statics[x]) == {}
    requires h == statics[Slot(0, 0) := Lex([], None)][Slot(0, 1) := Ary([])] && r == Slot(0, 1)
    requires roots <= statics.Keys + {Slot(0, 0)}
    ensures !Reachable(h, roots, r)
  {
    LexKids(None);
    var s := statics.Keys + {Slot(0, 0)};
    assert forall x, k | x in s && x in h && k in Kids(h[x]) :: k in s;
    forall p: seq<Ref> | Leads(h, roots, p, r) ensures false { ClosedContains(h, roots, s, p, r); }
  }

  /** At every moment nothing that a live value holds has been freed. */
  lemma NothingDangles(w: World)
    requires w.Valid()
    ensures NoDangling(w.heap)
  {
    SoundClosed(w.heap, w.idx, w.freelist, w.free);
    ClosedIff(w.heap);
  }

  /** The roots, one by one. */
  lemma RootsAre(c: Control, r: Ref)
    ensures r in RootsOf(c) <==>
              || r in c.universe || c.lex == Some(r) || c.errvar == Some(r) || c.code == Some(r) || r in c.tmp
              || (c.idx <= |c.lexs| && exists i :: 0 <= i < c.idx && i < |c.lexs| && c.lexs[i] == r)
  {
    if c.idx <= |c.lexs| && exists i :: 0 <= i < c.idx && i < |c.lexs| && c.lexs[i] == r {
      var i :| 0 <= i < c.idx && i < |c.lexs| && c.lexs[i] == r;
      assert Marked(c.lexs, c.idx)[i] == r;
    }
  }

  /** The universe's roots, one by one. */
  lemma UniverseAre(w: World, r: Ref)
    ensures r in w.UniverseRoots() <==>
              r == w.inc || r == w.args || exists i :: 0 <= i < |w.signals| && r in w.signals[i]
  {
    RowsAre(w.signals, r);
  }

  lemma {:induction false} RowsAre(ss: seq<seq<Ref>>, r: Ref)
    ensures r in Rows(ss) <==> exists i :: 0 <= i < |ss| && r in ss[i]
    decreases |ss|
  {
    if ss != [] {
      var n := |ss| - 1;
      RowsAre(ss[..n], r);
      if i :| 0 <= i < |ss| && r in ss[i] { assert i < n ==> r in ss[..n][i]; }
    }
  }

  lemma NotPassed(b: Body)
    requires !b.Nil? && !b.Bool?
    ensures !Passed(b)
  {
  }

  lemma SameParentsFill(h: Heap, h': Heap, r: Ref, b: Body)
    requires h' == h[r := b] && !Live(h, r)
    ensures SameParents(h, h')
  {
  }

  lemma SameParentsMutate(h: Heap, h': Heap, r: Ref, b: Body)
    requires r in h && h' == h[r := b] && (h[r].Lex? ==> b.Lex? && b.parent == h[r].parent)
    ensures SameParents(h, h')
  {
  }

  lemma HandlersRange(h: Heap, tmp: seq<Ref>, save: seq<nat>, lexs: seq<Ref>, idx: int, lex: Option<Ref>,
                      held: seq<Hold>, above: nat)
    requires Handlers(h, tmp, save, lexs, idx, lex, held, above)
    ensures lexs != [] ==> -1 <= idx < |lexs| && |held| <= idx + 1 <= |held| + 1 && (idx == |held| ==> lex.Some?)
    ensures lexs == [] ==> idx == 0 && held == []
  {
  }

  lemma SoundClosed(h: Heap, idx: seq<nat>, head: Option<Ref>, free: seq<Ref>)
    requires Sound(h, idx, head, free)
    ensures Closed(h)
  {
  }

  lemma LexLive(h: Heap, c: Control)
    requires Controlled(h, c)
    ensures OptLive(h, c.lex) && AllLive(h, Opt(c.lex))
  {
  }

  lemma MarkedGrows(h: Heap, lexs: seq<Ref>, idx: int, l: Ref)
    requires -1 <= idx < |lexs| && SeqLive(h, Marked(lexs, idx)) && (idx >= 0 ==> Live(h, lexs[idx]))
    ensures SeqLive(h, Marked(lexs[..idx + 1] + [l], idx + 1))
  {
    assert idx >= 0 ==> Marked(lexs[..idx + 1] + [l], idx + 1) == Marked(lexs, idx) + [lexs[idx]];
  }

  lemma MarkedShrinks(h: Heap, lexs: seq<Ref>, idx: int)
    requires 0 <= idx < |lexs| && SeqLive(h, Marked(lexs, idx))
    ensures SeqLive(h, Marked(lexs, idx - 1))
  {
    assert idx > 1 ==> Marked(lexs, idx - 1) == Marked(lexs, idx)[..idx - 1];
  }

  lemma CollectionRefl(s: Snap)
    ensures Next(s, Collection, s)
  {
  }

  lemma LiveSame(h: Heap, h': Heap, r: Ref)
    requires Live(h, r) && r in h' && h'[r] == h[r]
    ensures Live(h', r)
  {
  }

  lemma ReachableLive(h: Heap, idx: seq<nat>, head: Option<Ref>, free: seq<Ref>, c: Control, r: Ref)
    requires Sound(h, idx, head, free) && Controlled(h, c) && Reachable(h, RootsOf(c), r)
    ensures Live(h, r)
  {
    RootsLive(h, c);
    ReachLive(h, RootsOf(c), r);
  }

  lemma NewWorld(statics: Heap, c: Control)
    requires forall r | r in statics :: r.Static? && Kids(statics[r]) == {} && !statics[r].Free?
    requires c.universe <= statics.Keys && c.errvar.Some? && c.errvar.value in statics
    requires c.lex == Some(Slot(0, 0)) && c.code == None
    requires c.lexs == [] && c.idx == 0 && c.tmp == [Slot(0, 1)] && c.save == [] && c.held == []
    requires c.callers == Some(Slot(0, 1))
    ensures var h := statics[Slot(0, 0) := Lex([], None)][Slot(0, 1) := Ary([])];
            Sound(h, [2], None, []) && Controlled(h, c)
  {
    LexKids(None);
  }

  // ----- small facts the marking methods use -----

  lemma Shrinks(all: set<Ref>, m: set<Ref>, v: Ref)
    requires v in all && v !in m
    ensures |all - (m + {v})| < |all - m|
  {
    assert all - (m + {v}) == (all - m) - {v};
  }

  lemma Fewer(all: set<Ref>, m: set<Ref>, m': set<Ref>)
    requires m <= m'
    ensures |all - m'| <= |all - m|
  {
    assert all - m == (all - m') + ((all - m) * m');
  }

  lemma MarksGrow(h: Heap, m: set<Ref>, m': set<Ref>, from: set<Ref>)
    requires Marks(h, m, m', from)
    ensures m <= m'
  {
  }

  lemma KidsLive(h: Heap, v: Ref)
    requires Closed(h) && v in h
    ensures AllLive(h, Kids(h[v]))
  {
  }

  lemma NoKids(b: Body)
    requires !b.Str? && !b.Ary? && !b.Map? && !b.Code? && !b.Obj? && !b.Lex?
    ensures Kids(b) == {}
  {
  }

  lemma RangeOne(vs: seq<Ref>, i: nat)
    requires i < |vs|
    ensures Range(vs[..i + 1]) == Range(vs[..i]) + {vs[i]}
  {
    assert vs[..i + 1] == vs[..i] + [vs[i]];
  }

  lemma RangeSeconds<T>(es: seq<(T, Ref)>, i: nat)
    requires i < |es|
    ensures Range(Seconds(es[..i + 1])) == Range(Seconds(es[..i])) + {es[i].1}
  {
    assert Seconds(es[..i + 1]) == Seconds(es[..i]) + [es[i].1];
  }

  lemma RangePairs(es: seq<(Ref, Ref)>, i: nat)
    requires i < |es|
    ensures Range(Firsts(es[..i + 1])) + Range(Seconds(es[..i + 1]))
         == Range(Firsts(es[..i])) + Range(Seconds(es[..i])) + ({es[i].0} + {es[i].1})
  {
    assert Firsts(es[..i + 1]) == Firsts(es[..i]) + [es[i].0];
    RangeSeconds(es, i);
  }

  lemma LinkedPush(h: Heap, head: Option<Ref>, free: seq<Ref>, r: Ref)
    requires Linked(h, head, free) && r !in free
    ensures Linked(h[r := Free(head)], Some(r), [r] + free)
  {
    var h', free' := h[r := Free(head)], [r] + free;
    forall i: nat | i < |free'| ensures free'[i] in h' && h'[free'[i]] == Free(After(free', i)) {
      if i > 0 {
        var k: nat := i - 1;
        assert free'[i] == free[k] && After(free', i) == After(free, k);
      }
    }
  }

  lemma RowsOne(ss: seq<seq<Ref>>, i: nat)
    requires i < |ss|
    ensures Rows(ss[..i + 1]) == Rows(ss[..i]) + Range(ss[i])
  {
    assert ss[..i + 1][..i] == ss[..i];
  }

  lemma {:induction false} RowsHas(ss: seq<seq<Ref>>, i: nat)
    requires i < |ss|
    ensures Range(ss[i]) <= Rows(ss)
    decreases |ss|
  {
    if i < |ss| - 1 { RowsHas(ss[..|ss| - 1], i); }
  }

  lemma NextArena(h0: Heap, m0: set<Ref>, h: Heap, m: set<Ref>, head: Option<Ref>, free: seq<Ref>, idx: seq<nat>,
                  a: nat)
    requires a < |idx| && Arenas(h0, idx) && Swept(h0, m0, h, m, head, free, a, idx[a])
    ensures Swept(h0, m0, h, m, head, free, a + 1, 0)
  {
    forall r | r in h ensures Before(r, a + 1, 0) <==> Before(r, a, idx[a]) {
      if r.Slot? { assert Slot(r.arena, r.index) in h0; }
    }
  }

  /** After marking from the roots with only singletons marked before, the marks are closed under
      references, on live values, and exactly on the reachable ones among the slots. */
  lemma MarkedWell(h: Heap, m0: set<Ref>, m: set<Ref>, roots: set<Ref>)
    requires Marks(h, m0, m, roots) && Closed(h) && Kinds(h) && AllLive(h, roots)
    requires forall r | r in m0 :: r.Static? && r in h
    ensures forall r | r in m :: Live(h, r)
    ensures forall x, k | x in m && x in h && k in Kids(h[x]) :: k in m
    ensures forall r | Reachable(h, roots, r) :: r in m
    ensures forall r | r in m && r.Slot? :: Reachable(h, roots, r)
  {
    MarksExact(h, m0, m, roots);
    forall r | r in m ensures Live(h, r) {
      if r !in m0 { ReachLive(h, roots, r); }
    }
  }

  lemma RootsUnchanged(h: Heap, h': Heap, roots: set<Ref>)
    requires AllLive(h, roots)
    requires forall r | Reachable(h, roots, r) :: r in h' && r in h && h'[r] == h[r]
    ensures AllLive(h', roots) && forall r | r in roots :: r in h && r in h' && h'[r] == h[r]
  {
    forall r | r in roots ensures Live(h', r) && r in h && h'[r] == h[r] { ReachSelf(h, roots, r); }
  }

  lemma OrderedPush(save: seq<nat>, n: nat, m: nat)
    requires Ordered(save, n) && n <= m
    ensures Ordered(save, m) && Ordered(save + [m], m)
  {
  }

  lemma OrderedPop(save: seq<nat>, n: nat)
    requires Ordered(save, n) && save != []
    ensures save[|save| - 1] <= n && Ordered(save[..|save| - 1], save[|save| - 1])
  {
  }

  lemma LexKids(o: Option<Ref>)
    ensures Kids(Lex([], o)) == Opt(o)
  {
    assert Seconds<string>([]) == [];
  }

  lemma KeepsLiveRefl(h: Heap)
    ensures KeepsLive(h, h)
  {
  }

  lemma KeepsLiveFill(h: Heap, h': Heap, r: Ref, b: Body)
    requires h' == h[r := b] && !b.Free?
    ensures KeepsLive(h, h') && Live(h', r)
  {
  }

  lemma ScopeLive(h: Heap, l: Ref)
    requires Closed(h) && l in h && h[l].Lex?
    ensures OptLive(h, h[l].parent)
  {
    assert h[l].parent.Some? ==> h[l].parent.value in Kids(h[l]);
  }

  lemma ArenasKept(h: Heap, idx: seq<nat>, r: Ref, b: Body)
    requires Arenas(h, idx) && r in h
    ensures Arenas(h[r := b], idx)
  {
    forall a: nat, i: nat ensures Slot(a, i) in h[r := b] <==> a < |idx| && i < idx[a] {
      assert Slot(a, i) in h <==> a < |idx| && i < idx[a];
    }
  }

  lemma LinkedKept(h: Heap, head: Option<Ref>, free: seq<Ref>, r: Ref, b: Body)
    requires Linked(h, head, free) && r !in free
    ensures Linked(h[r := b], head, free)
  {
    forall i: nat | i < |free| ensures free[i] in h[r := b] && h[r := b][free[i]] == Free(After(free, i)) {
      assert free[i] in h && free[i] != r;
    }
  }

  lemma ClosedKept(h: Heap, r: Ref, b: Body)
    requires Closed(h) && !b.Free? && AllLive(h, Kids(b))
    ensures Closed(h[r := b])
  {
    hide Kids;
    var h' := h[r := b];
    forall x, k | x in h' && k in Kids(h'[x]) ensures Live(h', k) {
      assert x != r ==> k in Kids(h[x]);
      assert Live(h, k);
    }
  }

  /** Replacing a live slot by a value whose references are live. */
  lemma Overwrite(h: Heap, idx: seq<nat>, head: Option<Ref>, free: seq<Ref>, r: Ref, b: Body)
    requires Sound(h, idx, head, free) && r.Slot? && Live(h, r) && !b.Free? && !Passed(b) && AllLive(h, Kids(b))
    ensures Sound(h[r := b], idx, head, free)
  {
    hide Arenas, Linked, Closed, Kids, AllLive;
    ArenasKept(h, idx, r, b);
    LinkedKept(h, head, free, r, b);
    ClosedKept(h, r, b);
  }

  lemma FillSlot(h0: Heap, h: Heap, idx: seq<nat>, head: Option<Ref>, free: seq<Ref>, r: Ref, b: Body)
    requires Sound(h, idx, head, free) && r.Slot? && h == h0[r := Int(0)] && !Live(h0, r)
    requires !b.Free? && !Passed(b) && AllLive(h0, Kids(b))
    ensures Sound(h[r := b], idx, head, free)
  {
    assert forall k | k in Kids(b) :: Live(h, k);
    Overwrite(h, idx, head, free, r, b);
  }

  /** Taking the head of the free list. */
  lemma PopFree(h: Heap, idx: seq<nat>, head: Option<Ref>, free: seq<Ref>)
    requires Sound(h, idx, head, free) && head.Some?
    ensures head.value in h && head.value.Slot? && h[head.value].Free? && free != []
    ensures Sound(h[head.value := Int(0)], idx, h[head.value].next, free[1..])
  {
    var r := head.value;
    PopLinked(h, head, free);
    StaticsLive(h, r);
    hide Arenas, Linked, Closed, Kids;
    ArenasKept(h, idx, r, Int(0));
    IntKids(h);
    ClosedKept(h, r, Int(0));
  }

  lemma PopLinked(h: Heap, head: Option<Ref>, free: seq<Ref>)
    requires Linked(h, head, free) && head.Some?
    ensures free != [] && head.value == free[0] && head.value in h && h[head.value].Free?
    ensures Linked(h[head.value := Int(0)], h[head.value].next, free[1..])
    ensures forall x | x != head.value :: x in free <==> x in free[1..]
    ensures head.value !in free[1..]
  {
    var r, rest := head.value, free[1..];
    var h' := h[r := Int(0)];
    assert h[r] == Free(After(free, 0)) && free == [r] + rest;
    forall i: nat | i < |rest| ensures rest[i] in h' && h'[rest[i]] == Free(After(rest, i)) {
      assert rest[i] == free[i + 1] && After(rest, i) == After(free, i + 1);
    }
  }

  lemma StaticsLive(h: Heap, r: Ref)
    requires Kinds(h) && r in h && h[r].Free?
    ensures r.Slot?
  {
  }

  lemma IntKids(h: Heap)
    ensures AllLive(h, Kids(Int(0)))
  {
  }

  /** Handing out the next slot of the last arena, or the first of a new one. */
  lemma BumpArena(h: Heap, idx: seq<nat>, head: Option<Ref>, free: seq<Ref>, idx': seq<nat>, r: Ref)
    requires Sound(h, idx, head, free)
    requires
      || (idx[|idx| - 1] == ARENA_SIZE && idx' == idx + [1] && r == Slot(|idx|, 0))
      || (idx[|idx| - 1] < ARENA_SIZE && idx' == idx[|idx| - 1 := idx[|idx| - 1] + 1]
          && r == Slot(|idx| - 1, idx[|idx| - 1]))
    ensures r !in h && Sound(h[r := Int(0)], idx', head, free)
  {
    BumpIndex(h, idx, idx', r);
    hide Arenas, Linked, Closed, Kids;
    FreeInHeap(h, head, free, r);
    LinkedKept(h, head, free, r, Int(0));
    IntKids(h);
    ClosedKept(h, r, Int(0));
  }

  lemma FreeInHeap(h: Heap, head: Option<Ref>, free: seq<Ref>, r: Ref)
    requires Linked(h, head, free) && r !in h
    ensures r !in free
  {
  }

  lemma BumpIndex(h: Heap, idx: seq<nat>, idx': seq<nat>, r: Ref)
    requires Arenas(h, idx)
    requires
      || (idx[|idx| - 1] == ARENA_SIZE && idx' == idx + [1] && r == Slot(|idx|, 0))
      || (idx[|idx| - 1] < ARENA_SIZE && idx' == idx[|idx| - 1 := idx[|idx| - 1] + 1]
          && r == Slot(|idx| - 1, idx[|idx| - 1]))
    ensures r !in h && Arenas(h[r := Int(0)], idx')
  {
    assert Slot(r.arena, r.index) !in h;
    forall a: nat, i: nat ensures Slot(a, i) in h[r := Int(0)] <==> a < |idx'| && i < idx'[a] {
      assert Slot(a, i) in h <==> a < |idx| && i < idx[a];
    }
  }

  // ----- whole runs -----

  ghost predicate IsRun(run: seq<Snap>, events: seq<Event>) {
    |run| == |events| + 1 && forall i: nat | i < |events| :: Next(run[i], events[i], run[i + 1])
  }

  /** What the runtime promises to C code that holds on to a temporary: once saved at position `t`
      with `d` savestack entries below it, it stays there and stays alive, through every allocation,
      scope, early return, throw and collection, as long as none of those `d` entries is popped. */
  lemma {:induction false} TemporarySurvives(run: seq<Snap>, events: seq<Event>, t: nat, n: nat)
    requires IsRun(run, events) && n < |run|
    requires t < |run[0].tmp| && Ordered(run[0].save, |run[0].tmp|) && Live(run[0].heap, run[0].tmp[t])
    requires forall i: nat | i < |run| :: |run[i].save| >= |run[0].save|
    ensures t < |run[n].tmp| && run[n].tmp[t] == run[0].tmp[t] && Live(run[n].heap, run[0].tmp[t])
    ensures Ordered(run[n].save, |run[n].tmp|)
    ensures forall i | |run[0].save| <= i < |run[n].save| :: run[n].save[i] > t
  {
    if n > 0 {
      TemporarySurvives(run, events, t, n - 1);
      var s, s', e := run[n - 1], run[n], events[n - 1];
      assert Next(s, e, run[n - 1 + 1]);
      assert |s'.save| >= |run[0].save|;
      match e
      case Save => assert s'.tmp[..|s.tmp|][t] == s'.tmp[t];
      case Push => assert s'.tmp[..|s.tmp|][t] == s'.tmp[t];
      case Pop => assert s.save[|s.save| - 1] > t;
      case Collection =>
      case Other =>
    }
  }
}
