/** The bounded channel shared by any number of threads: one mutex, one condition variable
    for senders and one for receivers.

    Every statement that can interleave with another thread is a step of its own.
    A signal wakes at least one waiting thread if there is one; a thread may also
    wake up without a signal. */
module Channel {
  import opened Common

  type Tid = nat

  /** Where a thread stands.  Entering and woken threads want the mutex; waiting threads are
      inside `pthread_cond_wait`; testing, done and leaving threads hold the mutex. */
  datatype Pc<M> =
    | Outside
    | SendEnter(msg: M) | TryEnter(msg: M) | RecvEnter
    | SendWait(msg: M) | RecvWait
    | SendWoken(msg: M) | RecvWoken
    | SendTest(msg: M) | TryTest(msg: M) | RecvTest
    | SendDone | RecvDone | Leaving

  datatype Chan<M> = Chan(limit: int, num: int, buffer: seq<M>, owner: Option<Tid>, pcs: map<Tid, Pc<M>>,
                          sent: seq<M>, received: seq<M>)

  datatype Action<M> =
    | Call(pc: Pc<M>)
    | Lock
    | Test
    | Signal(woken: set<Tid>)
    | Unlock
    | Spurious

  predicate Holding<M>(pc: Pc<M>) {
    pc.SendTest? || pc.TryTest? || pc.RecvTest? || pc.SendDone? || pc.RecvDone? || pc.Leaving?
  }

  ghost function SendersWaiting<M>(c: Chan<M>): set<Tid> { set t | t in c.pcs && c.pcs[t].SendWait? }

  ghost function SendersWoken<M>(c: Chan<M>): set<Tid> { set t | t in c.pcs && c.pcs[t].SendWoken? }

  ghost function ReceiversWaiting<M>(c: Chan<M>): set<Tid> { set t | t in c.pcs && c.pcs[t].RecvWait? }

  ghost function ReceiversWoken<M>(c: Chan<M>): set<Tid> { set t | t in c.pcs && c.pcs[t].RecvWoken? }

  /** The threads of `ws` leave the wait with their message. */
  ghost function Wake<M>(pcs: map<Tid, Pc<M>>, ws: set<Tid>): map<Tid, Pc<M>> {
    map t | t in pcs ::
      if t in ws && pcs[t].SendWait? then SendWoken(pcs[t].msg)
      else if t in ws && pcs[t].RecvWait? then RecvWoken
      else pcs[t]
  }

  /** What the holder of the mutex does at its test: wait (releasing the mutex), transfer one
      element, or give up. */
  ghost predicate Tests<M>(c: Chan<M>, t: Tid, c': Chan<M>)
    requires t in c.pcs
  {
    match c.pcs[t]
    case SendTest(m) =>
      if c.limit < c.num then c' == c.(pcs := c.pcs[t := SendWait(m)], owner := None)
      else c' == c.(pcs := c.pcs[t := SendDone], buffer := c.buffer + [m], num := c.num + 1, sent := c.sent + [m])
    case TryTest(m) =>
      if c.limit > c.num
      then c' == c.(pcs := c.pcs[t := SendDone], buffer := c.buffer + [m], num := c.num + 1, sent := c.sent + [m])
      else c' == c.(pcs := c.pcs[t := Leaving])
    case RecvTest =>
      if c.num == 0 then c' == c.(pcs := c.pcs[t := RecvWait], owner := None)
      else c.buffer != [] && c' == c.(pcs := c.pcs[t := RecvDone], buffer := c.buffer[1..], num := c.num - 1,
                                       received := c.received + [c.buffer[0]])
    case _ => false
  }

  ghost predicate Locks<M>(c: Chan<M>, t: Tid, c': Chan<M>)
    requires t in c.pcs
  {
    && c.owner == None
    && match c.pcs[t]
       case SendEnter(m) => c' == c.(owner := Some(t), pcs := c.pcs[t := SendTest(m)])
       case SendWoken(m) => c' == c.(owner := Some(t), pcs := c.pcs[t := SendTest(m)])
       case TryEnter(m) => c' == c.(owner := Some(t), pcs := c.pcs[t := TryTest(m)])
       case RecvEnter => c' == c.(owner := Some(t), pcs := c.pcs[t := RecvTest])
       case RecvWoken => c' == c.(owner := Some(t), pcs := c.pcs[t := RecvTest])
       case _ => false
  }

  /** A signal wakes some of the waiting threads: at least one if there is one. */
  ghost predicate Wakes(ws: set<Tid>, waiting: set<Tid>) {
    ws <= waiting && (waiting != {} ==> ws != {})
  }

  ghost predicate Step<M>(c: Chan<M>, t: Tid, a: Action<M>, c': Chan<M>) {
    t in c.pcs &&
    match a
    case Call(pc) =>
      c.pcs[t].Outside? && (pc.SendEnter? || pc.TryEnter? || pc.RecvEnter?) && c' == c.(pcs := c.pcs[t := pc])
    case Lock => Locks(c, t, c')
    case Test => Tests(c, t, c')
    case Signal(ws) =>
      && (c.pcs[t].SendDone? || c.pcs[t].RecvDone?)
      && Wakes(ws, if c.pcs[t].SendDone? then ReceiversWaiting(c) else SendersWaiting(c))
      && c' == c.(pcs := Wake(c.pcs, ws)[t := Leaving])
    case Unlock => c.pcs[t].Leaving? && c' == c.(owner := None, pcs := c.pcs[t := Outside])
    case Spurious => (c.pcs[t].SendWait? || c.pcs[t].RecvWait?) && c' == c.(pcs := Wake(c.pcs, {t}))
  }

  ghost predicate Init<M>(c: Chan<M>) {
    c.num == 0 && c.buffer == [] && c.owner == None && c.sent == [] && c.received == []
    && forall t | t in c.pcs :: c.pcs[t].Outside?
  }

  ghost predicate Run<M(!new)>(cs: seq<Chan<M>>) {
    |cs| > 0 && Init(cs[0]) && forall i: nat | i + 1 < |cs| :: Reaches(cs[i], cs[i + 1])
  }

  ghost predicate Reaches<M(!new)>(c: Chan<M>, c': Chan<M>) { exists t, a :: Step(c, t, a, c') }

  // ----- the invariant -----

  /** Exactly the owner is inside the critical section. */
  ghost predicate Exclusive<M>(c: Chan<M>) {
    && (c.owner.Some? ==> c.owner.value in c.pcs)
    && forall t | t in c.pcs :: Holding(c.pcs[t]) <==> c.owner == Some(t)
  }

  ghost function OwnerPc<M>(c: Chan<M>): Pc<M> {
    if c.owner.Some? && c.owner.value in c.pcs then c.pcs[c.owner.value] else Outside
  }

  function Bit(b: bool): int { if b then 1 else 0 }

  /** Senders already on their way to a free slot: woken ones, one at its test, and the one a
      receiver is about to wake. */
  ghost function SendersComing<M>(c: Chan<M>): int {
    |SendersWoken(c)| + Bit(OwnerPc(c).SendTest?) + Bit(OwnerPc(c).RecvDone?)
  }

  ghost function ReceiversComing<M>(c: Chan<M>): int {
    |ReceiversWoken(c)| + Bit(OwnerPc(c).RecvTest?) + Bit(OwnerPc(c).SendDone?)
  }

  /** No wakeup is lost: while a sender waits there are at least as many senders coming as free
      slots, and while a receiver waits at least as many receivers coming as elements. */
  ghost predicate NoLostWakeup<M>(c: Chan<M>) {
    && (SendersWaiting(c) != {} ==> SendersComing(c) >= c.limit + 1 - c.num)
    && (ReceiversWaiting(c) != {} ==> ReceiversComing(c) >= c.num)
  }

  /** What went out is what came in, in order, up to what is still in the buffer. */
  ghost predicate Conserved<M>(c: Chan<M>) {
    c.num == |c.buffer| && c.received + c.buffer == c.sent && (c.num <= c.limit + 1 || c.num == 0)
  }

  ghost predicate Inv<M>(c: Chan<M>) { Exclusive(c) && Conserved(c) && NoLostWakeup(c) }

  lemma InitInv<M>(c: Chan<M>)
    requires Init(c)
    ensures Inv(c)
  {
  }

  lemma Resize(s: set<Tid>, s': set<Tid>, t: Tid, was: bool, now: bool)
    requires was == (t in s) && now == (t in s') && s - {t} == s' - {t}
    ensures |s'| == |s| - Bit(was) + Bit(now)
  {
    var rest := s - {t};
    assert s == if was then rest + {t} else rest;
    assert s' == if now then rest + {t} else rest;
  }

  /** How many wait and how many are woken after one thread has moved. */
  lemma Moves<M>(c: Chan<M>, c': Chan<M>, t: Tid, pc: Pc<M>)
    requires t in c.pcs && c'.pcs == c.pcs[t := pc]
    ensures |SendersWoken(c')| == |SendersWoken(c)| - Bit(c.pcs[t].SendWoken?) + Bit(pc.SendWoken?)
    ensures |ReceiversWoken(c')| == |ReceiversWoken(c)| - Bit(c.pcs[t].RecvWoken?) + Bit(pc.RecvWoken?)
    ensures SendersWaiting(c') != {} ==> SendersWaiting(c) != {} || pc.SendWait?
    ensures ReceiversWaiting(c') != {} ==> ReceiversWaiting(c) != {} || pc.RecvWait?
  {
    Resize(SendersWoken(c), SendersWoken(c'), t, c.pcs[t].SendWoken?, pc.SendWoken?);
    Resize(ReceiversWoken(c), ReceiversWoken(c'), t, c.pcs[t].RecvWoken?, pc.RecvWoken?);
    assert SendersWaiting(c') <= SendersWaiting(c) + {t} && ReceiversWaiting(c') <= ReceiversWaiting(c) + {t};
  }

  lemma Joined(a: set<Tid>, b: set<Tid>)
    requires a !! b
    ensures |a + b| == |a| + |b|
  {
  }

  lemma WakesSenders<M>(c: Chan<M>, ws: set<Tid>, c': Chan<M>)
    requires c'.pcs == Wake(c.pcs, ws) && ws <= SendersWaiting(c)
    ensures |SendersWoken(c')| == |SendersWoken(c)| + |ws| && |ReceiversWoken(c')| == |ReceiversWoken(c)|
    ensures SendersWaiting(c') != {} ==> SendersWaiting(c) != {}
    ensures ReceiversWaiting(c') == ReceiversWaiting(c)
  {
    assert SendersWoken(c') == SendersWoken(c) + ws;
    Joined(SendersWoken(c), ws);
    assert ReceiversWoken(c') == ReceiversWoken(c);
    assert SendersWaiting(c') <= SendersWaiting(c);
    assert ReceiversWaiting(c') == ReceiversWaiting(c);
  }

  lemma WakesReceivers<M>(c: Chan<M>, ws: set<Tid>, c': Chan<M>)
    requires c'.pcs == Wake(c.pcs, ws) && ws <= ReceiversWaiting(c)
    ensures |ReceiversWoken(c')| == |ReceiversWoken(c)| + |ws| && |SendersWoken(c')| == |SendersWoken(c)|
    ensures ReceiversWaiting(c') != {} ==> ReceiversWaiting(c) != {}
    ensures SendersWaiting(c') == SendersWaiting(c)
  {
    assert ReceiversWoken(c') == ReceiversWoken(c) + ws;
    Joined(ReceiversWoken(c), ws);
    assert SendersWoken(c') == SendersWoken(c);
    assert ReceiversWaiting(c') <= ReceiversWaiting(c);
    assert SendersWaiting(c') == SendersWaiting(c);
  }

  // ----- every step keeps it -----

  lemma CallKeeps<M>(c: Chan<M>, t: Tid, pc: Pc<M>, c': Chan<M>)
    requires Inv(c) && Step(c, t, Call(pc), c')
    ensures Inv(c')
  {
    hide SendersWaiting, SendersWoken, ReceiversWaiting, ReceiversWoken;
    Moves(c, c', t, pc);
    assert OwnerPc(c') == OwnerPc(c);
  }

  lemma LockKeeps<M>(c: Chan<M>, t: Tid, c': Chan<M>)
    requires Inv(c) && Step(c, t, Lock, c')
    ensures Inv(c')
  {
    hide SendersWaiting, SendersWoken, ReceiversWaiting, ReceiversWoken;
    Moves(c, c', t, c'.pcs[t]);
    assert OwnerPc(c).Outside? && OwnerPc(c') == c'.pcs[t];
  }

  lemma TestConserves<M>(c: Chan<M>, t: Tid, c': Chan<M>)
    requires Exclusive(c) && Conserved(c) && Step(c, t, Test, c')
    ensures Exclusive(c') && Conserved(c')
  {
    match c.pcs[t]
    case SendTest(m) => assert c.received + (c.buffer + [m]) == (c.received + c.buffer) + [m];
    case TryTest(m) => assert c.received + (c.buffer + [m]) == (c.received + c.buffer) + [m];
    case RecvTest =>
      assert c.num != 0 ==> (c.received + [c.buffer[0]]) + c.buffer[1..] == c.received + c.buffer;
    case _ =>
  }

  lemma TestKeeps<M>(c: Chan<M>, t: Tid, c': Chan<M>)
    requires Inv(c) && Step(c, t, Test, c')
    ensures Inv(c')
  {
    hide SendersWaiting, SendersWoken, ReceiversWaiting, ReceiversWoken;
    TestConserves(c, t, c');
    Moves(c, c', t, c'.pcs[t]);
    assert OwnerPc(c) == c.pcs[t];
    assert OwnerPc(c') == if c'.owner == None then Outside else c'.pcs[t];
  }

  lemma UnlockKeeps<M>(c: Chan<M>, t: Tid, c': Chan<M>)
    requires Inv(c) && Step(c, t, Unlock, c')
    ensures Inv(c')
  {
    hide SendersWaiting, SendersWoken, ReceiversWaiting, ReceiversWoken;
    Moves(c, c', t, Outside);
    assert OwnerPc(c) == c.pcs[t] && OwnerPc(c').Outside?;
  }

  lemma WakeExclusive<M>(c: Chan<M>, ws: set<Tid>, c': Chan<M>)
    requires Exclusive(c) && c' == c.(pcs := Wake(c.pcs, ws))
    ensures Exclusive(c') && OwnerPc(c') == OwnerPc(c)
  {
    if c.owner.Some? && c.owner.value in c.pcs { assert Holding(c.pcs[c.owner.value]); }
  }

  lemma SpuriousKeeps<M>(c: Chan<M>, t: Tid, c': Chan<M>)
    requires Inv(c) && Step(c, t, Spurious, c')
    ensures Inv(c')
  {
    WakeExclusive(c, {t}, c');
    Waits(c, t);
    hide SendersWaiting, SendersWoken, ReceiversWaiting, ReceiversWoken, OwnerPc, Wake, Exclusive;
    if c.pcs[t].SendWait? { WakesSenders(c, {t}, c'); } else { WakesReceivers(c, {t}, c'); }
  }

  lemma Waits<M>(c: Chan<M>, t: Tid)
    requires t in c.pcs
    ensures c.pcs[t].SendWait? ==> {t} <= SendersWaiting(c)
    ensures c.pcs[t].RecvWait? ==> {t} <= ReceiversWaiting(c)
  {
  }

  lemma SignalKeeps<M>(c: Chan<M>, t: Tid, ws: set<Tid>, c': Chan<M>)
    requires Inv(c) && Step(c, t, Signal(ws), c')
    ensures Inv(c')
  {
    hide SendersWaiting, SendersWoken, ReceiversWaiting, ReceiversWoken, Wake;
    var mid := c.(pcs := Wake(c.pcs, ws));
    WakeKeeps(c.pcs, ws, t);
    WakeExclusive(c, ws, mid);
    if c.pcs[t].SendDone? { WakesReceivers(c, ws, mid); } else { WakesSenders(c, ws, mid); }
    Moves(mid, c', t, Leaving);
    assert OwnerPc(c) == c.pcs[t] && OwnerPc(c').Leaving?;
    assert ws != {} ==> |ws| >= 1;
  }

  lemma WakeKeeps<M>(pcs: map<Tid, Pc<M>>, ws: set<Tid>, t: Tid)
    requires t in pcs && Holding(pcs[t])
    ensures t in Wake(pcs, ws) && Wake(pcs, ws)[t] == pcs[t]
  {
  }

  lemma StepKeeps<M>(c: Chan<M>, t: Tid, a: Action<M>, c': Chan<M>)
    requires Inv(c) && Step(c, t, a, c')
    ensures Inv(c') && c'.limit == c.limit && c'.pcs.Keys == c.pcs.Keys && c.sent <= c'.sent
  {
    hide Inv;
    match a
    case Call(pc) => CallKeeps(c, t, pc, c');
    case Lock => LockKeeps(c, t, c');
    case Test => TestKeeps(c, t, c');
    case Signal(ws) => SignalKeeps(c, t, ws, c');
    case Unlock => UnlockKeeps(c, t, c');
    case Spurious => SpuriousKeeps(c, t, c');
  }

  /** In every interleaving of any number of senders, try-senders and receivers the invariant
      holds at every moment. */
  lemma {:induction false} AlwaysInv<M(!new)>(cs: seq<Chan<M>>, n: nat)
    requires Run(cs) && n < |cs|
    ensures Inv(cs[n]) && cs[n].limit == cs[0].limit
  {
    hide Inv;
    if n == 0 {
      InitInv(cs[0]);
    } else {
      AlwaysInv(cs, n - 1);
      assert Reaches(cs[n - 1], cs[n - 1 + 1]);
      var t, a :| Step(cs[n - 1], t, a, cs[n]);
      StepKeeps(cs[n - 1], t, a, cs[n]);
    }
  }

  // ----- messages -----

  /** A thread inside a send that has not yet handed its message over. */
  predicate Carries<M>(pc: Pc<M>) {
    pc.SendEnter? || pc.TryEnter? || pc.SendWait? || pc.SendWoken? || pc.SendTest? || pc.TryTest?
  }

  /** No step changes the message of a thread, and only a call gives it one. */
  lemma MessagesKept<M>(c: Chan<M>, t: Tid, a: Action<M>, c': Chan<M>, u: Tid)
    requires Step(c, t, a, c') && u in c.pcs
    ensures u in c'.pcs
    ensures Carries(c.pcs[u]) && Carries(c'.pcs[u]) ==> c'.pcs[u].msg == c.pcs[u].msg && !(u == t && a.Call?)
    ensures !Carries(c.pcs[u]) && Carries(c'.pcs[u]) ==> u == t && a.Call? && a.pc == c'.pcs[u]
  {
  }

  /** A message that is handed over is the thread's own and goes to the end of the buffer; a thread gets rid
      of its message in no other way, except that a try-send may give up at the limit. */
  lemma MessageHandedOver<M>(c: Chan<M>, t: Tid, a: Action<M>, c': Chan<M>)
    requires Step(c, t, a, c')
    ensures c'.sent == c.sent || (Carries(c.pcs[t]) && c'.sent == c.sent + [c.pcs[t].msg])
    ensures Carries(c.pcs[t]) && !Carries(c'.pcs[t]) ==>
              || (c'.sent == c.sent + [c.pcs[t].msg] && c'.buffer == c.buffer + [c.pcs[t].msg])
              || (c.pcs[t].TryTest? && c.limit <= c.num && c'.sent == c.sent && c'.buffer == c.buffer)
    ensures Carries(c.pcs[t]) && Carries(c'.pcs[t]) ==> c'.sent == c.sent && c'.buffer == c.buffer
    ensures forall u | u in c.pcs && u != t && Carries(c.pcs[u]) :: u in c'.pcs && Carries(c'.pcs[u])
  {
  }

  /** What a receiver takes is the oldest message in the buffer. */
  lemma MessageTaken<M>(c: Chan<M>, t: Tid, a: Action<M>, c': Chan<M>)
    requires Step(c, t, a, c')
    ensures || c'.received == c.received
            || (c.pcs[t].RecvTest? && c.buffer != []
                && c'.received == c.received + [c.buffer[0]] && c'.buffer == c.buffer[1..])
  {
  }

  /** A run with the thread and the action of each step. */
  ghost predicate Labelled<M>(cs: seq<Chan<M>>, ts: seq<Tid>, acts: seq<Action<M>>) {
    && |cs| > 0 && Init(cs[0]) && |ts| == |acts| == |cs| - 1
    && forall i | 0 <= i < |acts| :: StepAt(cs, ts, acts, i)
  }

  ghost predicate StepAt<M>(cs: seq<Chan<M>>, ts: seq<Tid>, acts: seq<Action<M>>, i: int)
    requires |ts| == |acts| == |cs| - 1 && 0 <= i < |acts|
  {
    Step(cs[i], ts[i], acts[i], cs[i + 1])
  }

  /** Step k is the last call of thread u before moment n. */
  ghost predicate LastCall<M>(ts: seq<Tid>, acts: seq<Action<M>>, n: nat, u: Tid, k: nat) {
    && k < n <= |ts| && |ts| == |acts| && ts[k] == u && acts[k].Call?
    && forall j | k < j < n && ts[j] == u :: !acts[j].Call?
  }

  /** At every moment of every run a thread's message is the one it was called with. */
  lemma {:induction false} CarriesItsCall<M>(cs: seq<Chan<M>>, ts: seq<Tid>, acts: seq<Action<M>>, n: nat, u: Tid)
    returns (k: nat)
    requires Labelled(cs, ts, acts) && n < |cs| && u in cs[n].pcs && Carries(cs[n].pcs[u])
    ensures LastCall(ts, acts, n, u, k) && Carries(acts[k].pc) && acts[k].pc.msg == cs[n].pcs[u].msg
    decreases n
  {
    hide Step, Init;
    if n == 0 { NoneCarries(cs[0], u); }
    var c := cs[n - 1];
    assert StepAt(cs, ts, acts, n - 1);
    SameThreads(c, ts[n - 1], acts[n - 1], cs[n], u);
    MessagesKept(c, ts[n - 1], acts[n - 1], cs[n], u);
    if Carries(c.pcs[u]) {
      k := CarriesItsCall(cs, ts, acts, n - 1, u);
    } else {
      k := n - 1;
    }
  }

  lemma NoneCarries<M>(c: Chan<M>, u: Tid)
    requires Init(c) && u in c.pcs
    ensures !Carries(c.pcs[u])
  {
  }

  lemma SameThreads<M>(c: Chan<M>, t: Tid, a: Action<M>, c': Chan<M>, u: Tid)
    requires Step(c, t, a, c') && u in c'.pcs
    ensures u in c.pcs
  {
  }

  /** Every message that is ever appended to `sent` is the one its sender was last called with. */
  lemma SentAsCalled<M>(cs: seq<Chan<M>>, ts: seq<Tid>, acts: seq<Action<M>>, n: nat) returns (k: nat)
    requires Labelled(cs, ts, acts) && n < |acts| && cs[n + 1].sent != cs[n].sent
    ensures LastCall(ts, acts, n, ts[n], k) && Carries(acts[k].pc)
    ensures cs[n + 1].sent == cs[n].sent + [acts[k].pc.msg]
  {
    hide Step;
    assert StepAt(cs, ts, acts, n);
    MessageHandedOver(cs[n], ts[n], acts[n], cs[n + 1]);
    ActsWithin(cs[n], ts[n], acts[n], cs[n + 1]);
    k := CarriesItsCall(cs, ts, acts, n, ts[n]);
  }

  lemma ActsWithin<M>(c: Chan<M>, t: Tid, a: Action<M>, c': Chan<M>)
    requires Step(c, t, a, c')
    ensures t in c.pcs
  {
  }

  // ----- what it gives -----

  /** Nothing is lost, duplicated or reordered, and the buffer never holds more than limit + 1. */
  lemma FifoDelivery<M(!new)>(cs: seq<Chan<M>>, n: nat)
    requires Run(cs) && n < |cs|
    ensures var c := cs[n];
            c.received <= c.sent && c.num == |c.sent| - |c.received| && (cs[0].limit >= 0 ==> c.num <= c.limit + 1)
  {
    AlwaysInv(cs, n);
    var c := cs[n];
    assert c.sent == c.received + c.buffer;
  }

  /** A try-send that succeeds leaves at most `limit` elements. */
  lemma TrySendWithinLimit<M>(c: Chan<M>, t: Tid, c': Chan<M>)
    requires Inv(c) && Step(c, t, Test, c') && c.pcs[t].TryTest?
    ensures c'.pcs[t].SendDone? ==> c'.num <= c'.limit && c'.sent == c.sent + [c.pcs[t].msg]
    ensures c'.pcs[t].SendDone? <==> |c.buffer| < c.limit
  {
  }

  ghost predicate Blocked<M>(pc: Pc<M>) { pc.SendWait? || pc.RecvWait? }

  ghost predicate CanStep<M(!new)>(c: Chan<M>) {
    exists t, a, c' :: Step(c, t, a, c') && !a.Spurious? && !a.Call?
  }

  /** Any thread that is inside a call and not waiting can move, or the owner of the mutex can. */
  lemma NotBlockedMoves<M(!new)>(c: Chan<M>, t: Tid)
    requires Inv(c) && t in c.pcs && !c.pcs[t].Outside? && !Blocked(c.pcs[t])
    ensures CanStep(c)
  {
    var u := if c.owner.Some? then c.owner.value else t;
    if c.owner.Some? {
      OwnerMoves(c, u);
    } else {
      assert !Holding(c.pcs[t]);
      match c.pcs[t]
      case SendEnter(m) => assert Step(c, t, Lock, c.(owner := Some(t), pcs := c.pcs[t := SendTest(m)]));
      case SendWoken(m) => assert Step(c, t, Lock, c.(owner := Some(t), pcs := c.pcs[t := SendTest(m)]));
      case TryEnter(m) => assert Step(c, t, Lock, c.(owner := Some(t), pcs := c.pcs[t := TryTest(m)]));
      case RecvEnter => assert Step(c, t, Lock, c.(owner := Some(t), pcs := c.pcs[t := RecvTest]));
      case RecvWoken => assert Step(c, t, Lock, c.(owner := Some(t), pcs := c.pcs[t := RecvTest]));
    }
  }

  lemma OwnerMoves<M(!new)>(c: Chan<M>, t: Tid)
    requires Inv(c) && t in c.pcs && c.owner == Some(t)
    ensures CanStep(c)
  {
    assert Holding(c.pcs[t]);
    match c.pcs[t]
    case SendTest(m) =>
      var c' := if c.limit < c.num then c.(pcs := c.pcs[t := SendWait(m)], owner := None)
                else c.(pcs := c.pcs[t := SendDone], buffer := c.buffer + [m], num := c.num + 1, sent := c.sent + [m]);
      assert Step(c, t, Test, c');
    case TryTest(m) =>
      var c' := if c.limit > c.num
                then c.(pcs := c.pcs[t := SendDone], buffer := c.buffer + [m], num := c.num + 1, sent := c.sent + [m])
                else c.(pcs := c.pcs[t := Leaving]);
      assert Step(c, t, Test, c');
    case RecvTest =>
      var c' := if c.num == 0 then c.(pcs := c.pcs[t := RecvWait], owner := None)
                else c.(pcs := c.pcs[t := RecvDone], buffer := c.buffer[1..], num := c.num - 1,
                        received := c.received + [c.buffer[0]]);
      assert Step(c, t, Test, c');
    case SendDone =>
      var ws := ReceiversWaiting(c);
      assert Step(c, t, Signal(ws), c.(pcs := Wake(c.pcs, ws)[t := Leaving]));
    case RecvDone =>
      var ws := SendersWaiting(c);
      assert Step(c, t, Signal(ws), c.(pcs := Wake(c.pcs, ws)[t := Leaving]));
    case Leaving =>
      assert Step(c, t, Unlock, c.(owner := None, pcs := c.pcs[t := Outside]));
  }

  lemma WaitersMove<M(!new)>(c: Chan<M>, s: Tid, r: Tid)
    requires Inv(c) && c.limit >= 0
    requires s in c.pcs && c.pcs[s].SendWait? && r in c.pcs && c.pcs[r].RecvWait?
    ensures CanStep(c)
  {
    assert s in SendersWaiting(c) && r in ReceiversWaiting(c);
    if c.owner.Some? {
      OwnerMoves(c, c.owner.value);
    } else if SendersWoken(c) != {} {
      var t :| t in SendersWoken(c);
      NotBlockedMoves(c, t);
    } else {
      assert SendersComing(c) == 0 && c.num >= c.limit + 1 && ReceiversComing(c) >= 1;
      var t :| t in ReceiversWoken(c);
      NotBlockedMoves(c, t);
    }
  }

  predicate Sending<M>(pc: Pc<M>) { pc.SendEnter? || pc.SendWait? || pc.SendWoken? || pc.SendTest? || pc.SendDone? }

  predicate Receiving<M>(pc: Pc<M>) { pc.RecvEnter? || pc.RecvWait? || pc.RecvWoken? || pc.RecvTest? || pc.RecvDone? }

  /** With a limit of at least 0 senders and receivers are never all stuck: at every moment of
      every run, while at least one of each is inside its call, some thread can move on without
      a new call and without a spurious wakeup. */
  lemma NoDeadlock<M(!new)>(cs: seq<Chan<M>>, n: nat, s: Tid, r: Tid)
    requires Run(cs) && n < |cs| && cs[0].limit >= 0
    requires s in cs[n].pcs && Sending(cs[n].pcs[s]) && r in cs[n].pcs && Receiving(cs[n].pcs[r])
    ensures CanStep(cs[n])
  {
    hide Inv, CanStep;
    AlwaysInv(cs, n);
    var c := cs[n];
    if !Blocked(c.pcs[s]) {
      NotBlockedMoves(c, s);
    } else if !Blocked(c.pcs[r]) {
      NotBlockedMoves(c, r);
    } else {
      WaitersMove(c, s, r);
    }
  }

  lemma SenderBlocks<M(!new)>(c: Chan<M>, t: Tid, m: M) returns (c1: Chan<M>, c2: Chan<M>, c3: Chan<M>)
    requires t in c.pcs && c.pcs[t].Outside? && c.owner == None && c.limit < c.num
    ensures Reaches(c, c1) && Reaches(c1, c2) && Reaches(c2, c3) && c3 == c.(pcs := c.pcs[t := SendWait(m)])
  {
    c1 := c.(pcs := c.pcs[t := SendEnter(m)]);
    c2 := c.(owner := Some(t), pcs := c.pcs[t := SendTest(m)]);
    c3 := c.(pcs := c.pcs[t := SendWait(m)]);
    assert Step(c, t, Call(SendEnter(m)), c1);
    assert Step(c1, t, Lock, c2) by { assert c2.pcs == c1.pcs[t := SendTest(m)]; }
    assert Step(c2, t, Test, c3) by { assert c3.pcs == c2.pcs[t := SendWait(m)]; }
  }

  lemma ReceiverBlocks<M(!new)>(c: Chan<M>, t: Tid) returns (c1: Chan<M>, c2: Chan<M>, c3: Chan<M>)
    requires t in c.pcs && c.pcs[t].Outside? && c.owner == None && c.num == 0
    ensures Reaches(c, c1) && Reaches(c1, c2) && Reaches(c2, c3) && c3 == c.(pcs := c.pcs[t := RecvWait])
  {
    c1 := c.(pcs := c.pcs[t := RecvEnter]);
    c2 := c.(owner := Some(t), pcs := c.pcs[t := RecvTest]);
    c3 := c.(pcs := c.pcs[t := RecvWait]);
    assert Step(c, t, Call(RecvEnter), c1);
    assert Step(c1, t, Lock, c2) by { assert c2.pcs == c1.pcs[t := RecvTest]; }
    assert Step(c2, t, Test, c3) by { assert c3.pcs == c2.pcs[t := RecvWait]; }
  }

  /** The condition on the limit is needed: below 0 a sender and a receiver block for good. */
  lemma NegativeLimitBlocks(limit: int) returns (cs: seq<Chan<int>>)
    requires limit < 0
    ensures Run(cs) && cs[0].limit == limit && |cs| == 7
    ensures cs[6].pcs == map[0 := SendWait(5), 1 := RecvWait] && !CanStep(cs[6])
  {
    hide Reaches, CanStep;
    var c0 := Chan(limit, 0, [], None, map[0 := Outside, 1 := Outside], [], []);
    var c1, c2, c3 := SenderBlocks(c0, 0, 5);
    var c4, c5, c6 := ReceiverBlocks(c3, 1);
    cs := [c0, c1, c2, c3, c4, c5, c6];
    AllWaitingStuck(c6);
  }

  lemma AllWaitingStuck<M(!new)>(c: Chan<M>)
    requires forall t | t in c.pcs :: Blocked(c.pcs[t])
    ensures !CanStep(c)
  {
  }
}
