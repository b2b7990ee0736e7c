/** Two laws over whole runs of the scheduler: how soon a ready task gets the processor,
    and that every task computes with its own machine context only. */
module KernelRuns {
  import opened Basics
  import opened Wheel
  import opened Kernel
  import K = Kernel
  import opened KernelPartition
  import opened KernelInvariant
  import opened KernelSleep

  // ----- bounded bypass

  /** The place of x in the list. */
  ghost function Pos<T>(s: seq<T>, x: T): (p: nat)
    ensures x in s ==> p < |s| && s[p] == x
    ensures forall i :: 0 <= i < p && i < |s| ==> s[i] != x
  {
    if s == [] || s[0] == x then 0 else 1 + Pos(s[1..], x)
  }

  lemma {:induction false} PosPrefix<T>(s: seq<T>, t: seq<T>, x: T)
    requires x in s && s <= t
    ensures x in t && Pos(t, x) == Pos(s, x)
  {
    if s[0] != x {
      PosPrefix(s[1..], t[1..], x);
    }
  }

  lemma PosRest<T>(s: seq<T>, x: T)
    requires x in s && s[0] != x
    ensures x in s[1..] && Pos(s[1..], x) == Pos(s, x) - 1
  {
    assert s[1..][Pos(s, x) - 1] == x;
  }

  lemma PosPush<T>(s: seq<T>, y: T, x: T)
    requires x in s && x != y
    ensures x in [y] + s && Pos([y] + s, x) == Pos(s, x) + 1
  {
    assert ([y] + s)[1..] == s;
    assert ([y] + s)[Pos(s, x) + 1] == x;
  }

  /** Does the event take the first task of the ready list? */
  ghost predicate Dispatches<T, C>(k: Kernel<T, C>, e: Event<T, C>) {
    match e
    case Switch => true
    case Block(_, _) => true
    case Interrupt(_) => k.current in k.tcb && (k.tcb[k.current].collaborative || k.tcb[k.current].ticks == 0)
    case _ => false
  }

  /** Does the event push a task to the front of the ready list? */
  predicate Pushes<T, C>(e: Event<T, C>) {
    e.Unblock? || e.Up?
  }

  ghost function DispatchCount<T, C>(g: nat, k: Kernel<T, C>, es: seq<Event<T, C>>): nat
    requires Possible(g, k, es)
    decreases |es|
  {
    if es == [] then 0
    else (if Dispatches(k, es[0]) then 1 else 0) + DispatchCount(g, Step(g, k, es[0]), es[1..])
  }

  function PushCount<T, C>(es: seq<Event<T, C>>): nat {
    if es == [] then 0 else (if Pushes(es[0]) then 1 else 0) + PushCount(es[1..])
  }

  /** Task x has the processor in some state of the run. */
  ghost predicate Runs<T, C>(g: nat, k: Kernel<T, C>, es: seq<Event<T, C>>, x: T)
    requires Possible(g, k, es)
    decreases |es|
  {
    k.current == x || (es != [] && Runs(g, Step(g, k, es[0]), es[1..], x))
  }

  /** x was at place p; now it is at p, plus one for a push, minus one for a dispatch, and if
      that takes it out of the list then it has the processor. */
  ghost predicate Moved<T, C>(p: nat, push: bool, dispatch: bool, s: Kernel<T, C>, x: T) {
    if dispatch && p == 0 then s.current == x
    else x in s.ready && Pos(s.ready, x) == p + (if push then 1 else 0) - (if dispatch then 1 else 0)
  }

  lemma SliceMoves<T, C>(g: nat, k: Kernel<T, C>, x: T)
    requires g >= 1 && Partition(k) && CanSlice(k) && x in k.ready
    ensures Moved(Pos(k.ready, x), false, k.tcb[k.current].collaborative || k.tcb[k.current].ticks == 0,
                  Slice(g, k), x)
  {
    ReadyMeans(k, x);
    if Pos(k.ready, x) > 0 {
      PosRest(k.ready, x);
      PosPrefix(k.ready[1..], k.ready[1..] + [k.current], x);
      assert (k.ready + [k.current])[1..] == k.ready[1..] + [k.current];
    }
  }

  lemma TickMoves<T, C>(g: nat, n: nat, k: Kernel<T, C>, now: nat, x: T)
    requires Inv(g, n, k) && CanTick(g, k, now) && x in k.ready
    ensures Moved(Pos(k.ready, x), false, Dispatches(k, Event<T, C>.Interrupt(now)), K.Tick(g, k, now), x)
  {
    var m := Timers(g, k, now);
    TimersInv(g, n, k, now);
    TimersCurrent(g, n, k, now);
    CallBackKeeps(k.(wheel := Run(g, k.wheel, now).0), Run(g, k.wheel, now).1);
    PosPrefix(k.ready, m.ready, x);
    SliceMoves(g, m, x);
  }

  lemma PopMoves<T, C>(k: Kernel<T, C>, s: Kernel<T, C>, x: T)
    requires x in k.ready && s.ready == k.ready[1..] && s.current == k.ready[0]
    ensures Moved(Pos(k.ready, x), false, true, s, x)
  {
    if k.ready[0] != x {
      PosRest(k.ready, x);
    }
  }

  lemma PushMoves<T, C>(k: Kernel<T, C>, s: Kernel<T, C>, y: T, x: T)
    requires x in k.ready && x != y && s.ready == [y] + k.ready
    ensures Moved(Pos(k.ready, x), true, false, s, x)
  {
    PosPush(k.ready, y, x);
  }

  /** The task that the event puts into the ready list. */
  ghost function Added<T, C>(k: Kernel<T, C>, e: Event<T, C>): Option<T> {
    match e
    case Start(memory, _, _) => Some(Started(k, memory))
    case Unblock(y) => Some(y)
    case Up(q) => if CanWake(k, q) then Some(k.waiters[q][0]) else None
    case _ => None
  }

  /** What an event other than a tick does to the ready list. */
  lemma ReadyAfter<T, C>(g: nat, k: Kernel<T, C>, e: Event<T, C>) returns (s: Kernel<T, C>)
    requires Enabled(g, k, e) && !e.Interrupt?
    ensures s == Step(g, k, e)
    ensures Dispatches(k, e) ==> k.ready != [] && s.ready == k.ready[1..] && s.current == k.ready[0]
    ensures Pushes(e) ==> Added(k, e).Some? && s.ready == [Added(k, e).value] + k.ready
    ensures !Dispatches(k, e) && !Pushes(e) ==> k.ready <= s.ready
  {
    s := Step(g, k, e);
  }

  lemma QuietMoves<T, C>(g: nat, k: Kernel<T, C>, e: Event<T, C>, x: T) returns (s: Kernel<T, C>)
    requires Partition(k) && Enabled(g, k, e) && !e.Interrupt? && x in k.ready
    ensures s == Step(g, k, e) && Moved(Pos(k.ready, x), Pushes(e), Dispatches(k, e), s, x)
  {
    s := ReadyAfter(g, k, e);
    if Dispatches(k, e) {
      PopMoves(k, s, x);
    } else if Pushes(e) {
      PushedIsOther(g, k, e, x);
      PushMoves(k, s, Added(k, e).value, x);
    } else {
      PosPrefix(k.ready, s.ready, x);
    }
  }

  /** A task that is woken was not in the ready list. */
  lemma PushedIsOther<T, C>(g: nat, k: Kernel<T, C>, e: Event<T, C>, x: T)
    requires Partition(k) && Enabled(g, k, e) && Pushes(e) && x in k.ready
    ensures Added(k, e) != Some(x)
  {
    ReadyMeans(k, x);
    if e.Up? {
      assert k.waiters[e.semaphore][0] in k.waiters[e.semaphore];
    }
  }

  /** Every event moves a ready task by exactly this much. */
  lemma StepMoves<T, C>(g: nat, n: nat, k: Kernel<T, C>, e: Event<T, C>, x: T) returns (s: Kernel<T, C>)
    requires Inv(g, n, k) && Enabled(g, k, e) && x in k.ready
    ensures s == Step(g, k, e) && Moved(Pos(k.ready, x), Pushes(e), Dispatches(k, e), s, x)
  {
    if e.Interrupt? {
      s := Step(g, k, e);
      TickMoves(g, n, k, e.now, x);
    } else {
      s := QuietMoves(g, k, e, x);
    }
  }

  /** Until x gets the processor, its place is known exactly. */
  lemma {:induction false} BypassLaw<T, C>(g: nat, n: nat, k: Kernel<T, C>, es: seq<Event<T, C>>, x: T)
    requires Inv(g, n, k) && Possible(g, k, es) && AlwaysFits(g, n, k, es)
    requires x in k.ready && !Runs(g, k, es, x)
    ensures x in Exec(g, k, es).ready
    ensures Pos(Exec(g, k, es).ready, x) == Pos(k.ready, x) + PushCount(es) - DispatchCount(g, k, es)
    decreases |es|
  {
    if es != [] {
      var s := StepMoves(g, n, k, es[0], x);
      var s' := StepInv(g, n, k, es[0]);
      BypassLaw(g, n, s, es[1..], x);
    }
  }

  /** Bounded bypass: a task at place p gets the processor within p + 1 + m dispatches, when m
      tasks are woken to the front of the list meanwhile. */
  lemma BoundedBypass<T, C>(g: nat, n: nat, k: Kernel<T, C>, es: seq<Event<T, C>>, x: T)
    requires Inv(g, n, k) && Possible(g, k, es) && AlwaysFits(g, n, k, es) && x in k.ready
    requires DispatchCount(g, k, es) >= Pos(k.ready, x) + 1 + PushCount(es)
    ensures Runs(g, k, es, x)
  {
    if !Runs(g, k, es, x) {
      BypassLaw(g, n, k, es, x);
    }
  }

  // ----- wait lists

  /** The task that the event appends to wait list q, and the one that it wakes from it. */
  ghost function Joins<T, C>(k: Kernel<T, C>, e: Event<T, C>, q: nat): seq<T> {
    if e.Block? && e.semaphore == q then [k.current] else []
  }

  ghost function Departs<T, C>(k: Kernel<T, C>, e: Event<T, C>, q: nat): seq<T> {
    if e == Event<T, C>.Up(q) && q in k.waiters && k.waiters[q] != [] then [k.waiters[q][0]] else []
  }

  ghost function AllJoin<T, C>(g: nat, k: Kernel<T, C>, es: seq<Event<T, C>>, q: nat): seq<T>
    requires Possible(g, k, es)
    decreases |es|
  {
    if es == [] then [] else Joins(k, es[0], q) + AllJoin(g, Step(g, k, es[0]), es[1..], q)
  }

  ghost function AllDepart<T, C>(g: nat, k: Kernel<T, C>, es: seq<Event<T, C>>, q: nat): seq<T>
    requires Possible(g, k, es)
    decreases |es|
  {
    if es == [] then [] else Departs(k, es[0], q) + AllDepart(g, Step(g, k, es[0]), es[1..], q)
  }

  lemma StepWaiters<T, C>(g: nat, k: Kernel<T, C>, e: Event<T, C>, q: nat) returns (s: Kernel<T, C>)
    requires Enabled(g, k, e) && q in k.waiters
    ensures s == Step(g, k, e) && q in s.waiters
    ensures k.waiters[q] + Joins(k, e, q) == Departs(k, e, q) + s.waiters[q]
  {
    s := Step(g, k, e);
    match e
    case Up(r) =>
      assert k.waiters[r] == [k.waiters[r][0]] + k.waiters[r][1..];
    case Interrupt(now) =>
      CallBackWaiters(k.(wheel := Run(g, k.wheel, now).0), Run(g, k.wheel, now).1);
      SliceFields(g, Timers(g, k, now));
    case _ =>
  }

  lemma {:induction false} CallBackWaiters<T, C>(k: Kernel<T, C>, log: seq<Firing<Option<T>>>)
    requires Known(k, log)
    ensures CallBack(k, log).waiters == k.waiters
    decreases |log|
  {
    if log != [] {
      match log[0].timer.param
      case Some(x) => CallBackWaiters(Wake(k, x), log[1..]);
      case None => CallBackWaiters(k, log[1..]);
    }
  }

  /** The tasks waiting on a semaphore are woken in the order in which they blocked. */
  lemma {:induction false} WaitersInOrder<T, C>(g: nat, k: Kernel<T, C>, es: seq<Event<T, C>>, q: nat)
    requires Possible(g, k, es) && q in k.waiters
    ensures q in Exec(g, k, es).waiters
    ensures k.waiters[q] + AllJoin(g, k, es, q) == AllDepart(g, k, es, q) + Exec(g, k, es).waiters[q]
    decreases |es|
  {
    if es != [] {
      var s := StepWaiters(g, k, es[0], q);
      WaitersInOrder(g, s, es[1..], q);
      QueueThen(k.waiters[q], Joins(k, es[0], q), Departs(k, es[0], q), s.waiters[q],
                AllJoin(g, s, es[1..], q), AllDepart(g, s, es[1..], q), Exec(g, s, es[1..]).waiters[q]);
    }
  }

  // ----- context isolation

  /** The context that task x computes with, now or when it next runs.  In the middle of a switch
      the machine still holds that of the task before. */
  ghost function Private<T, C>(k: Kernel<T, C>, x: T): C
    requires x in k.tcb
  {
    if HasMachine(k, x) then k.cpu else k.tcb[x].context
  }

  ghost predicate HasMachine<T, C>(k: Kernel<T, C>, x: T) {
    if k.current in k.part && k.part[k.current].Loading? then k.part[k.current].from == Some(x)
    else x == k.current
  }

  lemma SlicePrivate<T, C>(g: nat, k: Kernel<T, C>, x: T)
    requires g >= 1 && Partition(k) && CanSlice(k) && !Late(k) && x in k.tcb
    ensures x in Slice(g, k).tcb && Private(Slice(g, k), x) == Private(k, x)
  {
    if k.ready != [] {
      FirstReady(k);
    }
    if Free(k) {
      FreeMeans(k);
    }
  }

  lemma TickPrivate<T, C>(g: nat, n: nat, k: Kernel<T, C>, now: nat, x: T)
    requires Inv(g, n, k) && CanTick(g, k, now) && !Late(k) && x in k.tcb
    ensures x in K.Tick(g, k, now).tcb && Private(K.Tick(g, k, now), x) == Private(k, x)
  {
    TimersInv(g, n, k, now);
    CurrentKept(g, k, now);
    CallBackKeeps(k.(wheel := Run(g, k.wheel, now).0), Run(g, k.wheel, now).1);
    SlicePrivate(g, K.Timers(g, k, now), x);
  }

  lemma TickLives<T, C>(g: nat, n: nat, k: Kernel<T, C>, now: nat)
    requires Inv(g, n, k) && CanTick(g, k, now)
    ensures K.Tick(g, k, now).all == k.all
  {
    TimersInv(g, n, k, now);
    CallBackKeeps(k.(wheel := Run(g, k.wheel, now).0), Run(g, k.wheel, now).1);
    SliceFields(g, K.Timers(g, k, now));
  }

  /** The two halves of a switch, and the switch of sema_down. */
  lemma SwitchPrivate<T, C>(g: nat, k: Kernel<T, C>, e: Event<T, C>, x: T) returns (s: Kernel<T, C>)
    requires Partition(k) && Enabled(g, k, e) && x in k.all
    requires e.Block? || e.Switch? || e.LoadContext?
    ensures s == Step(g, k, e) && x in s.tcb && s.all == k.all && Private(s, x) == Private(k, x)
  {
    s := Step(g, k, e);
    if !e.LoadContext? {
      FirstReady(k);
    }
    if e.Block? {
      FreeMeans(k);
    }
  }

  lemma StartPrivate<T, C>(k: Kernel<T, C>, memory: T, prio: int, context: C, x: T)
    requires Partition(k) && Free(k) && CanStart(k, memory) && x in k.all
    ensures var s := Enrol(k, memory, prio, context);
            x in s.tcb && s.all == k.all && Private(s, x) == Private(k, x)
  {
    OutOfPool(k, Started(k, memory), Enrol(k, memory, prio, context).pool);
  }

  lemma QuietPrivate<T, C>(g: nat, k: Kernel<T, C>, e: Event<T, C>, x: T) returns (s: Kernel<T, C>)
    requires Partition(k) && Enabled(g, k, e) && !e.Interrupt? && x in k.all
    ensures s == Step(g, k, e) && x in s.tcb
    ensures x in s.all ==> Private(s, x) == if e.Compute? && x == k.current then e.context else Private(k, x)
    ensures x !in s.all <==> e.Exit? && x == k.current
  {
    if e.Block? || e.Switch? || e.LoadContext? {
      s := SwitchPrivate(g, k, e, x);
    } else {
      s := Step(g, k, e);
      match e
      case Start(memory, prio, context) => StartPrivate(k, memory, prio, context, x);
      case Exit => RemoveMeans(k.all, k.current);
      case _ =>
    }
  }

  /** No event but x's own computing changes the context of a live task x. */
  lemma StepPrivate<T, C>(g: nat, n: nat, k: Kernel<T, C>, e: Event<T, C>, x: T) returns (s: Kernel<T, C>)
    requires Inv(g, n, k) && Enabled(g, k, e) && Fits(n, k, e) && x in k.all
    ensures s == Step(g, k, e) && x in s.tcb
    ensures x in s.all ==> Private(s, x) == if e.Compute? && x == k.current then e.context else Private(k, x)
    ensures x !in s.all <==> e.Exit? && x == k.current
  {
    if e.Interrupt? {
      s := Step(g, k, e);
      TickPrivate(g, n, k, e.now, x);
      TickLives(g, n, k, e.now);
    } else {
      s := QuietPrivate(g, k, e, x);
    }
  }

  /** A task's context after its own last computation of the run; c if it did not compute. */
  ghost function Own<T, C>(g: nat, k: Kernel<T, C>, es: seq<Event<T, C>>, x: T, c: C): C
    requires Possible(g, k, es)
    decreases |es|
  {
    if es == [] then c
    else Own(g, Step(g, k, es[0]), es[1..], x,
             if es[0].Compute? && x == k.current then es[0].context else c)
  }

  /** x does not exit during the run. */
  ghost predicate Lives<T, C>(g: nat, k: Kernel<T, C>, es: seq<Event<T, C>>, x: T)
    requires Possible(g, k, es)
    decreases |es|
  {
    es != [] ==> !(es[0].Exit? && x == k.current) && Lives(g, Step(g, k, es[0]), es[1..], x)
  }

  /** Context isolation: whenever x has the processor, the machine context is the one x left
      there, however often and for whatever reason other tasks ran in between. */
  lemma {:induction false} ContextsArePrivate<T, C>(g: nat, n: nat, k: Kernel<T, C>, es: seq<Event<T, C>>, x: T)
    requires Inv(g, n, k) && Possible(g, k, es) && AlwaysFits(g, n, k, es)
    requires x in k.all && Lives(g, k, es, x)
    ensures var s := Exec(g, k, es);
            && x in s.all && x in s.tcb && Private(s, x) == Own(g, k, es, x, Private(k, x))
            && (HasMachine(s, x) ==> s.cpu == Own(g, k, es, x, Private(k, x)))
    decreases |es|
  {
    if es != [] {
      var s := StepPrivate(g, n, k, es[0], x);
      var s' := StepInv(g, n, k, es[0]);
      ContextsArePrivate(g, n, s, es[1..], x);
    }
  }

  /** A new task starts with the context that was built for it. */
  lemma StartsFresh<T, C>(g: nat, n: nat, k: Kernel<T, C>, memory: T, prio: int, context: C)
    requires Inv(g, n, k) && Free(k) && CanStart(k, memory)
    ensures var e, x := Enrol(k, memory, prio, context), Started(k, memory);
            && x !in k.all && x in e.ready && x != e.current && Private(e, x) == context
            && x in Admit(e).all && Private(Admit(e), x) == context
  {
    assert k.pool != [] ==> k.pool[0] in k.pool;
  }
}
