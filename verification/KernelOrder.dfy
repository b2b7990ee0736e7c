/** The order of the lists: what each event does to the ready list, the pool as a queue of dead tasks,
    and the list of all tasks in the order of starting. */
module KernelOrder {
  import opened Basics
  import opened Wheel
  import opened WheelHistory
  import opened Kernel
  import K = Kernel
  import opened KernelPartition
  import opened KernelInvariant
  import R = KernelRuns

  // ----- the ready list

  /** The tasks that the callbacks of a run_timer wake, in the order of the calls. */
  function Woken<T>(log: seq<Firing<Option<T>>>): seq<T> {
    if log == [] then []
    else (if log[0].timer.param.Some? then [log[0].timer.param.value] else []) + Woken(log[1..])
  }

  lemma {:induction false} CallBackReady<T, C>(k: Kernel<T, C>, log: seq<Firing<Option<T>>>)
    requires Known(k, log)
    ensures CallBack(k, log).ready == k.ready + Woken(log)
    decreases |log|
  {
    if log == [] {
      assert k.ready + [] == k.ready;
    } else {
      match log[0].timer.param
      case Some(x) =>
        CallBackReady(Wake(k, x), log[1..]);
        assert (k.ready + [x]) + Woken(log[1..]) == k.ready + ([x] + Woken(log[1..]));
      case None =>
        CallBackReady(k, log[1..]);
        assert Woken(log) == Woken(log[1..]);
    }
  }

  /** Those that join the ready list at its end: a new task, the woken sleepers in the order of the calls,
      and behind them the task whose slice has ended. */
  ghost function AtEnd<T, C>(g: nat, k: Kernel<T, C>, e: Event<T, C>): seq<T> {
    match e
    case Start(memory, _, _) => [Started(k, memory)]
    case Interrupt(now) =>
      if g >= 1 && Shaped(k.wheel) && k.current in k.tcb then
        Woken(Run(g, k.wheel, now).1)
        + if !k.tcb[k.current].collaborative && k.tcb[k.current].ticks == 0 then [k.current] else []
      else []
    case _ => []
  }

  /** And at its front: a task that is unblocked. */
  ghost function AtFront<T, C>(k: Kernel<T, C>, e: Event<T, C>): seq<T> {
    match e
    case Unblock(x) => [x]
    case Up(q) => if q in k.waiters && k.waiters[q] != [] then [k.waiters[q][0]] else []
    case _ => []
  }

  /** From the queue q, the first gets the processor if the event gives it up. */
  ghost predicate Served<T, C>(q: seq<T>, current: T, gives: bool, s: Kernel<T, C>) {
    if gives then q != [] && s.current == q[0] && s.ready == q[1..] else s.current == current && s.ready == q
  }

  lemma SliceReady<T, C>(g: nat, m: Kernel<T, C>) returns (s: Kernel<T, C>)
    requires g >= 1 && CanSlice(m)
    ensures s == Slice(g, m)
    ensures var t := m.tcb[m.current];
            Served(m.ready + if !t.collaborative && t.ticks == 0 then [m.current] else [], m.current,
                   t.collaborative || t.ticks == 0, s)
  {
    s := Slice(g, m);
    assert m.ready + [] == m.ready;
  }

  lemma TickReady<T, C>(g: nat, k: Kernel<T, C>, e: Event<T, C>) returns (s: Kernel<T, C>)
    requires e.Interrupt? && CanTick(g, k, e.now) && k.current in k.tcb
    requires Timers(g, k, e.now).tcb[k.current] == k.tcb[k.current]
    ensures s == K.Tick(g, k, e.now)
    ensures Served(k.ready + AtEnd(g, k, e), k.current, R.Dispatches(k, e), s)
  {
    var log := Run(g, k.wheel, e.now).1;
    CallBackReady(k.(wheel := Run(g, k.wheel, e.now).0), log);
    s := SliceReady(g, Timers(g, k, e.now));
    var last := if !k.tcb[k.current].collaborative && k.tcb[k.current].ticks == 0 then [k.current] else [];
    assert (k.ready + Woken(log)) + last == k.ready + (Woken(log) + last);
  }

  lemma QuietReady<T, C>(g: nat, k: Kernel<T, C>, e: Event<T, C>) returns (s: Kernel<T, C>)
    requires K.Enabled(g, k, e) && !e.Interrupt?
    ensures s == Step(g, k, e)
    ensures Served(AtFront(k, e) + k.ready + AtEnd(g, k, e), k.current, R.Dispatches(k, e), s)
  {
    s := Step(g, k, e);
    assert [] + k.ready + [] == k.ready && [] + k.ready == k.ready;
    assert AtFront(k, e) + k.ready + [] == AtFront(k, e) + k.ready;
  }

  /** The ready list and the processor after every event, exactly. */
  lemma StepReady<T, C>(g: nat, n: nat, k: Kernel<T, C>, e: Event<T, C>) returns (s: Kernel<T, C>)
    requires Inv(g, n, k) && K.Enabled(g, k, e)
    ensures s == Step(g, k, e)
    ensures Served(AtFront(k, e) + k.ready + AtEnd(g, k, e), k.current, R.Dispatches(k, e), s)
  {
    if e.Interrupt? {
      CurrentKept(g, k, e.now);
      s := TickReady(g, k, e);
      assert [] + k.ready == k.ready;
    } else {
      s := QuietReady(g, k, e);
    }
  }

  // ----- the pool

  /** The task that dies, unless it is the main task. */
  ghost function Dies<T, C>(k: Kernel<T, C>, e: Event<T, C>): seq<T> {
    if e.Exit? && k.current != k.main then [k.current] else []
  }

  /** The dead task whose memory is taken. */
  ghost function Reused<T, C>(k: Kernel<T, C>, e: Event<T, C>): seq<T> {
    if e.Start? && k.pool != [] then [Started(k, e.memory)] else []
  }

  ghost function AllDie<T, C>(g: nat, k: Kernel<T, C>, es: seq<Event<T, C>>): seq<T>
    requires K.Possible(g, k, es)
    decreases |es|
  {
    if es == [] then [] else Dies(k, es[0]) + AllDie(g, Step(g, k, es[0]), es[1..])
  }

  ghost function AllReused<T, C>(g: nat, k: Kernel<T, C>, es: seq<Event<T, C>>): seq<T>
    requires K.Possible(g, k, es)
    decreases |es|
  {
    if es == [] then [] else Reused(k, es[0]) + AllReused(g, Step(g, k, es[0]), es[1..])
  }

  lemma StepPool<T, C>(g: nat, k: Kernel<T, C>, e: Event<T, C>) returns (s: Kernel<T, C>)
    requires K.Enabled(g, k, e)
    ensures s == Step(g, k, e) && s.main == k.main
    ensures k.pool + Dies(k, e) == Reused(k, e) + s.pool
  {
    s := Step(g, k, e);
    if e.Start? && k.pool != [] {
      assert k.pool == [k.pool[0]] + k.pool[1..];
    } else if e.Interrupt? {
      CallBackKeeps(k.(wheel := Run(g, k.wheel, e.now).0), Run(g, k.wheel, e.now).1);
      SlicePool(g, Timers(g, k, e.now));
    }
  }

  lemma SlicePool<T, C>(g: nat, m: Kernel<T, C>)
    requires g >= 1 && CanSlice(m)
    ensures Slice(g, m).pool == m.pool && Slice(g, m).main == m.main
  {
  }

  /** Dead tasks are used again in the order in which they died; and the main task stays the main task. */
  lemma {:induction false} ReusedInOrder<T, C>(g: nat, k: Kernel<T, C>, es: seq<Event<T, C>>)
    requires K.Possible(g, k, es)
    ensures k.pool + AllDie(g, k, es) == AllReused(g, k, es) + Exec(g, k, es).pool
    ensures Exec(g, k, es).main == k.main
    decreases |es|
  {
    if es != [] {
      var s := StepPool(g, k, es[0]);
      ReusedInOrder(g, s, es[1..]);
      QueueThen(k.pool, Dies(k, es[0]), Reused(k, es[0]), s.pool,
                AllDie(g, s, es[1..]), AllReused(g, s, es[1..]), Exec(g, s, es[1..]).pool);
    }
  }

  // ----- the list of all tasks

  /** x stands before y. */
  ghost predicate Ahead<T>(s: seq<T>, x: T, y: T) {
    x in s && y in s && R.Pos(s, x) < R.Pos(s, y)
  }

  lemma {:induction false} RemoveOrder<T>(s: seq<T>, z: T, x: T, y: T)
    requires NoDup(s) && x != z && y != z && Ahead(s, x, y)
    ensures Ahead(Remove(s, z), x, y)
  {
    RemoveMeans(s, z);
    if s[0] == z {
      R.PosRest(s, x);
      R.PosRest(s, y);
    } else {
      var rest := Remove(s[1..], z);
      assert ([s[0]] + rest)[1..] == rest;
      R.PosRest(s, y);
      if s[0] != x {
        R.PosRest(s, x);
        RemoveOrder(s[1..], z, x, y);
        R.PosPush(rest, s[0], x);
        R.PosPush(rest, s[0], y);
      }
    }
  }

  lemma AppendOrder<T>(s: seq<T>, z: T, x: T)
    requires x in s && z !in s
    ensures Ahead(s + [z], x, z) && R.Pos(s + [z], x) == R.Pos(s, x)
  {
    R.PosPrefix(s, s + [z], x);
    assert (s + [z])[R.Pos(s + [z], z)] == z;
  }

  /** The list keeps its order, and a new task is the last. */
  lemma StepOrder<T, C>(g: nat, n: nat, k: Kernel<T, C>, e: Event<T, C>, x: T, y: T) returns (s: Kernel<T, C>)
    requires Inv(g, n, k) && K.Enabled(g, k, e) && x in k.all && !(e.Exit? && (x == k.current || y == k.current))
    ensures s == Step(g, k, e) && x in s.all
    ensures Ahead(k.all, x, y) || (y !in k.all && y in s.all) ==> Ahead(s.all, x, y)
  {
    s := Step(g, k, e);
    if e.Exit? {
      RemoveMeans(k.all, k.current);
      if Ahead(k.all, x, y) {
        RemoveOrder(k.all, k.current, x, y);
      }
    } else if e.Finish? {
      AppendOrder(k.all, k.part[k.current].task, x);
      if y in k.all {
        AppendOrder(k.all, k.part[k.current].task, y);
      }
    } else if e.Interrupt? {
      R.TickLives(g, n, k, e.now);
    }
  }

  /** Over any run: x, which lives throughout, stays before every task that is behind it or comes later,
      as long as that task lives. */
  lemma {:induction false} Seniority<T, C>(g: nat, n: nat, k: Kernel<T, C>, es: seq<Event<T, C>>, x: T, y: T)
    requires Inv(g, n, k) && K.Possible(g, k, es) && AlwaysFits(g, n, k, es)
    requires x in k.all && R.Lives(g, k, es, x) && (Ahead(k.all, x, y) || y !in k.all) && x != y
    ensures y in Exec(g, k, es).all ==> Ahead(Exec(g, k, es).all, x, y)
    decreases |es|
  {
    if es != [] {
      var s' := StepInv(g, n, k, es[0]);
      if es[0].Exit? && y == k.current {
        RemoveMeans(k.all, k.current);
      } else {
        var s := StepOrder(g, n, k, es[0], x, y);
      }
      Seniority(g, n, s', es[1..], x, y);
    }
  }
}
