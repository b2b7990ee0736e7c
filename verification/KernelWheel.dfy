/** The wheel inside the scheduler: over any run it is what its own operations make of it, so that every
    theorem about histories of the wheel holds of the scheduler; and the calls of the clean-up timer. */
module KernelWheel {
  import opened Basics
  import opened Wheel
  import WheelPlacement
  import opened WheelAgenda
  import H = WheelHistory
  import opened WheelTheorems
  import K = Kernel
  import opened KernelPartition
  import opened KernelInvariant

  /** What an event does to the wheel: a tick runs it, and then may put the current task to sleep. */
  ghost function WheelOps<T, C>(k: K.Kernel<T, C>, e: K.Event<T, C>): seq<H.Op<Option<T>>> {
    if e.Interrupt? && k.current in k.tcb then
      [H.RunTo(e.now)]
      + if k.tcb[k.current].collaborative then [H.Start(Some(k.current), k.tcb[k.current].sleepMs, 0)] else []
    else []
  }

  ghost function AllOps<T, C>(g: nat, k: K.Kernel<T, C>, es: seq<K.Event<T, C>>): seq<H.Op<Option<T>>>
    requires K.Possible(g, k, es)
    decreases |es|
  {
    if es == [] then [] else WheelOps(k, es[0]) + AllOps(g, K.Step(g, k, es[0]), es[1..])
  }

  /** The callbacks that run during the event. */
  ghost function Calls<T, C>(g: nat, k: K.Kernel<T, C>, e: K.Event<T, C>): seq<Firing<Option<T>>> {
    if e.Interrupt? && g >= 1 && Shaped(k.wheel) then Run(g, k.wheel, e.now).1 else []
  }

  ghost function AllCalls<T, C>(g: nat, k: K.Kernel<T, C>, es: seq<K.Event<T, C>>): seq<Firing<Option<T>>>
    requires K.Possible(g, k, es)
    decreases |es|
  {
    if es == [] then [] else Calls(g, k, es[0]) + AllCalls(g, K.Step(g, k, es[0]), es[1..])
  }

  /** The operations lead from w to w1 with these callbacks. */
  ghost predicate Leads<T>(g: nat, w: Wheel<T>, ops: seq<H.Op<T>>, w1: Wheel<T>, log: seq<Firing<T>>) {
    g >= 1 && Shaped(w) && H.Possible(g, w, ops) && H.History(g, w, ops) == (w1, log)
  }

  lemma LeadsOn<T>(g: nat, w: Wheel<T>, op: H.Op<T>, ops: seq<H.Op<T>>, w2: Wheel<T>, more: seq<Firing<T>>)
    requires g >= 1 && Shaped(w) && H.Enabled(w, op) && Leads(g, H.Apply(g, w, op).0, ops, w2, more)
    ensures Leads(g, w, [op] + ops, w2, H.Apply(g, w, op).1 + more)
  {
    assert ([op] + ops)[1..] == ops;
  }

  lemma TickWheel<T, C>(g: nat, k: K.Kernel<T, C>, now: nat, ops: seq<H.Op<Option<T>>>, w2: Wheel<Option<T>>,
                        more: seq<Firing<Option<T>>>)
    requires K.CanTick(g, k, now) && k.current in k.tcb
    requires K.Timers(g, k, now).tcb[k.current] == k.tcb[k.current]
    requires Leads(g, K.Tick(g, k, now).wheel, ops, w2, more)
    ensures Leads(g, k.wheel, WheelOps(k, K.Event<T, C>.Interrupt(now)) + ops, w2, Run(g, k.wheel, now).1 + more)
  {
    var t, rest := k.tcb[k.current], ops;
    var (w, log) := Run(g, k.wheel, now);
    SliceFields(g, K.Timers(g, k, now));
    if t.collaborative {
      var op := H.Start(Some(k.current), t.sleepMs, 0);
      LeadsOn(g, w, op, ops, w2, more);
      rest := [op] + ops;
      assert [] + more == more;
    }
    LeadsOn(g, k.wheel, H.RunTo(now), rest, w2, more);
    assert WheelOps(k, K.Event<T, C>.Interrupt(now)) + ops == [H.RunTo(now)] + rest;
  }

  lemma StepWheel<T, C>(g: nat, n: nat, k: K.Kernel<T, C>, e: K.Event<T, C>, ops: seq<H.Op<Option<T>>>,
                        w2: Wheel<Option<T>>, more: seq<Firing<Option<T>>>) returns (s: K.Kernel<T, C>)
    requires Inv(g, n, k) && K.Enabled(g, k, e) && Leads(g, K.Step(g, k, e).wheel, ops, w2, more)
    ensures s == K.Step(g, k, e) && Leads(g, k.wheel, WheelOps(k, e) + ops, w2, Calls(g, k, e) + more)
  {
    if e.Interrupt? {
      CurrentKept(g, k, e.now);
      TickWheel(g, k, e.now, ops, w2, more);
      s := K.Step(g, k, e);
    } else {
      s := QuietSleepers(g, k, e);
      assert [] + ops == ops && [] + more == more;
    }
  }

  /** Over any run the wheel is run by the ticks, is given a timer when a task goes to sleep, and is not
      touched otherwise. */
  lemma {:induction false} WheelOfRun<T, C>(g: nat, n: nat, k: K.Kernel<T, C>, es: seq<K.Event<T, C>>)
    requires Inv(g, n, k) && K.Possible(g, k, es) && AlwaysFits(g, n, k, es)
    ensures Leads(g, k.wheel, AllOps(g, k, es), K.Exec(g, k, es).wheel, AllCalls(g, k, es))
    decreases |es|
  {
    if es != [] {
      var s := StepInv(g, n, k, es[0]);
      WheelOfRun(g, n, s, es[1..]);
      var s' := StepWheel(g, n, k, es[0], AllOps(g, s, es[1..]), K.Exec(g, s, es[1..]).wheel, AllCalls(g, s, es[1..]));
    }
  }

  // ----- the clean-up timer

  /** Only sleeping tasks are given timers. */
  lemma {:induction false} CleanUpSpared<T>(g: nat, w: Wheel<Option<T>>, ops: seq<H.Op<Option<T>>>)
    requires g >= 1 && Shaped(w) && H.Possible(g, w, ops)
    requires forall op :: op in ops ==> op.RunTo? || (op.Start? && op.param.Some?)
    ensures AllSpare(g, w, ops, None)
    decreases |ops|
  {
    if ops != [] {
      assert ops[0] in ops;
      CleanUpSpared<T>(g, H.Apply(g, w, ops[0]).0, ops[1..]);
    }
  }

  lemma {:induction false} OnlySleepers<T, C>(g: nat, k: K.Kernel<T, C>, es: seq<K.Event<T, C>>)
    requires K.Possible(g, k, es)
    ensures forall op :: op in AllOps(g, k, es) ==> op.RunTo? || (op.Start? && op.param.Some?)
    decreases |es|
  {
    if es != [] {
      OnlySleepers(g, K.Step(g, k, es[0]), es[1..]);
    }
  }

  lemma EmptyAgenda<T>(g: nat, now: nat)
    requires g >= 1
    ensures AgendaOf(g, Empty<T>(now)) == multiset{}
  {
    var a := AgendaOf(g, Empty<T>(now));
    if a != multiset{} {
      var e :| e in a;
      AgendaMember(g, now, Empty<T>(now).slots, e);
      PendingMember(Empty<T>(now).slots, e.timer);
    }
  }

  /** At the start the wheel holds the clean-up timer, and nothing else. */
  lemma BootWheel<T, C>(g: nat, main: T, context: C, now: nat, queues: set<nat>) returns (f: Firing<Option<T>>)
    requires 1 <= g <= 64
    ensures f == Firing(FirstTick(g, now, 150000), Timer(None, now + 150000, 150000))
    ensures var w := K.Boot(g, main, context, now, queues).wheel;
            && Shaped(w) && w.jiffies == now
            && Pending(w.slots) == multiset{Timer(None, now + 150000, 150000)}
            && H.Only(AgendaOf(g, w), None, Some(f))
  {
    var w := Empty<Option<T>>(now);
    EmptyValid<Option<T>>(g, now);
    EmptyPending<Option<T>>(now);
    EmptyAgenda<Option<T>>(g, now);
    PendingPut(w.slots, SlotFor(g, now, now + 150000), Timer(None, now + 150000, 150000));
    f := CreateOnly(g, w, None, 150000, 150000);
  }

  /** Over any run the clean-up timer fires as if it were alone. */
  lemma CleanUpAlone<T, C>(g: nat, n: nat, k: K.Kernel<T, C>, es: seq<K.Event<T, C>>, f: Firing<Option<T>>)
    requires 1 <= g <= 64 && Inv(g, n, k) && K.Possible(g, k, es) && AlwaysFits(g, n, k, es)
    requires H.Only(AgendaOf(g, k.wheel), None, Some(f)) && f.at >= k.wheel.jiffies
    ensures H.Ticks(AllCalls(g, k, es), None) == H.Alone(g, Some(f), K.Exec(g, k, es).wheel.jiffies)
  {
    WheelOfRun(g, n, k, es);
    OnlySleepers(g, k, es);
    CleanUpSpared(g, k.wheel, AllOps(g, k, es));
    TimerAlone(g, k.wheel, AllOps(g, k, es), None, Some(f));
  }

  lemma CleanUpSteady<T>(g: nat, now: nat, f: Firing<T>, until: nat)
    requires 10 <= g <= 64 && f.at == FirstTick(g, now, 150000) && f.timer.period == 150000
    ensures H.Alone(g, Some(f), until) == Progression(now + 150000, 150000, until)
  {
    FirstTickIff(g, now, 150000);
    SteadyOnTime(g, f.at, 150000, until);
    NoDriftIff(g, f, 150000, until);
  }

  /** In every run from the start the clean-up runs at 150000 ticks after the start, at 300000, and so on
      as far as the wheel has been run, and at no other time. */
  lemma CleanUpOnTime<T, C>(g: nat, n: nat, main: T, context: C, now: nat, queues: set<nat>, k: K.Kernel<T, C>,
                            es: seq<K.Event<T, C>>)
    requires 10 <= g <= 64 && 1 <= n <= 32767 && k == K.Boot(g, main, context, now, queues)
    requires K.Possible(g, k, es) && AlwaysFits(g, n, k, es)
    ensures H.Ticks(AllCalls(g, k, es), None) == Progression(now + 150000, 150000, K.Exec(g, k, es).wheel.jiffies)
  {
    var f := BootWheel(g, main, context, now, queues);
    assert Inv(g, n, k) by {
      BootInv(g, n, main, context, now, queues);
    }
    CleanUpAlone(g, n, k, es, f);
    CleanUpSteady(g, now, f, K.Exec(g, k, es).wheel.jiffies);
  }
}
