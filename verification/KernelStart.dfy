/** The stretch of task_start between the early enabling of interrupts in allocate_tid and the
    insertion into the ready list: the new task is initialised and in no list.  A tick that comes
    there takes no notice of it; so the stretch can be taken as one step with the insertion. */
module KernelStart {
  import opened Basics
  import opened Wheel
  import WheelPlacement
  import opened WheelHistory
  import opened Kernel
  import K = Kernel
  import opened KernelPartition
  import opened KernelInvariant

  /** The state with a task outside all lists that has just been initialised. */
  ghost function With<T, C>(k: Kernel<T, C>, task: T, t: Tcb<C>, pool: seq<T>, bits: seq<bool>): Kernel<T, C> {
    k.(tcb := k.tcb[task := t], pool := pool, bits := bits)
  }

  /** The last write of the stretch, the insertion. */
  ghost function Insert<T, C>(k: Kernel<T, C>, task: T): Kernel<T, C> {
    k.(ready := k.ready + [task], part := k.part[k.current := Enrolling(task)])
  }

  lemma {:induction false} CallBackWith<T, C>(k: Kernel<T, C>, log: seq<Firing<Option<T>>>, task: T, t: Tcb<C>,
                                              pool: seq<T>, bits: seq<bool>)
    requires Known(k, log) && forall f | f in log :: f.timer.param != Some(task)
    ensures Known(With(k, task, t, pool, bits), log)
    ensures CallBack(With(k, task, t, pool, bits), log) == With(CallBack(k, log), task, t, pool, bits)
    decreases |log|
  {
    if log != [] {
      match log[0].timer.param
      case Some(x) =>
        assert Wake(With(k, task, t, pool, bits), x).tcb == With(Wake(k, x), task, t, pool, bits).tcb;
        CallBackWith(Wake(k, x), log[1..], task, t, pool, bits);
      case None =>
        CallBackWith(k, log[1..], task, t, pool, bits);
    }
  }

  lemma YieldWith<T, C>(k: Kernel<T, C>, task: T, t: Tcb<C>, pool: seq<T>, bits: seq<bool>)
    requires k.current in k.tcb && k.ready != [] && k.ready[0] in k.tcb && task != k.current && task !in k.ready
    ensures Yield(With(k, task, t, pool, bits)) == With(Yield(k), task, t, pool, bits)
  {
    assert Yield(With(k, task, t, pool, bits)).tcb == With(Yield(k), task, t, pool, bits).tcb;
  }

  lemma ScheduleWith<T, C>(k: Kernel<T, C>, task: T, t: Tcb<C>, pool: seq<T>, bits: seq<bool>)
    requires k.current in k.tcb && (k.ready != [] ==> k.ready[0] in k.tcb) && task != k.current && task !in k.ready
    ensures Schedule(With(k, task, t, pool, bits)) == With(Schedule(k), task, t, pool, bits)
  {
    assert Schedule(With(k, task, t, pool, bits)).tcb == With(Schedule(k), task, t, pool, bits).tcb;
  }

  lemma SliceWith<T, C>(g: nat, k: Kernel<T, C>, task: T, t: Tcb<C>, pool: seq<T>, bits: seq<bool>)
    requires g >= 1 && CanSlice(k) && task != k.current && task !in k.ready
    ensures CanSlice(With(k, task, t, pool, bits))
    ensures Slice(g, With(k, task, t, pool, bits)) == With(Slice(g, k), task, t, pool, bits)
  {
    var c := k.tcb[k.current];
    if !c.collaborative && c.ticks == 0 {
      ScheduleWith(k, task, t, pool, bits);
    } else if !c.collaborative {
      assert With(k, task, t, pool, bits).tcb[k.current := c.(ticks := c.ticks - 1)]
             == With(SetTcb(k, k.current, c.(ticks := c.ticks - 1)), task, t, pool, bits).tcb;
    } else {
      var w := k.(wheel := Create(g, k.wheel, Some(k.current), c.sleepMs, 0));
      YieldWith(w, task, t, pool, bits);
    }
  }

  /** A tick, whether it takes the processor away or not, and a task in no list. */
  lemma TickWith<T, C>(g: nat, n: nat, k: Kernel<T, C>, now: nat, task: T, t: Tcb<C>, pool: seq<T>, bits: seq<bool>)
    requires Inv(g, n, k) && CanTick(g, k, now) && task !in k.all && task != k.current && Newborn(k) != Some(task)
    ensures var w := With(k, task, t, pool, bits);
            CanTick(g, w, now) && K.Tick(g, w, now) == With(K.Tick(g, k, now), task, t, pool, bits)
  {
    var m, log := Timers(g, k, now), Run(g, k.wheel, now).1;
    NobodyCalls(g, k, now, task);
    TimersInv(g, n, k, now);
    CallBackKeeps(k.(wheel := Run(g, k.wheel, now).0), log);
    CallBackWith(k.(wheel := Run(g, k.wheel, now).0), log, task, t, pool, bits);
    assert task !in m.ready;
    SliceWith(g, m, task, t, pool, bits);
  }

  /** No timer is for a task that is not live. */
  lemma NobodyCalls<T, C>(g: nat, k: Kernel<T, C>, now: nat, task: T)
    requires WheelPlacement.Valid(g, k.wheel) && Alarms(k, []) && task !in k.all
    ensures forall f | f in Run(g, k.wheel, now).1 :: f.timer.param != Some(task)
  {
    var log := Run(g, k.wheel, now).1;
    forall f | f in log ensures f.timer.param != Some(task) {
      if f.timer.param == Some(task) {
        RunKnown(g, k.wheel, now, k.tcb.Keys);
        assert AlarmOk(k, [], task);
        RunAlarm(g, k.wheel, now, task, false);
        InTicks(log, f);
      }
    }
  }

  lemma OneTickWith<T, C>(g: nat, n: nat, k: Kernel<T, C>, e: Event<T, C>, task: T, t: Tcb<C>,
                          pool: seq<T>, bits: seq<bool>) returns (s: Kernel<T, C>)
    requires Inv(g, n, k) && k.part == map[] && task !in k.all && K.Enabled(g, k, e) && e.Interrupt?
    ensures s == Step(g, k, e) && Inv(g, n, s) && SameLives(k, s)
    ensures K.Enabled(g, With(k, task, t, pool, bits), e)
    ensures Step(g, With(k, task, t, pool, bits), e) == With(s, task, t, pool, bits)
  {
    FreeMeans(k);
    TickWith(g, n, k, e.now, task, t, pool, bits);
    s := TickInv(g, n, k, e.now);
    TickSameLives(g, k, e.now);
  }

  /** What ticks leave alone. */
  ghost predicate SameLives<T, C>(k: Kernel<T, C>, s: Kernel<T, C>) {
    s.part == k.part && s.pool == k.pool && s.bits == k.bits && s.all == k.all && s.tcb.Keys == k.tcb.Keys
  }

  lemma TickSameLives<T, C>(g: nat, k: Kernel<T, C>, now: nat)
    requires CanTick(g, k, now)
    ensures SameLives(k, K.Tick(g, k, now))
  {
    CallBackKeeps(k.(wheel := Run(g, k.wheel, now).0), Run(g, k.wheel, now).1);
    SliceFields(g, Timers(g, k, now));
  }

  /** So do any number of ticks, whoever they give the processor to. */
  lemma {:induction false} TicksWith<T, C>(g: nat, n: nat, k: Kernel<T, C>, es: seq<Event<T, C>>,
                                           task: T, t: Tcb<C>, pool: seq<T>, bits: seq<bool>)
    requires Inv(g, n, k) && k.part == map[] && task !in k.all
    requires K.Possible(g, k, es) && forall e | e in es :: e.Interrupt?
    ensures K.Possible(g, With(k, task, t, pool, bits), es)
    ensures Exec(g, With(k, task, t, pool, bits), es) == With(Exec(g, k, es), task, t, pool, bits)
    ensures SameLives(k, Exec(g, k, es))
    decreases |es|
  {
    if es != [] {
      assert es[0] in es;
      var s := OneTickWith(g, n, k, es[0], task, t, pool, bits);
      TicksWith(g, n, s, es[1..], task, t, pool, bits);
    }
  }

  lemma InitialisedWith<T, C>(k: Kernel<T, C>, memory: T, prio: int, context: C)
    returns (i: Kernel<T, C>, task: T)
    requires Partition(k) && Free(k) && CanStart(k, memory)
    ensures i == Initialised(k, memory, prio, context) && task == Started(k, memory)
    ensures k.part == map[] && task !in k.all && task in i.tcb && i == With(k, task, i.tcb[task], i.pool, i.bits)
  {
    i, task := Initialised(k, memory, prio, context), Started(k, memory);
    FreeMeans(k);
    OutOfPool(k, task, i.pool);
  }

  /** Ticks in the stretch leave the new task as it is, and do otherwise what they would have done
      before task_start was called. */
  lemma StartTicks<T, C>(g: nat, n: nat, k: Kernel<T, C>, memory: T, prio: int, context: C, es: seq<Event<T, C>>)
    returns (i: Kernel<T, C>)
    requires Inv(g, n, k) && Free(k) && CanStart(k, memory)
    requires K.Possible(g, k, es) && forall e | e in es :: e.Interrupt?
    ensures i == Initialised(k, memory, prio, context) && K.Possible(g, i, es)
    ensures var task := Started(k, memory);
            task in i.tcb && Exec(g, i, es) == With(Exec(g, k, es), task, i.tcb[task], i.pool, i.bits)
    ensures Started(k, memory) !in k.all && k.part == map[]
  {
    var task;
    i, task := InitialisedWith(k, memory, prio, context);
    TicksWith(g, n, k, es, task, i.tcb[task], i.pool, i.bits);
  }

  lemma SameStart<T, C>(k: Kernel<T, C>, s: Kernel<T, C>, memory: T, prio: int, context: C)
    requires CanStart(k, memory) && s.pool == k.pool && s.bits == k.bits && CanStart(s, memory)
    ensures var i, task := Initialised(k, memory, prio, context), Started(k, memory);
            && Started(s, memory) == task
            && Insert(With(s, task, i.tcb[task], i.pool, i.bits), task) == Enrol(s, memory, prio, context)
  {
  }

  /** If in the end the caller has the processor, the whole is the same as those ticks followed by the
      stretch in one step. */
  lemma StartIsOneStep<T, C>(g: nat, n: nat, k: Kernel<T, C>, memory: T, prio: int, context: C,
                             es: seq<Event<T, C>>, s: Kernel<T, C>)
    requires Inv(g, n, k) && Free(k) && CanStart(k, memory)
    requires K.Possible(g, k, es) && (forall e | e in es :: e.Interrupt?) && s == Exec(g, k, es)
    requires s.current == k.current && s.current in s.tcb && !s.tcb[s.current].collaborative
    ensures K.Possible(g, Initialised(k, memory, prio, context), es) && CanStart(s, memory)
    ensures Insert(Exec(g, Initialised(k, memory, prio, context), es), Started(k, memory))
            == Enrol(s, memory, prio, context)
  {
    var i := StartTicks(g, n, k, memory, prio, context, es);
    TicksWith(g, n, k, es, Started(k, memory), i.tcb[Started(k, memory)], i.pool, i.bits);
    SameStart(k, s, memory, prio, context);
  }
}
