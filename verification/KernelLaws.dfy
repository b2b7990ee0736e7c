/** What becomes of a task's control block over any run: which events change its priority, its ticks,
    its sleep and its status, and to what. */
module KernelLaws {
  import opened Basics
  import opened Wheel
  import WheelPlacement
  import opened WheelHistory
  import opened WheelTheorems
  import opened Kernel
  import K = Kernel
  import opened KernelPartition
  import opened KernelInvariant
  import opened KernelSleep
  import R = KernelRuns

  /** x is live, or the new task of a task_start that is not yet finished. */
  ghost predicate Present<T, C>(k: Kernel<T, C>, x: T) {
    x in k.tcb && (x in k.all || Newborn(k) == Some(x))
  }

  /** The event ends a sleep of x. */
  ghost predicate Called<T, C>(g: nat, k: Kernel<T, C>, e: Event<T, C>, x: T) {
    e.Interrupt? && g >= 1 && Shaped(k.wheel) && Ticks(Run(g, k.wheel, e.now).1, Some(x)) != []
  }

  /** The ticks of x after the event, if they were t and its priority is p: a sleep's end fills them up,
      and a tick that finds x running takes one, or fills them up when none is left. */
  ghost function NextTicks<T, C>(k: Kernel<T, C>, e: Event<T, C>, x: T, called: bool, p: nat, t: nat): nat {
    if called then p
    else if e.Interrupt? && x == k.current && x in k.tcb && !k.tcb[x].collaborative then
      (if t == 0 then p else t - 1)
    else t
  }

  /** What status a blocked task has, and when. */
  ghost predicate BlockedLaw<T, C>(k: Kernel<T, C>, e: Event<T, C>, x: T, t: Status, u: Status) {
    if x == k.current && (e.Block? || e.Halt?) then u == e.status
    else if R.Added(k, e) == Some(x) then u == READY
    else IsBlocked(t) || IsBlocked(u) ==> u == t
  }

  /** Everything else in the control block; the machine context is the subject of KernelRuns. */
  ghost predicate TcbLaw<T, C>(k: Kernel<T, C>, e: Event<T, C>, x: T, called: bool, s: Kernel<T, C>) {
    && x in k.tcb && x in s.tcb
    && var t, u, mine := k.tcb[x], s.tcb[x], x == k.current;
    && u.priority == t.priority && u.tid == t.tid
    && u.ticks == NextTicks(k, e, x, called, t.priority, t.ticks)
    && u.collaborative == (!called && (t.collaborative || (mine && e.SleepFlag?)))
    && u.sleepMs == (if called then 0 else if mine && e.SleepTime? then e.ms else t.sleepMs)
    && BlockedLaw(k, e, x, t.status, u.status)
  }

  lemma StartTcb<T, C>(g: nat, k: Kernel<T, C>, e: Event<T, C>, x: T) returns (s: Kernel<T, C>)
    requires Partition(k) && K.Enabled(g, k, e) && Present(k, x) && (e.Start? || (e.Exit? && x != k.current))
    ensures s == Step(g, k, e) && TcbLaw(k, e, x, false, s) && Present(s, x)
  {
    s := Step(g, k, e);
    FreeMeans(k);
    if e.Start? {
      assert k.pool != [] ==> k.pool[0] in k.pool;
    } else {
      RemoveMeans(k.all, k.current);
    }
  }

  lemma SwitchTcb<T, C>(g: nat, k: Kernel<T, C>, e: Event<T, C>, x: T) returns (s: Kernel<T, C>)
    requires Partition(k) && K.Enabled(g, k, e) && Present(k, x) && (e.Block? || e.Switch?)
    ensures s == Step(g, k, e) && TcbLaw(k, e, x, false, s) && Present(s, x)
  {
    s := Step(g, k, e);
    FirstReady(k);
    ReadyMeans(k, k.ready[0]);
  }

  /** The other events, except ticks. */
  lemma RestTcb<T, C>(g: nat, k: Kernel<T, C>, e: Event<T, C>, x: T) returns (s: Kernel<T, C>)
    requires Partition(k) && K.Enabled(g, k, e) && Present(k, x)
    requires !e.Start? && !e.Exit? && !e.Block? && !e.Switch? && !e.Interrupt?
    ensures s == Step(g, k, e) && TcbLaw(k, e, x, false, s) && Present(s, x)
  {
    s := Step(g, k, e);
  }

  /** The three branches of the tick handler.  Only the task that had the processor, and the next one, change. */
  ghost predicate SliceLaw<T, C>(m: Kernel<T, C>, x: T, s: Kernel<T, C>) {
    && x in m.tcb && x in s.tcb && s.all == m.all && s.part == m.part
    && var t, u := m.tcb[x], s.tcb[x];
    && u.priority == t.priority && u.tid == t.tid
    && u.collaborative == t.collaborative && u.sleepMs == t.sleepMs
    && u.ticks == (if x != m.current || t.collaborative then t.ticks
                   else if t.ticks == 0 then t.priority else t.ticks - 1)
    && (IsBlocked(t.status) || IsBlocked(u.status) ==> u.status == t.status)
  }

  lemma ScheduleTcb<T, C>(m: Kernel<T, C>, x: T)
    requires m.current in m.tcb && (m.ready != [] ==> m.ready[0] in m.tcb && !IsBlocked(m.tcb[m.ready[0]].status))
    requires !m.tcb[m.current].collaborative && m.tcb[m.current].ticks == 0 && !IsBlocked(m.tcb[m.current].status)
    requires m.current !in m.ready && x in m.tcb
    ensures SliceLaw(m, x, Schedule(m))
  {
  }

  lemma YieldTcb<T, C>(m: Kernel<T, C>, w: Kernel<T, C>, x: T)
    requires m.current in m.tcb && m.ready != [] && m.ready[0] in m.tcb && !IsBlocked(m.tcb[m.ready[0]].status)
    requires m.tcb[m.current].collaborative && x in m.tcb && w == m.(wheel := w.wheel)
    ensures SliceLaw(m, x, Yield(w))
  {
  }

  lemma SliceTcb<T, C>(g: nat, m: Kernel<T, C>, x: T) returns (s: Kernel<T, C>)
    requires g >= 1 && Partition(m) && CanSlice(m) && !Late(m) && x in m.tcb
    ensures s == Slice(g, m) && SliceLaw(m, x, s)
  {
    var t := m.tcb[m.current];
    if m.ready != [] {
      ReadyMeans(m, m.ready[0]);
    }
    if t.collaborative {
      var w := m.(wheel := Create(g, m.wheel, Some(m.current), t.sleepMs, 0));
      YieldTcb(m, w, x);
      s := Yield(w);
    } else if t.ticks == 0 {
      FreeMeans(m);
      assert StatusOk(m, m.current, Some(m.current));
      ScheduleTcb(m, x);
      s := Schedule(m);
    } else {
      s := SetTcb(m, m.current, t.(ticks := t.ticks - 1));
    }
  }

  /** What run_timer with its callbacks does to x: it ends a sleep, or nothing. */
  ghost predicate CalledLaw<T, C>(k: Kernel<T, C>, x: T, called: bool, m: Kernel<T, C>) {
    && m.all == k.all && m.part == k.part && m.current == k.current
    && k.current in k.tcb && m.current in m.tcb && m.tcb[m.current] == k.tcb[k.current]
    && x in k.tcb && x in m.tcb
    && if !called then m.tcb[x] == k.tcb[x]
       else x != k.current && Asleep(k, x) && !IsBlocked(k.tcb[x].status)
            && m.tcb[x] == k.tcb[x].(ticks := k.tcb[x].priority, status := READY, collaborative := false, sleepMs := 0)
  }

  lemma CalledTcb<T, C>(g: nat, n: nat, k: Kernel<T, C>, now: nat, x: T) returns (m: Kernel<T, C>)
    requires Inv(g, n, k) && Known(k, Run(g, k.wheel, now).1) && Present(k, x)
    ensures m == Timers(g, k, now) && Partition(m) && (Late(m) <==> Late(k))
    ensures CalledLaw(k, x, Called(g, k, Event<T, C>.Interrupt(now), x), m)
  {
    var r, log := k.(wheel := Run(g, k.wheel, now).0), Run(g, k.wheel, now).1;
    m := Timers(g, k, now);
    TimersInv(g, n, k, now);
    CurrentKept(g, k, now);
    CallBackOne(r, log, x);
    CallBackKeeps(r, log);
    assert AlarmOk(k, [], x);
    RunAlarm(g, k.wheel, now, x, Asleep(k, x));
    if Called(g, k, Event<T, C>.Interrupt(now), x) {
      FourKinds(k, x);
    }
  }

  lemma TickLaw<T, C>(k: Kernel<T, C>, e: Event<T, C>, x: T, called: bool, m: Kernel<T, C>, s: Kernel<T, C>)
    requires e.Interrupt? && CalledLaw(k, x, called, m) && SliceLaw(m, x, s)
    ensures TcbLaw(k, e, x, called, s)
  {
  }

  lemma TickTcb<T, C>(g: nat, n: nat, k: Kernel<T, C>, now: nat, x: T) returns (s: Kernel<T, C>)
    requires Inv(g, n, k) && CanTick(g, k, now) && !Late(k) && Present(k, x)
    ensures s == K.Tick(g, k, now) && s.all == k.all && s.part == k.part
    ensures var called := Called(g, k, Event<T, C>.Interrupt(now), x);
            TcbLaw(k, Interrupt(now), x, called, s) && (called ==> Asleep(k, x))
  {
    var m := CalledTcb(g, n, k, now, x);
    s := SliceTcb(g, m, x);
    TickLaw(k, Interrupt(now), x, Called(g, k, Event<T, C>.Interrupt(now), x), m, s);
  }

  /** A new task stays one through the ticks that come before task_start goes on. */
  lemma StillPresent<T, C>(g: nat, n: nat, k: Kernel<T, C>, now: nat, x: T)
    requires Inv(g, n, k) && CanTick(g, k, now) && !Late(k) && Present(k, x)
    requires var s := K.Tick(g, k, now); x in s.tcb && s.all == k.all && s.part == k.part
    ensures Present(K.Tick(g, k, now), x)
  {
    var s := TickInv(g, n, k, now);
    if x !in k.all {
      assert s.current == k.current by {
        assert k.current in s.part;
      }
    }
  }

  /** The law of every event, in every reachable state, for every task that does not just exit. */
  lemma StepTcb<T, C>(g: nat, n: nat, k: Kernel<T, C>, e: Event<T, C>, x: T) returns (s: Kernel<T, C>)
    requires Inv(g, n, k) && K.Enabled(g, k, e) && Fits(n, k, e) && Present(k, x) && !(e.Exit? && x == k.current)
    ensures s == Step(g, k, e) && TcbLaw(k, e, x, Called(g, k, e, x), s) && Present(s, x)
    ensures Called(g, k, e, x) ==> Asleep(k, x)
  {
    if e.Interrupt? {
      s := TickTcb(g, n, k, e.now, x);
      StillPresent(g, n, k, e.now, x);
    } else if e.Start? || e.Exit? {
      s := StartTcb(g, k, e, x);
    } else if e.Block? || e.Switch? {
      s := SwitchTcb(g, k, e, x);
    } else {
      s := RestTcb(g, k, e, x);
    }
  }

  // ----- over runs

  /** No event ever changes a task's priority or tid: not waiting, not sleeping, not being passed over. */
  lemma {:induction false} KeptForLife<T, C>(g: nat, n: nat, k: Kernel<T, C>, es: seq<Event<T, C>>, x: T)
    requires Inv(g, n, k) && K.Possible(g, k, es) && AlwaysFits(g, n, k, es)
    requires Present(k, x) && R.Lives(g, k, es, x)
    ensures var s := Exec(g, k, es);
            Present(s, x) && s.tcb[x].priority == k.tcb[x].priority && s.tcb[x].tid == k.tcb[x].tid
    decreases |es|
  {
    if es != [] {
      var s := StepTcb(g, n, k, es[0], x);
      var s' := StepInv(g, n, k, es[0]);
      KeptForLife(g, n, s, es[1..], x);
    }
  }

  /** The ticks of x after a run: t, and then what each event makes of it. */
  ghost function TicksOver<T, C>(g: nat, k: Kernel<T, C>, es: seq<Event<T, C>>, x: T, p: nat, t: nat): nat
    requires K.Possible(g, k, es)
    decreases |es|
  {
    if es == [] then t
    else TicksOver(g, Step(g, k, es[0]), es[1..], x, p, NextTicks(k, es[0], x, Called(g, k, es[0], x), p, t))
  }

  lemma {:induction false} TicksLaw<T, C>(g: nat, n: nat, k: Kernel<T, C>, es: seq<Event<T, C>>, x: T)
    requires Inv(g, n, k) && K.Possible(g, k, es) && AlwaysFits(g, n, k, es)
    requires Present(k, x) && R.Lives(g, k, es, x)
    ensures var s, t := Exec(g, k, es), k.tcb[x];
            x in s.tcb && s.tcb[x].ticks == TicksOver(g, k, es, x, t.priority, t.ticks)
    decreases |es|
  {
    if es != [] {
      var s := StepTcb(g, n, k, es[0], x);
      var s' := StepInv(g, n, k, es[0]);
      TicksLaw(g, n, s, es[1..], x);
    }
  }

  /** A task that is started with a priority has it, as far as it fits the field, until it exits; it begins
      with a full slice, and awake, and has the first tid that was free. */
  lemma StartedForLife<T, C>(g: nat, n: nat, k: Kernel<T, C>, e: Event<T, C>, es: seq<Event<T, C>>, s: Kernel<T, C>)
    requires Inv(g, n, k) && K.Enabled(g, k, e) && Fits(n, k, e) && e.Start? && s == Step(g, k, e)
    requires K.Possible(g, s, es) && AlwaysFits(g, n, s, es) && R.Lives(g, s, es, Started(k, e.memory))
    ensures var r, x, p := Exec(g, s, es), Started(k, e.memory), e.prio % 256;
            && x !in k.all && Present(s, x) && s.tcb[x].sleepMs == 0 && !s.tcb[x].collaborative
            && Present(r, x) && r.tcb[x].priority == p && r.tcb[x].ticks == TicksOver(g, s, es, x, p, p)
            && r.tcb[x].tid == FirstClear(k.bits) + 1
  {
    var x := Started(k, e.memory);
    var s' := StepInv(g, n, k, e);
    FreeMeans(k);
    StartTids(n, k, e.memory, e.prio, e.context);
    OutOfPool(k, x, s.pool);
    KeptForLife(g, n, s, es, x);
    TicksLaw(g, n, s, es, x);
  }

  /** The main task has priority 3 and tid 1 as long as it lives, begins with 3 ticks, and goes on with
      the context with which the scheduler was started; and there are 1000800 tids. */
  lemma MainForLife<T, C>(g: nat, n: nat, main: T, context: C, now: nat, queues: set<nat>, k: Kernel<T, C>,
                          es: seq<Event<T, C>>)
    requires g >= 1 && 1 <= n <= 32767 && k == Boot(g, main, context, now, queues)
    requires K.Possible(g, k, es) && AlwaysFits(g, n, k, es) && R.Lives(g, k, es, main)
    ensures var s := Exec(g, k, es);
            && main in s.all && main in s.tcb && s.tcb[main].priority == 3 && s.tcb[main].tid == 1
            && s.tcb[main].ticks == TicksOver(g, k, es, main, 3, 3)
            && R.Private(s, main) == R.Own(g, k, es, main, context) && |s.bits| == 1000800
  {
    assert Inv(g, n, k) by {
      BootInv(g, n, main, context, now, queues);
    }
    KeptForLife(g, n, k, es, main);
    TicksLaw(g, n, k, es, main);
    R.ContextsArePrivate(g, n, k, es, main);
    ExecInv(g, n, k, es);
  }

  /** No tick of the run finds x running. */
  ghost predicate Unticked<T, C>(g: nat, k: Kernel<T, C>, es: seq<Event<T, C>>, x: T)
    requires K.Possible(g, k, es)
    decreases |es|
  {
    es != [] ==> !(es[0].Interrupt? && x == k.current) && Unticked(g, Step(g, k, es[0]), es[1..], x)
  }

  lemma AwakeAfter<T, C>(g: nat, n: nat, k: Kernel<T, C>, e: Event<T, C>, x: T, s: Kernel<T, C>)
    requires Inv(g, n, k) && K.Enabled(g, k, e) && Fits(n, k, e) && Present(k, x) && !(e.Exit? && x == k.current)
    requires s == Step(g, k, e) && !Asleep(k, x) && !(e.Interrupt? && x == k.current)
    ensures !Asleep(s, x)
  {
    var s1 := StepTcb(g, n, k, e, x);
    if e.Interrupt? {
      R.TickLives(g, n, k, e.now);
    } else {
      var s2 := QuietSleepers(g, k, e);
    }
  }

  /** A task that does not sleep and that no tick finds running keeps its ticks: so one that waits for a
      semaphore goes on, when it has been woken and dispatched, with the slice with which it blocked. */
  lemma {:induction false} SliceKept<T, C>(g: nat, n: nat, k: Kernel<T, C>, es: seq<Event<T, C>>, x: T)
    requires Inv(g, n, k) && K.Possible(g, k, es) && AlwaysFits(g, n, k, es)
    requires Present(k, x) && R.Lives(g, k, es, x) && !Asleep(k, x) && Unticked(g, k, es, x)
    ensures var s, t := Exec(g, k, es), k.tcb[x];
            x in s.tcb && s.tcb[x].ticks == t.ticks && s.tcb[x].priority == t.priority && !Asleep(s, x)
    decreases |es|
  {
    if es != [] {
      var s := StepTcb(g, n, k, es[0], x);
      var s' := StepInv(g, n, k, es[0]);
      AwakeAfter(g, n, k, es[0], x, s);
      SliceKept(g, n, s, es[1..], x);
    }
  }

  // ----- over a sleep

  lemma {:induction false} SleeperLives<T, C>(g: nat, n: nat, k: Kernel<T, C>, es: seq<Event<T, C>>, x: T,
                                              f: Firing<Option<T>>)
    requires 1 <= g <= 64 && Inv(g, n, k) && K.Possible(g, k, es) && AlwaysFits(g, n, k, es)
    requires SleepsUntil(g, k, x, f) && Before(es, f.at)
    ensures R.Lives(g, k, es, x)
    decreases |es|
  {
    if es != [] {
      var s := StepInv(g, n, k, es[0]);
      assert es[0] in es;
      if es[0].Interrupt? {
        TickSleep(g, n, k, es[0].now, x, f);
      } else {
        var q := QuietSleepers(g, k, es[0]);
      }
      SleeperLives(g, n, s, es[1..], x, f);
    }
  }

  /** A task that falls asleep keeps its share: when the first tick at or after its time wakes it, it has
      the priority with which it fell asleep, and a full slice. */
  lemma WakesWithItsShare<T, C>(g: nat, n: nat, k: Kernel<T, C>, now: nat, s: Kernel<T, C>, es: seq<Event<T, C>>,
                                k1: Kernel<T, C>, now1: nat) returns (f: Firing<Option<T>>)
    requires 1 <= g <= 64 && Inv(g, n, k) && CanTick(g, k, now) && k.tcb[k.current].collaborative
    requires s == K.Tick(g, k, now) && K.Possible(g, s, es) && AlwaysFits(g, n, s, es) && k1 == Exec(g, s, es)
    requires Before(es, FirstTick(g, Clock(k.wheel, now), k.tcb[k.current].sleepMs)) && CanTick(g, k1, now1)
    ensures f.at == FirstTick(g, Clock(k.wheel, now), k.tcb[k.current].sleepMs)
    ensures f.at <= now1 && !Late(k1) ==>
              var r, x := K.Tick(g, k1, now1), k.current;
              x in r.tcb && Woken(r, x) && r.tcb[x].ticks == r.tcb[x].priority == k.tcb[x].priority
  {
    var x := k.current;
    f := FallsAsleep(g, n, k, now);
    var s' := TickTcb(g, n, k, now, x);
    s' := TickInv(g, n, k, now);
    SleepLasts(g, n, s, es, x, f);
    SleeperLives(g, n, s, es, x, f);
    KeptForLife(g, n, s, es, x);
    TickSleep(g, n, k1, now1, x, f);
    if f.at <= now1 && !Late(k1) {
      s' := TickTcb(g, n, k1, now1, x);
    }
  }
}
