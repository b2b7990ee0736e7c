/** How long a sleep lasts.  The tick at which a sleeper is woken is fixed when it falls asleep,
    and nothing that happens meanwhile moves it. */
module KernelSleep {
  import opened Basics
  import opened Wheel
  import WheelPlacement
  import opened WheelAgenda
  import opened WheelHistory
  import opened WheelTheorems
  import K = Kernel
  import opened KernelPartition
  import opened KernelInvariant

  /** Task x is asleep, and the entry f of the agenda will wake it. */
  ghost predicate SleepsUntil<T, C>(g: nat, k: K.Kernel<T, C>, x: T, f: Firing<Option<T>>) {
    && g >= 1 && Shaped(k.wheel) && Asleep(k, x) && f.timer.period == 0 && k.wheel.jiffies <= f.at
    && Only(AgendaOf(g, k.wheel), Some(x), Some(f))
  }

  lemma NoEntry<T>(g: nat, w: Wheel<Option<T>>, x: T)
    requires g >= 1 && Shaped(w) && NoAlarm(Pending(w.slots), x)
    ensures Only(AgendaOf(g, w), Some(x), None)
  {
    forall e | e in AgendaOf(g, w) ensures e.timer.param != Some(x) {
      AgendaMember(g, w.jiffies, w.slots, e);
      PendingMember(w.slots, e.timer);
    }
  }

  /** The wheel's own time after run_timer: the clock is caught up with, and never goes back. */
  function Clock<T>(w: Wheel<T>, now: nat): nat {
    if now < w.jiffies then w.jiffies else now + 1
  }

  /** The callbacks do not touch the running task, and it has no alarm after them. */
  lemma TimersCurrent<T, C>(g: nat, n: nat, k: K.Kernel<T, C>, now: nat)
    requires g >= 1 && Inv(g, n, k) && K.CanTick(g, k, now)
    ensures var m := K.Timers(g, k, now);
            && m.current == k.current && m.tcb[k.current] == k.tcb[k.current]
            && m.wheel.jiffies == Clock(k.wheel, now) && NoAlarm(Pending(m.wheel.slots), k.current)
  {
    WheelPlacement.RunInv(g, k.wheel, now);
    CurrentKept(g, k, now);
  }

  lemma SliceIsSleep<T, C>(g: nat, m: K.Kernel<T, C>)
    requires g >= 1 && Partition(m) && K.CanSlice(m) && m.tcb[m.current].collaborative
    ensures var s := K.Slice(g, m);
            Asleep(s, m.current) && s.wheel == Create(g, m.wheel, Some(m.current), m.tcb[m.current].sleepMs, 0)
  {
    FreeMeans(m);
    SliceFields(g, m);
    FirstReady(m);
  }

  lemma SliceFallsAsleep<T, C>(g: nat, n: nat, m: K.Kernel<T, C>) returns (f: Firing<Option<T>>)
    requires 1 <= g <= 64 && Inv(g, n, m) && K.CanSlice(m) && m.tcb[m.current].collaborative
    requires NoAlarm(Pending(m.wheel.slots), m.current)
    ensures var j, ms := m.wheel.jiffies, m.tcb[m.current].sleepMs;
            f == Firing(FirstTick(g, j, ms), Timer(Some(m.current), j + ms, 0))
    ensures SleepsUntil(g, K.Slice(g, m), m.current, f)
  {
    NoEntry(g, m.wheel, m.current);
    f := CreateOnly(g, m.wheel, Some(m.current), m.tcb[m.current].sleepMs, 0);
    SliceIsSleep(g, m);
  }

  /** A task that has asked to sleep is put to sleep by the next interrupt, until FirstTick. */
  lemma FallsAsleep<T, C>(g: nat, n: nat, k: K.Kernel<T, C>, now: nat) returns (f: Firing<Option<T>>)
    requires 1 <= g <= 64 && Inv(g, n, k) && K.CanTick(g, k, now) && k.tcb[k.current].collaborative
    ensures var ms, j := k.tcb[k.current].sleepMs, Clock(k.wheel, now);
            f == Firing(FirstTick(g, j, ms), Timer(Some(k.current), j + ms, 0))
    ensures SleepsUntil(g, K.Tick(g, k, now), k.current, f)
  {
    TimersInv(g, n, k, now);
    TimersCurrent(g, n, k, now);
    f := SliceFallsAsleep(g, n, K.Timers(g, k, now));
  }

  /** The state of x just after it has been woken by the interrupt. */
  ghost predicate Woken<T, C>(k: K.Kernel<T, C>, x: T)
    requires x in k.tcb
  {
    && !k.tcb[x].collaborative && k.tcb[x].sleepMs == 0 && k.tcb[x].ticks == k.tcb[x].priority
    && (x in k.ready || x == k.current)
  }

  /** The callbacks wake x if its tick is reached, and leave it asleep if not. */
  lemma TimersSleep<T, C>(g: nat, n: nat, k: K.Kernel<T, C>, now: nat, x: T, f: Firing<Option<T>>)
    requires 1 <= g <= 64 && Inv(g, n, k) && SleepsUntil(g, k, x, f)
    ensures K.Known(k, Run(g, k.wheel, now).1)
    ensures var m := K.Timers(g, k, now);
            if now < f.at then SleepsUntil(g, m, x, f) else Woken(m, x) && x in m.ready && x in m.all
  {
    var (w, log) := Run(g, k.wheel, now);
    TimersInv(g, n, k, now);
    WheelPlacement.RunInv(g, k.wheel, now);
    var r := k.(wheel := w);
    CallBackOne(r, log, x);
    CallBackKeeps(r, log);
    var f' := RunOnly(g, k.wheel, now, Some(x), Some(f));
  }

  /** The rest of the handler, which may start another task's sleep. */
  lemma SliceSleep<T, C>(g: nat, n: nat, m: K.Kernel<T, C>, x: T, f: Firing<Option<T>>)
    requires 1 <= g <= 64 && Inv(g, n, m) && K.CanSlice(m) && SleepsUntil(g, m, x, f)
    ensures SleepsUntil(g, K.Slice(g, m), x, f)
  {
    var s, t := K.Slice(g, m), m.tcb[m.current];
    SliceFields(g, m);
    FourKinds(m, x);
    if t.collaborative {
      var entry := CreatedEntry(g, m.wheel, Some(m.current), t.sleepMs, 0);
      OnlySum(multiset{entry}, AgendaOf(g, m.wheel), Some(x), Some(f));
    }
  }

  /** What the rest of the handler does to a ready task: nothing, unless it starts to run. */
  lemma SliceOther<T, C>(g: nat, m: K.Kernel<T, C>, x: T)
    requires g >= 1 && K.CanSlice(m) && x in m.tcb && x in m.ready && x != m.current
    ensures var s := K.Slice(g, m);
            && x in s.tcb && s.tcb[x] == m.tcb[x].(status := s.tcb[x].status)
            && (x in s.ready || x == s.current)
  {
    assert m.ready == [m.ready[0]] + m.ready[1..];
    assert (m.ready + [m.current])[1..] == m.ready[1..] + [m.current];
  }

  /** An interrupt before the tick leaves x asleep; the first one at or after it wakes x. */
  lemma TickSleep<T, C>(g: nat, n: nat, k: K.Kernel<T, C>, now: nat, x: T, f: Firing<Option<T>>)
    requires 1 <= g <= 64 && Inv(g, n, k) && K.CanTick(g, k, now) && SleepsUntil(g, k, x, f)
    ensures var s := K.Tick(g, k, now);
            if now < f.at then SleepsUntil(g, s, x, f) else x in s.tcb && Woken(s, x)
  {
    TimersSleep(g, n, k, now, x, f);
    TimersInv(g, n, k, now);
    if now < f.at {
      SliceSleep(g, n, K.Timers(g, k, now), x, f);
    } else {
      FourKinds(K.Timers(g, k, now), x);
      SliceOther(g, K.Timers(g, k, now), x);
    }
  }

  /** No interrupt of the run finds the clock at `at` or later. */
  ghost predicate Before<T, C>(es: seq<K.Event<T, C>>, at: nat) {
    forall e | e in es && e.Interrupt? :: e.now < at
  }

  /** Main result: whatever the other tasks do, x sleeps until the first interrupt that finds
      the clock at its tick or later, and that interrupt puts it back into the ready list. */
  lemma {:induction false} SleepLasts<T, C>(g: nat, n: nat, k: K.Kernel<T, C>, es: seq<K.Event<T, C>>,
                                            x: T, f: Firing<Option<T>>)
    requires 1 <= g <= 64 && Inv(g, n, k) && K.Possible(g, k, es) && AlwaysFits(g, n, k, es)
    requires SleepsUntil(g, k, x, f) && Before(es, f.at)
    ensures SleepsUntil(g, K.Exec(g, k, es), x, f) && Inv(g, n, K.Exec(g, k, es))
    decreases |es|
  {
    if es != [] {
      var s := StepInv(g, n, k, es[0]);
      assert es[0] in es;
      if es[0].Interrupt? {
        TickSleep(g, n, k, es[0].now, x, f);
      } else {
        var q := QuietSleepers(g, k, es[0]);
      }
      SleepLasts(g, n, s, es[1..], x, f);
    }
  }

  // ----- the two writes of the hooked sleep

  /** The hooked sleep has set the flag, and with `both` also the time. */
  ghost function Asked<T, C>(g: nat, k: K.Kernel<T, C>, ms: nat, both: bool): K.Kernel<T, C>
    requires K.Free(k) && k.current in k.tcb
  {
    var flagged := K.Step(g, k, K.SleepFlag);
    if both then K.Step(g, flagged, K.SleepTime(ms)) else flagged
  }

  lemma AskedInv<T, C>(g: nat, n: nat, k: K.Kernel<T, C>, ms: nat, both: bool) returns (a: K.Kernel<T, C>)
    requires Inv(g, n, k) && K.Free(k)
    ensures a == Asked(g, k, ms, both) && Inv(g, n, a) && a.current == k.current && a.wheel == k.wheel
    ensures a.tcb[k.current].collaborative && a.tcb[k.current].sleepMs == if both then ms else k.tcb[k.current].sleepMs
  {
    a := StepInv(g, n, k, K.SleepFlag);
    if both {
      a := StepInv(g, n, a, K.SleepTime(ms));
    }
  }

  /** The sleep lasts as long as was asked for if and only if no tick comes between the two writes;
      otherwise it lasts for the time that the task's structure happens to hold. */
  lemma SleepLengthIff<T, C>(g: nat, n: nat, k: K.Kernel<T, C>, ms: nat, both: bool, now: nat)
    returns (f: Firing<Option<T>>)
    requires 1 <= g <= 64 && Inv(g, n, k) && K.Free(k) && K.CanTick(g, Asked(g, k, ms, both), now)
    ensures SleepsUntil(g, K.Tick(g, Asked(g, k, ms, both), now), k.current, f)
    ensures var j, held := Clock(k.wheel, now), k.tcb[k.current].sleepMs;
            && f.at == FirstTick(g, j, if both then ms else held)
            && (f.at == FirstTick(g, j, ms) <==> both || FirstTick(g, j, held) == FirstTick(g, j, ms))
  {
    var a := AskedInv(g, n, k, ms, both);
    f := FallsAsleep(g, n, a, now);
  }

  /** x calls no sleep function in the run, and does not exit. */
  ghost predicate NoSleepCall<T, C>(g: nat, k: K.Kernel<T, C>, es: seq<K.Event<T, C>>, x: T)
    requires K.Possible(g, k, es)
    decreases |es|
  {
    es != [] ==>
      && (k.current == x ==> !es[0].SleepFlag? && !es[0].SleepTime? && !es[0].Exit?)
      && NoSleepCall(g, K.Step(g, k, es[0]), es[1..], x)
  }

  lemma SliceKeepsTime<T, C>(g: nat, m: K.Kernel<T, C>, x: T) returns (s: K.Kernel<T, C>)
    requires g >= 1 && K.CanSlice(m) && x in m.tcb
    ensures s == K.Slice(g, m) && s.all == m.all && x in s.tcb
    ensures s.tcb[x].collaborative == m.tcb[x].collaborative && s.tcb[x].sleepMs == m.tcb[x].sleepMs
  {
    s := K.Slice(g, m);
  }

  lemma TickKeepsTime<T, C>(g: nat, n: nat, k: K.Kernel<T, C>, now: nat, x: T) returns (s: K.Kernel<T, C>)
    requires Inv(g, n, k) && K.CanTick(g, k, now) && x in k.all && !k.tcb[x].collaborative
    ensures s == K.Tick(g, k, now) && x in s.all && x in s.tcb
    ensures !s.tcb[x].collaborative && s.tcb[x].sleepMs == k.tcb[x].sleepMs
  {
    var r, log := k.(wheel := Run(g, k.wheel, now).0), Run(g, k.wheel, now).1;
    assert AlarmOk(k, [], x);
    RunAlarm(g, k.wheel, now, x, false);
    CallBackOne(r, log, x);
    CallBackKeeps(r, log);
    s := SliceKeepsTime(g, K.Timers(g, k, now), x);
  }

  lemma QuietKeepsTime<T, C>(g: nat, k: K.Kernel<T, C>, e: K.Event<T, C>, x: T) returns (s: K.Kernel<T, C>)
    requires Partition(k) && K.Enabled(g, k, e) && !e.Interrupt? && x in k.all && !k.tcb[x].collaborative
    requires k.current == x ==> !e.SleepFlag? && !e.SleepTime? && !e.Exit?
    ensures s == K.Step(g, k, e) && x in s.all && x in s.tcb
    ensures !s.tcb[x].collaborative && s.tcb[x].sleepMs == k.tcb[x].sleepMs
  {
    s := K.Step(g, k, e);
    if e.Exit? {
      RemoveMeans(k.all, k.current);
    } else if e.Start? {
      assert k.pool != [] ==> k.pool[0] in k.pool;
    }
  }

  /** Then nothing changes the time that its structure holds. */
  lemma {:induction false} KeepsTime<T, C>(g: nat, n: nat, k: K.Kernel<T, C>, es: seq<K.Event<T, C>>, x: T)
    requires Inv(g, n, k) && K.Possible(g, k, es) && AlwaysFits(g, n, k, es) && NoSleepCall(g, k, es, x)
    requires x in k.all && !k.tcb[x].collaborative
    ensures var s := K.Exec(g, k, es);
            x in s.all && x in s.tcb && !s.tcb[x].collaborative && s.tcb[x].sleepMs == k.tcb[x].sleepMs
    decreases |es|
  {
    if es != [] {
      var s := StepInv(g, n, k, es[0]);
      if es[0].Interrupt? {
        s := TickKeepsTime(g, n, k, es[0].now, x);
      } else {
        s := QuietKeepsTime(g, k, es[0], x);
      }
      KeepsTime(g, n, s, es[1..], x);
    }
  }

  /** After a sleep that began between the writes, the time `ms` is written although the sleep is over.
      If the next call is interrupted there too, its sleep lasts for `ms`, whatever it asks for. */
  lemma StaleTime<T, C>(g: nat, n: nat, k: K.Kernel<T, C>, ms: nat, es: seq<K.Event<T, C>>, k1: K.Kernel<T, C>,
                        ms1: nat, now: nat)
    returns (f: Firing<Option<T>>)
    requires 1 <= g <= 64 && Inv(g, n, k) && K.Free(k) && !k.tcb[k.current].collaborative
    requires var s := K.Step(g, k, K.SleepTime(ms));
             && K.Possible(g, s, es) && AlwaysFits(g, n, s, es) && NoSleepCall(g, s, es, k.current)
             && k1 == K.Exec(g, s, es)
    requires k1.current == k.current && K.Free(k1) && k1.current in k1.tcb
    requires K.CanTick(g, Asked(g, k1, ms1, false), now)
    ensures SleepsUntil(g, K.Tick(g, Asked(g, k1, ms1, false), now), k.current, f)
    ensures f.at == FirstTick(g, Clock(k1.wheel, now), ms)
  {
    var s := StepInv(g, n, k, K.SleepTime(ms));
    FreeMeans(k);
    KeepsTime(g, n, s, es, k.current);
    ExecInv(g, n, s, es);
    f := SleepLengthIff(g, n, k1, ms1, false, now);
  }
}
