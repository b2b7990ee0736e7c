/** The tick that comes late: the time slice of the current task ends while it is in the middle of
    task_start, task_exit, task_block or a switch.  Such a tick, and no other, breaks the
    invariant; this is what it breaks, and runs from the start of the program that do so. */
module KernelLate {
  import opened Basics
  import opened Wheel
  import WheelPlacement
  import opened WheelAgenda
  import opened WheelHistory
  import opened WheelTheorems
  import opened Kernel
  import K = Kernel
  import opened KernelPartition
  import opened KernelInvariant
  import R = KernelRuns
  import RoundRobin

  // ----- the exact condition

  /** schedule takes no notice of what the current task is in the middle of: it goes to the end of
      the ready list, and the machine context is saved as its own. */
  lemma LateSlice<T, C>(g: nat, k: Kernel<T, C>) returns (s: Kernel<T, C>)
    requires g >= 1 && Partition(k) && CanSlice(k) && Late(k)
    ensures s == Slice(g, k) && k.current in s.tcb && s.tcb[k.current].context == k.cpu
    ensures [s.current] + s.ready == k.ready + [k.current]
    ensures SameFields(k, s) && s.pool == k.pool && s.wheel == k.wheel && s.allNums == k.allNums
    ensures s.tcb[k.current].status == if k.ready == [] then RUNNING else READY
    ensures k.ready != [] ==> s.current == k.ready[0] && s.current != k.current && k.current in s.ready
  {
    s := Slice(g, k);
    if k.ready != [] {
      FirstReady(k);
      assert s.ready[|s.ready| - 1] == k.current;
    }
  }

  lemma LateParts<T, C>(g: nat, k: Kernel<T, C>) returns (s: Kernel<T, C>)
    requires g >= 1 && Partition(k) && CanSlice(k) && Late(k)
    ensures s == Slice(g, k)
    ensures Partition(s) <==> k.part[k.current].Loading? && k.ready == []
  {
    s := LateSlice(g, k);
    if k.part[k.current].Loading? && k.ready == [] {
      assert StatusOk(k, k.current, Some(k.current));
      SameLists(k, s);
    }
  }

  lemma LoneLoading<T, C>(g: nat, n: nat, k: Kernel<T, C>) returns (s: Kernel<T, C>)
    requires Inv(g, n, k) && CanSlice(k) && Late(k) && k.part[k.current].Loading? && k.ready == []
    ensures s == Slice(g, k) && Inv(g, n, s)
  {
    s := LateParts(g, k);
    SliceFields(g, k);
    SameSleepers(k, s);
    SameTids(n, k, s);
  }

  /** A tick while the current task is in the middle of such a function keeps the invariant if and
      only if the task has ticks left, or is being switched to and has nobody to lose the processor
      to. */
  lemma LateIff<T, C>(g: nat, n: nat, k: Kernel<T, C>, now: nat) returns (s: Kernel<T, C>)
    requires Inv(g, n, k) && CanTick(g, k, now) && k.current in k.part
    ensures s == K.Tick(g, k, now)
    ensures Inv(g, n, s) <==>
              k.tcb[k.current].ticks != 0 || (k.part[k.current].Loading? && Timers(g, k, now).ready == [])
  {
    var m := Timers(g, k, now);
    TimersInv(g, n, k, now);
    CurrentKept(g, k, now);
    if !Late(k) {
      s := TickInv(g, n, k, now);
    } else {
      s := LateParts(g, m);
      if m.part[m.current].Loading? && m.ready == [] {
        s := LoneLoading(g, n, m);
      }
    }
  }

  // ----- what a late tick does

  /** In the end of task_exit: the dead task is READY in the ready list, and in the pool. */
  lemma LateExit<T, C>(g: nat, n: nat, k: Kernel<T, C>, now: nat) returns (s: Kernel<T, C>)
    requires Inv(g, n, k) && CanTick(g, k, now) && Late(k)
    requires k.part[k.current] == Leaving || k.part[k.current] == Dying
    requires Timers(g, k, now).ready != []
    ensures s == K.Tick(g, k, now) && k.current in s.ready && k.current !in s.all
    ensures k.current in s.tcb && s.tcb[k.current].status == READY
    ensures s.pool == k.pool && (k.current != k.main ==> k.current in s.pool)
  {
    var m := Timers(g, k, now);
    TimersInv(g, n, k, now);
    CurrentKept(g, k, now);
    CallBackKeeps(k.(wheel := Run(g, k.wheel, now).0), Run(g, k.wheel, now).1);
    s := LateSlice(g, m);
  }

  /** The assertion of the next task_start then fails if and only if it takes that task. */
  lemma StartAssertion<T, C>(g: nat, n: nat, k: Kernel<T, C>, now: nat, memory: T) returns (s: Kernel<T, C>)
    requires Inv(g, n, k) && CanTick(g, k, now) && Late(k)
    requires k.part[k.current] == Leaving || k.part[k.current] == Dying
    requires Timers(g, k, now).ready != [] && (k.pool == [] ==> memory !in k.tcb)
    ensures s == K.Tick(g, k, now)
    ensures StartAsserts(s, memory) <==> Started(s, memory) != k.current
  {
    var m := Timers(g, k, now);
    TimersInv(g, n, k, now);
    CallBackKeeps(k.(wheel := Run(g, k.wheel, now).0), Run(g, k.wheel, now).1);
    CurrentKept(g, k, now);
    StartPasses(m, memory);
    s := LateSlice(g, m);
    SecondOfTwo(s.current, s.ready, m.ready, k.current, Started(m, memory));
  }

  lemma SecondOfTwo<T>(first: T, rest: seq<T>, front: seq<T>, last: T, x: T)
    requires [first] + rest == front + [last] && front != [] && x !in front
    ensures x in rest <==> x == last
  {
    assert rest == ([first] + rest)[1..] == front[1..] + [last];
  }

  /** In task_start: the new task may run before it is in the list of all tasks. */
  lemma LateStart<T, C>(g: nat, n: nat, k: Kernel<T, C>, now: nat) returns (s: Kernel<T, C>)
    requires Inv(g, n, k) && CanTick(g, k, now) && Late(k) && k.part[k.current].Enrolling?
    ensures var task := k.part[k.current].task;
            s == K.Tick(g, k, now) && task !in s.all && (task == s.current || task in s.ready)
    ensures k.current in s.ready && s.allNums == |s.all|
  {
    var m := Timers(g, k, now);
    TimersInv(g, n, k, now);
    CurrentKept(g, k, now);
    CallBackKeeps(k.(wheel := Run(g, k.wheel, now).0), Run(g, k.wheel, now).1);
    s := LateSlice(g, m);
    assert m.part[m.current].task in [s.current] + s.ready;
  }

  /** In a switch: the context of the task switched to is overwritten, with that of the task before. */
  lemma LateLoad<T, C>(g: nat, n: nat, k: Kernel<T, C>, now: nat) returns (s: Kernel<T, C>)
    requires Inv(g, n, k) && CanTick(g, k, now) && k.current in k.part && k.part[k.current].Loading?
    ensures s == K.Tick(g, k, now) && k.current in s.tcb
    ensures s.tcb[k.current].context == if k.tcb[k.current].ticks == 0 then k.cpu else k.tcb[k.current].context
  {
    var m := Timers(g, k, now);
    TimersInv(g, n, k, now);
    CurrentKept(g, k, now);
    CallBackKeeps(k.(wheel := Run(g, k.wheel, now).0), Run(g, k.wheel, now).1);
    s := Slice(g, m);
    if Late(k) {
      s := LateSlice(g, m);
    }
  }

  /** In task_block: the task is READY again in the ready list, with the rest of task_block to do;
      everything else is in order. */
  lemma LateHalt<T, C>(g: nat, n: nat, k: Kernel<T, C>, now: nat) returns (s: Kernel<T, C>)
    requires Inv(g, n, k) && CanTick(g, k, now) && Late(k) && k.part[k.current] == Halting
    requires Timers(g, k, now).ready != [] && !Waits(k, k.current)
    ensures s == K.Tick(g, k, now) && k.current in s.ready && s.part == k.part
    ensures Inv(g, n, s.(part := map[]))
  {
    var m := Timers(g, k, now);
    TimersInv(g, n, k, now);
    CurrentKept(g, k, now);
    R.CallBackWaiters(k.(wheel := Run(g, k.wheel, now).0), Run(g, k.wheel, now).1);
    s := HaltedSlice(g, n, m);
  }

  /** The blocked task, put back into the ready list. */
  ghost function Requeued<T, C>(k: Kernel<T, C>): Kernel<T, C>
    requires k.current in k.tcb
  {
    var t := k.tcb[k.current];
    SetTcb(k, k.current, t.(context := k.cpu, ticks := t.priority, status := READY))
      .(ready := k.ready + [k.current], part := map[])
  }

  lemma RequeuedParts<T, C>(k: Kernel<T, C>)
    requires Partition(k) && k.current in k.part && k.part[k.current] == Halting && !Waits(k, k.current)
    ensures Parts(Requeued(k), None)
  {
    var q := Requeued(k);
    assert StatusOk(k, k.current, None);
    NoDupAppend(k.ready, k.current);
    forall x | x in q.all ensures StatusOk(q, x, None) {
      assert StatusOk(k, x, None);
    }
  }

  lemma RequeuedIs<T, C>(g: nat, k: Kernel<T, C>) returns (s: Kernel<T, C>)
    requires g >= 1 && Partition(k) && CanSlice(k) && Late(k) && k.ready != []
    ensures s == Slice(g, k) && Requeued(k).ready[0] in Requeued(k).tcb
    ensures s.(part := map[]) == Dispatch(Requeued(k))
  {
    s := Slice(g, k);
    assert s.(part := map[]).tcb == Dispatch(Requeued(k)).tcb;
  }

  lemma HaltedParts<T, C>(g: nat, k: Kernel<T, C>) returns (s: Kernel<T, C>)
    requires g >= 1 && Partition(k) && CanSlice(k) && Late(k) && k.part[k.current] == Halting
    requires k.ready != [] && !Waits(k, k.current)
    ensures s == Slice(g, k) && Partition(s.(part := map[]))
  {
    s := RequeuedIs(g, k);
    RequeuedParts(k);
    DispatchParts(Requeued(k));
  }

  lemma HaltedSlice<T, C>(g: nat, n: nat, k: Kernel<T, C>) returns (s: Kernel<T, C>)
    requires Inv(g, n, k) && CanSlice(k) && Late(k) && k.part[k.current] == Halting
    requires k.ready != [] && !Waits(k, k.current)
    ensures s == Slice(g, k) && k.current in s.ready && s.part == k.part && Inv(g, n, s.(part := map[]))
  {
    s := LateSlice(g, k);
    s := HaltedParts(g, k);
    SameSleepers(k, s.(part := map[]));
    SameTids(n, k, s.(part := map[]));
  }

  // ----- a task that is lost

  /** x is RUNNING and not on the processor, and in no list from which a task is ever taken. */
  ghost predicate Lost<T, C>(g: nat, k: Kernel<T, C>, x: T) {
    && x in k.tcb && k.tcb[x].status == RUNNING && x != k.current
    && x !in k.ready && x !in k.pool && !Waits(k, x)
    && WheelPlacement.Valid(g, k.wheel) && NoAlarm(Pending(k.wheel.slots), x)
  }

  /** A task that resumes after such a tick goes on with task_block, and is lost. */
  lemma ResumedIsLost<T, C>(g: nat, n: nat, k: Kernel<T, C>)
    requires Inv(g, n, k.(part := map[])) && k.current in k.part && k.part[k.current] == Halting
    requires !k.tcb[k.current].collaborative && k.ready != []
    ensures CanGiveUp(k) && Lost(g, GiveUp(k), k.current)
  {
    var i := k.(part := map[]);
    FirstReady(i);
    FourKinds(i, i.current);
    assert AlarmOk(i, [], i.current);
  }

  lemma {:induction false} NotCalled<T, C>(k: Kernel<T, C>, log: seq<Firing<Option<T>>>, x: T)
    requires Known(k, log) && Ticks(log, Some(x)) == [] && x !in k.ready
    ensures x !in CallBack(k, log).ready
    decreases |log|
  {
    if log != [] {
      match log[0].timer.param
      case Some(y) => NotCalled(Wake(k, y), log[1..], x);
      case None => NotCalled(k, log[1..], x);
    }
  }

  lemma LostTimers<T, C>(g: nat, k: Kernel<T, C>, now: nat, x: T) returns (m: Kernel<T, C>)
    requires Lost(g, k, x) && Known(k, Run(g, k.wheel, now).1)
    ensures m == Timers(g, k, now) && Lost(g, m, x)
  {
    var (w, log) := Run(g, k.wheel, now);
    var r := k.(wheel := w);
    m := CallBack(r, log);
    RunAlarm(g, k.wheel, now, x, false);
    WheelPlacement.RunInv(g, k.wheel, now);
    NotCalled(r, log, x);
    CallBackOne(r, log, x);
    CallBackKeeps(r, log);
    R.CallBackWaiters(r, log);
  }

  /** The alarms of others do not wake it. */
  lemma OthersAlarm<T>(g: nat, w: Wheel<Option<T>>, c: T, ms: nat, x: T)
    requires WheelPlacement.Valid(g, w) && NoAlarm(Pending(w.slots), x) && x != c
    ensures WheelPlacement.Valid(g, Create(g, w, Some(c), ms, 0))
    ensures NoAlarm(Pending(Create(g, w, Some(c), ms, 0).slots), x)
  {
    var tm := Timer(Some(c), w.jiffies + ms, 0);
    WheelPlacement.CreateInv(g, w, Some(c), ms, 0);
    PendingPut(w.slots, SlotFor(g, w.jiffies, tm.expires), tm);
    HoldsWithOthers(Pending(w.slots), multiset{tm}, Some(x), None);
  }

  lemma LostSlice<T, C>(g: nat, k: Kernel<T, C>, x: T) returns (s: Kernel<T, C>)
    requires Lost(g, k, x) && CanSlice(k)
    ensures s == Slice(g, k) && Lost(g, s, x)
  {
    s := Slice(g, k);
    SliceFields(g, k);
    OthersAlarm(g, k.wheel, k.current, k.tcb[k.current].sleepMs, x);
  }

  lemma LostStep<T, C>(g: nat, k: Kernel<T, C>, e: Event<T, C>, x: T) returns (s: Kernel<T, C>)
    requires Lost(g, k, x) && K.Enabled(g, k, e)
    ensures s == Step(g, k, e) && Lost(g, s, x)
  {
    if e.Interrupt? {
      var m := LostTimers(g, k, e.now, x);
      s := LostSlice(g, m, x);
    } else {
      s := Step(g, k, e);
    }
  }

  /** A lost task never runs again, whatever happens. */
  lemma {:induction false} LostForever<T, C>(g: nat, k: Kernel<T, C>, es: seq<Event<T, C>>, x: T)
    requires Lost(g, k, x) && K.Possible(g, k, es)
    ensures !R.Runs(g, k, es, x) && Lost(g, Exec(g, k, es), x)
    decreases |es|
  {
    if es != [] {
      var s := LostStep(g, k, es[0], x);
      LostForever(g, s, es[1..], x);
    }
  }

  // ----- runs from the start of the program

  /** The run es leads from b to k. */
  ghost predicate Leads<T, C>(g: nat, b: Kernel<T, C>, es: seq<Event<T, C>>, k: Kernel<T, C>) {
    K.Possible(g, b, es) && Exec(g, b, es) == k
  }

  /** Without a late tick, and with room for the tasks. */
  ghost predicate Reaches<T, C>(g: nat, n: nat, b: Kernel<T, C>, es: seq<Event<T, C>>, k: Kernel<T, C>) {
    Leads(g, b, es, k) && AlwaysFits(g, n, b, es)
  }

  lemma {:induction false} OneMore<T, C>(g: nat, n: nat, b: Kernel<T, C>, es: seq<Event<T, C>>, e: Event<T, C>)
    requires K.Possible(g, b, es) && K.Enabled(g, Exec(g, b, es), e)
    ensures K.Possible(g, b, es + [e]) && Exec(g, b, es + [e]) == Step(g, Exec(g, b, es), e)
    ensures AlwaysFits(g, n, b, es) && Fits(n, Exec(g, b, es), e) ==> AlwaysFits(g, n, b, es + [e])
    decreases |es|
  {
    if es == [] {
      assert es + [e] == [e];
    } else {
      assert (es + [e])[1..] == es[1..] + [e];
      OneMore(g, n, Step(g, b, es[0]), es[1..], e);
    }
  }

  lemma LeadOn<T, C>(g: nat, b: Kernel<T, C>, es: seq<Event<T, C>>, k: Kernel<T, C>, e: Event<T, C>)
    returns (es': seq<Event<T, C>>, s: Kernel<T, C>)
    requires Leads(g, b, es, k) && K.Enabled(g, k, e)
    ensures es' == es + [e] && s == Step(g, k, e) && Leads(g, b, es', s)
  {
    OneMore(g, 0, b, es, e);
    es', s := es + [e], Step(g, k, e);
  }

  lemma ReachOn<T, C>(g: nat, n: nat, b: Kernel<T, C>, es: seq<Event<T, C>>, k: Kernel<T, C>, e: Event<T, C>)
    returns (es': seq<Event<T, C>>, s: Kernel<T, C>)
    requires Reaches(g, n, b, es, k) && K.Enabled(g, k, e) && Fits(n, k, e)
    ensures es' == es + [e] && s == Step(g, k, e) && Reaches(g, n, b, es', s)
  {
    OneMore(g, n, b, es, e);
    es', s := es + [e], Step(g, k, e);
  }

  lemma ReachesInv<T, C>(g: nat, n: nat, main: T, c0: C, start: nat, queues: set<nat>,
                         es: seq<Event<T, C>>, k: Kernel<T, C>)
    requires g >= 1 && 1 <= n <= 32767 && Reaches(g, n, Boot(g, main, c0, start, queues), es, k)
    ensures Inv(g, n, k)
  {
    BootInv(g, n, main, c0, start, queues);
    ExecInv(g, n, Boot(g, main, c0, start, queues), es);
  }

  /** In every reachable state live tasks' tids are inside the bitmap, and there is a tid for a new one. */
  lemma ReachesTids<T, C>(g: nat, n: nat, main: T, c0: C, start: nat, queues: set<nat>,
                          es: seq<Event<T, C>>, k: Kernel<T, C>, x: T)
    requires g >= 1 && 1 <= n <= 32767 && Reaches(g, n, Boot(g, main, c0, start, queues), es, k)
    ensures x in k.all ==> x in k.tcb && 1 <= k.tcb[x].tid <= |k.bits|
    ensures |Owners(k)| < n ==> FirstClear(k.bits) < |k.bits|
  {
    ReachesInv(g, n, main, c0, start, queues, es, k);
    FirstFitBound(n, k);
    assert x in k.all ==> x in Owners(k);
  }

  /** No timer but the clean-up function's. */
  ghost predicate NoAlarms<T>(g: nat, w: Wheel<Option<T>>) {
    WheelPlacement.Valid(g, w) && ForKeys(Pending(w.slots), {})
  }

  lemma NoAlarmsTimers<T, C>(g: nat, k: Kernel<T, C>, now: nat)
    requires NoAlarms(g, k.wheel)
    ensures Known(k, Run(g, k.wheel, now).1) && NoAlarms(g, Timers(g, k, now).wheel)
    ensures Timers(g, k, now) == k.(wheel := Run(g, k.wheel, now).0)
  {
    WheelPlacement.RunInv(g, k.wheel, now);
    RunKnown(g, k.wheel, now, {});
    RoundRobin.NoCalls(k.(wheel := Run(g, k.wheel, now).0), Run(g, k.wheel, now).1);
  }

  /** The main task and another one, of priority 0; nobody else, and nobody asleep. */
  ghost predicate Pair<T, C>(g: nat, k: Kernel<T, C>, main: T, a: T) {
    && k.main == main && a != main && k.pool == [] && k.all == [main, a] && k.tcb.Keys == {main, a}
    && !k.tcb[main].collaborative && !k.tcb[a].collaborative
    && k.tcb[a].ticks == 0 && k.tcb[a].priority == 0 && main !in k.part && !Waits(k, a)
    && NoAlarms(g, k.wheel)
  }

  /** The main task at work, with t ticks left; then the other one. */
  ghost predicate MainRuns<T, C>(g: nat, k: Kernel<T, C>, main: T, a: T, t: nat) {
    Pair(g, k, main, a) && k.current == main && k.ready == [a] && k.tcb[main].ticks == t
  }

  ghost predicate OtherRuns<T, C>(g: nat, k: Kernel<T, C>, main: T, a: T) {
    Pair(g, k, main, a) && k.current == a && k.ready == [main] && k.tcb[a].status == RUNNING
  }

  lemma TickTwo<T, C>(g: nat, k: Kernel<T, C>, main: T, a: T, t: nat, now: nat) returns (s: Kernel<T, C>)
    requires MainRuns(g, k, main, a, t)
    ensures CanTick(g, k, now) && s == K.Tick(g, k, now) && s.part == k.part && !Late(k)
    ensures if t == 0 then OtherRuns(g, s, main, a) else MainRuns(g, s, main, a, t - 1)
  {
    NoAlarmsTimers(g, k, now);
    s := K.Tick(g, k, now);
  }

  /** t + 1 ticks, whatever the clock reads, hand the processor over, also while the other task is
      in the middle of something. */
  lemma {:induction false} HandOver<T, C>(g: nat, n: nat, b: Kernel<T, C>, es: seq<Event<T, C>>, k: Kernel<T, C>,
                                          main: T, a: T, t: nat, clock: nat -> nat)
    returns (es': seq<Event<T, C>>, s: Kernel<T, C>)
    requires Leads(g, b, es, k) && MainRuns(g, k, main, a, t)
    ensures Leads(g, b, es', s) && OtherRuns(g, s, main, a) && s.part == k.part
    ensures AlwaysFits(g, n, b, es) ==> AlwaysFits(g, n, b, es')
    decreases t
  {
    s := TickTwo(g, k, main, a, t, clock(t));
    OneMore(g, n, b, es, Interrupt(clock(t)));
    es' := es + [Interrupt(clock(t))];
    if t > 0 {
      es', s := HandOver(g, n, b, es', s, main, a, t - 1, clock);
    }
  }

  /** The other task is started, from fresh memory. */
  lemma Joined<T, C>(g: nat, b: Kernel<T, C>, a: T, c: C) returns (s: Kernel<T, C>)
    requires b.all == [b.main] && b.current == b.main && b.ready == [] && b.pool == [] && b.tcb.Keys == {b.main}
    requires b.part == map[] && !b.tcb[b.main].collaborative && a != b.main && !Waits(b, a)
    requires NoAlarms(g, b.wheel) && CanStart(b, a)
    ensures s == Admit(Enrol(b, a, 0, c)) && s.cpu == b.cpu && s.tcb[a].context == c && s.part == map[]
    ensures MainRuns(g, s, b.main, a, b.tcb[b.main].ticks)
  {
    s := Admit(Enrol(b, a, 0, c));
  }

  lemma BootAlone<T, C>(g: nat, main: T, c0: C, start: nat, queues: set<nat>, a: T) returns (b: Kernel<T, C>)
    requires g >= 1 && a != main
    ensures b == Boot(g, main, c0, start, queues) && NoAlarms(g, b.wheel) && CanStart(b, a) && !Waits(b, a)
  {
    b := Boot(g, main, c0, start, queues);
    BootInv(g, 2, main, c0, start, queues);
    FirstFitBound(2, b);
    assert AlarmOk(b, [], main);
  }

  /** The start of the program, with a second task. */
  lemma SecondTask<T, C>(g: nat, n: nat, main: T, a: T, c0: C, c1: C, start: nat, queues: set<nat>)
    returns (es: seq<Event<T, C>>, k: Kernel<T, C>)
    requires g >= 1 && 2 <= n <= 32767 && a != main
    ensures Reaches(g, n, Boot(g, main, c0, start, queues), es, k) && MainRuns(g, k, main, a, 3) && k.part == map[]
    ensures k.cpu == c0 && k.tcb[a].context == c1
  {
    var b := BootAlone(g, main, c0, start, queues, a);
    var s := Joined(g, b, a, c1);
    es, k := ReachOn(g, n, b, [], b, K.Start(a, 0, c1));
    es, k := ReachOn(g, n, b, es, k, Finish);
  }

  /** That task at work, without ticks. */
  lemma AtWork<T, C>(g: nat, n: nat, main: T, a: T, c0: C, c1: C, start: nat, queues: set<nat>, clock: nat -> nat)
    returns (es: seq<Event<T, C>>, k: Kernel<T, C>)
    requires g >= 1 && 2 <= n <= 32767 && a != main
    ensures Reaches(g, n, Boot(g, main, c0, start, queues), es, k) && OtherRuns(g, k, main, a) && k.part == map[]
  {
    es, k := SecondTask(g, n, main, a, c0, c1, start, queues);
    es, k := HandOver(g, n, Boot(g, main, c0, start, queues), es, k, main, a, 3, clock);
  }

  /** Through task_exit, up to interrupt_enable. */
  lemma OtherExits<T, C>(g: nat, k: Kernel<T, C>, main: T, a: T) returns (s: Kernel<T, C>)
    requires OtherRuns(g, k, main, a) && k.part == map[] && 1 <= k.tcb[a].tid <= |k.bits|
    ensures CanExit(k) && CanRelease(Leave(k)) && s == Release(Leave(k)) && Dead(g, s, main, a)
  {
    assert Remove(k.all, a) == [main] by {
      assert k.all[1..] == [a];
    }
    s := Release(Leave(k));
  }

  /** The other task is dead, has no ticks left, and is about to choose the next one. */
  ghost predicate Dead<T, C>(g: nat, k: Kernel<T, C>, main: T, a: T) {
    && k.part == map[a := Dying] && k.current == a && k.ready == [main] && k.pool == [a] && k.all == [main]
    && k.main == main && a != main && main in k.tcb && !k.tcb[main].collaborative
    && a in k.tcb && !k.tcb[a].collaborative && k.tcb[a].ticks == 0 && NoAlarms(g, k.wheel)
  }

  /** That is a reachable state. */
  lemma DyingLate<T, C>(g: nat, n: nat, main: T, a: T, c0: C, c1: C, start: nat, queues: set<nat>,
                        clock: nat -> nat)
    returns (es: seq<Event<T, C>>, k: Kernel<T, C>)
    requires g >= 1 && 2 <= n <= 32767 && a != main
    ensures Reaches(g, n, Boot(g, main, c0, start, queues), es, k) && Dead(g, k, main, a) && Late(k)
  {
    var b := Boot(g, main, c0, start, queues);
    es, k := AtWork(g, n, main, a, c0, c1, start, queues, clock);
    ReachesTids(g, n, main, c0, start, queues, es, k, a);
    var s := OtherExits(g, k, main, a);
    es, k := ReachOn(g, n, b, es, k, Exit);
    es, k := ReachOn(g, n, b, es, k, ReleaseTid);
  }

  /** With a tick there, the dead task is READY in the ready list and in the pool; the next
      task_start takes it, and stops at its assertion. */
  lemma DeadTaskStarted<T, C>(g: nat, n: nat, main: T, a: T, c0: C, c1: C, start: nat, queues: set<nat>,
                              clock: nat -> nat, now: nat, memory: T, prio: int)
    returns (es: seq<Event<T, C>>, k: Kernel<T, C>)
    requires g >= 1 && 2 <= n <= 32767 && a != main
    ensures Leads(g, Boot(g, main, c0, start, queues), es, k)
    ensures k.ready == [a] && k.pool == [a] && a !in k.all && a in k.tcb && k.tcb[a].status == READY
    ensures k.current == main && Free(k) && CanStart(k, memory) && Started(k, memory) == a
    ensures !StartAsserts(k, memory) && !K.Enabled(g, k, K.Start(memory, prio, c1))
  {
    var b := Boot(g, main, c0, start, queues);
    es, k := DyingLate(g, n, main, a, c0, c1, start, queues, clock);
    ReachesTids(g, n, main, c0, start, queues, es, k, a);
    var s := DyingTick(g, k, main, a, now);
    es, k := LeadOn(g, b, es, k, Interrupt(now));
  }

  lemma DyingTick<T, C>(g: nat, k: Kernel<T, C>, main: T, a: T, now: nat) returns (s: Kernel<T, C>)
    requires Dead(g, k, main, a)
    ensures CanTick(g, k, now) && s == K.Tick(g, k, now) && s.ready == [a] && s.current == main
    ensures s.part == k.part && s.pool == k.pool && s.bits == k.bits && s.all == k.all
    ensures main in s.tcb && !s.tcb[main].collaborative && a in s.tcb && s.tcb[a].status == READY
  {
    NoAlarmsTimers(g, k, now);
    s := K.Tick(g, k, now);
  }

  /** The other task blocks, and its last tick takes the processor away before it has switched. */
  lemma HaltedTurn<T, C>(g: nat, h: Kernel<T, C>, status: Status, main: T, a: T, now: nat) returns (s: Kernel<T, C>)
    requires OtherRuns(g, h, main, a) && h.part == map[] && IsBlocked(status)
    ensures CanSuspend(h, status) && CanTick(g, Suspend(h, status), now)
    ensures s == K.Tick(g, Suspend(h, status), now) && s.part == map[a := Halting]
    ensures MainRuns(g, s, main, a, h.tcb[main].ticks)
  {
    NoAlarmsTimers(g, Suspend(h, status), now);
    s := K.Tick(g, Suspend(h, status), now);
  }

  /** When the task resumes it goes on to switch, and is lost: live, but in no list but that of all
      tasks.  (LostForever says that nothing brings it back.) */
  lemma BlockedTaskLost<T, C>(g: nat, n: nat, main: T, a: T, c0: C, c1: C, start: nat, queues: set<nat>,
                              clock: nat -> nat, status: Status, now: nat, clock2: nat -> nat)
    returns (es: seq<Event<T, C>>, k: Kernel<T, C>)
    requires g >= 1 && 2 <= n <= 32767 && a != main && IsBlocked(status)
    ensures Leads(g, Boot(g, main, c0, start, queues), es, k)
    ensures Lost(g, k, a) && a in k.all
  {
    var b := Boot(g, main, c0, start, queues);
    es, k := AtWork(g, n, main, a, c0, c1, start, queues, clock);
    var t := k.tcb[main].ticks;
    var s := HaltedTurn(g, k, status, main, a, now);
    es, k := LeadOn(g, b, es, k, Halt(status));
    es, k := LeadOn(g, b, es, k, Interrupt(now));
    es, k := HandOver(g, n, b, es, k, main, a, t, clock2);
    es, k := LeadOn(g, b, es, k, Switch);
    assert forall tm :: tm in Pending(k.wheel.slots) ==> tm.param == None;
  }

  /** The main task blocks, and its successor has no ticks and not yet its context. */
  lemma LoadingLate<T, C>(g: nat, n: nat, main: T, a: T, c0: C, c1: C, start: nat, queues: set<nat>, status: Status)
    returns (es: seq<Event<T, C>>, k: Kernel<T, C>)
    requires g >= 1 && 2 <= n <= 32767 && a != main && IsBlocked(status)
    ensures Reaches(g, n, Boot(g, main, c0, start, queues), es, k) && Late(k) && NoAlarms(g, k.wheel)
    ensures k.current == a && k.part == map[a := Loading(Some(main))] && k.ready == [] && k.tcb.Keys == {main, a}
    ensures k.cpu == c0 && k.tcb[a].context == c1 && !k.tcb[a].collaborative
  {
    var b := Boot(g, main, c0, start, queues);
    es, k := SecondTask(g, n, main, a, c0, c1, start, queues);
    es, k := ReachOn(g, n, b, es, k, Halt(status));
    es, k := ReachOn(g, n, b, es, k, Switch);
  }

  /** If the tick comes there, that task computes with the main task's context. */
  lemma WrongContext<T, C>(g: nat, n: nat, main: T, a: T, c0: C, c1: C, start: nat, queues: set<nat>,
                           status: Status, now: nat)
    returns (es: seq<Event<T, C>>, k: Kernel<T, C>)
    requires g >= 1 && 2 <= n <= 32767 && a != main && IsBlocked(status)
    ensures Leads(g, Boot(g, main, c0, start, queues), es, k)
    ensures k.current == a && Free(k) && k.cpu == c0
  {
    var b := Boot(g, main, c0, start, queues);
    es, k := LoadingLate(g, n, main, a, c0, c1, start, queues, status);
    NoAlarmsTimers(g, k, now);
    es, k := LeadOn(g, b, es, k, Interrupt(now));
    es, k := LeadOn(g, b, es, k, LoadContext);
  }

  /** task_start with no ticks left: the new task waits for the processor without being in the list
      of all tasks. */
  lemma UnlistedTask<T, C>(g: nat, n: nat, main: T, a: T, newborn: T, c0: C, c1: C, start: nat, queues: set<nat>,
                           clock: nat -> nat, prio: int, now: nat)
    returns (es: seq<Event<T, C>>, k: Kernel<T, C>)
    requires g >= 1 && 3 <= n <= 32767 && a != main && newborn != main && newborn != a
    ensures Leads(g, Boot(g, main, c0, start, queues), es, k)
    ensures newborn in k.ready && newborn !in k.all && k.current == main && Free(k)
  {
    var b := Boot(g, main, c0, start, queues);
    es, k := AtWork(g, n, main, a, c0, c1, start, queues, clock);
    ReachesTids(g, n, main, c0, start, queues, es, k, a);
    var s := NewbornTick(g, k, main, a, newborn, prio, c1, now);
    es, k := LeadOn(g, b, es, k, K.Start(newborn, prio, c1));
    es, k := LeadOn(g, b, es, k, Interrupt(now));
  }

  lemma NewbornTick<T, C>(g: nat, k: Kernel<T, C>, main: T, a: T, newborn: T, prio: int, c: C, now: nat)
    returns (s: Kernel<T, C>)
    requires OtherRuns(g, k, main, a) && k.part == map[] && newborn !in k.tcb && FirstClear(k.bits) < |k.bits|
    ensures CanStart(k, newborn) && CanTick(g, Enrol(k, newborn, prio, c), now)
    ensures s == K.Tick(g, Enrol(k, newborn, prio, c), now)
    ensures newborn in s.ready && newborn !in s.all && s.current == main && Free(s)
  {
    var e := Enrol(k, newborn, prio, c);
    NoAlarmsTimers(g, e, now);
    s := K.Tick(g, e, now);
    assert s.ready == [newborn, a];
  }
}
