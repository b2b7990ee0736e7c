/** The scheduler as a state machine: the task lists, the task control blocks, the tid bitmap,
    the machine context and the timing wheel, and one function for every operation of task.c
    and of the tick handler.  T stands for task pointers and C for machine contexts. */
module Kernel {
  import opened Basics
  import opened Wheel

  datatype Status = RUNNING | READY | BLOCKED | DIED | WAITING | HANGING

  datatype Tcb<C> = Tcb(status: Status, priority: nat, ticks: nat, tid: int,
                        sleepMs: nat, collaborative: bool, context: C)

  /** Where a task is while it executes, with interrupts enabled, a function that is half done:
      task_start with the new task, task_exit, task_block, or a switch. */
  datatype Part<T> =
    | Enrolling(task: T)                // task_start: the new task is in the ready list only
    | Leaving                           // task_exit: out of all lists, tid not yet given back
    | Dying                             // task_exit: about to choose the next task
    | Halting                           // task_block: status set, about to choose the next task
    | Loading(from: Option<T>)          // the next task is current, its context not yet loaded

  /** Timers of the wheel are for a sleeping task (Some), or for the clean-up function (None). */
  datatype Kernel<T, C> = Kernel(
    tcb: map<T, Tcb<C>>, main: T, current: T,
    ready: seq<T>, all: seq<T>, pool: seq<T>, allNums: int,
    waiters: map<nat, seq<T>>,       // the wait lists of the semaphores
    bits: seq<bool>,                 // the tid bitmap
    cpu: C,                          // the machine context
    wheel: Wheel<Option<T>>,
    part: map<T, Part<T>>)           // the tasks in the middle of such a function

  const TID_BITS := 125100 * 8

  /** What an int becomes in a uint8_t field. */
  function Narrow8(n: int): nat {
    n % 256
  }

  /** What an int becomes in a tid_t, an int16_t. */
  function Narrow16(n: int): int {
    (n + 0x8000) % 0x1_0000 - 0x8000
  }

  predicate IsBlocked(s: Status) {
    s == BLOCKED || s == WAITING || s == HANGING
  }

  // ----- tids

  /** bitmap_scan for one bit: the first clear one. */
  function FirstClear(bits: seq<bool>): (i: nat)
    ensures i <= |bits|
    ensures forall j :: 0 <= j < i ==> bits[j]
    ensures i < |bits| ==> !bits[i]
  {
    if bits == [] || !bits[0] then 0 else 1 + FirstClear(bits[1..])
  }

  // ----- starting and ending tasks

  ghost predicate CanStart<T, C>(k: Kernel<T, C>, memory: T) {
    && k.current in k.tcb && !k.tcb[k.current].collaborative
    && (k.pool == [] ==> memory !in k.tcb)
    && FirstClear(k.bits) < |k.bits|
  }

  /** task_start: a task from the pool, or else the memory malloc gives. */
  ghost function Started<T, C>(k: Kernel<T, C>, memory: T): T {
    if k.pool != [] then k.pool[0] else memory
  }

  /** The assertion at the insertion into the ready list. */
  ghost predicate StartAsserts<T, C>(k: Kernel<T, C>, memory: T) {
    Started(k, memory) !in k.ready
  }

  /** task_start up to the insertion into the ready list; the lock in allocate_tid has enabled
      interrupts on its way. */
  ghost function Enrol<T, C>(k: Kernel<T, C>, memory: T, prio: int, context: C): Kernel<T, C>
    requires CanStart(k, memory)
  {
    var task := Started(k, memory);
    Initialised(k, memory, prio, context).(ready := k.ready + [task], part := k.part[k.current := Enrolling(task)])
  }

  /** That task, after init_task and task_create. */
  ghost function Initialised<T, C>(k: Kernel<T, C>, memory: T, prio: int, context: C): Kernel<T, C>
    requires CanStart(k, memory)
  {
    var bit, p := FirstClear(k.bits), Narrow8(prio);
    k.(pool := if k.pool != [] then k.pool[1..] else k.pool,
       tcb := k.tcb[Started(k, memory) := Tcb(READY, p, p, Narrow16(bit + 1), 0, false, context)],
       bits := k.bits[bit := true])
  }

  /** And the insertion into the list of all tasks. */
  ghost function Admit<T, C>(k: Kernel<T, C>): Kernel<T, C>
    requires k.current in k.part && k.part[k.current].Enrolling?
  {
    Done(k.(all := k.all + [k.part[k.current].task], allNums := k.allNums + 1))
  }

  /** The function returns, or its last step is taken. */
  ghost function Done<T, C>(k: Kernel<T, C>): Kernel<T, C> {
    k.(part := k.part - {k.current})
  }

  /** list_remove */
  ghost function Remove<T>(s: seq<T>, x: T): seq<T> {
    if s == [] then [] else if s[0] == x then s[1..] else [s[0]] + Remove(s[1..], x)
  }

  ghost function SetTcb<T, C>(k: Kernel<T, C>, x: T, t: Tcb<C>): Kernel<T, C> {
    k.(tcb := k.tcb[x := t])
  }

  /** get_next_task: pop the ready list; the popped task is RUNNING and current. */
  ghost function Dispatch<T, C>(k: Kernel<T, C>): Kernel<T, C>
    requires k.ready != [] && k.ready[0] in k.tcb
  {
    Pop(k).(cpu := k.tcb[k.ready[0]].context)
  }

  ghost function Pop<T, C>(k: Kernel<T, C>): Kernel<T, C>
    requires k.ready != [] && k.ready[0] in k.tcb
  {
    var next := k.ready[0];
    k.(ready := k.ready[1..], current := next, tcb := k.tcb[next := k.tcb[next].(status := RUNNING)])
  }

  /** task_exit of the running task, up to release_tid. */
  ghost predicate CanExit<T, C>(k: Kernel<T, C>) {
    k.current in k.tcb && !k.tcb[k.current].collaborative
  }

  ghost function Leave<T, C>(k: Kernel<T, C>): Kernel<T, C>
    requires k.current in k.tcb
  {
    var x := k.current;
    k.(tcb := k.tcb[x := k.tcb[x].(status := DIED)],
       all := Remove(k.all, x), allNums := k.allNums - 1,
       pool := if x != k.main then k.pool + [x] else k.pool,
       part := k.part[x := Leaving])
  }

  /** release_tid */
  ghost predicate CanRelease<T, C>(k: Kernel<T, C>) {
    && k.current in k.part && k.part[k.current] == Leaving
    && k.current in k.tcb && 1 <= k.tcb[k.current].tid <= |k.bits|
  }

  ghost function Release<T, C>(k: Kernel<T, C>): Kernel<T, C>
    requires CanRelease(k)
  {
    k.(bits := k.bits[k.tcb[k.current].tid - 1 := false], part := k.part[k.current := Dying])
  }

  /** died_task_schedule and block_task_schedule, up to the assignment of current_task. */
  ghost predicate CanGiveUp<T, C>(k: Kernel<T, C>) {
    && k.current in k.part && (k.part[k.current] == Dying || k.part[k.current] == Halting)
    && k.ready != [] && k.ready[0] in k.tcb
  }

  ghost function GiveUp<T, C>(k: Kernel<T, C>): Kernel<T, C>
    requires CanGiveUp(k)
  {
    var from := if k.part[k.current] == Halting then Some(k.current) else None;
    Pop(k).(part := (k.part - {k.current})[k.ready[0] := Loading(from)])
  }

  /** context_set, or context_swap when there is a context to save. */
  ghost predicate CanLoad<T, C>(k: Kernel<T, C>) {
    && k.current in k.part && k.part[k.current].Loading? && k.current in k.tcb
    && (k.part[k.current].from.Some? ==> k.part[k.current].from.value in k.tcb)
  }

  ghost function Load<T, C>(k: Kernel<T, C>): Kernel<T, C>
    requires CanLoad(k)
  {
    var saved := match k.part[k.current].from
                 case None => k
                 case Some(x) => SetTcb(k, x, k.tcb[x].(context := k.cpu));
    Done(saved.(cpu := saved.tcb[k.current].context))
  }

  // ----- giving up the processor

  /** The current task's context is saved; the others are not touched. */
  ghost function Save<T, C>(k: Kernel<T, C>): Kernel<T, C>
    requires k.current in k.tcb
  {
    SetTcb(k, k.current, k.tcb[k.current].(context := k.cpu))
  }

  /** schedule: the current task goes to the end of the ready list with a full time slice. */
  ghost function Schedule<T, C>(k: Kernel<T, C>): Kernel<T, C>
    requires k.current in k.tcb && (k.ready != [] ==> k.ready[0] in k.tcb)
  {
    var s := Save(k);
    var t := s.tcb[k.current];
    var q := SetTcb(s, k.current, t.(ticks := t.priority, status := READY));
    Dispatch(q.(ready := k.ready + [k.current]))
  }

  /** collaborative_schedule: somebody else runs, the current task is not put into the ready list. */
  ghost function Yield<T, C>(k: Kernel<T, C>): Kernel<T, C>
    requires k.current in k.tcb && k.ready != [] && k.ready[0] in k.tcb
  {
    Dispatch(Save(k))
  }

  /** The wait in sema_down, with interrupts disabled throughout: the append to the wait list,
      task_block, and the switch. */
  ghost predicate CanBlock<T, C>(k: Kernel<T, C>, status: Status, queue: nat) {
    && IsBlocked(status)
    && k.current in k.tcb && !k.tcb[k.current].collaborative
    && k.ready != [] && k.ready[0] in k.tcb
    && queue in k.waiters
  }

  ghost function TaskBlock<T, C>(k: Kernel<T, C>, status: Status, queue: nat): Kernel<T, C>
    requires CanBlock(k, status, queue)
  {
    var w := k.waiters[queue := k.waiters[queue] + [k.current]];
    Yield(SetTcb(k, k.current, k.tcb[k.current].(status := status)).(waiters := w))
  }

  /** The first half of task_block with interrupts enabled, as the ring buffer calls it. */
  ghost predicate CanSuspend<T, C>(k: Kernel<T, C>, status: Status) {
    IsBlocked(status) && k.current in k.tcb && !k.tcb[k.current].collaborative
  }

  ghost function Suspend<T, C>(k: Kernel<T, C>, status: Status): Kernel<T, C>
    requires CanSuspend(k, status)
  {
    SetTcb(k, k.current, k.tcb[k.current].(status := status)).(part := k.part[k.current := Halting])
  }

  /** task_unblock: to the front of the ready list. */
  ghost function TaskUnblock<T, C>(k: Kernel<T, C>, x: T): Kernel<T, C>
    requires x in k.tcb
  {
    SetTcb(k, x, k.tcb[x].(status := READY)).(ready := [x] + k.ready)
  }

  /** sema_up's pop of the wait list, and task_unblock. */
  ghost predicate CanWake<T, C>(k: Kernel<T, C>, queue: nat) {
    queue in k.waiters && k.waiters[queue] != [] && k.waiters[queue][0] in k.tcb
  }

  ghost function WakeWaiter<T, C>(k: Kernel<T, C>, queue: nat): Kernel<T, C>
    requires CanWake(k, queue)
  {
    TaskUnblock(k.(waiters := k.waiters[queue := k.waiters[queue][1..]]), k.waiters[queue][0])
  }

  // ----- the tick

  /** collaborative_schedule_helper: the sleep of task x is over. */
  ghost function Wake<T, C>(k: Kernel<T, C>, x: T): Kernel<T, C>
    requires x in k.tcb
  {
    var t := k.tcb[x];
    SetTcb(k, x, t.(ticks := t.priority, status := READY, collaborative := false, sleepMs := 0))
      .(ready := k.ready + [x])
  }

  ghost predicate Known<T, C>(k: Kernel<T, C>, log: seq<Firing<Option<T>>>) {
    forall f | f in log && f.timer.param.Some? :: f.timer.param.value in k.tcb
  }

  /** The callbacks of one run_timer, in order; clean_dead_task changes nothing. */
  ghost function CallBack<T, C>(k: Kernel<T, C>, log: seq<Firing<Option<T>>>): (r: Kernel<T, C>)
    requires Known(k, log)
    ensures r.tcb.Keys == k.tcb.Keys && r.current == k.current && r.wheel == k.wheel
    decreases |log|
  {
    if log == [] then k
    else if log[0].timer.param.Some? then CallBack(Wake(k, log[0].timer.param.value), log[1..])
    else CallBack(k, log[1..])
  }

  /** run_timer with its callbacks. */
  ghost function Timers<T, C>(g: nat, k: Kernel<T, C>, now: nat): (r: Kernel<T, C>)
    requires g >= 1 && Shaped(k.wheel) && Known(k, Run(g, k.wheel, now).1)
    ensures r.tcb.Keys == k.tcb.Keys && r.current == k.current && Shaped(r.wheel)
  {
    var (w, log) := Run(g, k.wheel, now);
    CallBack(k.(wheel := w), log)
  }

  /** The rest of interrupt_timer_handler. */
  ghost predicate CanSlice<T, C>(k: Kernel<T, C>) {
    && k.current in k.tcb && Shaped(k.wheel)
    && (k.ready != [] ==> k.ready[0] in k.tcb)
    && (k.tcb[k.current].collaborative ==> k.ready != [])
  }

  ghost function Slice<T, C>(g: nat, k: Kernel<T, C>): Kernel<T, C>
    requires g >= 1 && CanSlice(k)
  {
    var t := k.tcb[k.current];
    if !t.collaborative && t.ticks == 0 then
      Schedule(k)
    else if !t.collaborative then
      SetTcb(k, k.current, t.(ticks := t.ticks - 1))
    else
      Yield(k.(wheel := Create(g, k.wheel, Some(k.current), t.sleepMs, 0)))
  }

  ghost predicate CanTick<T, C>(g: nat, k: Kernel<T, C>, now: nat) {
    && g >= 1 && Shaped(k.wheel) && Known(k, Run(g, k.wheel, now).1)
    && CanSlice(Timers(g, k, now))
  }

  /** interrupt_timer_handler, with the clock reading `now` */
  ghost function Tick<T, C>(g: nat, k: Kernel<T, C>, now: nat): Kernel<T, C>
    requires CanTick(g, k, now)
  {
    Slice(g, Timers(g, k, now))
  }

  // ----- events

  datatype Event<T, C> =
    | Start(memory: T, prio: int, context: C)
    | Finish                            // task_start goes on, to the list of all tasks
    | Exit
    | ReleaseTid                        // task_exit goes on
    | Block(status: Status, semaphore: nat)
    | Halt(status: Status)              // task_block with interrupts enabled
    | Switch                            // the next task is chosen
    | LoadContext                       // and its context is loaded
    | Unblock(task: T)                  // task_unblock of a task that waits on no semaphore
    | Up(semaphore: nat)                // sema_up wakes a waiter
    | SleepFlag                         // the two writes of the hooked sleep
    | SleepTime(ms: nat)
    | Interrupt(now: nat)
    | Compute(context: C)               // the current task runs and changes the machine context

  ghost predicate Waits<T, C>(k: Kernel<T, C>, x: T) {
    exists q :: q in k.waiters && x in k.waiters[q]
  }

  /** The current task is in the middle of no such function. */
  ghost predicate Free<T, C>(k: Kernel<T, C>) {
    k.current !in k.part
  }

  ghost predicate Enabled<T, C>(g: nat, k: Kernel<T, C>, e: Event<T, C>) {
    match e
    case Start(memory, _, _) => Free(k) && CanStart(k, memory) && StartAsserts(k, memory)
    case Finish => k.current in k.part && k.part[k.current].Enrolling?
    case Exit => Free(k) && CanExit(k)
    case ReleaseTid => CanRelease(k)
    case Block(status, q) => Free(k) && CanBlock(k, status, q)
    case Halt(status) => Free(k) && CanSuspend(k, status)
    case Switch => CanGiveUp(k)
    case LoadContext => CanLoad(k)
    case Unblock(x) => Free(k) && x in k.all && x in k.tcb && IsBlocked(k.tcb[x].status) && !Waits(k, x)
    case Up(q) => Free(k) && CanWake(k, q)
    case SleepFlag => Free(k) && k.current in k.tcb
    case SleepTime(_) => Free(k) && k.current in k.tcb
    case Interrupt(now) => CanTick(g, k, now)
    case Compute(_) => Free(k)
  }

  ghost function Step<T, C>(g: nat, k: Kernel<T, C>, e: Event<T, C>): Kernel<T, C>
    requires Enabled(g, k, e)
  {
    match e
    case Start(memory, prio, context) => Enrol(k, memory, prio, context)
    case Finish => Admit(k)
    case Exit => Leave(k)
    case ReleaseTid => Release(k)
    case Block(status, q) => TaskBlock(k, status, q)
    case Halt(status) => Suspend(k, status)
    case Switch => GiveUp(k)
    case LoadContext => Load(k)
    case Unblock(x) => TaskUnblock(k, x)
    case Up(q) => WakeWaiter(k, q)
    case SleepFlag => SetTcb(k, k.current, k.tcb[k.current].(collaborative := true))
    case SleepTime(ms) => SetTcb(k, k.current, k.tcb[k.current].(sleepMs := ms))
    case Interrupt(now) => Tick(g, k, now)
    case Compute(context) => k.(cpu := context)
  }

  ghost predicate Possible<T, C>(g: nat, k: Kernel<T, C>, es: seq<Event<T, C>>)
    decreases |es|
  {
    es != [] ==> Enabled(g, k, es[0]) && Possible(g, Step(g, k, es[0]), es[1..])
  }

  /** A whole run. */
  ghost function Exec<T, C>(g: nat, k: Kernel<T, C>, es: seq<Event<T, C>>): Kernel<T, C>
    requires Possible(g, k, es)
    decreases |es|
  {
    if es == [] then k else Exec(g, Step(g, k, es[0]), es[1..])
  }

  /** task_init and timer_init: the main task alone, running, with tid 1; the clean-up timer. */
  ghost function Boot<T, C>(g: nat, main: T, context: C, now: nat, queues: set<nat>): Kernel<T, C>
    requires g >= 1
  {
    var bits := seq(TID_BITS, i => i == 0);
    Kernel(map[main := Tcb(RUNNING, 3, 3, 1, 0, false, context)], main, main,
           [], [main], [], 1, map q | q in queues :: [], bits, context,
           Create(g, Empty<Option<T>>(now), None, 150000, 150000), map[])
  }
}
