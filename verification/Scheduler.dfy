/** task.c and the tick handler on the heap: task control blocks and lists that are updated in
    place, a tid bitmap and a timer manager.  Every operation is proved against the function of
    module Kernel that says what it does, and the program's assertions are proved on the way. */
module Scheduler {
  import opened Basics
  import opened Wheel
  import K = Kernel
  import opened KernelPartition
  import opened KernelInvariant
  import opened Bitmap
  import opened TimerManager
  import opened Aging

  class Task<C> {
    var status: K.Status
    var priority: nat
    var ticks: nat
    var tid: int
    var sleepMs: nat
    var collaborative: bool
    var context: C

    constructor (context: C)
    {
      status, priority, ticks, tid := K.READY, 0, 0, 0;
      sleepMs, collaborative, this.context := 0, false, context;
    }

    /** The assignments of collaborative_schedule_helper. */
    method Rise()
      modifies `ticks, `status, `collaborative, `sleepMs
      ensures ticks == priority && status == K.READY && !collaborative && sleepMs == 0
    {
      ticks := priority;
      status := K.READY;
      collaborative := false;
      sleepMs := 0;
    }

    /** The assignments of init_task and task_create. */
    method Init(status: K.Status, tid: int, prio: int, context: C)
      modifies this
      ensures K.Tcb(this.status, priority, ticks, this.tid, sleepMs, collaborative, this.context)
              == K.Tcb(status, K.Narrow8(prio), K.Narrow8(prio), tid, 0, false, context)
    {
      this.status := status;
      this.tid := tid;
      priority := K.Narrow8(prio);
      ticks := K.Narrow8(prio);
      sleepMs, collaborative := 0, false;
      this.context := context;
    }
  }

  lemma {:induction false} FirstClearIs(bits: seq<bool>, i: nat)
    requires i < |bits| && !bits[i] && forall j :: 0 <= j < i ==> bits[j]
    ensures K.FirstClear(bits) == i
  {
  }

  lemma InitialisedIs<T, C>(k: K.Kernel<T, C>, s: K.Kernel<T, C>, task: T, prio: int, context: C)
    requires K.CanStart(k, task) && K.Started(k, task) == task
    requires s == k.(tcb := s.tcb, pool := s.pool, bits := s.bits)
    requires s.pool == if k.pool != [] then k.pool[1..] else []
    requires var bit, p := K.FirstClear(k.bits), K.Narrow8(prio);
             && s.tcb == k.tcb[task := K.Tcb(K.READY, p, p, K.Narrow16(bit + 1), 0, false, context)]
             && s.bits == k.bits[bit := true]
    ensures s == K.Initialised(k, task, prio, context)
  {
  }

  /** schedule is the queueing of the current task, followed by collaborative_schedule. */
  lemma ScheduleIs<T, C>(k: K.Kernel<T, C>, q: K.Kernel<T, C>)
    requires k.current in k.tcb && (k.ready != [] ==> k.ready[0] in k.tcb)
    requires var t := k.tcb[k.current];
             q == k.(ready := k.ready + [k.current],
                     tcb := k.tcb[k.current := t.(status := K.READY, ticks := t.priority)])
    ensures K.Schedule(k) == K.Yield(q)
  {
    assert K.Schedule(k).tcb == K.Yield(q).tcb;
  }

  lemma YieldIs<T, C>(k: K.Kernel<T, C>, s: K.Kernel<T, C>)
    requires k.current in k.tcb && k.ready != [] && k.ready[0] in k.tcb
    requires s == k.(tcb := s.tcb, ready := s.ready, current := s.current, cpu := s.cpu)
    requires var c, next := k.current, k.ready[0];
             var t1 := k.tcb[next := k.tcb[next].(status := K.RUNNING)];
             && s.current == next && s.ready == k.ready[1..]
             && s.tcb == t1[c := t1[c].(context := k.cpu)] && s.cpu == s.tcb[next].context
    ensures s == K.Yield(k)
  {
    assert s.tcb == K.Yield(k).tcb;
  }

  /** The callbacks of run_timer find their tasks, and none of them in the ready list. */
  ghost predicate Callable<T, C>(g: nat, k: K.Kernel<T, C>, now: nat) {
    && g >= 1 && Shaped(k.wheel)
    && var (w, log) := Run(g, k.wheel, now);
       K.Known(k.(wheel := w), log) && Asserted(k.(wheel := w), log)
  }

  /** In every reachable state the assertions of task_start, task_exit, schedule, task_block,
      task_unblock and sema_down about the lists hold. */
  lemma ListAssertions<T, C>(k: K.Kernel<T, C>)
    requires Partition(k)
    ensures k.current !in k.ready
    ensures k.pool != [] ==> k.pool[0] in k.tcb && k.pool[0] !in k.ready && k.pool[0] !in k.all
    ensures Newborn(k).Some? ==> Newborn(k).value !in k.all
    ensures forall x :: x in k.all && K.IsBlocked(k.tcb[x].status) ==> x !in k.ready
    ensures K.Free(k) ==> forall q :: q in k.waiters ==> k.current !in k.waiters[q]
    ensures forall q :: q in k.waiters && k.waiters[q] != [] ==>
              var x := k.waiters[q][0]; x in k.tcb && K.IsBlocked(k.tcb[x].status) && x !in k.ready
  {
    forall x | x in k.ready ensures x != k.current && !K.IsBlocked(k.tcb[x].status) && x !in k.pool {
      ReadyMeans(k, x);
    }
    assert k.pool != [] ==> k.pool[0] in k.pool;
    if K.Free(k) {
      assert StatusOk(k, k.current, Some(k.current));
    }
    forall q | q in k.waiters && k.waiters[q] != []
      ensures var x := k.waiters[q][0]; x in k.tcb && K.IsBlocked(k.tcb[x].status) && x !in k.ready
    {
      assert k.waiters[q][0] in k.waiters[q];
    }
  }

  /** And those of the tick: the callbacks', and schedule's after them. */
  lemma TickAssertions<T, C>(g: nat, n: nat, k: K.Kernel<T, C>, now: nat)
    requires Inv(g, n, k)
    ensures Callable(g, k, now)
    ensures K.Timers(g, k, now).current !in K.Timers(g, k, now).ready
  {
    TimersInv(g, n, k, now);
    ListAssertions(K.Timers(g, k, now));
  }

  lemma {:induction false} RemoveAt<T>(s: seq<T>, x: T, i: nat)
    requires i <= |s| && x !in s[..i] && (i < |s| ==> s[i] == x)
    ensures K.Remove(s, x) == if i < |s| then s[..i] + s[i + 1..] else s
  {
    if i > 0 {
      var t := s[1..];
      assert s[..i] == [s[0]] + t[..i - 1];
      RemoveAt(t, x, i - 1);
      assert s == [s[0]] + t;
      assert i < |s| ==> t[i..] == s[i + 1..];
    }
  }

  class Scheduler<C> {
    const mainTask: Task<C>
    var currentTask: Task<C>
    var readyList: seq<Task<C>>
    var allList: seq<Task<C>>
    var poolList: seq<Task<C>>
    var taskAllNums: int
    var waiters: map<nat, seq<Task<C>>>
    const tidBitmap: Bitmap
    var cpu: C
    var part: map<Task<C>, K.Part<Task<C>>>  // program counters and locals of functions half done
    const timers: TimerManager<Option<Task<C>>>
    ghost var tcbs: map<Task<C>, K.Tcb<C>>   // what the task structures hold

    ghost predicate Valid()
      reads this, tcbs.Keys
    {
      && currentTask in tcbs
      && forall x :: x in tcbs ==>
           tcbs[x] == K.Tcb(x.status, x.priority, x.ticks, x.tid, x.sleepMs, x.collaborative, x.context)
    }

    /** The state of the scheduler as a value. */
    ghost function Model(): K.Kernel<Task<C>, C>
      reads this, tidBitmap.bytes, timers`model
    {
      K.Kernel(tcbs, mainTask, currentTask, readyList, allList, poolList, taskAllNums, waiters,
               tidBitmap.Bits(), cpu, timers.model, part)
    }

    /** allocate_tid: the first free number; one bit is searched for, so none past the end is read. */
    method AllocateTid() returns (tid: int)
      requires K.FirstClear(tidBitmap.Bits()) < |tidBitmap.Bits()|
      modifies tidBitmap.bytes
      ensures tid == K.Narrow16(K.FirstClear(old(tidBitmap.Bits())) + 1)
      ensures tidBitmap.Bits() == old(tidBitmap.Bits())[K.FirstClear(old(tidBitmap.Bits())) := true]
    {
      ghost var bits := tidBitmap.Bits();
      var bit, past := tidBitmap.Scan(1, 0);
      assert ClearRun(bits, K.FirstClear(bits), 1);
      forall j | 0 <= j < bit ensures bits[j] {
        assert !ClearRun(bits, j, 1);
      }
      FirstClearIs(bits, bit);
      tidBitmap.Set(bit, true);
      tid := K.Narrow16(bit + 1);
    }

    /** release_tid */
    method ReleaseTid(tid: int)
      requires 1 <= tid <= |tidBitmap.Bits()|
      modifies tidBitmap.bytes
      ensures tidBitmap.Bits() == old(tidBitmap.Bits())[tid - 1 := false]
    {
      tidBitmap.Set(tid - 1, false);
    }

    /** init_task, and the context that task_create builds. */
    method InitTask(task: Task<C>, status: K.Status, prio: int, context: C)
      requires Valid() && K.FirstClear(tidBitmap.Bits()) < |tidBitmap.Bits()|
      modifies `tcbs, task, tidBitmap.bytes
      ensures Valid()
      ensures var bit, p := K.FirstClear(old(tidBitmap.Bits())), K.Narrow8(prio);
              && tidBitmap.Bits() == old(tidBitmap.Bits())[bit := true]
              && tcbs == old(tcbs)[task := K.Tcb(status, p, p, K.Narrow16(bit + 1), 0, false, context)]
    {
      var tid := AllocateTid();
      task.Init(status, tid, prio, context);
      tcbs := tcbs[task := K.Tcb(status, K.Narrow8(prio), K.Narrow8(prio), tid, 0, false, context)];
    }

    /** Memory for everything; the main task is there, but not initialised. */
    constructor (g: nat, context: C, now: nat, queues: set<nat>)
      requires g >= 1
      ensures timers.Valid() && timers.g == g && timers.model == Empty(now)
      ensures currentTask == mainTask && readyList == [] && allList == [] && poolList == []
      ensures taskAllNums == 0 && waiters == (map q | q in queues :: []) && cpu == context && part == map[]
      ensures Valid() && tcbs.Keys == {mainTask} && tidBitmap.Bits() == seq(K.TID_BITS, i => false)
      ensures fresh(mainTask) && fresh(tidBitmap.bytes) && fresh(timers) && fresh(timers.Repr)
    {
      var main := new Task(context);
      mainTask, currentTask, cpu := main, main, context;
      tcbs := map[main := K.Tcb(main.status, main.priority, main.ticks, main.tid,
                                main.sleepMs, main.collaborative, main.context)];
      readyList, allList, poolList, taskAllNums := [], [], [], 0;
      waiters, part := map q | q in queues :: [], map[];
      tidBitmap := new Bitmap(125100);
      timers := new TimerManager(g, now, None);
    }

    /** make_main_task: the main task gets the first tid, is on the processor and is the only one. */
    method MakeMainTask(context: C)
      requires Valid() && tcbs.Keys == {mainTask} && tidBitmap.Bits() == seq(K.TID_BITS, i => false)
      requires mainTask !in allList
      modifies `allList, `taskAllNums, `tcbs, mainTask, tidBitmap.bytes
      ensures allList == old(allList) + [mainTask] && taskAllNums == old(taskAllNums) + 1
      ensures Valid() && tcbs == map[mainTask := K.Tcb(K.RUNNING, 3, 3, 1, 0, false, context)]
      ensures tidBitmap.Bits() == seq(K.TID_BITS, i => i == 0)
    {
      FirstClearIs(tidBitmap.Bits(), 0);
      InitTask(mainTask, K.RUNNING, 3, context);
      assert mainTask !in allList;
      allList := allList + [mainTask];
      taskAllNums := taskAllNums + 1;
    }

    /** timer_init: the clean-up timer. */
    method TimerInit(g: nat, context: C, now: nat, queues: set<nat>)
      requires Valid() && timers.Valid() && timers.g == g && timers.model == Empty(now)
      requires currentTask == mainTask && readyList == [] && allList == [mainTask] && poolList == []
      requires taskAllNums == 1 && waiters == (map q | q in queues :: []) && cpu == context && part == map[]
      requires tcbs == map[mainTask := K.Tcb(K.RUNNING, 3, 3, 1, 0, false, context)]
      requires tidBitmap.Bits() == seq(K.TID_BITS, i => i == 0)
      modifies timers, timers.Repr
      ensures Valid() && timers.Valid() && Model() == K.Boot(g, mainTask, context, now, queues)
    {
      var _ := timers.CreateTimer(None, 150000, 150000);
    }

    /** A task from the pool, or else memory for one. */
    method TakeMemory(context: C) returns (task: Task<C>)
      requires poolList != [] ==> poolList[0] !in readyList && poolList[0] !in allList
      modifies `poolList
      ensures old(poolList) != [] ==> task == old(poolList)[0] && poolList == old(poolList)[1..]
      ensures old(poolList) == [] ==> fresh(task) && poolList == []
      ensures task !in readyList && task !in allList
    {
      if poolList != [] {
        task := poolList[0];
        poolList := poolList[1..];
      } else {
        task := new Task(context);
      }
    }

    /** The first half of task_start: a task, initialised. */
    method NewTask(prio: int, context: C) returns (task: Task<C>)
      requires Valid() && K.FirstClear(tidBitmap.Bits()) < |tidBitmap.Bits()| && !currentTask.collaborative
      requires poolList != [] ==> poolList[0] in tcbs && poolList[0] !in readyList && poolList[0] !in allList
      modifies `poolList, `tcbs, tcbs.Keys, tidBitmap.bytes
      ensures Valid() && task !in readyList && task !in allList
      ensures K.CanStart(old(Model()), task) && task == K.Started(old(Model()), task)
      ensures Model() == K.Initialised(old(Model()), task, prio, context)
    {
      ghost var k := Model();
      task := TakeMemory(context);
      InitTask(task, K.READY, prio, context);
      InitialisedIs(k, Model(), task, prio, context);
    }

    /** task_start as far as the ready list; the assertion holds because a task of the pool is in
        no other list. */
    method Enrol(prio: int, context: C) returns (task: Task<C>)
      requires Valid() && K.FirstClear(tidBitmap.Bits()) < |tidBitmap.Bits()| && !currentTask.collaborative
      requires poolList != [] ==> poolList[0] in tcbs && poolList[0] !in readyList && poolList[0] !in allList
      modifies `readyList, `poolList, `part, `tcbs, tcbs.Keys, tidBitmap.bytes
      ensures Valid() && currentTask in part && part[currentTask] == K.Enrolling(task) && task !in allList
      ensures K.CanStart(old(Model()), task) && task == K.Started(old(Model()), task)
      ensures Model() == K.Enrol(old(Model()), task, prio, context)
    {
      task := NewTask(prio, context);
      assert task !in readyList;
      readyList := readyList + [task];
      part := part[currentTask := K.Enrolling(task)];
    }

    /** The rest of task_start: the list of all tasks. */
    method Admit()
      requires currentTask in part && part[currentTask].Enrolling? && part[currentTask].task !in allList
      modifies `allList, `taskAllNums, `part
      ensures Model() == K.Admit(old(Model()))
    {
      var task := part[currentTask].task;
      assert task !in allList;
      allList := allList + [task];
      taskAllNums := taskAllNums + 1;
      part := part - {currentTask};
    }

    /** task_start, when no tick comes between its halves. */
    method TaskStart(prio: int, context: C) returns (task: Task<C>)
      requires Valid() && K.FirstClear(tidBitmap.Bits()) < |tidBitmap.Bits()| && !currentTask.collaborative
      requires poolList != [] ==> poolList[0] in tcbs && poolList[0] !in readyList && poolList[0] !in allList
      modifies `readyList, `allList, `poolList, `taskAllNums, `part, `tcbs, tcbs.Keys, tidBitmap.bytes
      ensures Valid() && K.CanStart(old(Model()), task) && task == K.Started(old(Model()), task)
      ensures Model() == K.Admit(K.Enrol(old(Model()), task, prio, context))
    {
      task := Enrol(prio, context);
      Admit();
    }

    // ----- giving up the processor

    /** get_next_task, and the same lines of died_task_schedule and block_task_schedule. */
    method GetNextTask() returns (next: Task<C>)
      requires Valid() && readyList != [] && readyList[0] in tcbs
      modifies `readyList, `tcbs, tcbs.Keys
      ensures Valid() && next == old(readyList)[0] && readyList == old(readyList)[1..]
      ensures tcbs == old(tcbs)[next := old(tcbs)[next].(status := K.RUNNING)]
    {
      next := readyList[0];
      readyList := readyList[1..];
      next.status := K.RUNNING;
      tcbs := tcbs[next := tcbs[next].(status := K.RUNNING)];
    }

    /** The context of the current task is saved, and the next one's is loaded. */
    method SwitchTo(next: Task<C>)
      requires Valid() && next in tcbs
      modifies `currentTask, `cpu, `tcbs, tcbs.Keys
      ensures Valid() && currentTask == next
      ensures tcbs == old(tcbs)[old(currentTask) := old(tcbs)[old(currentTask)].(context := old(cpu))]
      ensures cpu == tcbs[next].context
    {
      currentTask.context := cpu;
      tcbs := tcbs[currentTask := tcbs[currentTask].(context := cpu)];
      currentTask := next;
      cpu := currentTask.context;
    }

    method SetCurrent(status: K.Status, ticks: nat)
      requires Valid()
      modifies `tcbs, tcbs.Keys
      ensures Valid()
      ensures tcbs == old(tcbs)[currentTask := old(tcbs)[currentTask].(status := status, ticks := ticks)]
    {
      currentTask.ticks := ticks;
      currentTask.status := status;
      tcbs := tcbs[currentTask := tcbs[currentTask].(status := status, ticks := ticks)];
    }

    /** collaborative_schedule and block_task_schedule */
    method Yield()
      requires Valid() && readyList != [] && readyList[0] in tcbs
      modifies `readyList, `currentTask, `cpu, `tcbs, tcbs.Keys
      ensures Valid() && tcbs.Keys == old(tcbs).Keys
      ensures Model() == K.Yield(old(Model()))
    {
      ghost var k := Model();
      var next := GetNextTask();
      SwitchTo(next);
      YieldIs(k, Model());
    }

    /** The first lines of schedule. */
    method Requeue()
      requires Valid() && currentTask !in readyList
      modifies `readyList, `tcbs, tcbs.Keys
      ensures Valid()
      ensures var k, t := old(Model()), old(Model()).tcb[currentTask];
              Model() == k.(ready := k.ready + [currentTask],
                            tcb := k.tcb[currentTask := t.(status := K.READY, ticks := t.priority)])
    {
      assert currentTask !in readyList;
      readyList := readyList + [currentTask];
      SetCurrent(K.READY, currentTask.priority);
    }

    /** schedule */
    method Schedule()
      requires Valid() && (readyList != [] ==> readyList[0] in tcbs) && currentTask !in readyList
      modifies `readyList, `currentTask, `cpu, `tcbs, tcbs.Keys
      ensures Valid() && tcbs.Keys == old(tcbs).Keys
      ensures Model() == K.Schedule(old(Model()))
    {
      ghost var k := Model();
      Requeue();
      ScheduleIs(k, Model());
      Yield();
    }

    // ----- blocking and waking

    /** The queueing of sema_down, task_block, and the switch: interrupts are disabled. */
    method TaskBlock(status: K.Status, queue: nat)
      requires Valid() && K.CanBlock(Model(), status, queue) && currentTask !in waiters[queue]
      modifies `readyList, `currentTask, `cpu, `tcbs, `waiters, tcbs.Keys
      ensures Valid() && tcbs.Keys == old(tcbs).Keys
      ensures Model() == K.TaskBlock(old(Model()), status, queue)
    {
      assert currentTask !in waiters[queue];
      waiters := waiters[queue := waiters[queue] + [currentTask]];
      assert K.IsBlocked(status);
      SetCurrent(status, currentTask.ticks);
      Yield();
    }

    /** task_block with interrupts enabled, up to the call of block_task_schedule. */
    method Suspend(status: K.Status)
      requires Valid() && K.CanSuspend(Model(), status)
      modifies `part, `tcbs, tcbs.Keys
      ensures Valid() && Model() == K.Suspend(old(Model()), status)
    {
      assert K.IsBlocked(status);
      SetCurrent(status, currentTask.ticks);
      part := part[currentTask := K.Halting];
    }

    /** task_unblock */
    method TaskUnblock(ptask: Task<C>)
      requires Valid() && ptask in tcbs && K.IsBlocked(ptask.status) && ptask !in readyList
      modifies `readyList, `tcbs, ptask
      ensures Valid() && Model() == K.TaskUnblock(old(Model()), ptask)
    {
      assert K.IsBlocked(ptask.status);
      if ptask.status != K.READY {
        assert ptask !in readyList;
        readyList := [ptask] + readyList;
        ptask.status := K.READY;
        tcbs := tcbs[ptask := tcbs[ptask].(status := K.READY)];
      }
    }

    /** The wake-up of sema_up. */
    method WakeWaiter(queue: nat)
      requires Valid() && K.CanWake(Model(), queue)
      requires K.IsBlocked(waiters[queue][0].status) && waiters[queue][0] !in readyList
      modifies `readyList, `tcbs, `waiters, tcbs.Keys
      ensures Valid() && Model() == K.WakeWaiter(old(Model()), queue)
    {
      var threadBlocked := waiters[queue][0];
      waiters := waiters[queue := waiters[queue][1..]];
      TaskUnblock(threadBlocked);
    }

    // ----- exit

    /** elem_find and list_remove */
    method ListRemove(s: seq<Task<C>>, x: Task<C>) returns (r: seq<Task<C>>)
      ensures r == K.Remove(s, x)
    {
      var i := 0;
      while i < |s| && s[i] != x
        invariant i <= |s| && x !in s[..i]
      {
        i := i + 1;
      }
      RemoveAt(s, x, i);
      r := if i < |s| then s[..i] + s[i + 1..] else s;
    }

    /** Its list operations. */
    method Unlist()
      requires currentTask !in readyList
      modifies `readyList, `allList, `poolList, `taskAllNums
      ensures readyList == old(readyList) && allList == K.Remove(old(allList), currentTask)
      ensures poolList == if currentTask != mainTask then old(poolList) + [currentTask] else old(poolList)
      ensures taskAllNums == old(taskAllNums) - 1
    {
      RemoveAt(readyList, currentTask, |readyList|);
      readyList := ListRemove(readyList, currentTask);
      allList := ListRemove(allList, currentTask);
      taskAllNums := taskAllNums - 1;
      if currentTask != mainTask {
        poolList := poolList + [currentTask];
      }
    }

    /** task_exit of the current task, up to release_tid. */
    method LeaveLists()
      requires Valid() && currentTask !in readyList
      modifies `readyList, `allList, `poolList, `taskAllNums, `part, `tcbs, tcbs.Keys
      ensures Valid() && Model() == K.Leave(old(Model()))
    {
      SetCurrent(K.DIED, currentTask.ticks);
      Unlist();
      part := part[currentTask := K.Leaving];
    }

    /** Its tid is given back, and interrupts are enabled. */
    method GiveBackTid()
      requires Valid() && K.CanRelease(Model())
      modifies `part, tidBitmap.bytes
      ensures Valid() && Model() == K.Release(old(Model()))
    {
      ReleaseTid(currentTask.tid);
      part := part[currentTask := K.Dying];
    }

    /** died_task_schedule and block_task_schedule, up to the assignment of current_task. */
    method GiveUp()
      requires Valid() && K.CanGiveUp(Model())
      modifies `readyList, `currentTask, `part, `tcbs, tcbs.Keys
      ensures Valid() && Model() == K.GiveUp(old(Model()))
    {
      var from := if part[currentTask] == K.Halting then Some(currentTask) else None;
      var next := GetNextTask();
      part := (part - {currentTask})[next := K.Loading(from)];
      currentTask := next;
    }

    /** context_swap, or context_set when the context of a dead task need not be saved. */
    method LoadContext()
      requires Valid() && K.CanLoad(Model())
      modifies `cpu, `part, `tcbs, tcbs.Keys
      ensures Valid() && Model() == K.Load(old(Model()))
    {
      if part[currentTask].from.Some? {
        var temp := part[currentTask].from.value;
        temp.context := cpu;
        tcbs := tcbs[temp := tcbs[temp].(context := cpu)];
      }
      cpu := currentTask.context;
      part := part - {currentTask};
    }

    /** task_exit, when no tick comes in its second half. */
    method TaskExit()
      requires Valid() && currentTask !in readyList && 1 <= currentTask.tid <= |tidBitmap.Bits()|
      requires readyList != [] && readyList[0] in tcbs
      modifies `currentTask, `cpu, `readyList, `allList, `poolList, `taskAllNums, `part, `tcbs, tcbs.Keys, tidBitmap.bytes
      ensures Valid()
      ensures var l := K.Leave(old(Model()));
              && K.CanRelease(l) && K.CanGiveUp(K.Release(l)) && K.CanLoad(K.GiveUp(K.Release(l)))
              && Model() == K.Load(K.GiveUp(K.Release(l)))
    {
      LeaveLists();
      GiveBackTid();
      GiveUp();
      LoadContext();
    }

    /** task_block with interrupts enabled, when no tick comes. */
    method BlockUnprotected(status: K.Status)
      requires Valid() && K.CanSuspend(Model(), status) && readyList != [] && readyList[0] in tcbs
      modifies `currentTask, `cpu, `readyList, `part, `tcbs, tcbs.Keys
      ensures Valid()
      ensures var h := K.Suspend(old(Model()), status);
              K.CanGiveUp(h) && K.CanLoad(K.GiveUp(h)) && Model() == K.Load(K.GiveUp(h))
    {
      Suspend(status);
      GiveUp();
      LoadContext();
    }

    // ----- the tick

    /** The two writes of the hooked sleep; an interrupt may come between them. */
    method SetSleepFlag()
      requires Valid()
      modifies `tcbs, tcbs.Keys
      ensures Valid()
      ensures var k := old(Model()); Model() == K.SetTcb(k, k.current, k.tcb[k.current].(collaborative := true))
    {
      currentTask.collaborative := true;
      tcbs := tcbs[currentTask := tcbs[currentTask].(collaborative := true)];
    }

    method SetSleepTime(ms: nat)
      requires Valid()
      modifies `tcbs, tcbs.Keys
      ensures Valid()
      ensures var k := old(Model()); Model() == K.SetTcb(k, k.current, k.tcb[k.current].(sleepMs := ms))
    {
      currentTask.sleepMs := ms;
      tcbs := tcbs[currentTask := tcbs[currentTask].(sleepMs := ms)];
    }

    /** collaborative_schedule_helper */
    method Wake(task: Task<C>)
      requires Valid() && task in tcbs && task !in readyList
      modifies `readyList, `tcbs, task
      ensures Valid() && Model() == K.Wake(old(Model()), task)
    {
      assert task !in readyList;
      readyList := readyList + [task];
      task.Rise();
      tcbs := tcbs[task := tcbs[task].(ticks := task.priority, status := K.READY,
                                       collaborative := false, sleepMs := 0)];
    }

    /** The callbacks of one run_timer, in their order. */
    method CallBack(log: seq<Firing<Option<Task<C>>>>)
      requires Valid() && K.Known(Model(), log) && Asserted(Model(), log)
      modifies `readyList, `tcbs, tcbs.Keys
      ensures Valid() && Model() == K.CallBack(old(Model()), log)
    {
      var i := 0;
      while i < |log|
        invariant i <= |log| && Valid() && tcbs.Keys == old(tcbs).Keys
        invariant K.Known(Model(), log[i..]) && Asserted(Model(), log[i..])
        invariant K.CallBack(Model(), log[i..]) == K.CallBack(old(Model()), log)
      {
        assert log[i..][0] == log[i] && log[i..][1..] == log[i + 1..];
        if log[i].timer.param.Some? {
          Wake(log[i].timer.param.value);
        }
        i := i + 1;
      }
    }

    /** run_timer with its callbacks. */
    method RunTimers(now: nat)
      requires Valid() && timers.Valid() && Callable(timers.g, Model(), now)
      modifies `readyList, `tcbs, tcbs.Keys, timers, timers.Repr
      ensures Valid() && timers.Valid() && timers.Repr <= old(timers.Repr)
      ensures Model() == K.Timers(timers.g, old(Model()), now)
    {
      var log := timers.RunTimer(now);
      CallBack(log);
    }

    /** The current task leaves the processor until its timer calls back. */
    method GoToSleep()
      requires Valid() && timers.Valid() && readyList != [] && readyList[0] in tcbs
      modifies `readyList, `currentTask, `cpu, `tcbs, tcbs.Keys, timers, timers.Repr
      ensures Valid() && timers.Valid()
      ensures var k, t := old(Model()), old(Model()).tcb[old(currentTask)];
              Model() == K.Yield(k.(wheel := Create(timers.g, k.wheel, Some(k.current), t.sleepMs, 0)))
    {
      var _ := timers.CreateTimer(Some(currentTask), currentTask.sleepMs, 0);
      Yield();
    }

    /** The rest of interrupt_timer_handler. */
    method TimeSlice()
      requires Valid() && timers.Valid() && K.CanSlice(Model()) && currentTask !in readyList
      modifies `readyList, `currentTask, `cpu, `tcbs, tcbs.Keys, timers, timers.Repr
      ensures Valid() && timers.Valid()
      ensures Model() == K.Slice(timers.g, old(Model()))
    {
      if !currentTask.collaborative && currentTask.ticks == 0 {
        Schedule();
      } else if !currentTask.collaborative {
        SetCurrent(currentTask.status, currentTask.ticks - 1);
      } else {
        GoToSleep();
      }
    }

    /** interrupt_timer_handler */
    method InterruptTimerHandler(now: nat)
      requires Valid() && timers.Valid() && Callable(timers.g, Model(), now)
      requires K.CanTick(timers.g, Model(), now)
      requires var k := K.Timers(timers.g, Model(), now); k.current !in k.ready
      modifies `readyList, `currentTask, `cpu, `tcbs, tcbs.Keys, timers, timers.Repr
      ensures Valid() && timers.Valid()
      ensures Model() == K.Tick(timers.g, old(Model()), now)
    {
      RunTimers(now);
      TimeSlice();
    }

    // ----- the other way to choose

    method AgeOne(task: Task<C>)
      requires Valid() && task in tcbs
      modifies `tcbs, task
      ensures Valid() && tcbs == old(tcbs)[task := Aged(old(tcbs)[task])]
    {
      if task.status == K.WAITING || task.status == K.BLOCKED || task.status == K.HANGING || task.collaborative {
        task.ticks := K.Narrow8(task.ticks / 2 + task.priority);
        tcbs := tcbs[task := Aged(tcbs[task])];
      }
    }

    /** The loop has passed the first j tasks, and `next`, the i-th, is its choice so far. */
    ghost predicate Choosing(k: K.Kernel<Task<C>, C>, j: nat, c: int, next: Task<C>, i: nat)
      reads this, tcbs.Keys
    {
      && Valid() && k.all == allList && NoDup(allList) && (forall x :: x in allList ==> x in k.tcb)
      && j <= |allList| && AgedTo(k, tcbs, j)
      && c >= -1 && PickedTo(k, j, i, c) && (c != -1 ==> i < |allList| && next == allList[i])
    }

    predicate Better(task: Task<C>, c: int)
      reads task
    {
      task.status == K.READY && task.ticks > c
    }

    /** One round of get_next_task_011's loop. */
    method Visit(ghost k: K.Kernel<Task<C>, C>, j: nat, c: int, next: Task<C>, ghost i: nat)
      returns (c': int, next': Task<C>, ghost i': nat)
      requires Choosing(k, j, c, next, i) && j < |allList|
      modifies `tcbs, tcbs.Keys
      ensures Choosing(k, j + 1, c', next', i')
    {
      var task := allList[j];
      AgedOn(k, tcbs, j);
      PickedOn(k, j, i, c);
      AgeOne(task);
      i' := if Better(task, c) then j else i;
      next' := if Better(task, c) then task else next;
      c' := if Better(task, c) then task.ticks else c;
    }

    method VisitAll(dummy: Task<C>) returns (next: Task<C>, ghost i: nat, ghost c: int)
      requires Valid() && NoDup(allList) && forall x :: x in allList ==> x in tcbs
      modifies `tcbs, tcbs.Keys
      ensures Choosing(old(Model()), |allList|, c, next, i)
    {
      ghost var k := Model();
      var j: nat, d: int := 0, -1;
      next, i := dummy, 0;
      while j < |allList|
        invariant Choosing(k, j, d, next, i) && tcbs.Keys == k.tcb.Keys
      {
        d, next, i := Visit(k, j, d, next, i);
        j := j + 1;
      }
      c := d;
    }

    /** The loop of get_next_task_011; with no task ready `next` stays as the caller gave it. */
    method AgeAndPick(dummy: Task<C>) returns (next: Task<C>, ghost i: nat)
      requires Valid() && NoDup(allList) && forall x :: x in allList ==> x in tcbs
      modifies `tcbs, tcbs.Keys
      ensures Valid() && Model() == AgeAll(old(Model()))
      ensures (exists j :: 0 <= j < |allList| && old(tcbs)[allList[j]].status == K.READY) ==>
                IsPick(Model(), |allList|, i) && next == allList[i]
    {
      ghost var k, c := Model(), -1;
      next, i, c := VisitAll(dummy);
      AgedAll(k, tcbs);
      PickedAll(k, i, c);
    }

    /** The chosen task leaves the ready list to run. */
    method Take(next: Task<C>)
      requires Valid() && next in tcbs
      modifies `readyList, `tcbs, next`status
      ensures Valid() && readyList == K.Remove(old(readyList), next)
      ensures tcbs == old(tcbs)[next := old(tcbs)[next].(status := K.RUNNING)]
    {
      readyList := ListRemove(readyList, next);
      next.status := K.RUNNING;
      tcbs := tcbs[next := tcbs[next].(status := K.RUNNING)];
    }

    /** get_next_task_011, when some task is ready. */
    method GetNextTask011() returns (next: Task<C>, ghost i: nat)
      requires Valid() && NoDup(allList) && forall x :: x in allList ==> x in tcbs
      requires exists j :: 0 <= j < |allList| && tcbs[allList[j]].status == K.READY
      modifies `readyList, `tcbs, tcbs.Keys
      ensures Valid() && i < |allList| && next == allList[i]
      ensures IsPick(AgeAll(old(Model())), |allList|, i) && Model() == Next011(old(Model()), i)
    {
      next, i := AgeAndPick(currentTask);
      Take(next);
    }

    // ----- any event

    /** What a task does between two interrupts. */
    method DoTask(e: K.Event<Task<C>, C>)
      requires Valid() && Partition(Model()) && K.Enabled(timers.g, Model(), e) && !e.Start? && !e.Interrupt?
      modifies this, tcbs.Keys, tidBitmap.bytes
      ensures Valid() && Model() == K.Step(timers.g, old(Model()), e)
    {
      ListAssertions(Model());
      match e
      case Finish => Admit();
      case Exit => LeaveLists();
      case ReleaseTid => GiveBackTid();
      case Block(status, queue) => TaskBlock(status, queue);
      case Halt(status) => Suspend(status);
      case Switch => GiveUp();
      case LoadContext => LoadContext();
      case Unblock(task) => TaskUnblock(task);
      case Up(semaphore) => WakeWaiter(semaphore);
      case SleepFlag => SetSleepFlag();
      case SleepTime(ms) => SetSleepTime(ms);
      case Compute(context) => cpu := context;
    }

    /** The scheduler on the heap takes the steps of the state machine, and its preconditions hold
        in every reachable state.  Starting a task is Enrol, which chooses the memory itself. */
    method Do(e: K.Event<Task<C>, C>, ghost n: nat)
      requires Valid() && timers.Valid() && Inv(timers.g, n, Model())
      requires !e.Start? && K.Enabled(timers.g, Model(), e)
      modifies this, tcbs.Keys, tidBitmap.bytes, timers, timers.Repr
      ensures Valid() && timers.Valid()
      ensures Model() == K.Step(timers.g, old(Model()), e)
    {
      if e.Interrupt? {
        TickAssertions(timers.g, n, Model(), e.now);
        InterruptTimerHandler(e.now);
      } else {
        DoTask(e);
      }
    }
  }
}
