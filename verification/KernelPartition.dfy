/** The partition of the live tasks: current, ready, blocked, sleeping.  Every event keeps it. */
module KernelPartition {
  import opened Basics
  import opened Wheel
  import opened Kernel

  ghost predicate NoDup<T>(s: seq<T>) {
    forall i, j :: 0 <= i < j < |s| ==> s[i] != s[j]
  }

  /** READY means in the ready list; RUNNING means `running`, or asleep; a live task is not dead. */
  ghost predicate StatusOk<T, C>(k: Kernel<T, C>, x: T, running: Option<T>)
    requires x in k.tcb
  {
    var t := k.tcb[x];
    && (t.status == READY <==> x in k.ready)
    && (t.status == RUNNING <==> running == Some(x) || t.collaborative)
    && t.status != DIED
  }

  ghost predicate WaitersOk<T, C>(k: Kernel<T, C>) {
    && (forall q :: q in k.waiters ==> NoDup(k.waiters[q]))
    && (forall q, x :: q in k.waiters && x in k.waiters[q] ==>
          x in k.all && x in k.tcb && IsBlocked(k.tcb[x].status))
    && (forall q, r, x :: q in k.waiters && r in k.waiters && x in k.waiters[q] && x in k.waiters[r] ==> q == r)
  }

  /** The task that task_start has put into the ready list and not yet into the list of all tasks. */
  ghost function Newborn<T, C>(k: Kernel<T, C>): Option<T> {
    if k.current in k.part && k.part[k.current].Enrolling? then Some(k.part[k.current].task) else None
  }

  ghost predicate ListsOk<T, C>(k: Kernel<T, C>) {
    && NoDup(k.all) && NoDup(k.ready) && NoDup(k.pool) && k.allNums == |k.all|
    && (forall x :: x in k.all ==> x in k.tcb)
    && (forall x :: x in k.ready ==> x in k.all || Newborn(k) == Some(x))
    && (forall x :: x in k.pool ==> x in k.tcb && x !in k.all && k.tcb[x].status == DIED)
    && (forall x :: x in k.tcb ==> x in k.all || x in k.pool || x == k.main || Newborn(k) == Some(x))
  }

  /** The live tasks with `running` on the processor; with None between two tasks. */
  ghost predicate Parts<T, C>(k: Kernel<T, C>, running: Option<T>) {
    && ListsOk(k) && WaitersOk(k)
    && (forall x :: x in k.all ==> StatusOk(k, x, running))
  }

  /** The current task, unless it has just died or blocked and nobody has taken over. */
  ghost function Running<T, C>(k: Kernel<T, C>): Option<T> {
    if k.current in k.part && (k.part[k.current] == Leaving || k.part[k.current] == Dying || k.part[k.current] == Halting)
    then None else Some(k.current)
  }

  /** A new task is in no list but the ready list. */
  ghost predicate NewbornOk<T, C>(k: Kernel<T, C>) {
    Newborn(k).Some? ==>
      var x := Newborn(k).value;
      && x in k.tcb && x !in k.all && x !in k.pool && x in k.ready
      && k.tcb[x].status == READY && !k.tcb[x].collaborative
  }

  /** The task that has the processor is live, or dying, or on its way to be blocked. */
  ghost predicate CurrentOk<T, C>(k: Kernel<T, C>) {
    && k.current in k.tcb && (k.current in k.part ==> !k.tcb[k.current].collaborative)
    && (Running(k).Some? ==> k.current in k.all)
    && (k.current in k.part ==>
          match k.part[k.current]
          case Leaving => k.current !in k.all && k.tcb[k.current].status == DIED
          case Dying => k.current !in k.all && k.tcb[k.current].status == DIED
          case Halting => k.current in k.all && IsBlocked(k.tcb[k.current].status)
          case Loading(from) => from.Some? ==> from.value in k.tcb && from != Some(k.current)
          case _ => true)
  }

  /** Everything is in its place, and no task but the current one is in the middle of a function. */
  ghost predicate Partition<T, C>(k: Kernel<T, C>) {
    && Parts(k, Running(k)) && NewbornOk(k) && CurrentOk(k)
    && (forall x :: x in k.part ==> x == k.current)
  }

  lemma NoDupAppend<T>(s: seq<T>, x: T)
    requires NoDup(s) && x !in s
    ensures NoDup(s + [x]) && NoDup([x] + s)
  {
  }

  lemma {:induction false} RemoveMeans<T>(s: seq<T>, x: T)
    requires NoDup(s)
    ensures NoDup(Remove(s, x))
    ensures forall y :: y in Remove(s, x) <==> y in s && y != x
    ensures |Remove(s, x)| == if x in s then |s| - 1 else |s|
  {
    if s != [] {
      assert s == [s[0]] + s[1..];
      assert forall y :: y in s <==> y == s[0] || y in s[1..];
      RemoveMeans(s[1..], x);
      if s[0] != x {
        NoDupAppend(Remove(s[1..], x), s[0]);
      }
    }
  }

  /** The first ready task becomes current. */
  lemma PopParts<T, C>(k: Kernel<T, C>, s: Kernel<T, C>)
    requires Parts(k, None) && Newborn(k) == None && k.ready != [] && k.ready[0] in k.tcb
    requires s == Pop(k).(part := s.part, cpu := s.cpu) && Newborn(s) == None
    ensures Parts(s, Some(s.current)) && s.current in s.all && !s.tcb[s.current].collaborative
  {
    var next := k.ready[0];
    assert next in k.ready;
    assert StatusOk(k, next, None);
    assert k.ready == [next] + s.ready;
    assert forall x :: x in k.ready <==> x == next || x in s.ready;
    forall x | x in s.all ensures StatusOk(s, x, Some(s.current)) {
      assert StatusOk(k, x, None);
    }
  }

  lemma DispatchParts<T, C>(k: Kernel<T, C>)
    requires Parts(k, None) && k.part == map[] && k.ready != []
    ensures k.ready[0] in k.tcb && Partition(Dispatch(k))
  {
    assert k.ready[0] in k.ready;
    PopParts(k, Dispatch(k));
  }

  lemma FreeMeans<T, C>(k: Kernel<T, C>)
    requires Partition(k) && Free(k)
    ensures k.part == map[] && Newborn(k) == None && Running(k) == Some(k.current)
  {
  }

  lemma ScheduleParts<T, C>(k: Kernel<T, C>)
    requires Partition(k) && Free(k) && !k.tcb[k.current].collaborative
    ensures k.ready != [] ==> k.ready[0] in k.tcb
    ensures Partition(Schedule(k))
  {
    FreeMeans(k);
    assert k.ready != [] ==> k.ready[0] in k.ready;
    var s := Save(k);
    var t := s.tcb[k.current];
    var q := SetTcb(s, k.current, t.(ticks := t.priority, status := READY)).(ready := k.ready + [k.current]);
    assert StatusOk(k, k.current, Some(k.current));
    NoDupAppend(k.ready, k.current);
    forall x | x in q.all ensures StatusOk(q, x, None) {
      assert StatusOk(k, x, Some(k.current));
    }
    DispatchParts(q);
  }

  lemma YieldParts<T, C>(k: Kernel<T, C>)
    requires Parts(k, None) && k.part == map[] && k.current in k.all && k.ready != []
    ensures k.ready[0] in k.tcb && Partition(Yield(k))
  {
    var s := Save(k);
    assert k.ready[0] in k.ready;
    forall x | x in s.all ensures StatusOk(s, x, None) {
      assert StatusOk(k, x, None);
    }
    DispatchParts(s);
  }

  lemma BlockParts<T, C>(k: Kernel<T, C>, status: Status, queue: nat)
    requires Partition(k) && Free(k) && CanBlock(k, status, queue)
    ensures Partition(TaskBlock(k, status, queue))
  {
    FreeMeans(k);
    var w := k.waiters[queue := k.waiters[queue] + [k.current]];
    var b := SetTcb(k, k.current, k.tcb[k.current].(status := status)).(waiters := w);
    assert StatusOk(k, k.current, Some(k.current));
    NoDupAppend(k.waiters[queue], k.current);
    forall x | x in b.all ensures StatusOk(b, x, None) {
      assert StatusOk(k, x, Some(k.current));
    }
    YieldParts(b);
  }

  /** task_block without the switch: the task is blocked, and still on the processor. */
  lemma SuspendParts<T, C>(k: Kernel<T, C>, status: Status)
    requires Partition(k) && Free(k) && CanSuspend(k, status)
    ensures Partition(Suspend(k, status))
  {
    FreeMeans(k);
    var s := Suspend(k, status);
    assert StatusOk(k, k.current, Some(k.current));
    forall x | x in s.all ensures StatusOk(s, x, None) {
      assert StatusOk(k, x, Some(k.current));
    }
  }

  /** task_exit without the switch: the task is dead, and still on the processor. */
  lemma LeaveParts<T, C>(k: Kernel<T, C>)
    requires Partition(k) && Free(k) && CanExit(k)
    ensures Partition(Leave(k))
  {
    FreeMeans(k);
    var x, e := k.current, Leave(k);
    RemoveMeans(k.all, x);
    assert StatusOk(k, x, Some(x));
    assert x !in k.pool;
    NoDupAppend(k.pool, x);
    assert ListsOk(e);
    assert WaitersOk(e) by {
      assert forall q :: q in k.waiters ==> x !in k.waiters[q];
    }
    forall y | y in e.all ensures StatusOk(e, y, None) {
      assert StatusOk(k, y, Some(x));
    }
  }

  lemma ReleaseParts<T, C>(k: Kernel<T, C>)
    requires Partition(k) && CanRelease(k)
    ensures Partition(Release(k))
  {
    SameLists(k, Release(k));
  }

  /** Changing tids, contexts and the place in the function only. */
  lemma SameLists<T, C>(k: Kernel<T, C>, s: Kernel<T, C>)
    requires Parts(k, Running(k)) && Running(s) == Running(k) && Newborn(s) == Newborn(k)
    requires s == k.(tcb := s.tcb, bits := s.bits, part := s.part, cpu := s.cpu, wheel := s.wheel)
    requires s.tcb.Keys == k.tcb.Keys
    requires forall x :: x in k.tcb ==> s.tcb[x].status == k.tcb[x].status
                                        && s.tcb[x].collaborative == k.tcb[x].collaborative
    ensures Parts(s, Running(s))
  {
    forall x | x in s.all ensures StatusOk(s, x, Running(s)) {
      assert StatusOk(k, x, Running(k));
    }
  }

  /** The dead or blocked task chooses its successor. */
  lemma GiveUpParts<T, C>(k: Kernel<T, C>)
    requires Partition(k) && CanGiveUp(k)
    ensures Partition(GiveUp(k))
  {
    assert k.ready[0] in k.ready;
    if k.current in k.all {
      assert StatusOk(k, k.current, None);
    }
    PopParts(k, GiveUp(k));
  }

  lemma LoadParts<T, C>(k: Kernel<T, C>)
    requires Partition(k) && CanLoad(k)
    ensures Partition(Load(k))
  {
    SameLists(k, Load(k));
  }

  lemma EnrolParts<T, C>(k: Kernel<T, C>, memory: T, prio: int, context: C)
    requires Partition(k) && Free(k) && CanStart(k, memory)
    ensures Partition(Enrol(k, memory, prio, context))
  {
    FreeMeans(k);
    NewParts(k, Started(k, memory), Enrol(k, memory, prio, context));
  }

  /** A task of no list, or the first of the pool, leaves the pool. */
  lemma OutOfPool<T, C>(k: Kernel<T, C>, task: T, pool: seq<T>)
    requires ListsOk(k) && Newborn(k) == None
    requires if k.pool == [] then task !in k.tcb && pool == [] else task == k.pool[0] && pool == k.pool[1..]
    ensures task !in k.all && task !in k.ready && NoDup(pool)
    ensures forall x :: x in pool <==> x in k.pool && x != task
  {
    assert k.pool != [] ==> k.pool == [task] + pool && task in k.pool;
  }

  /** That task is now being started. */
  lemma NewParts<T, C>(k: Kernel<T, C>, task: T, s: Kernel<T, C>)
    requires Partition(k) && k.part == map[] && !k.tcb[k.current].collaborative
    requires if k.pool == [] then task !in k.tcb && s.pool == [] else task == k.pool[0] && s.pool == k.pool[1..]
    requires task in s.tcb && s.tcb[task].status == READY && !s.tcb[task].collaborative
    requires s == k.(tcb := k.tcb[task := s.tcb[task]], pool := s.pool, bits := s.bits,
                     ready := k.ready + [task], part := k.part[k.current := Enrolling(task)])
    ensures Partition(s)
  {
    OutOfPool(k, task, s.pool);
    NoDupAppend(k.ready, task);
    assert ListsOk(s);
    forall x | x in s.all ensures StatusOk(s, x, Some(s.current)) {
      assert StatusOk(k, x, Some(k.current));
    }
  }

  lemma AdmitParts<T, C>(k: Kernel<T, C>)
    requires Partition(k) && k.current in k.part && k.part[k.current].Enrolling?
    ensures Partition(Admit(k))
  {
    var s, task := Admit(k), k.part[k.current].task;
    NoDupAppend(k.all, task);
    forall x | x in s.all ensures StatusOk(s, x, Some(s.current)) {
      assert x != task ==> StatusOk(k, x, Some(k.current));
    }
  }

  lemma UnblockParts<T, C>(k: Kernel<T, C>, x: T)
    requires Partition(k) && Free(k) && x in k.all && IsBlocked(k.tcb[x].status) && !Waits(k, x)
    ensures Partition(TaskUnblock(k, x))
  {
    FreeMeans(k);
    var u := TaskUnblock(k, x);
    assert StatusOk(k, x, Some(k.current));
    NoDupAppend(k.ready, x);
    forall y | y in u.all ensures StatusOk(u, y, Some(u.current)) {
      assert StatusOk(k, y, Some(k.current));
    }
  }

  /** The first waiter leaves the wait list. */
  lemma PoppedWaiter<T, C>(k: Kernel<T, C>, q: nat, p: Kernel<T, C>)
    requires WaitersOk(k) && q in k.waiters && k.waiters[q] != []
    requires p == k.(waiters := k.waiters[q := k.waiters[q][1..]])
    ensures WaitersOk(p) && k.waiters[q][0] in k.all && k.waiters[q][0] in k.tcb
    ensures IsBlocked(k.tcb[k.waiters[q][0]].status) && !Waits(p, k.waiters[q][0])
  {
    var l := k.waiters[q];
    assert l[0] in l;
    assert forall x :: x in l[1..] ==> x in l && x != l[0];
  }

  /** What the partition says of the wait lists is all that depends on them. */
  lemma OtherWaiters<T, C>(k: Kernel<T, C>, p: Kernel<T, C>)
    requires Partition(k) && Free(k) && p == k.(waiters := p.waiters) && WaitersOk(p)
    ensures Partition(p)
  {
    forall x | x in p.all ensures StatusOk(p, x, Running(p)) {
      assert StatusOk(k, x, Running(k));
    }
  }

  lemma UpParts<T, C>(k: Kernel<T, C>, q: nat)
    requires Partition(k) && Free(k) && CanWake(k, q)
    ensures Partition(WakeWaiter(k, q))
  {
    var p := k.(waiters := k.waiters[q := k.waiters[q][1..]]);
    PoppedWaiter(k, q, p);
    OtherWaiters(k, p);
    UnblockParts(p, k.waiters[q][0]);
  }

  /** The wake-up of a sleeper; the assertion that it is not in the ready list holds. */
  lemma WakeParts<T, C>(k: Kernel<T, C>, x: T)
    requires Partition(k) && x in k.all && x != k.current && k.tcb[x].collaborative
    ensures x !in k.ready && Partition(Wake(k, x))
  {
    var w := Wake(k, x);
    assert StatusOk(k, x, Running(k));
    NoDupAppend(k.ready, x);
    forall y | y in w.all ensures StatusOk(w, y, Running(w)) {
      assert StatusOk(k, y, Running(k));
    }
  }

  /** Counters of the current task, and its flag if it is in the middle of nothing. */
  lemma FieldsParts<T, C>(k: Kernel<T, C>, t: Tcb<C>)
    requires Partition(k) && t.status == k.tcb[k.current].status
    requires t.collaborative == k.tcb[k.current].collaborative || Free(k)
    ensures Partition(SetTcb(k, k.current, t))
  {
    var s := SetTcb(k, k.current, t);
    forall y | y in s.all ensures StatusOk(s, y, Running(s)) {
      assert StatusOk(k, y, Running(k));
    }
  }

  /** The tick takes the processor from a task that is in the middle of a function. */
  ghost predicate Late<T, C>(k: Kernel<T, C>) {
    k.current in k.part && k.current in k.tcb && k.tcb[k.current].ticks == 0
  }

  /** The current task goes to sleep. */
  lemma SleepParts<T, C>(k: Kernel<T, C>, w: Kernel<T, C>)
    requires Partition(k) && k.tcb[k.current].collaborative && k.ready != [] && w == k.(wheel := w.wheel)
    ensures w.ready[0] in w.tcb && Partition(Yield(w))
  {
    FreeMeans(k);
    forall x | x in w.all ensures StatusOk(w, x, None) {
      assert StatusOk(k, x, Some(k.current));
    }
    YieldParts(w);
  }

  lemma SliceParts<T, C>(g: nat, k: Kernel<T, C>) returns (s: Kernel<T, C>)
    requires g >= 1 && Partition(k) && CanSlice(k) && !Late(k)
    ensures s == Slice(g, k) && Partition(s)
  {
    var t := k.tcb[k.current];
    if !t.collaborative && t.ticks == 0 {
      s := Schedule(k);
      ScheduleParts(k);
    } else if !t.collaborative {
      s := SetTcb(k, k.current, t.(ticks := t.ticks - 1));
      FieldsParts(k, t.(ticks := t.ticks - 1));
    } else {
      var w := k.(wheel := Create(g, k.wheel, Some(k.current), t.sleepMs, 0));
      s := Yield(w);
      SleepParts(k, w);
    }
  }

  // ----- what the partition says

  ghost predicate Asleep<T, C>(k: Kernel<T, C>, x: T) {
    x in k.all && x in k.tcb && x != k.current && k.tcb[x].collaborative
  }

  /** A task in the ready list is READY and does not have the processor. */
  lemma ReadyMeans<T, C>(k: Kernel<T, C>, x: T)
    requires Partition(k) && x in k.ready
    ensures x in k.tcb && x != k.current && k.tcb[x].status == READY && !k.tcb[x].collaborative
  {
    if x in k.all {
      assert StatusOk(k, x, Running(k));
    }
  }

  /** The four kinds of live tasks: each live task is of exactly one kind, and a task that is
      linked in a semaphore's wait list is blocked and is linked nowhere else. */
  lemma FourKinds<T, C>(k: Kernel<T, C>, x: T)
    requires Partition(k) && x in k.all
    ensures var blocked := IsBlocked(k.tcb[x].status);
            || (Running(k) == Some(x) && x !in k.ready && !blocked && !Asleep(k, x))
            || (Running(k) != Some(x) && x in k.ready && !blocked && !Asleep(k, x))
            || (Running(k) != Some(x) && x !in k.ready && blocked && !Asleep(k, x))
            || (Running(k) != Some(x) && x !in k.ready && !blocked && Asleep(k, x))
    ensures x in k.ready ==> x != k.current
    ensures Waits(k, x) ==> IsBlocked(k.tcb[x].status)
    ensures k.tcb[x].status == RUNNING <==> Running(k) == Some(x) || Asleep(k, x)
    ensures x !in k.pool
  {
    assert StatusOk(k, x, Running(k));
  }

  /** One general_tag for each task is enough: a task is linked by it in at most one list, once. */
  lemma OneLink<T, C>(k: Kernel<T, C>, x: T)
    requires Partition(k)
    ensures NoDup(k.ready) && forall q :: q in k.waiters ==> NoDup(k.waiters[q])
    ensures x in k.ready ==> !Waits(k, x)
    ensures forall q, r :: q in k.waiters && r in k.waiters && x in k.waiters[q] && x in k.waiters[r] ==> q == r
  {
    if x in k.ready {
      ReadyMeans(k, x);
    }
  }
}
