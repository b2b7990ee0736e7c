/** lock_acquire and lock_release as the tasks execute them on one lock object, a step at a time,
    with the assertions of sync.c where sync.c has them. */
module LockProgram {
  import opened Basics
  import opened Lock
  import opened LockProtocol

  class Program<T(==)> {
    const lock: ReentrantLock<T>
    var tasks: map<T, Task>

    ghost function View(): State<T>
      reads this, lock
    {
      State(lock.State(), tasks)
    }

    constructor (ts: set<T>)
      ensures View() == Start(ts) && fresh(lock)
    {
      lock := new ReentrantLock<T>();
      tasks := map x | x in ts :: Task(Idle, 0);
    }

    method MoveTo(x: T, pc: Pc)
      requires x in tasks
      modifies `tasks
      ensures tasks == old(tasks)[x := old(tasks)[x].(pc := pc)]
    {
      tasks := tasks[x := tasks[x].(pc := pc)];
    }

    method ReturnFrom(x: T, depth: nat)
      modifies `tasks
      ensures tasks == old(tasks)[x := Task(Idle, depth)]
    {
      tasks := tasks[x := Task(Idle, depth)];
    }

    /** The steps of lock_acquire and sema_down. */
    method GoAcquire(x: T)
      requires Inv(View()) && Enabled(View(), Go(x)) && InAcquire(tasks[x].pc)
      modifies this, lock
      ensures View() == Step(old(View()), Go(x))
    {
      assert Asserted(View(), x) by {
        AssertionsHold(View(), x);
      }
      match tasks[x].pc
      case Test =>
        var mine := lock.TestHolder(x);
        MoveTo(x, if mine then Again else Down);
      case Down => GoDown(x);
      case Woken => GoDown(x);
      case Claim =>
        lock.SetHolder(Some(x));
        MoveTo(x, Check);
      case Check =>
        assert lock.repeat == 0;
        MoveTo(x, First);
      case First =>
        lock.SetRepeat(1);
        ReturnFrom(x, tasks[x].depth + 1);
      case Again =>
        MoveTo(x, Add(lock.repeat));
      case Add(seen) =>
        lock.SetRepeat(seen + 1);
        ReturnFrom(x, tasks[x].depth + 1);
    }

    /** sema_down's loop, from one test of the value to the next. */
    method GoDown(x: T)
      requires x in tasks && (tasks[x].pc == Down || tasks[x].pc == Woken) && Asserted(View(), x)
      modifies this, lock
      ensures View() == Advance(old(View()), x)
    {
      assert lock.value == 0 ==> x !in lock.waiters;
      var taken := lock.Down(x);
      assert taken ==> lock.value == 0;
      MoveTo(x, if taken then Claim else Waiting);
    }

    /** The steps of lock_release and sema_up. */
    method GoRelease(x: T)
      requires Inv(View()) && Enabled(View(), Go(x)) && !InAcquire(tasks[x].pc)
      modifies this, lock
      ensures View() == Step(old(View()), Go(x))
    {
      assert Asserted(View(), x) by {
        AssertionsHold(View(), x);
      }
      match tasks[x].pc
      case Release =>
        assert lock.holder == Some(x);
        MoveTo(x, Branch);
      case Branch => MoveTo(x, if lock.repeat > 1 then Load else Last);
      case Load => MoveTo(x, Less(lock.repeat));
      case Less(seen) =>
        lock.SetRepeat(Minus(seen));
        ReturnFrom(x, Minus(tasks[x].depth));
      case Last =>
        assert lock.repeat == 1;
        MoveTo(x, Clear);
      case Clear =>
        lock.SetHolder(None);
        MoveTo(x, Zero);
      case Zero =>
        lock.SetRepeat(0);
        MoveTo(x, Up);
      case Up => GoUp(x);
      case Raise =>
        lock.Raise();
        assert lock.value == 1;
        ReturnFrom(x, Minus(tasks[x].depth));
    }

    method GoUp(x: T)
      requires x in tasks && tasks[x].pc == Up && Asserted(View(), x)
      modifies this, lock
      ensures View() == Advance(old(View()), x)
    {
      assert lock.value == 0;
      var woken := lock.Up();
      match woken
      case None =>
        assert lock.value == 1;
        ReturnFrom(x, Minus(tasks[x].depth));
      case Some(w) =>
        assert tasks[w].pc == Waiting;
        MoveTo(w, Woken);
        MoveTo(x, Raise);
    }
  }
}
