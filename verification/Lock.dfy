/** The binary semaphore and the re-entrant lock of sync.c, one method for each stretch of code
    that nothing can interrupt.  A task that is switched out between two of them may find the
    lock changed; what that can lead to is the subject of module LockProtocol. */
module Lock {
  import opened Basics

  datatype LockState<T> = LockState(holder: Option<T>, value: nat, waiters: seq<T>, repeat: nat)

  /** One pass of sema_down's loop: take the semaphore, or queue for it and block. */
  function DownOnce<T>(l: LockState<T>, x: T): LockState<T> {
    if l.value == 0 then l.(waiters := l.waiters + [x]) else l.(value := l.value - 1)
  }

  /** sema_up as far as nothing interrupts it: all of it if nobody waits, and otherwise up to the
      end of task_unblock, which enables interrupts. */
  function UpOnce<T>(l: LockState<T>): LockState<T> {
    if l.waiters == [] then l.(value := l.value + 1) else l.(waiters := l.waiters[1..])
  }

  class ReentrantLock<T(==)> {
    var holder: Option<T>
    var value: nat
    var waiters: seq<T>
    var repeat: nat

    function State(): LockState<T>
      reads this
    {
      LockState(holder, value, waiters, repeat)
    }

    /** lock_init */
    constructor ()
      ensures State() == LockState(None, 1, [], 0)
    {
      holder, value, waiters, repeat := None, 1, [], 0;
    }

    /** lock_acquire's test; with `mine` the lock is entered again. */
    method TestHolder(current: T) returns (mine: bool)
      ensures mine <==> State().holder == Some(current)
    {
      mine := holder == Some(current);
    }

    method Down(current: T) returns (taken: bool)
      modifies this
      ensures State() == DownOnce(old(State()), current)
      ensures taken <==> old(value) != 0
    {
      if value == 0 {
        waiters := waiters + [current];
        taken := false;
      } else {
        value := value - 1;
        taken := true;
      }
    }

    method Up() returns (woken: Option<T>)
      modifies this
      ensures State() == UpOnce(old(State()))
      ensures woken == if old(waiters) == [] then None else Some(old(waiters)[0])
    {
      woken := None;
      if waiters != [] {
        woken := Some(waiters[0]);
        waiters := waiters[1..];
      } else {
        value := value + 1;
      }
    }

    /** The rest of sema_up after it has woken a task. */
    method Raise()
      modifies this
      ensures State() == old(State()).(value := old(value) + 1)
    {
      value := value + 1;
    }

    method SetHolder(h: Option<T>)
      modifies this
      ensures State() == old(State()).(holder := h)
    {
      holder := h;
    }

    method SetRepeat(n: nat)
      modifies this
      ensures State() == old(State()).(repeat := n)
    {
      repeat := n;
    }
  }
}
