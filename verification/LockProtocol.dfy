/** Any number of tasks using one lock, switched at any point between two uninterruptible
    stretches of sync.c.  sema_up is two of them: task_unblock enables interrupts when it
    returns, so the woken task may run before the semaphore has been raised. */
module LockProtocol {
  import opened Basics
  import opened Lock

  /** Where a task is in lock_acquire or lock_release. */
  datatype Pc =
    | Idle
    | Test                              // lock_acquire: about to compare holder and current_task
    | Down | Waiting | Woken            // sema_down: about to test the value; blocked; unblocked
    | Claim | Check | First             // has the semaphore: sets holder, asserts, sets the count to 1
    | Again | Add(seen: nat)            // has the lock already: reads the count, writes it plus one
    | Release | Branch                  // lock_release: asserts, compares the count with 1
    | Load | Less(seen: nat)            // reads the count, writes it minus one
    | Last | Clear | Zero               // asserts; clears holder; clears the count
    | Up | Raise                        // sema_up; has woken a waiter, and raises the value

  /** depth: the acquires of the task that it has not yet released. */
  datatype Task = Task(pc: Pc, depth: nat)

  datatype State<T> = State(lock: LockState<T>, tasks: map<T, Task>)

  datatype Action<T> =
    | Acquire(x: T)                     // the program calls lock_acquire
    | Free(x: T)                        // the program calls lock_release
    | Go(x: T)                          // the task goes on with its call

  /** A task makes one call at a time, releases what it has acquired, and stays where it is
      while it is blocked. */
  ghost predicate Enabled<T>(s: State<T>, a: Action<T>) {
    && a.x in s.tasks
    && match a
       case Acquire(x) => s.tasks[x].pc == Idle
       case Free(x) => s.tasks[x].pc == Idle && s.tasks[x].depth > 0
       case Go(x) => s.tasks[x].pc != Idle && s.tasks[x].pc != Waiting
  }

  ghost function At<T>(s: State<T>, x: T, pc: Pc): State<T>
    requires x in s.tasks
  {
    s.(tasks := s.tasks[x := s.tasks[x].(pc := pc)])
  }

  /** The call returns. */
  ghost function Return<T>(s: State<T>, x: T, depth: nat): State<T> {
    s.(tasks := s.tasks[x := Task(Idle, depth)])
  }

  ghost function Advance<T>(s: State<T>, x: T): State<T>
    requires x in s.tasks && s.tasks[x].pc != Idle && s.tasks[x].pc != Waiting
  {
    var l, depth := s.lock, s.tasks[x].depth;
    match s.tasks[x].pc
    case Test => At(s, x, if l.holder == Some(x) then Again else Down)
    case Down => At(s.(lock := DownOnce(l, x)), x, if l.value == 0 then Waiting else Claim)
    case Woken => At(s.(lock := DownOnce(l, x)), x, if l.value == 0 then Waiting else Claim)
    case Claim => At(s.(lock := l.(holder := Some(x))), x, Check)
    case Check => At(s, x, First)
    case First => Return(s.(lock := l.(repeat := 1)), x, depth + 1)
    case Again => At(s, x, Add(l.repeat))
    case Add(seen) => Return(s.(lock := l.(repeat := seen + 1)), x, depth + 1)
    case Release => At(s, x, Branch)
    case Branch => At(s, x, if l.repeat > 1 then Load else Last)
    case Load => At(s, x, Less(l.repeat))
    case Less(seen) => Return(s.(lock := l.(repeat := Minus(seen))), x, Minus(depth))
    case Last => At(s, x, Clear)
    case Clear => At(s.(lock := l.(holder := None)), x, Zero)
    case Zero => At(s.(lock := l.(repeat := 0)), x, Up)
    case Up =>
      var u := s.(lock := UpOnce(l));
      if l.waiters == [] then Return(u, x, Minus(depth))
      else At(if l.waiters[0] in s.tasks then At(u, l.waiters[0], Woken) else u, x, Raise)
    case Raise => Return(s.(lock := l.(value := l.value + 1)), x, Minus(depth))
  }

  function Minus(n: nat): nat {
    if n == 0 then 0 else n - 1
  }

  ghost function Step<T>(s: State<T>, a: Action<T>): State<T>
    requires Enabled(s, a)
  {
    match a
    case Acquire(x) => At(s, x, Test)
    case Free(x) => At(s, x, Release)
    case Go(x) => Advance(s, x)
  }

  /** The assertions of sync.c, and task_unblock's on the task it is given. */
  ghost predicate Asserted<T>(s: State<T>, x: T)
    requires x in s.tasks
  {
    var l := s.lock;
    match s.tasks[x].pc
    case Down => if l.value == 0 then x !in l.waiters else l.value - 1 == 0
    case Woken => if l.value == 0 then x !in l.waiters else l.value - 1 == 0
    case Check => l.repeat == 0
    case Release => l.holder == Some(x)
    case Last => l.repeat == 1
    case Up => l.value == 0 && (l.waiters != [] ==> l.waiters[0] in s.tasks && s.tasks[l.waiters[0]].pc == Waiting)
    case Raise => l.value + 1 == 1
    case _ => true
  }

  // ----- safety

  /** The task has completed a down on the semaphore and not yet the up. */
  predicate Owns(t: Task) {
    t.depth > 0 || t.pc == Claim || t.pc == Check || t.pc == First
  }

  predicate InAcquire(pc: Pc) {
    pc == Test || pc == Down || pc == Waiting || pc == Woken
    || pc == Claim || pc == Check || pc == First || pc == Again || pc.Add?
  }

  /** What is true of a task at each point of its call. */
  ghost predicate TaskOk<T>(l: LockState<T>, x: T, t: Task) {
    && (t.pc == Waiting <==> x in l.waiters)
    && (Owns(t) ==> l.value == 0)
    && (l.holder == Some(x) <==> Owns(t) && t.pc != Claim && t.pc != Zero && t.pc != Up && t.pc != Raise)
    && (Owns(t) ==> l.holder == None || l.holder == Some(x))
    && (Owns(t) ==> l.repeat == if t.pc == Up || t.pc == Raise then 0 else t.depth)
    && match t.pc
       case Idle => true
       case Test => true
       case Down => t.depth == 0
       case Waiting => t.depth == 0
       case Woken => t.depth == 0
       case Claim => t.depth == 0
       case Check => t.depth == 0
       case First => t.depth == 0
       case Again => t.depth > 0
       case Add(seen) => t.depth > 0 && seen == t.depth
       case Release => t.depth > 0
       case Branch => t.depth > 0
       case Load => t.depth > 1
       case Less(seen) => t.depth > 1 && seen == t.depth
       case Last => t.depth == 1
       case Clear => t.depth == 1
       case Zero => t.depth == 1
       case Up => t.depth == 1
       case Raise => t.depth == 1
  }

  ghost predicate Inv<T>(s: State<T>) {
    && (forall x :: x in s.tasks ==> TaskOk(s.lock, x, s.tasks[x]))
    && (forall x, y :: x in s.tasks && y in s.tasks && Owns(s.tasks[x]) && Owns(s.tasks[y]) ==> x == y)
    && s.lock.value <= 1
    && (s.lock.value == 0 ==> exists x :: x in s.tasks && Owns(s.tasks[x]))
    && (s.lock.value == 1 ==> s.lock.holder == None && s.lock.repeat == 0)
    && (forall x :: x in s.lock.waiters ==> x in s.tasks)
    && (forall i, j :: 0 <= i < j < |s.lock.waiters| ==> s.lock.waiters[i] != s.lock.waiters[j])
  }

  /** No assertion ever fails. */
  lemma AssertionsHold<T>(s: State<T>, x: T)
    requires Inv(s) && x in s.tasks
    ensures Asserted(s, x)
  {
    assert TaskOk(s.lock, x, s.tasks[x]);
    if s.lock.waiters != [] {
      assert s.lock.waiters[0] in s.lock.waiters;
      assert TaskOk(s.lock, s.lock.waiters[0], s.tasks[s.lock.waiters[0]]);
    }
  }

  /** A step that leaves the lock alone. */
  lemma MoveInv<T>(s: State<T>, x: T, t: Task, r: State<T>)
    requires Inv(s) && x in s.tasks && TaskOk(s.lock, x, t) && Owns(t) == Owns(s.tasks[x])
    requires r == s.(tasks := s.tasks[x := t])
    ensures Inv(r)
  {
    if s.lock.value == 0 {
      var y :| y in s.tasks && Owns(s.tasks[y]);
      assert y in r.tasks && Owns(r.tasks[y]);
    }
  }

  /** A step of the owner that changes the holder or the count. */
  lemma OwnerInv<T>(s: State<T>, x: T, t: Task, holder: Option<T>, repeat: nat, r: State<T>)
    requires Inv(s) && x in s.tasks && Owns(s.tasks[x]) && Owns(t)
    requires holder == None || holder == Some(x)
    requires r == s.(lock := s.lock.(holder := holder, repeat := repeat), tasks := s.tasks[x := t])
    requires TaskOk(r.lock, x, t)
    ensures Inv(r)
  {
    assert TaskOk(s.lock, x, s.tasks[x]);
    forall y | y in r.tasks ensures TaskOk(r.lock, y, r.tasks[y]) {
      assert TaskOk(s.lock, y, s.tasks[y]);
    }
    assert x in r.tasks && Owns(r.tasks[x]);
  }

  /** Queueing for the semaphore. */
  lemma QueueInv<T>(s: State<T>, x: T)
    requires Inv(s) && x in s.tasks && (s.tasks[x].pc == Down || s.tasks[x].pc == Woken) && s.lock.value == 0
    ensures Inv(At(s.(lock := DownOnce(s.lock, x)), x, Waiting))
  {
    var r := At(s.(lock := DownOnce(s.lock, x)), x, Waiting);
    assert TaskOk(s.lock, x, s.tasks[x]);
    forall y | y in r.tasks ensures TaskOk(r.lock, y, r.tasks[y]) {
      assert TaskOk(s.lock, y, s.tasks[y]);
    }
    var y :| y in s.tasks && Owns(s.tasks[y]);
    assert y in r.tasks && Owns(r.tasks[y]);
  }

  /** Taking it. */
  lemma TakeInv<T>(s: State<T>, x: T)
    requires Inv(s) && x in s.tasks && (s.tasks[x].pc == Down || s.tasks[x].pc == Woken) && s.lock.value == 1
    ensures Inv(At(s.(lock := DownOnce(s.lock, x)), x, Claim))
  {
    var r := At(s.(lock := DownOnce(s.lock, x)), x, Claim);
    forall y | y in r.tasks ensures TaskOk(r.lock, y, r.tasks[y]) {
      assert TaskOk(s.lock, y, s.tasks[y]);
    }
    assert x in r.tasks && Owns(r.tasks[x]);
  }

  /** Unblocking the first waiter. */
  lemma WakeInv<T>(s: State<T>, l: seq<T>)
    requires Inv(s) && l == s.lock.waiters && l != [] && s.lock.value == 0
    ensures l[0] in s.tasks && s.tasks[l[0]].pc == Waiting
    ensures Inv(At(s.(lock := UpOnce(s.lock)), l[0], Woken))
  {
    assert l[0] in l;
    assert TaskOk(s.lock, l[0], s.tasks[l[0]]);
    assert l == [l[0]] + l[1..];
    assert forall y :: y in l <==> y == l[0] || y in l[1..];
    var r := At(s.(lock := UpOnce(s.lock)), l[0], Woken);
    forall y | y in r.tasks ensures TaskOk(r.lock, y, r.tasks[y]) {
      assert TaskOk(s.lock, y, s.tasks[y]);
    }
    var y :| y in s.tasks && Owns(s.tasks[y]);
    assert y in r.tasks && Owns(r.tasks[y]);
  }

  /** The semaphore is raised, and has no owner any more. */
  lemma RaiseInv<T>(s: State<T>, x: T, r: State<T>)
    requires Inv(s) && x in s.tasks && (s.tasks[x].pc == Up || s.tasks[x].pc == Raise)
    requires r == Return(s.(lock := s.lock.(value := s.lock.value + 1)), x, 0)
    ensures Inv(r)
  {
    assert TaskOk(s.lock, x, s.tasks[x]);
    forall y | y in r.tasks ensures TaskOk(r.lock, y, r.tasks[y]) {
      assert TaskOk(s.lock, y, s.tasks[y]);
    }
  }

  lemma UpInv<T>(s: State<T>, x: T, r: State<T>)
    requires Inv(s) && x in s.tasks && s.tasks[x].pc == Up && r == Advance(s, x)
    ensures Inv(r)
  {
    var l := s.lock.waiters;
    assert TaskOk(s.lock, x, s.tasks[x]);
    if l == [] {
      RaiseInv(s, x, r);
    } else {
      WakeInv(s, l);
      MoveInv(At(s.(lock := UpOnce(s.lock)), l[0], Woken), x, s.tasks[x].(pc := Raise), r);
    }
  }

  lemma AcquireInv<T>(s: State<T>, x: T) returns (r: State<T>)
    requires Inv(s) && x in s.tasks && InAcquire(s.tasks[x].pc) && s.tasks[x].pc != Waiting
    ensures r == Advance(s, x) && Inv(r)
  {
    r := Advance(s, x);
    var l, t := s.lock, s.tasks[x];
    assert TaskOk(l, x, t);
    match t.pc
    case Test => MoveInv(s, x, t.(pc := if l.holder == Some(x) then Again else Down), r);
    case Down => if l.value == 0 { QueueInv(s, x); } else { TakeInv(s, x); }
    case Woken => if l.value == 0 { QueueInv(s, x); } else { TakeInv(s, x); }
    case Claim => OwnerInv(s, x, t.(pc := Check), Some(x), l.repeat, r);
    case Check => MoveInv(s, x, t.(pc := First), r);
    case First => OwnerInv(s, x, Task(Idle, t.depth + 1), l.holder, 1, r);
    case Again => MoveInv(s, x, t.(pc := Add(l.repeat)), r);
    case Add(seen) => OwnerInv(s, x, Task(Idle, t.depth + 1), l.holder, seen + 1, r);
  }

  lemma ReleaseInv<T>(s: State<T>, x: T) returns (r: State<T>)
    requires Inv(s) && x in s.tasks && s.tasks[x].pc != Idle && !InAcquire(s.tasks[x].pc)
    ensures r == Advance(s, x) && Inv(r)
  {
    r := Advance(s, x);
    var l, t := s.lock, s.tasks[x];
    assert TaskOk(l, x, t);
    match t.pc
    case Release => MoveInv(s, x, t.(pc := Branch), r);
    case Branch => MoveInv(s, x, t.(pc := if l.repeat > 1 then Load else Last), r);
    case Load => MoveInv(s, x, t.(pc := Less(l.repeat)), r);
    case Less(seen) => OwnerInv(s, x, Task(Idle, t.depth - 1), l.holder, seen - 1, r);
    case Last => MoveInv(s, x, t.(pc := Clear), r);
    case Clear => OwnerInv(s, x, t.(pc := Zero), None, l.repeat, r);
    case Zero => OwnerInv(s, x, t.(pc := Up), l.holder, 0, r);
    case Up => UpInv(s, x, r);
    case Raise => RaiseInv(s, x, r);
  }

  /** Every step of every task keeps the invariant. */
  lemma StepInv<T>(s: State<T>, a: Action<T>) returns (r: State<T>)
    requires Inv(s) && Enabled(s, a)
    ensures r == Step(s, a) && Inv(r)
  {
    assert TaskOk(s.lock, a.x, s.tasks[a.x]);
    match a
    case Acquire(x) =>
      r := Step(s, a);
      MoveInv(s, x, s.tasks[x].(pc := Test), r);
    case Free(x) =>
      r := Step(s, a);
      MoveInv(s, x, s.tasks[x].(pc := Release), r);
    case Go(x) =>
      if InAcquire(s.tasks[x].pc) {
        r := AcquireInv(s, x);
      } else {
        r := ReleaseInv(s, x);
      }
  }

  ghost predicate Possible<T>(s: State<T>, run: seq<Action<T>>)
    decreases |run|
  {
    run != [] ==> Enabled(s, run[0]) && Possible(Step(s, run[0]), run[1..])
  }

  ghost function Exec<T>(s: State<T>, run: seq<Action<T>>): State<T>
    requires Possible(s, run)
    decreases |run|
  {
    if run == [] then s else Exec(Step(s, run[0]), run[1..])
  }

  ghost function Start<T>(tasks: set<T>): State<T> {
    State(LockState(None, 1, [], 0), map x | x in tasks :: Task(Idle, 0))
  }

  /** The invariant, and with it every assertion, holds throughout every run. */
  lemma {:induction false} RunInv<T>(s: State<T>, run: seq<Action<T>>)
    requires Inv(s) && Possible(s, run)
    ensures Inv(Exec(s, run))
    ensures forall x :: x in Exec(s, run).tasks ==> Asserted(Exec(s, run), x)
    decreases |run|
  {
    if run != [] {
      var r := StepInv(s, run[0]);
      RunInv(r, run[1..]);
    } else {
      forall x | x in s.tasks ensures Asserted(s, x) {
        AssertionsHold(s, x);
      }
    }
  }

  lemma StartInv<T>(tasks: set<T>)
    ensures Inv(Start(tasks))
  {
  }

  // ----- what the invariant says

  ghost function Owners<T>(s: State<T>): set<T> {
    set x | x in s.tasks && Owns(s.tasks[x])
  }

  /** The value of the semaphore plus the number of tasks between a down and its up is one. */
  lemma ValuePlusOwners<T>(s: State<T>)
    requires Inv(s)
    ensures s.lock.value + |Owners(s)| == 1
    ensures s.lock.holder.Some? ==> Owners(s) == {s.lock.holder.value}
  {
    if s.lock.value == 0 {
      var x :| x in s.tasks && Owns(s.tasks[x]);
      assert Owners(s) == {x};
      assert TaskOk(s.lock, x, s.tasks[x]);
    } else {
      forall x | x in s.tasks ensures !Owns(s.tasks[x]) {
        assert TaskOk(s.lock, x, s.tasks[x]);
      }
      assert Owners(s) == {};
    }
  }

  /** Between two calls, the holder is the task whose acquires are not all released, and the
      repeat count says how many those are. */
  lemma HolderBetweenCalls<T>(s: State<T>, x: T)
    requires Inv(s) && x in s.tasks && s.tasks[x].pc == Idle
    ensures s.lock.holder == Some(x) <==> s.tasks[x].depth > 0
    ensures s.tasks[x].depth > 0 ==> s.lock.repeat == s.tasks[x].depth
    ensures forall y :: y in s.tasks && y != x && s.tasks[x].depth > 0 ==> s.tasks[y].depth == 0
  {
    assert TaskOk(s.lock, x, s.tasks[x]);
    assert s.tasks[x].depth > 0 ==> Owns(s.tasks[x]);
  }

  /** The test of lock_acquire needs no protection: no step of another task changes its result. */
  lemma TestIsStable<T>(s: State<T>, a: Action<T>, x: T)
    requires Inv(s) && Enabled(s, a) && x in s.tasks && x != a.x
    ensures Step(s, a).lock.holder == Some(x) <==> s.lock.holder == Some(x)
  {
    assert TaskOk(s.lock, x, s.tasks[x]);
    assert TaskOk(s.lock, a.x, s.tasks[a.x]);
  }

  // ----- wake-ups

  ghost predicate SomeoneAt<T>(s: State<T>, pc: Pc) {
    exists x :: x in s.tasks && s.tasks[x].pc == pc
  }

  /** While the semaphore is free and tasks wait, or an up is half done, some woken task is still
      to look at the value. */
  ghost predicate Heard<T>(s: State<T>) {
    (s.lock.value == 1 && s.lock.waiters != []) || SomeoneAt(s, Raise) ==> SomeoneAt(s, Woken)
  }

  /** The step that loses a wake-up: the last woken task looks before the value is raised. */
  ghost predicate TooEarly<T>(s: State<T>, a: Action<T>) {
    && a.Go? && a.x in s.tasks && s.tasks[a.x].pc == Woken && SomeoneAt(s, Raise)
    && forall y :: y in s.tasks && s.tasks[y].pc == Woken ==> y == a.x
  }

  /** Steps that do not touch the semaphore. */
  lemma HeardElsewhere<T>(s: State<T>, r: State<T>, x: T)
    requires Heard(s) && x in s.tasks && r.tasks.Keys == s.tasks.Keys
    requires r.lock.value == s.lock.value && r.lock.waiters == s.lock.waiters
    requires forall y :: y in s.tasks && y != x ==> r.tasks[y] == s.tasks[y]
    requires s.tasks[x].pc != Woken && r.tasks[x].pc != Raise
    ensures Heard(r)
  {
    if SomeoneAt(s, Woken) {
      var y :| y in s.tasks && s.tasks[y].pc == Woken;
      assert y in r.tasks && r.tasks[y].pc == Woken;
    }
    if SomeoneAt(r, Raise) {
      var y :| y in r.tasks && r.tasks[y].pc == Raise;
      assert y in s.tasks && s.tasks[y].pc == Raise;
    }
  }

  lemma RaiserOwns<T>(s: State<T>, y: T)
    requires Inv(s) && y in s.tasks && (s.tasks[y].pc == Raise || s.tasks[y].pc == Up)
    ensures s.lock.value == 0 && Owns(s.tasks[y])
  {
    assert TaskOk(s.lock, y, s.tasks[y]);
  }

  /** sema_down's test, for a task that has just come or has been woken. */
  lemma HeardDown<T>(s: State<T>, x: T)
    requires Inv(s) && Heard(s) && x in s.tasks && (s.tasks[x].pc == Down || s.tasks[x].pc == Woken)
    ensures Heard(Advance(s, x)) <==> !TooEarly(s, Go(x))
  {
    var r := Advance(s, x);
    assert TaskOk(s.lock, x, s.tasks[x]);
    if SomeoneAt(s, Raise) {
      var y :| y in s.tasks && s.tasks[y].pc == Raise;
      RaiserOwns(s, y);
      assert y in r.tasks && r.tasks[y].pc == Raise;
      if !TooEarly(s, Go(x)) {
        var z :| z in s.tasks && s.tasks[z].pc == Woken && z != x;
        assert z in r.tasks && r.tasks[z].pc == Woken;
      }
    } else {
      assert !SomeoneAt(r, Raise) by {
        assert forall y :: y in r.tasks && r.tasks[y].pc == Raise ==> y in s.tasks && s.tasks[y].pc == Raise;
      }
    }
  }

  /** sema_up: whoever is woken is there to be heard of when the value is raised. */
  lemma HeardUp<T>(s: State<T>, x: T)
    requires Inv(s) && Heard(s) && x in s.tasks && (s.tasks[x].pc == Up || s.tasks[x].pc == Raise)
    ensures Heard(Advance(s, x))
  {
    var r, l := Advance(s, x), s.lock.waiters;
    RaiserOwns(s, x);
    if s.tasks[x].pc == Raise {
      var y :| y in s.tasks && s.tasks[y].pc == Woken;
      assert y in r.tasks && r.tasks[y].pc == Woken;
    } else if l != [] {
      WakeInv(s, l);
      assert l[0] in r.tasks && r.tasks[l[0]].pc == Woken;
    } else {
      forall y | y in r.tasks ensures r.tasks[y].pc != Raise {
        if y != x && s.tasks[y].pc == Raise {
          RaiserOwns(s, y);
        }
      }
    }
  }

  /** A wake-up is lost by exactly one kind of step. */
  lemma StepHeardIff<T>(s: State<T>, a: Action<T>)
    requires Inv(s) && Heard(s) && Enabled(s, a)
    ensures Heard(Step(s, a)) <==> !TooEarly(s, a)
  {
    var x, r := a.x, Step(s, a);
    if a.Go? && (s.tasks[x].pc == Down || s.tasks[x].pc == Woken) {
      HeardDown(s, x);
    } else if a.Go? && (s.tasks[x].pc == Up || s.tasks[x].pc == Raise) {
      HeardUp(s, x);
    } else {
      HeardElsewhere(s, r, x);
    }
  }

  /** The run lets a task that has woken another one finish its up first, as it would if
      interrupts stayed off to the end of sema_up. */
  ghost predicate Uninterrupted<T>(s: State<T>, run: seq<Action<T>>)
    requires Possible(s, run)
    decreases |run|
  {
    run != [] ==>
      && (forall y :: y in s.tasks && s.tasks[y].pc == Raise ==> y == run[0].x)
      && Uninterrupted(Step(s, run[0]), run[1..])
  }

  /** No lost wake-up, in any run with an uninterrupted sema_up: if the semaphore is free and a
      task waits for it, then some task is awake that will take it. */
  lemma {:induction false} NoLostWakeUp<T>(s: State<T>, run: seq<Action<T>>)
    requires Inv(s) && Heard(s) && Possible(s, run) && Uninterrupted(s, run)
    ensures Heard(Exec(s, run)) && Inv(Exec(s, run))
    ensures var e := Exec(s, run); e.lock.value == 1 && e.lock.waiters != [] ==> SomeoneAt(e, Woken)
    decreases |run|
  {
    if run != [] {
      var r := StepInv(s, run[0]);
      StepHeardIff(s, run[0]);
      NoLostWakeUp(r, run[1..]);
    }
  }

  lemma StartHeard<T>(tasks: set<T>)
    ensures Heard(Start(tasks))
  {
  }

  /** A task that waits is never alone: somebody is awake who has the lock or will take it. */
  lemma WaitersHaveHope<T>(s: State<T>, x: T)
    requires Inv(s) && Heard(s) && x in s.lock.waiters
    ensures exists y :: y in s.tasks && s.tasks[y].pc != Waiting && (Owns(s.tasks[y]) || s.tasks[y].pc == Woken)
  {
    if s.lock.value == 0 {
      var y :| y in s.tasks && Owns(s.tasks[y]);
      assert TaskOk(s.lock, y, s.tasks[y]);
    }
  }

  // ----- first come, first served

  /** The task that this step adds to the wait list, if any. */
  ghost function Queued<T>(s: State<T>, a: Action<T>): seq<T> {
    if a.Go? && a.x in s.tasks && (s.tasks[a.x].pc == Down || s.tasks[a.x].pc == Woken) && s.lock.value == 0
    then [a.x] else []
  }

  /** The task that this step unblocks, if any. */
  ghost function Unblocked<T>(s: State<T>, a: Action<T>): seq<T> {
    if a.Go? && a.x in s.tasks && s.tasks[a.x].pc == Up && s.lock.waiters != [] then [s.lock.waiters[0]] else []
  }

  ghost function AllQueued<T>(s: State<T>, run: seq<Action<T>>): seq<T>
    requires Possible(s, run)
    decreases |run|
  {
    if run == [] then [] else Queued(s, run[0]) + AllQueued(Step(s, run[0]), run[1..])
  }

  ghost function AllUnblocked<T>(s: State<T>, run: seq<Action<T>>): seq<T>
    requires Possible(s, run)
    decreases |run|
  {
    if run == [] then [] else Unblocked(s, run[0]) + AllUnblocked(Step(s, run[0]), run[1..])
  }

  lemma StepQueue<T>(s: State<T>, a: Action<T>)
    requires Enabled(s, a)
    ensures s.lock.waiters + Queued(s, a) == Unblocked(s, a) + Step(s, a).lock.waiters
    ensures forall x :: x in Unblocked(s, a) && x in s.tasks && x != a.x ==> Step(s, a).tasks[x].pc == Woken
  {
    if Unblocked(s, a) != [] {
      assert s.lock.waiters == [s.lock.waiters[0]] + s.lock.waiters[1..];
    }
  }

  /** Tasks are unblocked in the order in which they queued: those that have waited or have queued
      during the run are those unblocked during it followed by those that still wait. */
  lemma {:induction false} FirstComeFirstServed<T>(s: State<T>, run: seq<Action<T>>)
    requires Possible(s, run)
    ensures s.lock.waiters + AllQueued(s, run) == AllUnblocked(s, run) + Exec(s, run).lock.waiters
    decreases |run|
  {
    if run != [] {
      var r := Step(s, run[0]);
      StepQueue(s, run[0]);
      FirstComeFirstServed(r, run[1..]);
      QueueThen(s.lock.waiters, Queued(s, run[0]), Unblocked(s, run[0]), r.lock.waiters,
                AllQueued(r, run[1..]), AllUnblocked(r, run[1..]), Exec(r, run[1..]).lock.waiters);
    }
  }

  lemma {:induction false} Extend<T>(s: State<T>, run: seq<Action<T>>, a: Action<T>)
    requires Possible(s, run) && Enabled(Exec(s, run), a)
    ensures Possible(s, run + [a]) && Exec(s, run + [a]) == Step(Exec(s, run), a)
    decreases |run|
  {
    if run == [] {
      assert Exec(Step(s, a), []) == Step(s, a);
    } else {
      assert (run + [a])[0] == run[0] && (run + [a])[1..] == run[1..] + [a];
      Extend(Step(s, run[0]), run[1..], a);
    }
  }

  /** The two tasks 0 and 1. */
  ghost function Two(holder: Option<nat>, value: nat, waiters: seq<nat>, repeat: nat,
                     pc0: Pc, depth0: nat, pc1: Pc): State<nat> {
    State(LockState(holder, value, waiters, repeat), map[0 := Task(pc0, depth0), 1 := Task(pc1, 0)])
  }

  /** A run in 18 steps: task 0 takes the lock, task 1 queues for it, task 0 releases it. */
  ghost function Film(i: nat): State<nat> {
    match i
    case 0 => Two(None, 1, [], 0, Idle, 0, Idle)
    case 1 => Two(None, 1, [], 0, Test, 0, Idle)
    case 2 => Two(None, 1, [], 0, Down, 0, Idle)
    case 3 => Two(None, 0, [], 0, Claim, 0, Idle)
    case 4 => Two(Some(0), 0, [], 0, Check, 0, Idle)
    case 5 => Two(Some(0), 0, [], 0, First, 0, Idle)
    case 6 => Two(Some(0), 0, [], 1, Idle, 1, Idle)
    case 7 => Two(Some(0), 0, [], 1, Idle, 1, Test)
    case 8 => Two(Some(0), 0, [], 1, Idle, 1, Down)
    case 9 => Two(Some(0), 0, [1], 1, Idle, 1, Waiting)
    case 10 => Two(Some(0), 0, [1], 1, Release, 1, Waiting)
    case 11 => Two(Some(0), 0, [1], 1, Branch, 1, Waiting)
    case 12 => Two(Some(0), 0, [1], 1, Last, 1, Waiting)
    case 13 => Two(Some(0), 0, [1], 1, Clear, 1, Waiting)
    case 14 => Two(None, 0, [1], 1, Zero, 1, Waiting)
    case 15 => Two(None, 0, [1], 0, Up, 1, Waiting)
    case 16 => Two(None, 0, [], 0, Raise, 1, Woken)
    case 17 => Two(None, 0, [1], 0, Raise, 1, Waiting)
    case _ => Two(None, 1, [1], 0, Idle, 0, Waiting)
  }

  ghost function Cue(i: nat): Action<nat> {
    match i
    case 0 => Acquire(0)
    case 6 => Acquire(1)
    case 7 => Go(1)
    case 8 => Go(1)
    case 9 => Free(0)
    case 16 => Go(1)
    case _ => Go(0)
  }

  ghost predicate Cut(i: nat) {
    && Enabled(Film(i), Cue(i))
    && Step(Film(i), Cue(i)).lock == Film(i + 1).lock && Step(Film(i), Cue(i)).tasks == Film(i + 1).tasks
  }

  lemma Opening()
    ensures Start<nat>({0, 1}) == Film(0)
  {
    assert Start<nat>({0, 1}).tasks == map[0 := Task(Idle, 0), 1 := Task(Idle, 0)];
  }

  lemma TakesLock(i: nat)
    requires i < 6
    ensures Cut(i)
  {
  }

  lemma Queues(i: nat)
    requires 6 <= i < 9
    ensures Cut(i)
  {
  }

  lemma Releases(i: nat)
    requires 9 <= i < 15
    ensures Cut(i)
  {
  }

  lemma LooksTooEarly(i: nat)
    requires 15 <= i < 18
    ensures Cut(i)
  {
  }

  lemma AllCuts(i: nat)
    requires i < 18
    ensures Cut(i)
  {
    if i < 6 {
      TakesLock(i);
    } else if i < 9 {
      Queues(i);
    } else if i < 15 {
      Releases(i);
    } else {
      LooksTooEarly(i);
    }
  }

  lemma {:induction false} Plays(i: nat) returns (run: seq<Action<nat>>)
    requires i <= 18
    ensures Possible(Film(0), run) && Exec(Film(0), run) == Film(i)
  {
    run := [];
    if i > 0 {
      var before := Plays(i - 1);
      AllCuts(i - 1);
      Extend(Film(0), before, Cue(i - 1));
      run := before + [Cue(i - 1)];
    }
  }

  /** Without that, a wake-up can be lost: task 1 waits, task 0 wakes it and is interrupted before
      it raises the value, task 1 finds it zero and waits again.  The semaphore is free, nobody
      is in a call, and task 1 waits until somebody happens to use the lock again. */
  lemma LostWakeUp() returns (run: seq<Action<nat>>)
    ensures Possible(Start({0, 1}), run)
    ensures var e := Exec(Start({0, 1}), run);
            && e.lock == LockState(None, 1, [1], 0)
            && e.tasks == map[0 := Task(Idle, 0), 1 := Task(Waiting, 0)]
  {
    Opening();
    run := Plays(18);
    assert Film(18) == Two(None, 1, [1], 0, Idle, 0, Waiting);
  }
}
