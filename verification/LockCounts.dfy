/** The lock counted against the calls of the run: who holds it, how often, and how many steps the
    calls take. */
module LockCounts {
  import opened Basics
  import opened Lock
  import opened LockProtocol

  /** How often the run contains the action. */
  ghost function Count<T>(run: seq<Action<T>>, a: Action<T>): nat {
    if run == [] then 0 else (if run[0] == a then 1 else 0) + Count(run[1..], a)
  }

  /** The calls of lock_acquire by x less those of lock_release. */
  ghost function Net<T>(run: seq<Action<T>>, x: T): int {
    Count(run, Acquire(x)) - Count(run, Free(x))
  }

  /** What a task has acquired, counting the call it is in as done. */
  ghost function Balance(t: Task): int {
    t.depth + if t.pc == Idle then 0 else if InAcquire(t.pc) then 1 else -1
  }

  /** The steps that a task at this point of its call takes at most before it returns or queues. */
  function Left(pc: Pc): nat {
    match pc
    case Idle => 0
    case Test => 5
    case Down => 4
    case Waiting => 4
    case Woken => 4
    case Claim => 3
    case Check => 2
    case First => 1
    case Again => 2
    case Add(_) => 1
    case Release => 7
    case Branch => 6
    case Load => 2
    case Less(_) => 1
    case Last => 5
    case Clear => 4
    case Zero => 3
    case Up => 2
    case Raise => 1
  }

  /** A step of another task may wake a waiting task, and does nothing else to it. */
  lemma OthersKept<T>(s: State<T>, a: Action<T>, x: T) returns (r: State<T>)
    requires Inv(s) && Enabled(s, a) && x in s.tasks && x != a.x
    ensures r == Step(s, a) && x in r.tasks
    ensures r.tasks[x] == s.tasks[x] || (s.tasks[x].pc == Waiting && r.tasks[x] == s.tasks[x].(pc := Woken))
  {
    r := Step(s, a);
    if a.Go? && s.tasks[a.x].pc == Up && s.lock.waiters != [] {
      RaiserOwns(s, a.x);
      WakeInv(s, s.lock.waiters);
    }
  }

  lemma AcquireGoesOn<T>(s: State<T>, x: T) returns (r: State<T>)
    requires Enabled(s, Go(x)) && TaskOk(s.lock, x, s.tasks[x]) && InAcquire(s.tasks[x].pc)
    ensures r == Advance(s, x) && x in r.tasks && Balance(r.tasks[x]) == Balance(s.tasks[x])
    ensures Left(r.tasks[x].pc) + 1 <= Left(s.tasks[x].pc) + |Queued(s, Go(x))|
  {
    r := Advance(s, x);
  }

  lemma UpGoesOn<T>(s: State<T>, x: T) returns (r: State<T>)
    requires Enabled(s, Go(x)) && TaskOk(s.lock, x, s.tasks[x]) && s.tasks[x].pc == Up
    ensures r == Advance(s, x) && x in r.tasks && Balance(r.tasks[x]) == Balance(s.tasks[x])
    ensures Left(r.tasks[x].pc) < Left(Up)
  {
    r := Advance(s, x);
  }

  lemma ReleaseGoesOn<T>(s: State<T>, x: T) returns (r: State<T>)
    requires Enabled(s, Go(x)) && TaskOk(s.lock, x, s.tasks[x]) && !InAcquire(s.tasks[x].pc) && s.tasks[x].pc != Up
    ensures r == Advance(s, x) && x in r.tasks && Balance(r.tasks[x]) == Balance(s.tasks[x])
    ensures Left(r.tasks[x].pc) < Left(s.tasks[x].pc)
  {
    r := Advance(s, x);
  }

  /** A step of a call that is under way leaves the balance, and brings the call nearer to its end
      unless the task queues. */
  lemma GoesOn<T>(s: State<T>, x: T) returns (r: State<T>)
    requires Inv(s) && Enabled(s, Go(x))
    ensures r == Step(s, Go(x)) && x in r.tasks && Balance(r.tasks[x]) == Balance(s.tasks[x])
    ensures Left(r.tasks[x].pc) + 1 <= Left(s.tasks[x].pc) + |Queued(s, Go(x))|
  {
    assert TaskOk(s.lock, x, s.tasks[x]);
    if InAcquire(s.tasks[x].pc) {
      r := AcquireGoesOn(s, x);
    } else if s.tasks[x].pc == Up {
      r := UpGoesOn(s, x);
    } else {
      r := ReleaseGoesOn(s, x);
    }
  }

  /** A call changes the balance of its task by one when it begins, and nothing else ever does. */
  lemma StepBalance<T>(s: State<T>, a: Action<T>, x: T) returns (r: State<T>)
    requires Inv(s) && Enabled(s, a) && x in s.tasks
    ensures r == Step(s, a) && x in r.tasks
    ensures Balance(r.tasks[x]) == Balance(s.tasks[x])
                                   + (if a == Acquire(x) then 1 else 0) - (if a == Free(x) then 1 else 0)
  {
    if x != a.x {
      r := OthersKept(s, a, x);
    } else if a.Go? {
      r := GoesOn(s, x);
    } else {
      r := Step(s, a);
    }
  }

  lemma {:induction false} RunBalance<T>(s: State<T>, run: seq<Action<T>>, x: T)
    requires Inv(s) && Possible(s, run) && x in s.tasks
    ensures x in Exec(s, run).tasks && Balance(Exec(s, run).tasks[x]) == Balance(s.tasks[x]) + Net(run, x)
    decreases |run|
  {
    if run != [] {
      var r := StepBalance(s, run[0], x);
      var r' := StepInv(s, run[0]);
      RunBalance(r, run[1..], x);
    }
  }

  /** After any run in which x has returned from its calls: x holds the lock if and only if it has
      called lock_acquire more often than lock_release, and then the repeat count is the difference. */
  lemma HeldAsOftenAsAcquired<T>(tasks: set<T>, run: seq<Action<T>>, x: T)
    requires x in tasks && Possible(Start(tasks), run)
    requires var e := Exec(Start(tasks), run); x in e.tasks ==> e.tasks[x].pc == Idle
    ensures var e, n := Exec(Start(tasks), run), Net(run, x);
            && n >= 0 && x in e.tasks && e.tasks[x].depth == n
            && (e.lock.holder == Some(x) <==> n > 0)
            && (n > 0 ==> e.lock.repeat == n && e.lock.value == 0)
  {
    var s := Start(tasks);
    StartInv(tasks);
    RunInv(s, run);
    RunBalance(s, run, x);
    HolderBetweenCalls(Exec(s, run), x);
    assert TaskOk(Exec(s, run).lock, x, Exec(s, run).tasks[x]);
  }

  /** Of two tasks that have returned from their calls, one has released all that it acquired. */
  lemma OneHolder<T>(tasks: set<T>, run: seq<Action<T>>, x: T, y: T)
    requires x in tasks && y in tasks && x != y && Possible(Start(tasks), run)
    requires var e := Exec(Start(tasks), run);
             x in e.tasks && y in e.tasks ==> e.tasks[x].pc == Idle && e.tasks[y].pc == Idle
    ensures Net(run, x) == 0 || Net(run, y) == 0
  {
    RunBalance0(tasks, run, x);
    RunBalance0(tasks, run, y);
    HeldAsOftenAsAcquired(tasks, run, x);
    HeldAsOftenAsAcquired(tasks, run, y);
  }

  lemma RunBalance0<T>(tasks: set<T>, run: seq<Action<T>>, x: T)
    requires x in tasks && Possible(Start(tasks), run)
    ensures x in Exec(Start(tasks), run).tasks
    ensures Balance(Exec(Start(tasks), run).tasks[x]) == Net(run, x)
  {
    StartInv(tasks);
    RunBalance(Start(tasks), run, x);
  }

  lemma WaitersWait<T>(s: State<T>)
    requires Inv(s)
    ensures s.lock.waiters == [] || exists x :: x in s.tasks && s.tasks[x].pc == Waiting
  {
    if s.lock.waiters != [] {
      var x := s.lock.waiters[0];
      assert x in s.lock.waiters;
      assert TaskOk(s.lock, x, s.tasks[x]);
    }
  }

  /** When every task has returned and has released all that it acquired, the lock is as at the start. */
  lemma AllReleased<T>(tasks: set<T>, run: seq<Action<T>>)
    requires Possible(Start(tasks), run)
    requires forall x :: x in tasks ==> Net(run, x) == 0
    requires var e := Exec(Start(tasks), run); forall x :: x in e.tasks ==> x in tasks && e.tasks[x].pc == Idle
    ensures Exec(Start(tasks), run) == Start(tasks)
  {
    var s, e := Start(tasks), Exec(Start(tasks), run);
    StartInv(tasks);
    RunInv(s, run);
    forall x | x in tasks ensures x in e.tasks && e.tasks[x] == Task(Idle, 0) {
      RunBalance0(tasks, run, x);
      HeldAsOftenAsAcquired(tasks, run, x);
    }
    assert e.tasks == s.tasks;
    ValuePlusOwners(e);
    assert Owners(e) == {};
    WaitersWait(e);
  }

  // ----- how many steps a call takes

  ghost function Times<T>(s: seq<T>, x: T): nat {
    if s == [] then 0 else (if s[0] == x then 1 else 0) + Times(s[1..], x)
  }

  lemma StepLeft<T>(s: State<T>, a: Action<T>, x: T) returns (r: State<T>)
    requires Inv(s) && Enabled(s, a) && x in s.tasks
    ensures r == Step(s, a) && x in r.tasks
    ensures Left(r.tasks[x].pc) + (if a == Go(x) then 1 else 0)
            <= Left(s.tasks[x].pc) + (if a == Acquire(x) then 5 else 0) + (if a == Free(x) then 7 else 0)
               + Times(Queued(s, a), x)
  {
    if x != a.x {
      r := OthersKept(s, a, x);
    } else if a.Go? {
      r := GoesOn(s, x);
      assert [x][1..] == [];
    } else {
      r := Step(s, a);
    }
  }

  /** A call of lock_acquire returns within five of its task's own steps, one of lock_release within
      seven, and each time that the task queues costs one step more. */
  lemma {:induction false} CallsReturn<T>(s: State<T>, run: seq<Action<T>>, x: T)
    requires Inv(s) && Possible(s, run) && x in s.tasks
    ensures x in Exec(s, run).tasks
    ensures Left(Exec(s, run).tasks[x].pc) + Count(run, Go(x))
            <= Left(s.tasks[x].pc) + 5 * Count(run, Acquire(x)) + 7 * Count(run, Free(x)) + Times(AllQueued(s, run), x)
    decreases |run|
  {
    if run != [] {
      var r := StepLeft(s, run[0], x);
      var r' := StepInv(s, run[0]);
      CallsReturn(r, run[1..], x);
      TimesConcat(Queued(s, run[0]), AllQueued(r, run[1..]), x);
    }
  }

  lemma {:induction false} TimesConcat<T>(a: seq<T>, b: seq<T>, x: T)
    ensures Times(a + b, x) == Times(a, x) + Times(b, x)
  {
    if a == [] {
      assert a + b == b;
    } else {
      assert (a + b)[1..] == a[1..] + b;
      TimesConcat(a[1..], b, x);
    }
  }
}
