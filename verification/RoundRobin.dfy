/** The shares of the processor.  While nobody sleeps, blocks, starts or exits, the scheduler is
    a weighted round robin, and the weights are exact over every window of one round. */
module RoundRobin {
  import opened Basics
  import opened Wheel
  import opened WheelAgenda
  import opened WheelHistory
  import K = Kernel
  import opened KernelPartition
  import opened KernelInvariant
  import R = KernelRuns

  // ----- the queue on its own

  /** The running task with the ticks it has left, and the tasks behind it. */
  datatype Line<T> = Line(current: T, left: nat, ready: seq<T>)

  /** What a tick does: use one up, or go to the end of the line with a new slice. */
  function Turn<T>(prio: T -> nat, l: Line<T>): Line<T> {
    if l.left > 0 then l.(left := l.left - 1) else Full(prio, l.ready + [l.current])
  }

  /** The first task of the queue begins its slice. */
  function Full<T>(prio: T -> nat, queue: seq<T>): Line<T>
    requires queue != []
  {
    Line(queue[0], prio(queue[0]), queue[1..])
  }

  function After<T>(prio: T -> nat, l: Line<T>, n: nat): Line<T>
    decreases n
  {
    if n == 0 then l else After(prio, Turn(prio, l), n - 1)
  }

  /** The tasks that the next n ticks interrupt. */
  function Who<T>(prio: T -> nat, l: Line<T>, n: nat): seq<T>
    decreases n
  {
    if n == 0 then [] else [l.current] + Who(prio, Turn(prio, l), n - 1)
  }

  /** The length of a round. */
  function Total<T>(prio: T -> nat, queue: seq<T>): nat {
    if queue == [] then 0
    else Total(prio, queue[..|queue| - 1]) + prio(queue[|queue| - 1]) + 1
  }

  lemma {:induction false} Splits<T>(prio: T -> nat, l: Line<T>, a: nat, b: nat)
    ensures After(prio, l, a + b) == After(prio, After(prio, l, a), b)
    ensures Who(prio, l, a + b) == Who(prio, l, a) + Who(prio, After(prio, l, a), b)
    decreases a
  {
    if a > 0 {
      Splits(prio, Turn(prio, l), a - 1, b);
    }
  }

  /** Within a slice there is one task only. */
  lemma {:induction false} OneSlice<T>(prio: T -> nat, l: Line<T>, n: nat, x: T)
    requires n <= l.left + 1
    ensures Count(Who(prio, l, n), x) == if x == l.current then n else 0
    ensures After(prio, l, n) == if n <= l.left then l.(left := l.left - n)
                                 else Full(prio, l.ready + [l.current])
    decreases n
  {
    if n > 0 && l.left > 0 {
      OneSlice(prio, Turn(prio, l), n - 1, x);
      CountSum([l.current], Who(prio, Turn(prio, l), n - 1), x);
    } else if n > 0 {
      assert Who(prio, l, n) == [l.current];
    }
  }

  ghost function Count<T>(s: seq<T>, x: T): nat {
    if s == [] then 0 else (if s[0] == x then 1 else 0) + Count(s[1..], x)
  }

  lemma {:induction false} CountSum<T>(a: seq<T>, b: seq<T>, x: T)
    ensures Count(a + b, x) == Count(a, x) + Count(b, x)
  {
    if a == [] {
      assert a + b == b;
    } else {
      assert (a + b)[1..] == a[1..] + b;
      CountSum(a[1..], b, x);
    }
  }

  lemma Prefix<T>(queue: seq<T>, i: nat)
    requires 0 < i <= |queue|
    ensures queue[..i][..i - 1] == queue[..i - 1] && queue[..i] == queue[..i - 1] + [queue[i - 1]]
    ensures (queue[i - 1..] + queue[..i - 1])[1..] + [queue[i - 1]] == queue[i..] + queue[..i]
  {
  }

  /** After the slices of the first i tasks, they stand at the end of the queue. */
  lemma {:induction false} SlicesTurn<T>(prio: T -> nat, queue: seq<T>, i: nat)
    requires queue != [] && i <= |queue|
    ensures After(prio, Full(prio, queue), Total(prio, queue[..i])) == Full(prio, queue[i..] + queue[..i])
    decreases i
  {
    if i == 0 {
      assert queue[0..] + queue[..0] == queue;
    } else {
      var x, l := queue[i - 1], Full(prio, queue[i - 1..] + queue[..i - 1]);
      Prefix(queue, i);
      SlicesTurn(prio, queue, i - 1);
      Splits(prio, Full(prio, queue), Total(prio, queue[..i - 1]), prio(x) + 1);
      OneSlice(prio, l, prio(x) + 1, x);
    }
  }

  lemma NextSlice<T>(prio: T -> nat, queue: seq<T>, i: nat)
    requires 0 < i <= |queue|
    ensures Who(prio, Full(prio, queue), Total(prio, queue[..i]))
            == Who(prio, Full(prio, queue), Total(prio, queue[..i - 1]))
               + Who(prio, Full(prio, queue[i - 1..] + queue[..i - 1]), prio(queue[i - 1]) + 1)
  {
    Prefix(queue, i);
    SlicesTurn(prio, queue, i - 1);
    Splits(prio, Full(prio, queue), Total(prio, queue[..i - 1]), prio(queue[i - 1]) + 1);
  }

  /** In those slices each task has had its weight. */
  lemma {:induction false} SlicesCount<T>(prio: T -> nat, queue: seq<T>, i: nat, x: T)
    requires queue != [] && i <= |queue| && NoDup(queue)
    ensures Count(Who(prio, Full(prio, queue), Total(prio, queue[..i])), x)
            == if x in queue[..i] then prio(x) + 1 else 0
    decreases i
  {
    if i > 0 {
      var y, l := queue[i - 1], Full(prio, queue[i - 1..] + queue[..i - 1]);
      SlicesCount(prio, queue, i - 1, x);
      NextSlice(prio, queue, i);
      CountSum(Who(prio, Full(prio, queue), Total(prio, queue[..i - 1])), Who(prio, l, prio(y) + 1), x);
      OneSlice(prio, l, prio(y) + 1, x);
      assert x in queue[..i] <==> x in queue[..i - 1] || x == y;
    }
  }

  /** Over any window of one round, wherever in a slice it begins, each task gets its weight. */
  lemma Shares<T>(prio: T -> nat, l: Line<T>, queue: seq<T>, x: T)
    requires l.left <= prio(l.current) && queue == [l.current] + l.ready && NoDup(queue)
    ensures Count(Who(prio, l, Total(prio, queue)), x) == if x in queue then prio(x) + 1 else 0
  {
    var full, round, used := Full(prio, queue), Total(prio, queue), prio(l.current) - l.left;
    OneSlice(prio, full, used, x);
    assert After(prio, full, used) == l;
    WholeQueue(queue);
    SlicesTurn(prio, queue, |queue|);
    SlicesCount(prio, queue, |queue|, x);
    Splits(prio, full, used, round);
    Splits(prio, full, round, used);
    assert used + round == round + used;
    CountSum(Who(prio, full, used), Who(prio, l, round), x);
    CountSum(Who(prio, full, round), Who(prio, full, used), x);
  }

  lemma WholeQueue<T>(queue: seq<T>)
    ensures queue[..|queue|] == queue && queue[|queue|..] + queue[..|queue|] == queue
  {
  }

  // ----- the scheduler

  /** Nobody has more ticks than a full slice. */
  ghost predicate WithinSlice<T, C>(k: K.Kernel<T, C>) {
    forall x :: x in k.tcb ==> k.tcb[x].ticks <= k.tcb[x].priority
  }

  lemma {:induction false} CallBackWithin<T, C>(k: K.Kernel<T, C>, log: seq<Firing<Option<T>>>)
    requires K.Known(k, log) && WithinSlice(k)
    ensures WithinSlice(K.CallBack(k, log))
    decreases |log|
  {
    if log != [] {
      match log[0].timer.param
      case Some(x) => CallBackWithin(K.Wake(k, x), log[1..]);
      case None => CallBackWithin(k, log[1..]);
    }
  }

  lemma SliceWithin<T, C>(g: nat, m: K.Kernel<T, C>) returns (s: K.Kernel<T, C>)
    requires g >= 1 && K.CanSlice(m) && WithinSlice(m)
    ensures s == K.Slice(g, m) && WithinSlice(s)
  {
    s := K.Slice(g, m);
  }

  lemma TickWithin<T, C>(g: nat, k: K.Kernel<T, C>, now: nat) returns (s: K.Kernel<T, C>)
    requires K.CanTick(g, k, now) && WithinSlice(k)
    ensures s == K.Tick(g, k, now) && WithinSlice(s)
  {
    CallBackWithin(k.(wheel := Run(g, k.wheel, now).0), Run(g, k.wheel, now).1);
    s := SliceWithin(g, K.Timers(g, k, now));
  }

  lemma StepWithin<T, C>(g: nat, k: K.Kernel<T, C>, e: K.Event<T, C>) returns (s: K.Kernel<T, C>)
    requires K.Enabled(g, k, e) && WithinSlice(k)
    ensures s == K.Step(g, k, e) && WithinSlice(s)
  {
    if e.Interrupt? {
      s := TickWithin(g, k, e.now);
    } else {
      s := K.Step(g, k, e);
    }
  }

  /** It is so in every reachable state, for it is so at the start, where ticks are the priority. */
  lemma {:induction false} AlwaysWithinSlice<T, C>(g: nat, k: K.Kernel<T, C>, es: seq<K.Event<T, C>>)
    requires K.Possible(g, k, es) && WithinSlice(k)
    ensures WithinSlice(K.Exec(g, k, es))
    decreases |es|
  {
    if es != [] {
      var s := StepWithin(g, k, es[0]);
      AlwaysWithinSlice(g, s, es[1..]);
    }
  }

  /** Nobody sleeps or is about to, and nobody is being started or is on the way out. */
  ghost predicate Calm<T, C>(g: nat, n: nat, k: K.Kernel<T, C>) {
    && Inv(g, n, k) && K.Free(k)
    && (forall x :: x in k.all ==> !k.tcb[x].collaborative)
    && (forall x :: x in k.ready ==> x in k.tcb && k.tcb[x].ticks <= k.tcb[x].priority)
    && k.tcb[k.current].ticks <= k.tcb[k.current].priority
  }

  /** All ready tasks but the first m have full slices. */
  ghost predicate Settled<T, C>(k: K.Kernel<T, C>, m: nat)
    requires forall x :: x in k.ready ==> x in k.tcb
  {
    forall i :: m <= i < |k.ready| ==> k.tcb[k.ready[i]].ticks == k.tcb[k.ready[i]].priority
  }

  ghost predicate Steady<T, C>(g: nat, n: nat, k: K.Kernel<T, C>) {
    Calm(g, n, k) && Settled(k, 0)
  }

  ghost function LineOf<T, C>(k: K.Kernel<T, C>): Line<T>
    requires k.current in k.tcb
  {
    Line(k.current, k.tcb[k.current].ticks, k.ready)
  }

  ghost function Weight<T, C>(k: K.Kernel<T, C>, x: T): nat {
    if x in k.tcb then k.tcb[x].priority else 0
  }

  lemma {:induction false} NoCalls<T, C>(k: K.Kernel<T, C>, log: seq<Firing<Option<T>>>)
    requires forall f | f in log :: f.timer.param == None
    ensures K.Known(k, log) && K.CallBack(k, log) == k
    decreases |log|
  {
    if log != [] {
      NoCalls(k, log[1..]);
    }
  }

  /** With nobody asleep, run_timer does nothing to the tasks. */
  lemma NobodyWakes<T, C>(g: nat, n: nat, k: K.Kernel<T, C>, now: nat)
    requires Inv(g, n, k) && forall x :: x in k.all ==> !k.tcb[x].collaborative
    ensures K.Known(k, Run(g, k.wheel, now).1)
    ensures K.Timers(g, k, now) == k.(wheel := Run(g, k.wheel, now).0)
  {
    var (w, log) := Run(g, k.wheel, now);
    TimersInv(g, n, k, now);
    forall f | f in log ensures f.timer.param == None {
      if f.timer.param.Some? {
        var x := f.timer.param.value;
        assert AlarmOk(k, [], x);
        RunAlarm(g, k.wheel, now, x, false);
        InTicks(log, f);
      }
    }
    NoCalls(k.(wheel := w), log);
  }

  /** The handler's two branches for a task that does not want to sleep. */
  ghost predicate Turned<T, C>(k: K.Kernel<T, C>, s: K.Kernel<T, C>) {
    && k.current in k.tcb && s.tcb.Keys == k.tcb.Keys
    && (forall x :: x in k.tcb ==> s.tcb[x].priority == k.tcb[x].priority)
    && (forall x :: x in k.tcb && x != k.current ==> s.tcb[x].ticks == k.tcb[x].ticks)
    && var t := k.tcb[k.current];
       && s.tcb[k.current].ticks == (if t.ticks > 0 then t.ticks - 1 else t.priority)
       && if t.ticks > 0 then s.current == k.current && s.ready == k.ready
          else [s.current] + s.ready == k.ready + [k.current]
  }

  lemma SliceTurns<T, C>(g: nat, k: K.Kernel<T, C>, s: K.Kernel<T, C>)
    requires g >= 1 && K.CanSlice(k) && !k.tcb[k.current].collaborative && s == K.Slice(g, k)
    requires k.ready != [] ==> k.ready[0] in k.tcb
    ensures Turned(k, s)
  {
    var queue := k.ready + [k.current];
    assert queue == [queue[0]] + queue[1..];
  }

  /** One more ready task has a full slice after a dispatch. */
  lemma TurnSettles<T, C>(k: K.Kernel<T, C>, s: K.Kernel<T, C>, m: nat)
    requires Turned(k, s) && k.current !in k.ready && (forall x :: x in k.ready ==> x in k.tcb)
    requires Settled(k, m)
    ensures forall x :: x in s.ready ==> x in s.tcb
    ensures Settled(s, if k.tcb[k.current].ticks == 0 && m > 0 then m - 1 else m)
  {
    if k.tcb[k.current].ticks == 0 {
      var queue := k.ready + [k.current];
      assert queue[1..] == s.ready;
      assert forall i :: 0 <= i < |s.ready| ==> s.ready[i] == queue[i + 1];
    }
  }

  lemma TurnCalm<T, C>(g: nat, n: nat, k: K.Kernel<T, C>, s: K.Kernel<T, C>)
    requires Calm(g, n, k) && Inv(g, n, s) && SameFields(k, s) && Turned(k, s)
    ensures k.current !in k.ready && Calm(g, n, s)
  {
    CurrentNotReady(k);
    if k.tcb[k.current].ticks == 0 {
      var queue := [s.current] + s.ready;
      assert s.current in queue && s.ready == queue[1..];
      assert forall x :: x in s.ready ==> x in queue;
      assert forall x :: x in queue ==> x == k.current || x in k.ready;
      if s.current in s.part {
        FreeMeans(k);
      }
    }
  }

  lemma CalmSlice<T, C>(g: nat, n: nat, k: K.Kernel<T, C>, m: nat) returns (s: K.Kernel<T, C>)
    requires Calm(g, n, k) && Settled(k, m) && K.CanSlice(k)
    ensures s == K.Slice(g, k) && Calm(g, n, s) && Turned(k, s)
    ensures Settled(s, if k.tcb[k.current].ticks == 0 && m > 0 then m - 1 else m)
  {
    s := SliceInv(g, n, k);
    SliceFields(g, k);
    SliceTurns(g, k, s);
    TurnCalm(g, n, k, s);
    TurnSettles(k, s, m);
  }

  /** A tick of the scheduler is a turn of the line, and may settle one more task. */
  lemma CalmTick<T, C>(g: nat, n: nat, k: K.Kernel<T, C>, now: nat, m: nat) returns (s: K.Kernel<T, C>)
    requires Calm(g, n, k) && Settled(k, m) && K.CanTick(g, k, now)
    ensures s == K.Tick(g, k, now) && Calm(g, n, s) && Turned(k, s)
    ensures Settled(s, if k.tcb[k.current].ticks == 0 && m > 0 then m - 1 else m)
  {
    NobodyWakes(g, n, k, now);
    TimersInv(g, n, k, now);
    s := CalmSlice(g, n, K.Timers(g, k, now), m);
  }

  lemma TurnLine<T, C>(k: K.Kernel<T, C>, s: K.Kernel<T, C>)
    requires Turned(k, s) && k.current !in k.ready && (forall x :: x in k.ready ==> x in k.tcb) && Settled(k, 0)
    ensures s.current in s.tcb && LineOf(s) == Turn(x => Weight(k, x), LineOf(k))
    ensures forall x :: Weight(s, x) == Weight(k, x)
  {
    if k.tcb[k.current].ticks == 0 {
      var queue := k.ready + [k.current];
      assert s.current == queue[0] && s.ready == queue[1..];
    }
  }

  lemma SteadyTick<T, C>(g: nat, n: nat, k: K.Kernel<T, C>, now: nat) returns (s: K.Kernel<T, C>)
    requires Steady(g, n, k) && K.CanTick(g, k, now)
    ensures s == K.Tick(g, k, now) && Steady(g, n, s)
    ensures LineOf(s) == Turn(x => Weight(k, x), LineOf(k))
    ensures forall x :: Weight(s, x) == Weight(k, x)
  {
    s := CalmTick(g, n, k, now, 0);
    CurrentNotReady(k);
    TurnLine(k, s);
  }

  lemma CurrentNotReady<T, C>(k: K.Kernel<T, C>)
    requires Partition(k)
    ensures k.current !in k.ready
  {
    if k.current in k.ready {
      ReadyMeans(k, k.current);
    }
  }

  /** Only interrupts, and the running tasks' own work between them. */
  ghost predicate Undisturbed<T, C>(es: seq<K.Event<T, C>>) {
    forall e | e in es :: e.Interrupt? || e.Compute?
  }

  /** The tasks that the interrupts of a run find on the processor. */
  ghost function Interrupted<T, C>(g: nat, k: K.Kernel<T, C>, es: seq<K.Event<T, C>>): seq<T>
    requires K.Possible(g, k, es)
    decreases |es|
  {
    if es == [] then []
    else (if es[0].Interrupt? then [k.current] else []) + Interrupted(g, K.Step(g, k, es[0]), es[1..])
  }

  /** A dispatch settles one more task, and nothing unsettles one. */
  lemma UndisturbedStep<T, C>(g: nat, n: nat, k: K.Kernel<T, C>, e: K.Event<T, C>, m: nat)
    returns (s: K.Kernel<T, C>, m': nat)
    requires Calm(g, n, k) && Settled(k, m) && K.Enabled(g, k, e) && (e.Interrupt? || e.Compute?)
    ensures s == K.Step(g, k, e) && Calm(g, n, s) && Settled(s, m')
    ensures m' == if R.Dispatches(k, e) && m > 0 then m - 1 else m
  {
    m' := if R.Dispatches(k, e) && m > 0 then m - 1 else m;
    if e.Interrupt? {
      s := CalmTick(g, n, k, e.now, m);
    } else {
      s := StepInv(g, n, k, e);
    }
  }

  /** In a steady state, an interrupt is a turn of the line, and computing is none. */
  lemma SteadyStep<T, C>(g: nat, n: nat, k: K.Kernel<T, C>, e: K.Event<T, C>, prio: T -> nat)
    returns (s: K.Kernel<T, C>)
    requires Steady(g, n, k) && K.Enabled(g, k, e) && (e.Interrupt? || e.Compute?)
    requires forall x :: prio(x) == Weight(k, x)
    ensures s == K.Step(g, k, e) && Steady(g, n, s) && forall x :: prio(x) == Weight(s, x)
    ensures LineOf(s) == if e.Interrupt? then Turn(prio, LineOf(k)) else LineOf(k)
  {
    if e.Interrupt? {
      s := SteadyTick(g, n, k, e.now);
      assert Turn(prio, LineOf(k)) == Turn(x => Weight(k, x), LineOf(k));
    } else {
      var m;
      s, m := UndisturbedStep(g, n, k, e, 0);
    }
  }

  lemma OneMoreTurn<T>(prio: T -> nat, l: Line<T>, l1: Line<T>, turn: bool, rest: seq<T>, all: seq<T>)
    requires l1 == (if turn then Turn(prio, l) else l) && rest == Who(prio, l1, |rest|)
    requires all == (if turn then [l.current] else []) + rest
    ensures all == Who(prio, l, |all|)
  {
    assert !turn ==> all == rest;
  }

  lemma {:induction false} TicksAreTurns<T, C>(g: nat, n: nat, k: K.Kernel<T, C>, es: seq<K.Event<T, C>>,
                                               prio: T -> nat)
    requires Steady(g, n, k) && K.Possible(g, k, es) && Undisturbed(es)
    requires forall x :: prio(x) == Weight(k, x)
    ensures Interrupted(g, k, es) == Who(prio, LineOf(k), |Interrupted(g, k, es)|)
    decreases |es|
  {
    if es != [] {
      assert es[0] in es;
      var s := SteadyStep(g, n, k, es[0], prio);
      TicksAreTurns(g, n, s, es[1..], prio);
      OneMoreTurn(prio, LineOf(k), LineOf(s), es[0].Interrupt?, Interrupted(g, s, es[1..]), Interrupted(g, k, es));
    }
  }

  /** From any state with nobody asleep: once as many tasks have been dispatched as were ready, all
      ready tasks have full slices, and from then on the shares are exact. */
  lemma {:induction false} Settles<T, C>(g: nat, n: nat, k: K.Kernel<T, C>, es: seq<K.Event<T, C>>, m: nat)
    requires Calm(g, n, k) && Settled(k, m) && K.Possible(g, k, es) && Undisturbed(es)
    requires R.DispatchCount(g, k, es) >= m
    ensures Steady(g, n, K.Exec(g, k, es))
    decreases |es|
  {
    if es != [] {
      assert es[0] in es;
      var s, m' := UndisturbedStep(g, n, k, es[0], m);
      Settles(g, n, s, es[1..], m');
    }
  }

  /** The ticks that the tasks of l have left, and one more each. */
  ghost function Owed<T, C>(k: K.Kernel<T, C>, l: seq<T>): nat {
    if l == [] then 0 else (if l[0] in k.tcb then k.tcb[l[0]].ticks else 0) + 1 + Owed(k, l[1..])
  }

  lemma {:induction false} SameOwed<T, C>(k: K.Kernel<T, C>, s: K.Kernel<T, C>, l: seq<T>)
    requires s.tcb.Keys == k.tcb.Keys && forall x :: x in l && x in k.tcb ==> s.tcb[x].ticks == k.tcb[x].ticks
    ensures Owed(s, l) == Owed(k, l)
  {
    if l != [] {
      SameOwed(k, s, l[1..]);
    }
  }

  /** The ticks until the first m ready tasks have been dispatched. */
  ghost function Debt<T, C>(k: K.Kernel<T, C>, m: nat): nat
    requires m <= |k.ready|
  {
    if m == 0 then 0 else Owed(k, [k.current] + k.ready[..m - 1])
  }

  lemma FrontOfQueue<T>(ready: seq<T>, current: T, ready': seq<T>, current': T, m: nat)
    requires [current'] + ready' == ready + [current] && 0 < m <= |ready|
    ensures |ready'| == |ready| && (m > 1 ==> [current'] + ready'[..m - 2] == ready[..m - 1])
  {
    var queue := ready + [current];
    assert |[current'] + ready'| == |queue|;
    if m > 1 {
      assert ([current'] + ready')[..m - 1] == [current'] + ready'[..m - 2];
      assert queue[..m - 1] == ready[..m - 1];
    }
  }

  /** Every tick pays one. */
  lemma TurnPays<T, C>(k: K.Kernel<T, C>, s: K.Kernel<T, C>, m: nat)
    requires Turned(k, s) && k.current !in k.ready && m <= |k.ready|
    ensures var m' := if k.tcb[k.current].ticks == 0 && m > 0 then m - 1 else m;
            m' <= |s.ready| && Debt(s, m') == if m == 0 then 0 else Debt(k, m) - 1
  {
    var front := if m == 0 then [] else k.ready[..m - 1];
    if m > 0 {
      assert ([k.current] + front)[1..] == front;
      assert ([s.current] + front)[1..] == front;
      SameOwed(k, s, front);
      if k.tcb[k.current].ticks == 0 {
        FrontOfQueue(k.ready, k.current, s.ready, s.current, m);
      }
    }
  }

  lemma PayStep<T, C>(g: nat, n: nat, k: K.Kernel<T, C>, e: K.Event<T, C>, m: nat)
    returns (s: K.Kernel<T, C>, m': nat)
    requires Calm(g, n, k) && m <= |k.ready| && Settled(k, m)
    requires K.Enabled(g, k, e) && (e.Interrupt? || e.Compute?)
    ensures s == K.Step(g, k, e) && Calm(g, n, s) && Settled(s, m')
    ensures m' <= |s.ready| && Debt(s, m') == if e.Interrupt? && m > 0 then Debt(k, m) - 1 else Debt(k, m)
  {
    if e.Interrupt? {
      s := CalmTick(g, n, k, e.now, m);
      m' := if k.tcb[k.current].ticks == 0 && m > 0 then m - 1 else m;
      CurrentNotReady(k);
      TurnPays(k, s, m);
    } else {
      s, m' := UndisturbedStep(g, n, k, e, m);
      if m > 0 {
        SameOwed(k, s, [k.current] + k.ready[..m - 1]);
      }
    }
  }

  /** How soon: when the ready tasks have used up what they had left, in less than a round. */
  lemma {:induction false} SettlesSoon<T, C>(g: nat, n: nat, k: K.Kernel<T, C>, es: seq<K.Event<T, C>>, m: nat)
    requires Calm(g, n, k) && m <= |k.ready| && Settled(k, m) && K.Possible(g, k, es) && Undisturbed(es)
    requires |Interrupted(g, k, es)| >= Debt(k, m)
    ensures Steady(g, n, K.Exec(g, k, es))
    decreases |es|
  {
    if es != [] {
      assert es[0] in es;
      var s, m' := PayStep(g, n, k, es[0], m);
      SettlesSoon(g, n, s, es[1..], m');
    }
  }

  lemma {:induction false} OwedAtMost<T, C>(k: K.Kernel<T, C>, l: seq<T>)
    requires forall x :: x in l ==> x in k.tcb && k.tcb[x].ticks <= k.tcb[x].priority
    ensures Owed(k, l) <= Total(y => Weight(k, y), l)
  {
    if l != [] {
      var last := l[|l| - 1];
      OwedAtMost(k, l[..|l| - 1]);
      OwedAppend(k, l[..|l| - 1], last);
      assert l == l[..|l| - 1] + [last];
      assert last in l;
    }
  }

  lemma {:induction false} OwedAppend<T, C>(k: K.Kernel<T, C>, l: seq<T>, x: T)
    ensures Owed(k, l + [x]) == Owed(k, l) + (if x in k.tcb then k.tcb[x].ticks else 0) + 1
  {
    if l != [] {
      assert (l + [x])[1..] == l[1..] + [x];
      OwedAppend(k, l[1..], x);
    }
  }

  /** Weighted round robin: over any window of interrupts that is one round long, task x is the
      interrupted one exactly priority + 1 times, for every task on the processor or ready. */
  lemma WeightedRoundRobin<T, C>(g: nat, n: nat, k: K.Kernel<T, C>, es: seq<K.Event<T, C>>, x: T)
    requires Steady(g, n, k) && K.Possible(g, k, es) && Undisturbed(es)
    requires |Interrupted(g, k, es)| == Total(y => Weight(k, y), [k.current] + k.ready)
    requires x == k.current || x in k.ready
    ensures Count(Interrupted(g, k, es), x) == k.tcb[x].priority + 1
  {
    var prio := y => Weight(k, y);
    var queue := [k.current] + k.ready;
    TicksAreTurns(g, n, k, es, prio);
    Shares(prio, LineOf(k), queue, x);
    FourKinds(k, k.current);
    NoDupAppend(k.ready, k.current);
  }

  /** From any state with nobody asleep: after as many ticks as the ready tasks have left, less than a
      round, every window of one round gives every task exactly its share. */
  lemma SharesFromAnyStart<T, C>(g: nat, n: nat, k: K.Kernel<T, C>, es: seq<K.Event<T, C>>,
                                 k1: K.Kernel<T, C>, round: seq<K.Event<T, C>>, x: T)
    requires Calm(g, n, k) && K.Possible(g, k, es) && Undisturbed(es) && k1 == K.Exec(g, k, es)
    requires |Interrupted(g, k, es)| >= Debt(k, |k.ready|)
    requires K.Possible(g, k1, round) && Undisturbed(round)
    requires |Interrupted(g, k1, round)| == Total(y => Weight(k1, y), [k1.current] + k1.ready)
    requires x == k1.current || x in k1.ready
    ensures x in k1.tcb && Count(Interrupted(g, k1, round), x) == k1.tcb[x].priority + 1
  {
    SettlesSoon(g, n, k, es, |k.ready|);
    WeightedRoundRobin(g, n, k1, round, x);
  }

  /** That many ticks are less than a round. */
  lemma DebtAtMost<T, C>(g: nat, n: nat, k: K.Kernel<T, C>)
    requires Calm(g, n, k)
    ensures Debt(k, |k.ready|) < Total(y => Weight(k, y), [k.current] + k.ready)
  {
    if k.ready != [] {
      WholeRound(k, [k.current] + k.ready[..|k.ready| - 1], k.ready[|k.ready| - 1]);
      OwedAtMost(k, [k.current] + k.ready[..|k.ready| - 1]);
    }
  }

  lemma WholeRound<T, C>(k: K.Kernel<T, C>, front: seq<T>, last: T)
    requires front + [last] == [k.current] + k.ready
    ensures Total(y => Weight(k, y), front) < Total(y => Weight(k, y), [k.current] + k.ready)
  {
    assert (front + [last])[..|front|] == front;
  }
}
