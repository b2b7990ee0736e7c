/** The scheduler with get_next_task_011 in the place of get_next_task: it keeps the invariant, and
    the ticks of a waiting task follow the closed form over every run. */
module AgingRuns {
  import opened Basics
  import opened Wheel
  import WheelPlacement
  import opened WheelAgenda
  import opened WheelTheorems
  import opened Kernel
  import K = Kernel
  import opened KernelPartition
  import opened KernelInvariant
  import opened Aging

  /** The i-th task of all is the choice. */
  ghost predicate CanPick<T, C>(k: Kernel<T, C>, i: nat) {
    (forall x :: x in k.all ==> x in k.tcb) && IsPick(AgeAll(k), |k.all|, i)
  }

  /** The rest of schedule and collaborative_schedule, once the current task's context is saved. */
  ghost function Dispatch011<T, C>(k: Kernel<T, C>, i: nat): Kernel<T, C>
    requires CanPick(k, i)
  {
    Next011(k, i).(current := k.all[i], cpu := k.tcb[k.all[i]].context)
  }

  /** The current task, at the end of the ready list with a full time slice. */
  ghost function Queued<T, C>(k: Kernel<T, C>): Kernel<T, C>
    requires k.current in k.tcb
  {
    var t := k.tcb[k.current];
    SetTcb(k, k.current, t.(context := k.cpu, ticks := t.priority, status := READY))
      .(ready := k.ready + [k.current])
  }

  /** The current task, with its sleep begun. */
  ghost function Resting<T, C>(g: nat, k: Kernel<T, C>): Kernel<T, C>
    requires g >= 1 && Shaped(k.wheel) && k.current in k.tcb
  {
    Save(k).(wheel := Create(g, k.wheel, Some(k.current), k.tcb[k.current].sleepMs, 0))
  }

  /** Does the rest of the tick handler choose a task? */
  ghost predicate Chooses<T, C>(k: Kernel<T, C>) {
    k.current in k.tcb && (k.tcb[k.current].collaborative || k.tcb[k.current].ticks == 0)
  }

  /** The state in which it does so. */
  ghost function Before<T, C>(g: nat, k: Kernel<T, C>): Kernel<T, C>
    requires g >= 1 && Shaped(k.wheel) && k.current in k.tcb
  {
    if k.tcb[k.current].collaborative then Resting(g, k) else Queued(k)
  }

  ghost predicate CanSlice011<T, C>(g: nat, k: Kernel<T, C>, i: nat) {
    && g >= 1 && Shaped(k.wheel) && k.current in k.tcb
    && (Chooses(k) ==> CanPick(Before(g, k), i))
  }

  ghost function Slice011<T, C>(g: nat, k: Kernel<T, C>, i: nat): Kernel<T, C>
    requires CanSlice011(g, k, i)
  {
    var t := k.tcb[k.current];
    if Chooses(k) then Dispatch011(Before(g, k), i) else SetTcb(k, k.current, t.(ticks := t.ticks - 1))
  }

  // ----- the invariant

  lemma Dispatch011Parts<T, C>(k: Kernel<T, C>, i: nat) returns (s: Kernel<T, C>)
    requires Parts(k, None) && k.part == map[] && CanPick(k, i)
    ensures s == Dispatch011(k, i) && Partition(s) && s.current in k.ready
    ensures !k.tcb[s.current].collaborative
  {
    Next011Parts(k, i);
    s := Dispatch011(k, i);
    assert StatusOk(k, s.current, None);
    SameLists(Next011(k, i).(current := s.current), s);
  }

  lemma QueuedParts<T, C>(k: Kernel<T, C>)
    requires Partition(k) && Free(k) && !k.tcb[k.current].collaborative
    ensures Parts(Queued(k), None) && Queued(k).part == map[]
  {
    FreeMeans(k);
    var q := Queued(k);
    assert StatusOk(k, k.current, Some(k.current));
    NoDupAppend(k.ready, k.current);
    forall x | x in q.all ensures StatusOk(q, x, None) {
      assert StatusOk(k, x, Some(k.current));
    }
  }

  lemma RestingParts<T, C>(g: nat, k: Kernel<T, C>)
    requires g >= 1 && Shaped(k.wheel) && Partition(k) && k.tcb[k.current].collaborative
    ensures Parts(Resting(g, k), None) && Resting(g, k).part == map[]
  {
    FreeMeans(k);
    var q := Resting(g, k);
    forall x | x in q.all ensures StatusOk(q, x, None) {
      assert StatusOk(k, x, Some(k.current));
    }
  }

  lemma BeforeParts<T, C>(g: nat, k: Kernel<T, C>)
    requires g >= 1 && Shaped(k.wheel) && Partition(k) && Chooses(k) && !Late(k)
    ensures Parts(Before(g, k), None) && Before(g, k).part == map[]
  {
    if k.tcb[k.current].collaborative {
      RestingParts(g, k);
    } else {
      QueuedParts(k);
    }
  }

  /** What the choice leaves alone. */
  lemma Dispatch011Fields<T, C>(k: Kernel<T, C>, i: nat) returns (s: Kernel<T, C>)
    requires CanPick(k, i)
    ensures s == Dispatch011(k, i) && SameFields(k, s) && s.wheel == k.wheel && s.current == k.all[i]
  {
    s := Dispatch011(k, i);
  }

  lemma BeforeFields<T, C>(g: nat, k: Kernel<T, C>) returns (b: Kernel<T, C>)
    requires g >= 1 && Shaped(k.wheel) && k.current in k.tcb
    ensures b == Before(g, k) && SameFields(k, b)
    ensures b.wheel == if k.tcb[k.current].collaborative
                       then Create(g, k.wheel, Some(k.current), k.tcb[k.current].sleepMs, 0) else k.wheel
    ensures k.tcb[k.current].collaborative ==> b.ready == k.ready
  {
    b := Before(g, k);
  }

  /** Choosing keeps everything in its place: the choice is a ready task. */
  lemma ChooseParts<T, C>(g: nat, k: Kernel<T, C>, i: nat) returns (s: Kernel<T, C>)
    requires CanSlice011(g, k, i) && Partition(k) && Chooses(k) && !Late(k)
    ensures s == Slice011(g, k, i) && Partition(s) && SameFields(k, s)
    ensures s.current in s.tcb && !s.tcb[s.current].collaborative
    ensures s.wheel == if k.tcb[k.current].collaborative
                       then Create(g, k.wheel, Some(k.current), k.tcb[k.current].sleepMs, 0) else k.wheel
  {
    var b := BeforeFields(g, k);
    BeforeParts(g, k);
    s := Dispatch011Fields(b, i);
    s := Dispatch011Parts(b, i);
  }

  lemma ChooseInv<T, C>(g: nat, n: nat, k: Kernel<T, C>, i: nat) returns (s: Kernel<T, C>)
    requires Inv(g, n, k) && CanSlice011(g, k, i) && Chooses(k) && !Late(k)
    ensures s == Slice011(g, k, i) && Inv(g, n, s)
  {
    s := ChooseParts(g, k, i);
    SameTids(n, k, s);
    if k.tcb[k.current].collaborative {
      WheelPlacement.CreateInv(g, k.wheel, Some(k.current), k.tcb[k.current].sleepMs, 0);
      FallAsleep(g, k, s, k.tcb[k.current].sleepMs);
    } else {
      SameSleepers(k, s);
    }
  }

  lemma Slice011Inv<T, C>(g: nat, n: nat, k: Kernel<T, C>, i: nat) returns (s: Kernel<T, C>)
    requires Inv(g, n, k) && CanSlice011(g, k, i) && !Late(k)
    ensures s == Slice011(g, k, i) && Inv(g, n, s)
  {
    if Chooses(k) {
      s := ChooseInv(g, n, k, i);
    } else {
      assert CanSlice(k) by {
        assert k.ready != [] ==> k.ready[0] in k.ready;
      }
      s := SliceInv(g, n, k);
    }
  }

  // ----- its runs

  datatype Move<T, C> =
    | Plain(event: Event<T, C>)         // any event but a tick
    | Tick011(now: nat, pick: nat)

  ghost predicate CanMove<T, C>(g: nat, k: Kernel<T, C>, m: Move<T, C>) {
    match m
    case Plain(e) => !e.Interrupt? && K.Enabled(g, k, e)
    case Tick011(now, i) =>
      && g >= 1 && Shaped(k.wheel) && Known(k, Run(g, k.wheel, now).1)
      && CanSlice011(g, Timers(g, k, now), i)
  }

  ghost function Moved<T, C>(g: nat, k: Kernel<T, C>, m: Move<T, C>): Kernel<T, C>
    requires CanMove(g, k, m)
  {
    match m
    case Plain(e) => Step(g, k, e)
    case Tick011(now, i) => Slice011(g, Timers(g, k, now), i)
  }

  /** Does the move pass over the list of all tasks? */
  ghost predicate Passes011<T, C>(g: nat, k: Kernel<T, C>, m: Move<T, C>) {
    m.Tick011? && Chooses(k)
  }

  ghost predicate MoveFits<T, C>(n: nat, k: Kernel<T, C>, m: Move<T, C>) {
    match m
    case Plain(e) => Fits(n, k, e)
    case Tick011(_, _) => !Late(k)
  }

  lemma MoveInv<T, C>(g: nat, n: nat, k: Kernel<T, C>, m: Move<T, C>) returns (s: Kernel<T, C>)
    requires Inv(g, n, k) && CanMove(g, k, m) && MoveFits(n, k, m)
    ensures s == Moved(g, k, m) && Inv(g, n, s)
  {
    match m
    case Plain(e) =>
      s := StepInv(g, n, k, e);
    case Tick011(now, i) =>
      TimersInv(g, n, k, now);
      CurrentKept(g, k, now);
      s := Slice011Inv(g, n, Timers(g, k, now), i);
  }

  ghost predicate CanGo<T, C>(g: nat, n: nat, k: Kernel<T, C>, ms: seq<Move<T, C>>)
    decreases |ms|
  {
    ms != [] ==> CanMove(g, k, ms[0]) && MoveFits(n, k, ms[0]) && CanGo(g, n, Moved(g, k, ms[0]), ms[1..])
  }

  ghost function Go<T, C>(g: nat, n: nat, k: Kernel<T, C>, ms: seq<Move<T, C>>): Kernel<T, C>
    requires CanGo(g, n, k, ms)
    decreases |ms|
  {
    if ms == [] then k else Go(g, n, Moved(g, k, ms[0]), ms[1..])
  }

  /** In every state that the other scheduler reaches, the invariant holds. */
  lemma {:induction false} GoInv<T, C>(g: nat, n: nat, k: Kernel<T, C>, ms: seq<Move<T, C>>)
    requires Inv(g, n, k) && CanGo(g, n, k, ms)
    ensures Inv(g, n, Go(g, n, k, ms))
    decreases |ms|
  {
    if ms != [] {
      var s := MoveInv(g, n, k, ms[0]);
      GoInv(g, n, s, ms[1..]);
    }
  }

  // ----- ticks of a waiting task

  /** x is live and blocked or asleep. */
  ghost predicate Idle<T, C>(k: Kernel<T, C>, x: T) {
    x in k.all && x in k.tcb && x != k.current && (IsBlocked(k.tcb[x].status) || k.tcb[x].collaborative)
  }

  ghost predicate IdleThroughout<T, C>(g: nat, n: nat, k: Kernel<T, C>, ms: seq<Move<T, C>>, x: T)
    requires CanGo(g, n, k, ms)
    decreases |ms|
  {
    Idle(k, x) && (ms != [] ==> IdleThroughout(g, n, Moved(g, k, ms[0]), ms[1..], x))
  }

  ghost function PassCount<T, C>(g: nat, n: nat, k: Kernel<T, C>, ms: seq<Move<T, C>>): nat
    requires CanGo(g, n, k, ms)
    decreases |ms|
  {
    if ms == [] then 0
    else (if Passes011(g, k, ms[0]) then 1 else 0) + PassCount(g, n, Moved(g, k, ms[0]), ms[1..])
  }

  /** No event of the scheduler changes the ticks or the priority of a task that stays idle. */
  lemma PlainIdle<T, C>(g: nat, k: Kernel<T, C>, e: Event<T, C>, x: T) returns (s: Kernel<T, C>)
    requires Partition(k) && K.Enabled(g, k, e) && !e.Interrupt? && Idle(k, x)
    ensures s == Step(g, k, e) && x in s.tcb
    ensures s.tcb[x].ticks == k.tcb[x].ticks && s.tcb[x].priority == k.tcb[x].priority
  {
    s := Step(g, k, e);
    if e.Start? {
      assert k.pool != [] ==> k.pool[0] in k.pool;
    }
  }

  /** Nor do the callbacks, unless they wake it. */
  lemma TimersIdle<T, C>(g: nat, k: Kernel<T, C>, now: nat, x: T)
    requires g >= 1 && Shaped(k.wheel) && Known(k, Run(g, k.wheel, now).1) && Idle(k, x)
    ensures Timers(g, k, now).tcb[x] == k.tcb[x]
            || (Timers(g, k, now).tcb[x].status == READY && !Timers(g, k, now).tcb[x].collaborative)
  {
    CallBackOne(k.(wheel := Run(g, k.wheel, now).0), Run(g, k.wheel, now).1, x);
  }

  lemma SliceIdle<T, C>(g: nat, k: Kernel<T, C>, i: nat, x: T) returns (s: Kernel<T, C>)
    requires CanSlice011(g, k, i) && x in k.all && x in k.tcb && x != k.current
    ensures s == Slice011(g, k, i) && x in s.tcb && s.tcb[x].collaborative == k.tcb[x].collaborative
    ensures !Idle(k, x) ==> !Idle(s, x)
    ensures s.tcb[x].priority == k.tcb[x].priority
    ensures Idle(k, x) && Chooses(k) ==> s.tcb[x].ticks == Gather(k.tcb[x].priority, k.tcb[x].ticks)
    ensures !Chooses(k) ==> s.tcb[x].ticks == k.tcb[x].ticks
  {
    s := Slice011(g, k, i);
  }

  /** One move: a pass gathers, anything else does not. */
  lemma MoveIdle<T, C>(g: nat, n: nat, k: Kernel<T, C>, m: Move<T, C>, x: T) returns (s: Kernel<T, C>)
    requires Inv(g, n, k) && CanMove(g, k, m) && Idle(k, x) && Idle(Moved(g, k, m), x)
    ensures s == Moved(g, k, m) && s.tcb[x].priority == k.tcb[x].priority
    ensures s.tcb[x].ticks == if Passes011(g, k, m) then Gather(k.tcb[x].priority, k.tcb[x].ticks)
                              else k.tcb[x].ticks
  {
    match m
    case Plain(e) =>
      s := PlainIdle(g, k, e, x);
    case Tick011(now, i) =>
      CurrentKept(g, k, now);
      CallBackKeeps(k.(wheel := Run(g, k.wheel, now).0), Run(g, k.wheel, now).1);
      TimersIdle(g, k, now, x);
      s := SliceIdle(g, Timers(g, k, now), i, x);
  }

  lemma MovePasses<T, C>(g: nat, n: nat, k: Kernel<T, C>, m: Move<T, C>, x: T) returns (s: Kernel<T, C>)
    requires Inv(g, n, k) && CanMove(g, k, m) && MoveFits(n, k, m) && Idle(k, x) && Idle(Moved(g, k, m), x)
    ensures s == Moved(g, k, m) && Inv(g, n, s) && x in s.tcb && s.tcb[x].priority == k.tcb[x].priority
    ensures forall c: nat :: Passes(k.tcb[x].priority, k.tcb[x].ticks, (if Passes011(g, k, m) then 1 else 0) + c)
                             == Passes(k.tcb[x].priority, s.tcb[x].ticks, c)
  {
    s := MoveInv(g, n, k, m);
    var s' := MoveIdle(g, n, k, m, x);
  }

  /** Over every run of this scheduler in which x stays blocked or asleep, whatever else happens,
      its ticks are what that many passes make of them. */
  lemma {:induction false} TicksPassed<T, C>(g: nat, n: nat, k: Kernel<T, C>, ms: seq<Move<T, C>>, x: T)
    requires Inv(g, n, k) && CanGo(g, n, k, ms) && IdleThroughout(g, n, k, ms, x)
    ensures var s, t := Go(g, n, k, ms), k.tcb[x];
            x in s.tcb && s.tcb[x].ticks == Passes(t.priority, t.ticks, PassCount(g, n, k, ms))
    decreases |ms|
  {
    if ms != [] {
      var s := MovePasses(g, n, k, ms[0], x);
      TicksPassed(g, n, s, ms[1..], x);
    }
  }

  /** And so they follow the closed form in the number of passes. */
  lemma TicksGathered<T, C>(g: nat, n: nat, k: Kernel<T, C>, ms: seq<Move<T, C>>, x: T)
    requires Inv(g, n, k) && CanGo(g, n, k, ms) && IdleThroughout(g, n, k, ms, x)
    requires k.tcb[x].priority <= 128 && k.tcb[x].ticks <= 255
    ensures var s, t := Go(g, n, k, ms), k.tcb[x];
            x in s.tcb && s.tcb[x].ticks == Gathered(t.priority, t.ticks, PassCount(g, n, k, ms))
  {
    TicksPassed(g, n, k, ms, x);
    PassesClosedForm(k.tcb[x].priority, k.tcb[x].ticks, PassCount(g, n, k, ms));
  }

  /** There is a task to choose, and only one, unless a task goes to sleep and no other is ready. */
  lemma TickPossible<T, C>(g: nat, n: nat, k: Kernel<T, C>, now: nat) returns (i: nat)
    requires Inv(g, n, k) && !Late(k)
    ensures Known(k, Run(g, k.wheel, now).1)
    ensures CanMove(g, k, Move<T, C>.Tick011(now, i)) <==>
              (k.tcb[k.current].collaborative ==> Timers(g, k, now).ready != [])
    ensures Chooses(k) ==> forall j: nat :: CanSlice011(g, Timers(g, k, now), j) ==> j == i
  {
    TimersInv(g, n, k, now);
    CurrentKept(g, k, now);
    i := 0;
    if Chooses(k) {
      i := PickFor(g, Timers(g, k, now));
    }
  }

  lemma PickFor<T, C>(g: nat, k: Kernel<T, C>) returns (i: nat)
    requires g >= 1 && Shaped(k.wheel) && Partition(k) && Chooses(k) && !Late(k)
    ensures CanPick(Before(g, k), i) <==> (k.tcb[k.current].collaborative ==> k.ready != [])
    ensures forall j: nat :: CanPick(Before(g, k), j) ==> j == i
  {
    var b := BeforeFields(g, k);
    BeforeParts(g, k);
    var a := AgeAll(b);
    i := PickExists(a, |b.all|);
    forall j | 0 <= j < |b.all| ensures a.tcb[b.all[j]].status == READY <==> b.all[j] in b.ready {
      assert StatusOk(b, b.all[j], None);
    }
    if b.ready != [] {
      assert b.ready[0] in b.all;
    }
  }
}
