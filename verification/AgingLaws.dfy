/** The control blocks under the other scheduler: priorities last for life, and every change of the
    ticks is accounted for. */
module AgingLaws {
  import opened Basics
  import opened Wheel
  import opened WheelHistory
  import opened Kernel
  import K = Kernel
  import opened KernelPartition
  import opened KernelInvariant
  import opened KernelLaws
  import opened Aging
  import opened AgingRuns

  ghost predicate CalledBy<T, C>(g: nat, k: Kernel<T, C>, m: Move<T, C>, x: T) {
    m.Tick011? && Called(g, k, Event<T, C>.Interrupt(m.now), x)
  }

  /** The ticks of x after the move, if they were t and its priority is p. */
  ghost function NextTicks011<T, C>(g: nat, k: Kernel<T, C>, m: Move<T, C>, x: T, p: nat, t: nat): nat {
    if m.Plain? || x !in k.tcb then t
    else if CalledBy(g, k, m, x) then p                            // a sleep ends
    else if !Chooses(k) then (if x == k.current then Less(t) else t)
    else if k.tcb[x].collaborative || IsBlocked(k.tcb[x].status) then Gather(p, t)
    else if x == k.current then p                                  // its slice ends
    else t
  }

  function Less(t: nat): nat {
    if t == 0 then 0 else t - 1
  }

  /** The same priority and tid. */
  ghost predicate SameKind<C>(t: Tcb<C>, u: Tcb<C>) {
    u.priority == t.priority && u.tid == t.tid
  }

  ghost predicate SliceLaw011<T, C>(m: Kernel<T, C>, x: T, s: Kernel<T, C>) {
    && x in m.tcb && x in s.tcb && s.all == m.all && s.part == m.part
    && var t, u := m.tcb[x], s.tcb[x];
    && SameKind(t, u)
    && u.ticks == (if !Chooses(m) then (if x == m.current then Less(t.ticks) else t.ticks)
                   else if t.collaborative || IsBlocked(t.status) then Gather(t.priority, t.ticks)
                   else if x == m.current then t.priority else t.ticks)
  }

  lemma BeforeTcb<T, C>(g: nat, m: Kernel<T, C>, x: T) returns (b: Kernel<T, C>)
    requires g >= 1 && Shaped(m.wheel) && m.current in m.tcb && x in m.tcb
    ensures b == Before(g, m) && b.all == m.all && b.part == m.part && x in b.tcb
    ensures var t, u := m.tcb[x], b.tcb[x];
            && SameKind(t, u) && u.collaborative == t.collaborative
            && if x == m.current && !t.collaborative then u.ticks == t.priority && u.status == READY
               else u.ticks == t.ticks && u.status == t.status
  {
    b := Before(g, m);
  }

  lemma ChosenTcb<T, C>(b: Kernel<T, C>, i: nat, x: T) returns (s: Kernel<T, C>)
    requires CanPick(b, i) && x in b.all && x in b.tcb
    ensures s == Dispatch011(b, i) && s.all == b.all && s.part == b.part && x in s.tcb
    ensures var t, u := b.tcb[x], s.tcb[x];
            SameKind(t, u)
            && u.ticks == if t.collaborative || IsBlocked(t.status) then Gather(t.priority, t.ticks) else t.ticks
  {
    s := Dispatch011(b, i);
  }

  lemma SliceTcb011<T, C>(g: nat, m: Kernel<T, C>, i: nat, x: T) returns (s: Kernel<T, C>)
    requires Partition(m) && CanSlice011(g, m, i) && !Late(m) && Present(m, x)
    ensures s == Slice011(g, m, i) && SliceLaw011(m, x, s)
  {
    if Chooses(m) {
      FreeMeans(m);
      assert StatusOk(m, m.current, Some(m.current));
      var b := BeforeTcb(g, m, x);
      s := ChosenTcb(b, i, x);
    } else {
      s := Slice011(g, m, i);
    }
  }

  lemma TickLaw011<T, C>(g: nat, k: Kernel<T, C>, m: Move<T, C>, x: T, c: Kernel<T, C>, s: Kernel<T, C>)
    requires m.Tick011? && CalledLaw(k, x, CalledBy(g, k, m, x), c) && SliceLaw011(c, x, s)
    ensures x in k.tcb && x in s.tcb && SameKind(k.tcb[x], s.tcb[x]) && s.all == k.all && s.part == k.part
    ensures s.tcb[x].ticks == NextTicks011(g, k, m, x, k.tcb[x].priority, k.tcb[x].ticks)
  {
  }

  lemma TickTcb011<T, C>(g: nat, n: nat, k: Kernel<T, C>, m: Move<T, C>, x: T) returns (s: Kernel<T, C>)
    requires Inv(g, n, k) && CanMove(g, k, m) && m.Tick011? && !Late(k) && Present(k, x)
    ensures s == Moved(g, k, m) && x in s.tcb && SameKind(k.tcb[x], s.tcb[x]) && s.all == k.all && s.part == k.part
    ensures s.tcb[x].ticks == NextTicks011(g, k, m, x, k.tcb[x].priority, k.tcb[x].ticks)
  {
    var c := CalledTcb(g, n, k, m.now, x);
    s := SliceTcb011(g, c, m.pick, x);
    TickLaw011(g, k, m, x, c, s);
  }

  lemma StillPresent011<T, C>(g: nat, n: nat, k: Kernel<T, C>, m: Move<T, C>, x: T)
    requires Inv(g, n, k) && CanMove(g, k, m) && m.Tick011? && !Late(k) && Present(k, x)
    requires var s := Moved(g, k, m); x in s.tcb && s.all == k.all && s.part == k.part
    ensures Present(Moved(g, k, m), x)
  {
    var s := MoveInv(g, n, k, m);
    if x !in k.all {
      assert s.current == k.current by {
        assert k.current in s.part;
      }
    }
  }

  /** The law of every move, for every task that does not just exit. */
  lemma MoveTcb<T, C>(g: nat, n: nat, k: Kernel<T, C>, m: Move<T, C>, x: T) returns (s: Kernel<T, C>)
    requires Inv(g, n, k) && CanMove(g, k, m) && MoveFits(n, k, m) && Present(k, x) && !Leaves(k, m, x)
    ensures s == Moved(g, k, m) && Present(s, x) && SameKind(k.tcb[x], s.tcb[x])
    ensures s.tcb[x].ticks == NextTicks011(g, k, m, x, k.tcb[x].priority, k.tcb[x].ticks)
  {
    match m
    case Plain(e) =>
      s := StepTcb(g, n, k, e, x);
    case Tick011(now, i) =>
      s := TickTcb011(g, n, k, m, x);
      StillPresent011(g, n, k, m, x);
  }

  ghost predicate Leaves<T, C>(k: Kernel<T, C>, m: Move<T, C>, x: T) {
    m.Plain? && m.event.Exit? && x == k.current
  }

  /** x does not exit during the run. */
  ghost predicate Stays<T, C>(g: nat, n: nat, k: Kernel<T, C>, ms: seq<Move<T, C>>, x: T)
    requires CanGo(g, n, k, ms)
    decreases |ms|
  {
    ms != [] ==> !Leaves(k, ms[0], x) && Stays(g, n, Moved(g, k, ms[0]), ms[1..], x)
  }

  ghost function TicksOver011<T, C>(g: nat, n: nat, k: Kernel<T, C>, ms: seq<Move<T, C>>, x: T, p: nat, t: nat): nat
    requires CanGo(g, n, k, ms)
    decreases |ms|
  {
    if ms == [] then t
    else TicksOver011(g, n, Moved(g, k, ms[0]), ms[1..], x, p, NextTicks011(g, k, ms[0], x, p, t))
  }

  /** Over every run of this scheduler a task keeps its priority and its tid until it exits, and its ticks
      are what the moves have made of them. */
  lemma {:induction false} GoTcb<T, C>(g: nat, n: nat, k: Kernel<T, C>, ms: seq<Move<T, C>>, x: T)
    requires Inv(g, n, k) && CanGo(g, n, k, ms) && Present(k, x) && Stays(g, n, k, ms, x)
    ensures var s, t := Go(g, n, k, ms), k.tcb[x];
            && Present(s, x) && SameKind(t, s.tcb[x])
            && s.tcb[x].ticks == TicksOver011(g, n, k, ms, x, t.priority, t.ticks)
    decreases |ms|
  {
    if ms != [] {
      var s := MoveTcb(g, n, k, ms[0], x);
      var s' := MoveInv(g, n, k, ms[0]);
      GoTcb(g, n, s, ms[1..], x);
    }
  }
}
