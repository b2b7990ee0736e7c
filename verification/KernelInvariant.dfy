/** The full invariant of the scheduler, kept by every event and so true in every reachable
    state: the partition of the tasks, one alarm for every sleeper, and sound tids. */
module KernelInvariant {
  import opened Basics
  import opened Wheel
  import W = Wheel
  import WheelPlacement
  import opened WheelAgenda
  import opened WheelHistory
  import opened WheelTheorems
  import opened Kernel
  import K = Kernel
  import opened KernelPartition

  // ----- sleepers and their alarms

  /** The wheel holds one alarm for x, a one-shot timer. */
  ghost predicate Alarmed<T>(m: multiset<Timer<Option<T>>>, x: T) {
    exists tm :: tm in m && tm.period == 0 && Holds(m, Some(x), Some(tm))
  }

  ghost predicate NoAlarm<T>(m: multiset<Timer<Option<T>>>, x: T) {
    Holds(m, Some(x), None)
  }

  /** With `log` the callbacks still to be made: a sleeper has one alarm pending, or one call
      coming; nobody else has either.  With an empty log: asleep if and only if one alarm. */
  ghost predicate AlarmOk<T, C>(k: Kernel<T, C>, log: seq<Firing<Option<T>>>, x: T) {
    var m := Pending(k.wheel.slots);
    if Asleep(k, x) then
      || (Ticks(log, Some(x)) == [] && Alarmed(m, x))
      || (|Ticks(log, Some(x))| == 1 && NoAlarm(m, x))
    else Ticks(log, Some(x)) == [] && NoAlarm(m, x)
  }

  ghost predicate Alarms<T, C>(k: Kernel<T, C>, log: seq<Firing<Option<T>>>) {
    && (forall x :: x in k.tcb ==> AlarmOk(k, log, x))
    && (forall f :: f in log && f.timer.param.Some? ==> f.timer.param.value in k.tcb)
    && (forall tm :: tm in Pending(k.wheel.slots) && tm.param.Some? ==> tm.param.value in k.tcb)
  }

  lemma {:induction false} InTicks<T>(log: seq<Firing<T>>, f: Firing<T>)
    requires f in log
    ensures Ticks(log, f.timer.param) != []
  {
    if f != log[0] {
      InTicks(log[1..], f);
    }
  }

  lemma {:induction false} TicksIn<T>(log: seq<Firing<T>>, x: T)
    requires Ticks(log, x) != []
    ensures exists f :: f in log && f.timer.param == x
  {
    if log[0].timer.param == x {
      assert log[0] in log;
    } else {
      TicksIn(log[1..], x);
      var f :| f in log[1..] && f.timer.param == x;
      assert f in log;
    }
  }

  /** Changing control blocks and lists, but nobody's sleep, keeps the alarms. */
  lemma SameSleepers<T, C>(k: Kernel<T, C>, s: Kernel<T, C>)
    requires Alarms(k, []) && s.wheel == k.wheel && k.tcb.Keys <= s.tcb.Keys
    requires forall x :: x in s.tcb ==> (Asleep(s, x) <==> Asleep(k, x))
    ensures Alarms(s, [])
  {
    forall x | x in s.tcb ensures AlarmOk(s, [], x) {
      if x in k.tcb {
        assert AlarmOk(k, [], x);
      } else {
        assert NoAlarm(Pending(k.wheel.slots), x);
      }
    }
  }

  /** run_timer turns pending alarms into calls, each sleeper's at most once. */
  lemma RunAlarms<T, C>(g: nat, k: Kernel<T, C>, now: nat)
    requires WheelPlacement.Valid(g, k.wheel) && Alarms(k, [])
    ensures var (w, log) := Run(g, k.wheel, now);
            Alarms(k.(wheel := w), log) && WheelPlacement.Valid(g, w)
  {
    var (w, log) := Run(g, k.wheel, now);
    var r := k.(wheel := w);
    WheelPlacement.RunInv(g, k.wheel, now);
    forall x | x in r.tcb ensures AlarmOk(r, log, x) {
      assert AlarmOk(k, [], x);
      RunAlarm(g, k.wheel, now, x, Asleep(k, x));
    }
    forall f | f in log && f.timer.param.Some? ensures f.timer.param.value in k.tcb {
      RunKnown(g, k.wheel, now, k.tcb.Keys);
    }
    forall tm | tm in Pending(w.slots) && tm.param.Some? ensures tm.param.value in k.tcb {
      RunKnown(g, k.wheel, now, k.tcb.Keys);
    }
  }

  lemma RunAlarm<T>(g: nat, w: Wheel<Option<T>>, now: nat, x: T, asleep: bool)
    requires WheelPlacement.Valid(g, w)
    requires if asleep then Alarmed(Pending(w.slots), x) else NoAlarm(Pending(w.slots), x)
    ensures var (w1, log) := Run(g, w, now);
            || (Ticks(log, Some(x)) == []
                && if asleep then Alarmed(Pending(w1.slots), x) else NoAlarm(Pending(w1.slots), x))
            || (asleep && |Ticks(log, Some(x))| == 1 && NoAlarm(Pending(w1.slots), x))
  {
    if asleep {
      var tm :| tm in Pending(w.slots) && tm.period == 0 && Holds(Pending(w.slots), Some(x), Some(tm));
      var tm' := RunHolds(g, w, now, Some(x), Some(tm));
    } else {
      var tm' := RunHolds(g, w, now, Some(x), None);
    }
  }

  /** All alarms of m are for tasks among `keys`. */
  ghost predicate ForKeys<T>(m: multiset<Timer<Option<T>>>, keys: set<T>) {
    forall tm :: tm in m && tm.param.Some? ==> tm.param.value in keys
  }

  lemma {:induction false} RearmedForKeys<T>(now: nat, fired: seq<Timer<Option<T>>>, keys: set<T>)
    requires forall tm :: tm in fired && tm.param.Some? ==> tm.param.value in keys
    ensures forall tm :: tm in Rearmed(now, fired) && tm.param.Some? ==> tm.param.value in keys
  {
    if fired != [] {
      RearmedForKeys(now, fired[1..], keys);
    }
  }

  /** run_timer calls nobody, and arms nobody, who had no timer. */
  lemma {:induction false} RunKnown<T>(g: nat, w: Wheel<Option<T>>, now: nat, keys: set<T>)
    requires g >= 1 && Shaped(w) && ForKeys(Pending(w.slots), keys)
    ensures ForKeys(Pending(Run(g, w, now).0.slots), keys)
    ensures forall f :: f in Run(g, w, now).1 && f.timer.param.Some? ==> f.timer.param.value in keys
    decreases now + 1 - w.jiffies
  {
    if now >= w.jiffies {
      var (w1, fired) := W.Tick(g, w);
      TickConserves(g, w);
      forall tm | tm in fired ensures tm in Pending(w.slots) {
        assert multiset(fired)[tm] > 0;
      }
      RearmedForKeys(w.jiffies, fired, keys);
      RunKnown(g, w1, now, keys);
      forall f | f in Run(g, w, now).1 && f.timer.param.Some? ensures f.timer.param.value in keys {
        if f in Stamp(w.jiffies, fired) {
          assert f.timer in fired;
        } else {
          assert f in Run(g, w1, now).1;
        }
      }
    }
  }

  /** The assertion in collaborative_schedule_helper, at every callback of a run_timer. */
  ghost predicate Asserted<T, C>(k: Kernel<T, C>, log: seq<Firing<Option<T>>>)
    requires Known(k, log)
    decreases |log|
  {
    log != [] ==>
      match log[0].timer.param
      case Some(x) => x !in k.ready && Asserted(Wake(k, x), log[1..])
      case None => Asserted(k, log[1..])
  }

  /** One callback: its sleeper is woken, and the alarms agree with the rest of the calls. */
  lemma WakeAlarms<T, C>(k: Kernel<T, C>, log: seq<Firing<Option<T>>>, x: T)
    requires Partition(k) && Alarms(k, log) && log != [] && log[0].timer.param == Some(x)
    ensures Asleep(k, x) && Alarms(Wake(k, x), log[1..])
  {
    var w := Wake(k, x);
    assert AlarmOk(k, log, x);
    assert Ticks(log, Some(x)) == [log[0].at] + Ticks(log[1..], Some(x));
    forall y | y in w.tcb ensures AlarmOk(w, log[1..], y) {
      assert AlarmOk(k, log, y);
    }
  }

  lemma CleanAlarms<T, C>(k: Kernel<T, C>, log: seq<Firing<Option<T>>>)
    requires Alarms(k, log) && log != [] && log[0].timer.param == None
    ensures Alarms(k, log[1..])
  {
    forall y | y in k.tcb ensures AlarmOk(k, log[1..], y) {
      assert AlarmOk(k, log, y);
    }
  }

  /** All the callbacks: they wake sleepers only, and each of them properly. */
  lemma {:induction false} CallBackInv<T, C>(k: Kernel<T, C>, log: seq<Firing<Option<T>>>)
    requires Partition(k) && Alarms(k, log)
    ensures Known(k, log) && Asserted(k, log)
    ensures Partition(CallBack(k, log)) && Alarms(CallBack(k, log), [])
    decreases |log|
  {
    if log != [] {
      match log[0].timer.param
      case Some(x) =>
        WakeAlarms(k, log, x);
        WakeParts(k, x);
        CallBackInv(Wake(k, x), log[1..]);
      case None =>
        CleanAlarms(k, log);
        CallBackInv(k, log[1..]);
    }
  }

  /** What the callbacks leave alone. */
  lemma {:induction false} CallBackKeeps<T, C>(k: Kernel<T, C>, log: seq<Firing<Option<T>>>)
    requires Known(k, log)
    ensures var r := CallBack(k, log);
            && r.all == k.all && r.pool == k.pool && r.bits == k.bits && r.cpu == k.cpu && r.main == k.main
            && r.part == k.part
            && (forall x :: x in k.tcb ==> r.tcb[x].tid == k.tcb[x].tid && r.tcb[x].context == k.tcb[x].context)
            && k.ready <= r.ready
    decreases |log|
  {
    if log != [] {
      match log[0].timer.param
      case Some(x) => CallBackKeeps(Wake(k, x), log[1..]);
      case None => CallBackKeeps(k, log[1..]);
    }
  }

  /** A sleeper that is called back is READY, in the ready list, with a full time slice;
      a task that is not called back is as before. */
  lemma {:induction false} CallBackOne<T, C>(k: Kernel<T, C>, log: seq<Firing<Option<T>>>, x: T)
    requires Known(k, log) && x in k.tcb
    ensures var r := CallBack(k, log);
            if Ticks(log, Some(x)) == [] then r.tcb[x] == k.tcb[x]
            else x in r.ready
                 && r.tcb[x] == k.tcb[x].(ticks := k.tcb[x].priority, status := READY,
                                          collaborative := false, sleepMs := 0)
    decreases |log|
  {
    if log != [] {
      match log[0].timer.param
      case Some(y) =>
        CallBackOne(Wake(k, y), log[1..], x);
        CallBackKeeps(Wake(k, y), log[1..]);
        if x == y {
          assert x in Wake(k, y).ready;
        }
      case None =>
        CallBackOne(k, log[1..], x);
    }
  }

  // ----- tids

  ghost function TidOf<T, C>(k: Kernel<T, C>, x: T): int {
    if x in k.tcb then k.tcb[x].tid else 0
  }

  /** The tasks that hold a tid: the live ones, the one being started, the one not yet quite gone. */
  ghost function Owners<T, C>(k: Kernel<T, C>): seq<T> {
    if Newborn(k).Some? then k.all + [Newborn(k).value]
    else if k.current in k.part && k.part[k.current] == Leaving then k.all + [k.current]
    else k.all
  }

  /** Tids are in 1..n and distinct, and the set bits are those of their owners. */
  ghost predicate TidsOk<T, C>(n: nat, k: Kernel<T, C>) {
    && n <= 32767 && |k.bits| == TID_BITS
    && (forall x :: x in Owners(k) ==> x in k.tcb && 1 <= TidOf(k, x) <= n && k.bits[TidOf(k, x) - 1])
    && (forall x, y {:trigger TidOf(k, x), TidOf(k, y)} ::
          x in Owners(k) && y in Owners(k) && TidOf(k, x) == TidOf(k, y) ==> x == y)
    && (forall i :: 0 <= i < |k.bits| && k.bits[i] ==> Taken(k, i + 1))
  }

  ghost predicate Taken<T, C>(k: Kernel<T, C>, tid: int) {
    exists x :: x in Owners(k) && TidOf(k, x) == tid
  }

  lemma {:induction false} FewMembers<E>(s: seq<E>)
    ensures |set e | e in s| <= |s|
  {
    if s != [] {
      FewMembers(s[1..]);
      assert (set e | e in s) == {s[0]} + set e | e in s[1..];
    }
  }

  ghost function UpTo(b: nat): set<int> {
    if b == 0 then {} else UpTo(b - 1) + {b}
  }

  lemma {:induction false} UpToSize(b: nat)
    ensures |UpTo(b)| == b
    ensures forall i :: i in UpTo(b) <==> 1 <= i <= b
  {
    if b > 0 {
      UpToSize(b - 1);
    }
  }

  /** First fit finds a bit below the number of owners. */
  lemma FirstFitBound<T, C>(n: nat, k: Kernel<T, C>)
    requires TidsOk(n, k)
    ensures FirstClear(k.bits) <= |Owners(k)|
  {
    var b, os := FirstClear(k.bits), Owners(k);
    var tids := seq(|os|, i requires 0 <= i < |os| => TidOf(k, os[i]));
    forall t: int | 1 <= t <= b ensures t in tids {
      assert k.bits[t - 1];
      var x :| x in os && TidOf(k, x) == t;
      var i :| 0 <= i < |os| && os[i] == x;
      assert tids[i] == t;
    }
    FewMembers(tids);
    UpToSize(b);
    SubsetSize(UpTo(b), set t | t in tids);
  }

  lemma {:induction false} SubsetSize<E>(a: set<E>, b: set<E>)
    requires a <= b
    ensures |a| <= |b|
  {
    if a != {} {
      var e :| e in a;
      SubsetSize(a - {e}, b - {e});
    }
  }

  lemma AddTid<T, C>(n: nat, k: Kernel<T, C>, s: Kernel<T, C>, task: T, b: nat)
    requires TidsOk(n, k) && task !in Owners(k) && b < n && !k.bits[b]
    requires Owners(s) == Owners(k) + [task] && s.bits == k.bits[b := true]
    requires task in s.tcb && TidOf(s, task) == b + 1
    requires forall x :: x in Owners(k) ==> x in s.tcb && TidOf(s, x) == TidOf(k, x)
    ensures TidsOk(n, s)
  {
    forall x, y | x in Owners(s) && y in Owners(s) && TidOf(s, x) == TidOf(s, y) ensures x == y {
      assert x in Owners(k) ==> k.bits[TidOf(k, x) - 1];
      assert y in Owners(k) ==> k.bits[TidOf(k, y) - 1];
    }
    forall i | 0 <= i < |s.bits| && s.bits[i] ensures Taken(s, i + 1) {
      if i == b {
        assert task in Owners(s);
      } else {
        assert Taken(k, i + 1);
        var x :| x in Owners(k) && TidOf(k, x) == i + 1;
        assert x in Owners(s);
      }
    }
  }

  lemma DropTid<T, C>(n: nat, k: Kernel<T, C>, s: Kernel<T, C>, task: T)
    requires TidsOk(n, k) && task in Owners(k)
    requires forall x :: x in Owners(s) <==> x in Owners(k) && x != task
    requires s.bits == k.bits[TidOf(k, task) - 1 := false]
    requires k.tcb.Keys <= s.tcb.Keys && forall x :: x in k.tcb ==> TidOf(s, x) == TidOf(k, x)
    ensures TidsOk(n, s)
  {
    forall i | 0 <= i < |s.bits| && s.bits[i] ensures Taken(s, i + 1) {
      assert Taken(k, i + 1);
      var x :| x in Owners(k) && TidOf(k, x) == i + 1;
      assert x in Owners(s);
    }
  }

  /** Events that change no tid keep the tids. */
  lemma SameTids<T, C>(n: nat, k: Kernel<T, C>, s: Kernel<T, C>)
    requires TidsOk(n, k) && s.bits == k.bits && k.tcb.Keys <= s.tcb.Keys
    requires forall x :: x in Owners(s) <==> x in Owners(k)
    requires forall x :: x in k.tcb ==> TidOf(s, x) == TidOf(k, x)
    ensures TidsOk(n, s)
  {
    assert forall x :: x in Owners(s) ==> x in s.tcb && TidOf(s, x) == TidOf(k, x);
    forall x, y | x in Owners(s) && y in Owners(s) && TidOf(s, x) == TidOf(s, y) ensures x == y {
      assert TidOf(k, x) == TidOf(k, y);
    }
    forall i | 0 <= i < |s.bits| && s.bits[i] ensures Taken(s, i + 1) {
      assert Taken(k, i + 1);
      var x :| x in Owners(k) && TidOf(k, x) == i + 1;
      assert x in Owners(s);
    }
  }

  lemma EnrolFields<T, C>(k: Kernel<T, C>, memory: T, prio: int, context: C) returns (s: Kernel<T, C>)
    requires Partition(k) && Free(k) && CanStart(k, memory) && FirstClear(k.bits) < 32767
    ensures s == Enrol(k, memory, prio, context)
    ensures var task, b := Started(k, memory), FirstClear(k.bits);
            && task !in Owners(k) && Owners(s) == Owners(k) + [task] && s.bits == k.bits[b := true]
            && task in s.tcb && TidOf(s, task) == b + 1
            && forall x :: x in Owners(k) ==> x in s.tcb && TidOf(s, x) == TidOf(k, x)
  {
    s := Enrol(k, memory, prio, context);
    FreeMeans(k);
    OutOfPool(k, Started(k, memory), s.pool);
  }

  /** A new task gets the first free number plus one. */
  lemma StartTids<T, C>(n: nat, k: Kernel<T, C>, memory: T, prio: int, context: C)
    requires Partition(k) && Free(k) && TidsOk(n, k) && CanStart(k, memory) && |k.all| < n
    ensures TidsOk(n, Enrol(k, memory, prio, context))
    ensures TidOf(Enrol(k, memory, prio, context), Started(k, memory)) == FirstClear(k.bits) + 1
  {
    FreeMeans(k);
    FirstFitBound(n, k);
    var s := EnrolFields(k, memory, prio, context);
    AddTid(n, k, s, Started(k, memory), FirstClear(k.bits));
  }

  /** A dead task keeps its tid until release_tid. */
  lemma LeaveTids<T, C>(n: nat, k: Kernel<T, C>)
    requires Partition(k) && Free(k) && TidsOk(n, k)
    ensures TidsOk(n, Leave(k))
  {
    FreeMeans(k);
    RemoveMeans(k.all, k.current);
    var s := Leave(k);
    assert Owners(s) == Remove(k.all, k.current) + [k.current];
    SameTids(n, k, s);
  }

  lemma ReleaseTids<T, C>(n: nat, k: Kernel<T, C>)
    requires Partition(k) && TidsOk(n, k) && CanRelease(k)
    ensures TidsOk(n, Release(k))
  {
    assert Owners(k) == k.all + [k.current] && Owners(Release(k)) == k.all;
    DropTid(n, k, Release(k), k.current);
  }

  // ----- the invariant

  ghost predicate Inv<T, C>(g: nat, n: nat, k: Kernel<T, C>) {
    && Partition(k) && Alarms(k, []) && TidsOk(n, k) && WheelPlacement.Valid(g, k.wheel)
  }

  /** What a switch leaves alone. */
  ghost predicate SameFields<T, C>(k: Kernel<T, C>, s: Kernel<T, C>) {
    && s.all == k.all && s.bits == k.bits && s.tcb.Keys == k.tcb.Keys && s.waiters == k.waiters && s.part == k.part
    && forall x :: x in k.tcb ==> TidOf(s, x) == TidOf(k, x) && s.tcb[x].collaborative == k.tcb[x].collaborative
  }

  lemma YieldFields<T, C>(k: Kernel<T, C>)
    requires k.current in k.tcb && k.ready != [] && k.ready[0] in k.tcb
    ensures SameFields(k, Yield(k)) && Yield(k).wheel == k.wheel && Yield(k).current == k.ready[0]
  {
  }

  lemma ScheduleFields<T, C>(k: Kernel<T, C>)
    requires k.current in k.tcb && (k.ready != [] ==> k.ready[0] in k.tcb)
    ensures SameFields(k, Schedule(k)) && Schedule(k).wheel == k.wheel
    ensures Schedule(k).current == if k.ready == [] then k.current else k.ready[0]
  {
  }

  /** What the rest of the tick handler leaves alone, and who runs next. */
  lemma SliceFields<T, C>(g: nat, k: Kernel<T, C>)
    requires g >= 1 && CanSlice(k)
    ensures var s, t := Slice(g, k), k.tcb[k.current];
            && SameFields(k, s)
            && s.wheel == (if t.collaborative then Create(g, k.wheel, Some(k.current), t.sleepMs, 0) else k.wheel)
            && s.current == (if !t.collaborative && (t.ticks != 0 || k.ready == []) then k.current else k.ready[0])
  {
    var t := k.tcb[k.current];
    if !t.collaborative && t.ticks == 0 {
      ScheduleFields(k);
    } else if t.collaborative {
      YieldFields(k.(wheel := Create(g, k.wheel, Some(k.current), t.sleepMs, 0)));
    }
  }

  /** The first ready task can run: it is live, unless it is being started, and it is not asleep. */
  lemma FirstReady<T, C>(k: Kernel<T, C>)
    requires Partition(k) && k.ready != []
    ensures k.ready[0] in k.tcb && k.ready[0] != k.current && !k.tcb[k.ready[0]].collaborative
    ensures Newborn(k) == None ==> k.ready[0] in k.all
  {
    var x := k.ready[0];
    assert x in k.ready;
    if x in k.all {
      FourKinds(k, x);
    }
  }

  lemma SliceInv<T, C>(g: nat, n: nat, k: Kernel<T, C>) returns (s: Kernel<T, C>)
    requires Inv(g, n, k) && CanSlice(k) && !Late(k)
    ensures s == Slice(g, k) && Inv(g, n, s)
  {
    s := SliceParts(g, k);
    SliceFields(g, k);
    SliceOwners(g, k);
    SameTids(n, k, s);
    SliceAlarms(g, k);
  }

  lemma SliceOwners<T, C>(g: nat, k: Kernel<T, C>)
    requires g >= 1 && Partition(k) && CanSlice(k) && !Late(k)
    ensures Owners(Slice(g, k)) == Owners(k)
  {
    SliceFields(g, k);
    if Free(k) {
      FreeMeans(k);
    }
  }

  lemma SliceAlarms<T, C>(g: nat, k: Kernel<T, C>)
    requires Partition(k) && Alarms(k, []) && WheelPlacement.Valid(g, k.wheel) && CanSlice(k) && !Late(k)
    ensures Alarms(Slice(g, k), []) && WheelPlacement.Valid(g, Slice(g, k).wheel)
  {
    var s, t := Slice(g, k), k.tcb[k.current];
    SliceFields(g, k);
    if k.ready != [] {
      FirstReady(k);
    }
    if t.collaborative {
      WheelPlacement.CreateInv(g, k.wheel, Some(k.current), t.sleepMs, 0);
      FallAsleep(g, k, s, t.sleepMs);
    } else {
      SameSleepers(k, s);
    }
  }

  /** One more alarm, for the task c that is about to sleep. */
  lemma OneMoreAlarm<T>(m: multiset<Timer<Option<T>>>, c: T, tm: Timer<Option<T>>, x: T)
    requires tm.param == Some(c) && tm.period == 0 && NoAlarm(m, c)
    ensures x == c ==> Alarmed(m + multiset{tm}, x)
    ensures x != c && Alarmed(m, x) ==> Alarmed(m + multiset{tm}, x)
    ensures x != c && NoAlarm(m, x) ==> NoAlarm(m + multiset{tm}, x)
  {
    if x == c {
      HoldsNew(m, tm);
    } else {
      if Alarmed(m, x) {
        var o :| o in m && o.period == 0 && Holds(m, Some(x), Some(o));
        HoldsWithOthers(m, multiset{tm}, Some(x), Some(o));
      }
      if NoAlarm(m, x) {
        HoldsWithOthers(m, multiset{tm}, Some(x), None);
      }
    }
  }

  /** The current task goes to sleep: from now on it has its alarm. */
  lemma FallAsleep<T, C>(g: nat, k: Kernel<T, C>, s: Kernel<T, C>, ms: nat)
    requires g >= 1 && Shaped(k.wheel) && Alarms(k, []) && k.current in k.all && k.current in k.tcb
    requires s.wheel == Create(g, k.wheel, Some(k.current), ms, 0)
    requires s.tcb.Keys == k.tcb.Keys && s.all == k.all && s.current != k.current && s.current in k.tcb
    requires k.tcb[k.current].collaborative && !k.tcb[s.current].collaborative
    requires forall x :: x in k.tcb ==> s.tcb[x].collaborative == k.tcb[x].collaborative
    ensures Alarms(s, [])
  {
    var m, tm := Pending(k.wheel.slots), Timer(Some(k.current), k.wheel.jiffies + ms, 0);
    PendingPut(k.wheel.slots, SlotFor(g, k.wheel.jiffies, tm.expires), tm);
    assert Pending(s.wheel.slots) == m + multiset{tm};
    assert AlarmOk(k, [], k.current);
    forall x | x in s.tcb ensures AlarmOk(s, [], x) {
      assert AlarmOk(k, [], x);
      OneMoreAlarm(m, k.current, tm, x);
    }
  }

  /** run_timer before its callbacks. */
  lemma RunKeeps<T, C>(g: nat, n: nat, k: Kernel<T, C>, now: nat) returns (r: Kernel<T, C>)
    requires Inv(g, n, k)
    ensures r == k.(wheel := Run(g, k.wheel, now).0)
    ensures Partition(r) && TidsOk(n, r) && Alarms(r, Run(g, k.wheel, now).1) && WheelPlacement.Valid(g, r.wheel)
  {
    r := k.(wheel := Run(g, k.wheel, now).0);
    RunAlarms(g, k, now);
    SameLists(k, r);
    SameTids(n, k, r);
  }

  lemma TimersInv<T, C>(g: nat, n: nat, k: Kernel<T, C>, now: nat)
    requires Inv(g, n, k)
    ensures Known(k, Run(g, k.wheel, now).1)
    ensures Asserted(k.(wheel := Run(g, k.wheel, now).0), Run(g, k.wheel, now).1)
    ensures Inv(g, n, Timers(g, k, now)) && Timers(g, k, now).part == k.part
  {
    var log := Run(g, k.wheel, now).1;
    var r := RunKeeps(g, n, k, now);
    CallBackInv(r, log);
    CallBackTids(n, r, log);
  }

  lemma CallBackTids<T, C>(n: nat, k: Kernel<T, C>, log: seq<Firing<Option<T>>>)
    requires Known(k, log) && TidsOk(n, k)
    ensures TidsOk(n, CallBack(k, log)) && CallBack(k, log).part == k.part
  {
    CallBackKeeps(k, log);
    SameTids(n, k, CallBack(k, log));
  }

  // ----- every event, every run

  /** Starting, exiting and switching change nobody's sleep. */
  lemma PartSleepers<T, C>(g: nat, k: Kernel<T, C>, e: Event<T, C>) returns (s: Kernel<T, C>)
    requires Partition(k) && K.Enabled(g, k, e)
    requires e.Start? || e.Exit? || e.Block? || e.Switch?
    ensures s == Step(g, k, e) && s.wheel == k.wheel && k.tcb.Keys <= s.tcb.Keys
    ensures forall x :: x in s.tcb ==> (Asleep(s, x) <==> Asleep(k, x))
  {
    s := Step(g, k, e);
    if e.Start? {
      assert k.pool != [] ==> k.pool[0] in k.pool;
    } else if e.Exit? {
      RemoveMeans(k.all, k.current);
    } else {
      FirstReady(k);
    }
  }

  /** Only ticks change who is asleep. */
  lemma QuietSleepers<T, C>(g: nat, k: Kernel<T, C>, e: Event<T, C>) returns (s: Kernel<T, C>)
    requires Partition(k) && K.Enabled(g, k, e) && !e.Interrupt?
    ensures s == Step(g, k, e) && s.wheel == k.wheel && k.tcb.Keys <= s.tcb.Keys
    ensures forall x :: x in s.tcb ==> (Asleep(s, x) <==> Asleep(k, x))
  {
    if e.Start? || e.Exit? || e.Block? || e.Switch? {
      s := PartSleepers(g, k, e);
    } else {
      s := Step(g, k, e);
    }
  }

  /** The part of a task that is in the middle of a function changes, but not who owns a tid. */
  lemma PartOwners<T, C>(g: nat, k: Kernel<T, C>, e: Event<T, C>) returns (s: Kernel<T, C>)
    requires Partition(k) && K.Enabled(g, k, e)
    requires e.Finish? || e.Halt? || e.Switch? || e.LoadContext?
    ensures s == Step(g, k, e) && s.bits == k.bits && s.tcb.Keys == k.tcb.Keys && Owners(s) == Owners(k)
    ensures forall x :: x in k.tcb ==> TidOf(s, x) == TidOf(k, x)
  {
    s := Step(g, k, e);
    if e.Switch? {
      FirstReady(k);
    }
  }

  /** Nor does anything that a task in the middle of no function does. */
  lemma FreeOwners<T, C>(g: nat, k: Kernel<T, C>, e: Event<T, C>) returns (s: Kernel<T, C>)
    requires K.Enabled(g, k, e) && Free(k) && k.part == map[] && WaitersOk(k)
    requires e.Block? || e.Unblock? || e.Up? || e.SleepFlag? || e.SleepTime? || e.Compute?
    ensures s == Step(g, k, e) && s.bits == k.bits && s.tcb.Keys == k.tcb.Keys && Owners(s) == Owners(k)
    ensures forall x :: x in k.tcb ==> TidOf(s, x) == TidOf(k, x)
  {
    s := Step(g, k, e);
  }

  /** And only starting and exiting changes the tids and their owners. */
  lemma QuietOwners<T, C>(g: nat, k: Kernel<T, C>, e: Event<T, C>) returns (s: Kernel<T, C>)
    requires Partition(k) && K.Enabled(g, k, e) && !e.Interrupt?
    requires !e.Start? && !e.Exit? && !e.ReleaseTid?
    ensures s == Step(g, k, e) && s.bits == k.bits && s.tcb.Keys == k.tcb.Keys && Owners(s) == Owners(k)
    ensures forall x :: x in k.tcb ==> TidOf(s, x) == TidOf(k, x)
  {
    if e.Finish? || e.Halt? || e.Switch? || e.LoadContext? {
      s := PartOwners(g, k, e);
    } else {
      FreeMeans(k);
      s := FreeOwners(g, k, e);
    }
  }

  lemma QuietTids<T, C>(g: nat, n: nat, k: Kernel<T, C>, e: Event<T, C>) returns (s: Kernel<T, C>)
    requires Partition(k) && TidsOk(n, k) && K.Enabled(g, k, e) && !e.Interrupt?
    requires !e.Start? && !e.Exit? && !e.ReleaseTid?
    ensures s == Step(g, k, e) && TidsOk(n, s)
  {
    s := QuietOwners(g, k, e);
    SameTids(n, k, s);
  }

  lemma QuietParts<T, C>(g: nat, k: Kernel<T, C>, e: Event<T, C>) returns (s: Kernel<T, C>)
    requires Partition(k) && K.Enabled(g, k, e) && !e.Interrupt?
    ensures s == Step(g, k, e) && Partition(s)
  {
    s := Step(g, k, e);
    match e
    case Start(memory, prio, context) => EnrolParts(k, memory, prio, context);
    case Finish => AdmitParts(k);
    case Exit => LeaveParts(k);
    case ReleaseTid => ReleaseParts(k);
    case Block(status, q) => BlockParts(k, status, q);
    case Halt(status) => SuspendParts(k, status);
    case Switch => GiveUpParts(k);
    case LoadContext => LoadParts(k);
    case Unblock(x) => UnblockParts(k, x);
    case Up(q) => UpParts(k, q);
    case SleepFlag => FieldsParts(k, k.tcb[k.current].(collaborative := true));
    case SleepTime(ms) => FieldsParts(k, k.tcb[k.current].(sleepMs := ms));
    case Compute(context) => SameLists(k, s);
  }

  lemma TickInv<T, C>(g: nat, n: nat, k: Kernel<T, C>, now: nat) returns (s: Kernel<T, C>)
    requires Inv(g, n, k) && CanTick(g, k, now) && !Late(k)
    ensures s == K.Tick(g, k, now) && Inv(g, n, s)
  {
    TimersInv(g, n, k, now);
    CurrentKept(g, k, now);
    s := SliceInv(g, n, Timers(g, k, now));
  }

  /** The callbacks do not touch the task that has the processor. */
  lemma CurrentKept<T, C>(g: nat, k: Kernel<T, C>, now: nat)
    requires WheelPlacement.Valid(g, k.wheel) && Alarms(k, []) && k.current in k.tcb
    requires Known(k, Run(g, k.wheel, now).1)
    ensures Timers(g, k, now).tcb[k.current] == k.tcb[k.current]
    ensures NoAlarm(Pending(Run(g, k.wheel, now).0.slots), k.current)
  {
    var (w, log) := Run(g, k.wheel, now);
    assert AlarmOk(k, [], k.current);
    RunAlarm(g, k.wheel, now, k.current, false);
    CallBackOne(k.(wheel := w), log, k.current);
  }

  /** Fewer than n tasks are live whenever one is started, and no tick comes late: when the ticks of
      a task are used up while it is in the middle of task_start, task_exit or task_block. */
  ghost predicate Fits<T, C>(n: nat, k: Kernel<T, C>, e: Event<T, C>) {
    (e.Start? ==> |k.all| < n) && (e.Interrupt? ==> !Late(k))
  }

  lemma QuietInv<T, C>(g: nat, n: nat, k: Kernel<T, C>, e: Event<T, C>) returns (s: Kernel<T, C>)
    requires Inv(g, n, k) && K.Enabled(g, k, e) && Fits(n, k, e) && !e.Interrupt?
    ensures s == Step(g, k, e) && Inv(g, n, s)
  {
    s := QuietParts(g, k, e);
    var s1 := QuietSleepers(g, k, e);
    SameSleepers(k, s);
    match e
    case Start(memory, prio, context) => StartTids(n, k, memory, prio, context);
    case Exit => LeaveTids(n, k);
    case ReleaseTid => ReleaseTids(n, k);
    case _ => s1 := QuietTids(g, n, k, e);
  }

  /** Every event keeps the invariant. */
  lemma StepInv<T, C>(g: nat, n: nat, k: Kernel<T, C>, e: Event<T, C>) returns (s: Kernel<T, C>)
    requires Inv(g, n, k) && K.Enabled(g, k, e) && Fits(n, k, e)
    ensures s == Step(g, k, e) && Inv(g, n, s)
  {
    if e.Interrupt? {
      s := TickInv(g, n, k, e.now);
    } else {
      s := QuietInv(g, n, k, e);
    }
  }

  ghost predicate AlwaysFits<T, C>(g: nat, n: nat, k: Kernel<T, C>, es: seq<Event<T, C>>)
    requires K.Possible(g, k, es)
    decreases |es|
  {
    es != [] ==> Fits(n, k, es[0]) && AlwaysFits(g, n, Step(g, k, es[0]), es[1..])
  }

  /** The invariant holds in every reachable state. */
  lemma {:induction false} ExecInv<T, C>(g: nat, n: nat, k: Kernel<T, C>, es: seq<Event<T, C>>)
    requires Inv(g, n, k) && K.Possible(g, k, es) && AlwaysFits(g, n, k, es)
    ensures Inv(g, n, Exec(g, k, es))
    decreases |es|
  {
    if es != [] {
      var s := StepInv(g, n, k, es[0]);
      ExecInv(g, n, s, es[1..]);
    }
  }

  lemma BootInv<T, C>(g: nat, n: nat, main: T, context: C, now: nat, queues: set<nat>)
    requires g >= 1 && 1 <= n <= 32767
    ensures Inv(g, n, Boot(g, main, context, now, queues))
  {
    var k := Boot(g, main, context, now, queues);
    var w := Empty<Option<T>>(now);
    var tm: Timer<Option<T>> := Timer(None, now + 150000, 150000);
    EmptyValid<Option<T>>(g, now);
    WheelPlacement.CreateInv(g, w, None, 150000, 150000);
    PendingPut(w.slots, SlotFor(g, now, tm.expires), tm);
    EmptyPending<Option<T>>(now);
    assert Pending(k.wheel.slots) == multiset{tm};
    assert AlarmOk(k, [], main);
    assert Owners(k) == [main];
    assert main in Owners(k) && TidOf(k, main) == 1;
    assert Taken(k, 1);
  }

  lemma EmptyPending<T>(now: nat)
    ensures Pending(Empty<T>(now).slots) == multiset{}
  {
    var m := Pending(Empty<T>(now).slots);
    if m != multiset{} {
      var tm :| tm in m;
      PendingMember(Empty<T>(now).slots, tm);
    }
  }

  /** A task of the pool, or new memory, is not in the ready list. */
  lemma StartPasses<T, C>(k: Kernel<T, C>, memory: T)
    requires Partition(k) && (k.pool == [] ==> memory !in k.tcb)
    ensures StartAsserts(k, memory)
  {
    assert k.pool != [] ==> k.pool[0] in k.pool;
    if Started(k, memory) in k.ready {
      ReadyMeans(k, Started(k, memory));
    }
  }

  lemma StartWhen<T, C>(n: nat, k: Kernel<T, C>, memory: T)
    requires Partition(k) && TidsOk(n, k) && Free(k) && |k.all| < n && !k.tcb[k.current].collaborative
    ensures CanStart(k, memory) && StartAsserts(k, memory) <==> (k.pool == [] ==> memory !in k.tcb)
  {
    FirstFitBound(n, k);
    if k.pool == [] ==> memory !in k.tcb {
      StartPasses(k, memory);
    }
  }

  lemma TickWhen<T, C>(g: nat, n: nat, k: Kernel<T, C>, now: nat)
    requires Inv(g, n, k)
    ensures Known(k, Run(g, k.wheel, now).1)
    ensures CanTick(g, k, now) <==> (k.tcb[k.current].collaborative ==> Timers(g, k, now).ready != [])
  {
    TimersInv(g, n, k, now);
    CurrentKept(g, k, now);
    if Timers(g, k, now).ready != [] {
      FirstReady(Timers(g, k, now));
    }
  }

  lemma SwitchWhen<T, C>(n: nat, k: Kernel<T, C>)
    requires Partition(k) && TidsOk(n, k)
    ensures k.ready != [] ==> k.ready[0] in k.tcb
    ensures CanGiveUp(k) <==> k.ready != [] && Running(k) == None && k.part[k.current] != Leaving
    ensures k.current in k.part ==>
              (k.part[k.current] == Leaving ==> CanRelease(k)) && (k.part[k.current].Loading? ==> CanLoad(k))
  {
    if k.ready != [] {
      FirstReady(k);
    }
  }

  /** When the events can happen, in every reachable state. */
  lemma EnabledWhen<T, C>(g: nat, n: nat, k: Kernel<T, C>, now: nat, memory: T, status: Status, q: nat)
    requires Inv(g, n, k)
    ensures Known(k, Run(g, k.wheel, now).1)
    ensures CanTick(g, k, now) <==> (k.tcb[k.current].collaborative ==> Timers(g, k, now).ready != [])
    ensures CanExit(k) <==> !k.tcb[k.current].collaborative
    ensures CanBlock(k, status, q) <==>
              IsBlocked(status) && k.ready != [] && !k.tcb[k.current].collaborative && q in k.waiters
    ensures Free(k) && |k.all| < n && !k.tcb[k.current].collaborative ==>
              (CanStart(k, memory) && StartAsserts(k, memory) <==> (k.pool == [] ==> memory !in k.tcb))
    ensures CanGiveUp(k) <==> k.ready != [] && Running(k) == None && k.part[k.current] != Leaving
    ensures k.current in k.part ==>
              (k.part[k.current] == Leaving ==> CanRelease(k)) && (k.part[k.current].Loading? ==> CanLoad(k))
  {
    TickWhen(g, n, k, now);
    SwitchWhen(n, k);
    if Free(k) && |k.all| < n && !k.tcb[k.current].collaborative {
      StartWhen(n, k, memory);
    }
  }

  ghost predicate BlockingStatus(s: Status) {
    s == BLOCKED || s == WAITING || s == HANGING
  }

  /** What the current task can do itself. */
  lemma HereWhen<T, C>(g: nat, k: Kernel<T, C>, status: Status, q: nat, ms: nat, context: C)
    requires Partition(k)
    ensures K.Enabled(g, k, Halt(status)) <==>
              Free(k) && BlockingStatus(status) && !k.tcb[k.current].collaborative
    ensures K.Enabled(g, k, Block(status, q)) <==>
              Free(k) && BlockingStatus(status) && !k.tcb[k.current].collaborative && k.ready != [] && q in k.waiters
    ensures K.Enabled(g, k, Event<T, C>.SleepFlag) <==> Free(k)
    ensures K.Enabled(g, k, Event<T, C>.SleepTime(ms)) <==> Free(k)
    ensures K.Enabled(g, k, Event<T, C>.Compute(context)) <==> Free(k)
  {
    if k.ready != [] {
      FirstReady(k);
    }
  }

  /** Whoever waits first can be woken, and whoever is blocked elsewhere can be unblocked. */
  lemma OthersWhen<T, C>(g: nat, k: Kernel<T, C>, q: nat, x: T)
    requires Partition(k)
    ensures K.Enabled(g, k, Event<T, C>.Up(q)) <==> Free(k) && q in k.waiters && k.waiters[q] != []
    ensures K.Enabled(g, k, Event<T, C>.Unblock(x)) <==>
              Free(k) && x in k.all && BlockingStatus(k.tcb[x].status) && !Waits(k, x)
  {
    if q in k.waiters && k.waiters[q] != [] {
      assert k.waiters[q][0] in k.waiters[q];
    }
  }

  /** What is half done can be finished. */
  lemma RestWhen<T, C>(g: nat, n: nat, k: Kernel<T, C>)
    requires Partition(k) && TidsOk(n, k)
    ensures K.Enabled(g, k, Event<T, C>.Finish) <==> Newborn(k).Some?
    ensures K.Enabled(g, k, Event<T, C>.ReleaseTid) <==> k.current in k.part && k.part[k.current] == Leaving
    ensures K.Enabled(g, k, Event<T, C>.LoadContext) <==> k.current in k.part && k.part[k.current].Loading?
  {
    SwitchWhen(n, k);
  }

  // ----- consequences

  /** Sleep and alarm, in every reachable state: a task that is not running has its collaborative
      flag set if and only if exactly one alarm names it, and then it is in no list but all. */
  lemma AsleepIffAlarmed<T, C>(g: nat, n: nat, k: Kernel<T, C>, x: T)
    requires Inv(g, n, k) && x in k.all
    ensures x != k.current && k.tcb[x].collaborative <==> Alarmed(Pending(k.wheel.slots), x)
    ensures !Alarmed(Pending(k.wheel.slots), x) ==> NoAlarm(Pending(k.wheel.slots), x)
    ensures Alarmed(Pending(k.wheel.slots), x) ==> x !in k.ready && !Waits(k, x)
  {
    assert AlarmOk(k, [], x);
    FourKinds(k, x);
  }

  /** The assertion in task_start on a task from the pool contradicts task_exit: it always fails. */
  lemma PoolIsDead<T, C>(g: nat, n: nat, k: Kernel<T, C>)
    requires Inv(g, n, k) && k.pool != []
    ensures k.pool[0] in k.tcb && k.tcb[k.pool[0]].status == DIED
  {
    assert k.pool[0] in k.pool;
  }

  /** list_traversal with tid_check: the first task of the all-list with that tid. */
  ghost function Tid2Task<T, C>(k: Kernel<T, C>, l: seq<T>, tid: int): Option<T> {
    if l == [] then None else if TidOf(k, l[0]) == tid then Some(l[0]) else Tid2Task(k, l[1..], tid)
  }

  /** tid2task finds exactly the live owner of the tid. */
  lemma Tid2TaskFinds<T, C>(g: nat, n: nat, k: Kernel<T, C>, tid: int, x: T)
    requires Inv(g, n, k)
    ensures Tid2Task(k, k.all, tid) == Some(x) <==> x in k.all && TidOf(k, x) == tid
  {
    FirstWithTid(k, k.all, tid);
  }

  lemma {:induction false} FirstWithTid<T, C>(k: Kernel<T, C>, l: seq<T>, tid: int)
    ensures var r := Tid2Task(k, l, tid);
            && (r.Some? ==> r.value in l && TidOf(k, r.value) == tid)
            && (r.None? ==> forall x :: x in l ==> TidOf(k, x) != tid)
  {
    if l != [] {
      FirstWithTid(k, l[1..], tid);
    }
  }

  /** With 32767 live tasks one more would get a tid that the 16-bit field cannot hold. */
  lemma NarrowingIff(bit: nat)
    requires bit < TID_BITS
    ensures 1 <= Narrow16(bit + 1) <= 32767 && Narrow16(bit + 1) == bit + 1 <==> bit < 32767
  {
  }
}
