/** What the wheel promises, over every history of timer operations. */
module WheelTheorems {
  import opened Basics
  import opened Wheel
  import opened WheelPlacement
  import opened WheelAgenda
  import opened WheelHistory

  /** The operation does not touch x's timer. */
  ghost predicate Spares<T>(w: Wheel<T>, op: Op<T>, x: T)
    requires Shaped(w) && Enabled(w, op)
  {
    match op
    case Start(param, _, _) => param != x
    case Cancel(k, i) => w.slots[k][i].param != x
    case RunTo(_) => true
  }

  ghost predicate AllSpare<T>(g: nat, w: Wheel<T>, ops: seq<Op<T>>, x: T)
    requires g >= 1 && Shaped(w) && Possible(g, w, ops)
    decreases |ops|
  {
    ops != [] ==> Spares(w, ops[0], x) && AllSpare(g, Apply(g, w, ops[0]).0, ops[1..], x)
  }

  lemma ApplyValid<T>(g: nat, w: Wheel<T>, op: Op<T>)
    requires Valid(g, w) && Enabled(w, op)
    ensures Valid(g, Apply(g, w, op).0) && Apply(g, w, op).0.jiffies >= w.jiffies
  {
    match op
    case Start(param, due, period) => CreateInv(g, w, param, due, period);
    case Cancel(k, i) => DeleteInv(g, w, k, i);
    case RunTo(now) => RunInv(g, w, now);
  }

  /** The placement invariant holds in every reachable wheel. */
  lemma {:induction false} HistoryValid<T>(g: nat, w: Wheel<T>, ops: seq<Op<T>>)
    requires Valid(g, w) && Possible(g, w, ops)
    ensures Valid(g, History(g, w, ops).0) && History(g, w, ops).0.jiffies >= w.jiffies
    decreases |ops|
  {
    if ops != [] {
      ApplyValid(g, w, ops[0]);
      HistoryValid(g, Apply(g, w, ops[0]).0, ops[1..]);
    }
  }

  lemma EmptyValid<T>(g: nat, now: nat)
    requires g >= 1
    ensures Valid(g, Empty<T>(now))
  {
  }

  // ----- every granularity: fired once, never late, early by a bounded multiple of 256

  /** The wheel holds the timer tm for x and no other; or none at all. */
  ghost predicate Holds<T>(m: multiset<Timer<T>>, x: T, tm: Option<Timer<T>>) {
    && (forall o | o in m && o.param == x :: tm == Some(o))
    && (tm.Some? ==> tm.value.param == x && m[tm.value] == 1)
  }

  /** An acceptable tick for a timer due at e that was filed at `start`. */
  ghost predicate InWindow(g: nat, start: nat, e: nat, t: nat) {
    start <= t <= e && t % 256 == e % 256 && e - t <= 256 * (g - 1)
  }

  lemma PendingPlaced<T>(g: nat, w: Wheel<T>, tm: Timer<T>)
    requires Valid(g, w) && tm in Pending(w.slots)
    ensures w.jiffies <= tm.expires
  {
    PendingMember(w.slots, tm);
    var k :| 0 <= k < |w.slots| && tm in w.slots[k];
    assert Placed(g, Base(w.jiffies, 1, k), k, tm.expires);
  }

  /** What may have become of a one-shot timer since `start`: nothing, or one call in its window. */
  ghost predicate Outcome<T>(g: nat, start: nat, tm: Option<Timer<T>>, ticks: seq<nat>, tm': Option<Timer<T>>) {
    || (ticks == [] && tm' == tm)
    || (tm.Some? && tm'.None? && |ticks| == 1 && InWindow(g, start, tm.value.expires, ticks[0]))
  }

  lemma OutcomeThen<T>(g: nat, start: nat, tm: Option<Timer<T>>, ticks: seq<nat>, tm': Option<Timer<T>>,
                       later: nat, more: seq<nat>, tm'': Option<Timer<T>>)
    requires start <= later && Outcome(g, start, tm, ticks, tm') && Outcome(g, later, tm', more, tm'')
    ensures Outcome(g, start, tm, ticks + more, tm'')
  {
    if ticks == [] {
      assert ticks + more == more;
    } else {
      assert ticks + more == ticks;
    }
  }

  lemma TickHolds<T>(g: nat, w: Wheel<T>, x: T, tm: Option<Timer<T>>) returns (tm': Option<Timer<T>>)
    requires Valid(g, w) && Holds(Pending(w.slots), x, tm) && (tm.Some? ==> tm.value.period == 0)
    ensures Holds(Pending(Tick(g, w).0.slots), x, tm')
    ensures Outcome(g, w.jiffies, tm, Ticks(Stamp(w.jiffies, Tick(g, w).1), x), tm')
  {
    var (w1, fired) := Tick(g, w);
    TickConserves(g, w);
    FiredInWindow(g, w);
    HoldsAfter(Pending(w.slots), w.jiffies, fired, Pending(w1.slots), x, tm);
    TicksOfOne(w.jiffies, fired, x);
    tm' := if For(fired, x) == [] then tm else None;
  }

  lemma TicksOfOne<T>(now: nat, fired: seq<Timer<T>>, x: T)
    requires |For(fired, x)| <= 1
    ensures Ticks(Stamp(now, fired), x) == if For(fired, x) == [] then [] else [now]
  {
    var ticks := Ticks(Stamp(now, fired), x);
    TicksStamp(now, fired, x);
    if ticks != [] {
      assert ticks[0] in ticks;
    }
  }

  lemma HoldsAfter<T>(before: multiset<Timer<T>>, now: nat, fired: seq<Timer<T>>, after: multiset<Timer<T>>,
                      x: T, tm: Option<Timer<T>>)
    requires Holds(before, x, tm) && (tm.Some? ==> tm.value.period == 0)
    requires multiset(fired) <= before
    requires after == before - multiset(fired) + multiset(Rearmed(now, fired))
    ensures || (For(fired, x) == [] && Holds(after, x, tm))
            || (tm.Some? && tm.value in fired && For(fired, x) == [tm.value] && Holds(after, x, None))
  {
    var again := Rearmed(now, fired);
    ForRearmed(now, fired, x);
    FiredHolds(before, fired, x, tm);
    forall o | o in again ensures o.param != x {
      ForCounts(again, x, o);
    }
    HoldsWithOthers(before - multiset(fired), multiset(again), x, if For(fired, x) == [] then tm else None);
  }

  lemma FiredHolds<T>(before: multiset<Timer<T>>, fired: seq<Timer<T>>, x: T, tm: Option<Timer<T>>)
    requires Holds(before, x, tm) && multiset(fired) <= before
    ensures || (For(fired, x) == [] && Holds(before - multiset(fired), x, tm))
            || (tm.Some? && tm.value in fired && For(fired, x) == [tm.value]
                && Holds(before - multiset(fired), x, None))
  {
    forall o | o in fired ensures o in before {
      assert 0 < multiset(fired)[o] <= before[o];
    }
    if tm.Some? && tm.value in fired {
      assert 0 < multiset(fired)[tm.value] <= before[tm.value];
      ForSole(fired, x, tm.value);
    } else {
      ForNone(fired, x);
    }
  }

  lemma HoldsWithOthers<T>(m: multiset<Timer<T>>, others: multiset<Timer<T>>, x: T, tm: Option<Timer<T>>)
    requires Holds(m, x, tm) && forall o | o in others :: o.param != x
    ensures Holds(m + others, x, tm)
  {
  }

  lemma HoldsWithout<T>(m: multiset<Timer<T>>, other: Timer<T>, x: T, tm: Option<Timer<T>>)
    requires Holds(m + multiset{other}, x, tm) && other.param != x
    ensures Holds(m, x, tm)
  {
    forall o | o in m && o.param == x ensures tm == Some(o) {
      assert o in m + multiset{other};
    }
    if tm.Some? {
      assert (m + multiset{other})[tm.value] == m[tm.value];
    }
  }

  /** A one-shot timer over any history, at any granularity: while it is pending its callback
      has not run and its time has not passed; afterwards it has run exactly once, in its window. */
  lemma OneShotOnce<T>(g: nat, w: Wheel<T>, ops: seq<Op<T>>, tm: Timer<T>)
    requires Valid(g, w) && Possible(g, w, ops) && AllSpare(g, w, ops, tm.param)
    requires tm.period == 0 && Holds(Pending(w.slots), tm.param, Some(tm))
    ensures var (w', log) := History(g, w, ops);
            if Ticks(log, tm.param) == [] then
              Holds(Pending(w'.slots), tm.param, Some(tm)) && w'.jiffies <= tm.expires
            else
              && |Ticks(log, tm.param)| == 1
              && InWindow(g, w.jiffies, tm.expires, Ticks(log, tm.param)[0])
              && Holds(Pending(w'.slots), tm.param, None)
  {
    var tm' := HistoryHolds(g, w, ops, tm.param, Some(tm));
    HistoryValid(g, w, ops);
    if tm'.Some? {
      PendingPlaced(g, History(g, w, ops).0, tm);
    }
  }

  lemma {:induction false} HistoryHolds<T>(g: nat, w: Wheel<T>, ops: seq<Op<T>>, x: T, tm: Option<Timer<T>>)
    returns (tm': Option<Timer<T>>)
    requires Valid(g, w) && Possible(g, w, ops) && AllSpare(g, w, ops, x)
    requires Holds(Pending(w.slots), x, tm) && (tm.Some? ==> tm.value.period == 0)
    ensures Holds(Pending(History(g, w, ops).0.slots), x, tm')
    ensures Outcome(g, w.jiffies, tm, Ticks(History(g, w, ops).1, x), tm')
    decreases |ops|
  {
    tm' := tm;
    if ops != [] {
      var (w1, log) := Apply(g, w, ops[0]);
      var more := History(g, w1, ops[1..]).1;
      ApplyValid(g, w, ops[0]);
      var tm1 := ApplyHolds(g, w, ops[0], x, tm);
      tm' := HistoryHolds(g, w1, ops[1..], x, tm1);
      TicksConcat(log, more, x);
      OutcomeThen(g, w.jiffies, tm, Ticks(log, x), tm1, w1.jiffies, Ticks(more, x), tm');
    }
  }

  lemma StartHolds<T>(g: nat, w: Wheel<T>, o: Timer<T>, x: T, tm: Option<Timer<T>>)
    requires g >= 1 && Shaped(w) && o.param != x && Holds(Pending(w.slots), x, tm)
    ensures Holds(Pending(Add(g, w, o).slots), x, tm)
  {
    PendingPut(w.slots, SlotFor(g, w.jiffies, o.expires), o);
    HoldsWithOthers(Pending(w.slots), multiset{o}, x, tm);
  }

  lemma ApplyHolds<T>(g: nat, w: Wheel<T>, op: Op<T>, x: T, tm: Option<Timer<T>>) returns (tm': Option<Timer<T>>)
    requires Valid(g, w) && Enabled(w, op) && Spares(w, op, x)
    requires Holds(Pending(w.slots), x, tm) && (tm.Some? ==> tm.value.period == 0)
    ensures Holds(Pending(Apply(g, w, op).0.slots), x, tm')
    ensures Outcome(g, w.jiffies, tm, Ticks(Apply(g, w, op).1, x), tm')
  {
    tm' := tm;
    match op
    case Start(param, due, period) =>
      StartHolds(g, w, Timer(param, w.jiffies + due, period), x, tm);
    case Cancel(k, i) =>
      DeletePending(w, k, i);
      HoldsWithout(Pending(Delete(w, k, i).slots), w.slots[k][i], x, tm);
    case RunTo(now) =>
      tm' := RunHolds(g, w, now, x, tm);
  }

  /** delete_timer takes out the one timer it is given. */
  lemma DeletePending<T>(w: Wheel<T>, k: nat, i: nat)
    requires Shaped(w) && k < SLOTS && i < |w.slots[k]|
    ensures Pending(Delete(w, k, i).slots) + multiset{w.slots[k][i]} == Pending(w.slots)
  {
    var l := w.slots[k];
    var short := l[..i] + l[i + 1..];
    assert l == l[..i] + [l[i]] + l[i + 1..];
    assert multiset(l) == multiset(short) + multiset{l[i]};
    PendingUpdate(w.slots, k, short);
    CancelCommon(Pending(Delete(w, k, i).slots) + multiset{l[i]}, Pending(w.slots), multiset(short));
  }

  lemma {:induction false} RunHolds<T>(g: nat, w: Wheel<T>, now: nat, x: T, tm: Option<Timer<T>>)
    returns (tm': Option<Timer<T>>)
    requires Valid(g, w) && Holds(Pending(w.slots), x, tm) && (tm.Some? ==> tm.value.period == 0)
    ensures Holds(Pending(Run(g, w, now).0.slots), x, tm')
    ensures Outcome(g, w.jiffies, tm, Ticks(Run(g, w, now).1, x), tm')
    decreases now + 1 - w.jiffies
  {
    tm' := tm;
    if now >= w.jiffies {
      var (w1, fired) := Tick(g, w);
      var more := Run(g, w1, now).1;
      TickInv(g, w);
      var tm1 := TickHolds(g, w, x, tm);
      tm' := RunHolds(g, w1, now, x, tm1);
      TicksConcat(Stamp(w.jiffies, fired), more, x);
      OutcomeThen(g, w.jiffies, tm, Ticks(Stamp(w.jiffies, fired), x), tm1, w1.jiffies, Ticks(more, x), tm');
    }
  }

  /** create_timer for an x that has no timer gives it one. */
  lemma CreateHolds<T>(g: nat, w: Wheel<T>, x: T, due: nat, period: nat)
    requires Valid(g, w) && Holds(Pending(w.slots), x, None)
    ensures Holds(Pending(Create(g, w, x, due, period).slots), x, Some(Timer(x, w.jiffies + due, period)))
  {
    var tm := Timer(x, w.jiffies + due, period);
    PendingPut(w.slots, SlotFor(g, w.jiffies, tm.expires), tm);
    HoldsNew(Pending(w.slots), tm);
  }

  lemma HoldsNew<T>(m: multiset<Timer<T>>, tm: Timer<T>)
    requires Holds(m, tm.param, None)
    ensures Holds(m + multiset{tm}, tm.param, Some(tm))
  {
  }

  // ----- granularities 1..64: the exact ticks

  /** The entry of x after a turn of run_timer at `now`. */
  ghost function Turned<T>(g: nat, f: Option<Firing<T>>, now: nat): Option<Firing<T>>
    requires g >= 1
  {
    if f.Some? && f.value.at == now then Next(g, f.value) else f
  }

  /** One turn of run_timer peels one tick off the solitary life of x's timer. */
  lemma TurnOnly<T>(g: nat, w: Wheel<T>, x: T, f: Option<Firing<T>>)
    requires 1 <= g <= 64 && Valid(g, w) && Only(AgendaOf(g, w), x, f)
    ensures Only(AgendaOf(g, Tick(g, w).0), x, Turned(g, f, w.jiffies))
    ensures Ticks(Stamp(w.jiffies, Tick(g, w).1), x)
            == if f.Some? && f.value.at == w.jiffies then [w.jiffies] else []
  {
    TickRefines(g, w);
    TickOnly(g, w.jiffies, AgendaOf(g, w), Tick(g, w).1, AgendaOf(g, Tick(g, w).0), x, f);
    TicksOfOne(w.jiffies, Tick(g, w).1, x);
  }

  /** The ticks and the entry left over of a timer that was alone until then. */
  ghost predicate Life<T>(g: nat, f: Option<Firing<T>>, until: nat, ticks: seq<nat>, f': Option<Firing<T>>)
    requires g >= 1
  {
    ticks == Alone(g, f, until) && f' == Left(g, f, until)
  }

  lemma LifeTurned<T>(g: nat, f: Option<Firing<T>>, now: nat, ticks: seq<nat>,
                      until: nat, more: seq<nat>, f': Option<Firing<T>>)
    requires g >= 1 && (f.Some? ==> f.value.at >= now) && until > now
    requires ticks == if f.Some? && f.value.at == now then [now] else []
    requires Life(g, Turned(g, f, now), until, more, f')
    ensures Life(g, f, until, ticks + more, f')
  {
  }

  lemma {:induction false} RunOnly<T>(g: nat, w: Wheel<T>, now: nat, x: T, f: Option<Firing<T>>)
    returns (f': Option<Firing<T>>)
    requires 1 <= g <= 64 && Valid(g, w) && Only(AgendaOf(g, w), x, f)
    requires f.Some? ==> f.value.at >= w.jiffies
    ensures Only(AgendaOf(g, Run(g, w, now).0), x, f')
    ensures Life(g, f, Run(g, w, now).0.jiffies, Ticks(Run(g, w, now).1, x), f')
    decreases now + 1 - w.jiffies
  {
    f' := f;
    if now >= w.jiffies {
      TickInv(g, w);
      TurnOnly(g, w, x, f);
      f' := RunOnly(g, Tick(g, w).0, now, x, Turned(g, f, w.jiffies));
      RunLife(g, w, now, x, f, f');
    }
  }

  lemma RunLife<T>(g: nat, w: Wheel<T>, now: nat, x: T, f: Option<Firing<T>>, f': Option<Firing<T>>)
    requires 1 <= g <= 64 && Valid(g, w) && now >= w.jiffies && (f.Some? ==> f.value.at >= w.jiffies)
    requires Ticks(Stamp(w.jiffies, Tick(g, w).1), x)
             == if f.Some? && f.value.at == w.jiffies then [w.jiffies] else []
    requires var (w2, more) := Run(g, Tick(g, w).0, now);
             Life(g, Turned(g, f, w.jiffies), w2.jiffies, Ticks(more, x), f')
    ensures Life(g, f, Run(g, w, now).0.jiffies, Ticks(Run(g, w, now).1, x), f')
  {
    var stamped, more := Stamp(w.jiffies, Tick(g, w).1), Run(g, Tick(g, w).0, now).1;
    RunInv(g, w, now);
    TicksConcat(stamped, more, x);
    LifeTurned(g, f, w.jiffies, Ticks(stamped, x), now + 1, Ticks(more, x), f');
  }

  lemma DeleteAgenda<T>(g: nat, w: Wheel<T>, k: nat, i: nat)
    requires g >= 1 && Shaped(w) && k < SLOTS && i < |w.slots[k]|
    ensures AgendaOf(g, Delete(w, k, i)) + multiset{Expected(g, w.jiffies, k, w.slots[k][i])} == AgendaOf(g, w)
  {
    var l := w.slots[k];
    var short := l[..i] + l[i + 1..];
    var es, ss, f := Entries(g, w.jiffies, k, l), Entries(g, w.jiffies, k, short), Expected(g, w.jiffies, k, l[i]);
    assert es == es[..i] + [f] + es[i + 1..];
    assert ss == es[..i] + es[i + 1..];
    assert multiset(es) == multiset(ss) + multiset{f};
    AgendaUpdate(g, w.jiffies, w.slots, k, short);
    CancelCommon(AgendaOf(g, Delete(w, k, i)) + multiset{f}, AgendaOf(g, w), multiset(ss));
  }

  lemma OnlyWithout<T>(m: multiset<Firing<T>>, other: Firing<T>, x: T, f: Option<Firing<T>>)
    requires Only(m + multiset{other}, x, f) && other.timer.param != x
    ensures Only(m, x, f)
  {
    forall e | e in m && e.timer.param == x ensures f == Some(e) {
      assert e in m + multiset{other};
    }
    if f.Some? {
      assert (m + multiset{other})[f.value] == m[f.value];
    }
  }

  /** The tick at which a timer created now fires. */
  function FirstTick(g: nat, now: nat, due: nat): (t: nat)
    requires g >= 1
    ensures now <= t <= now + due
  {
    EarlyAtMost(g, due, now + due);
    now + due - EarlyBy(g, due, now + due)
  }

  /** create_timer adds one entry: its tick is EarlyBy before the expiry. */
  lemma CreatedEntry<T>(g: nat, w: Wheel<T>, x: T, due: nat, period: nat) returns (entry: Firing<T>)
    requires g >= 1 && Shaped(w)
    ensures entry == Firing(FirstTick(g, w.jiffies, due), Timer(x, w.jiffies + due, period))
    ensures AgendaOf(g, Create(g, w, x, due, period)) == AgendaOf(g, w) + multiset{entry}
  {
    var tm := Timer(x, w.jiffies + due, period);
    entry := Firing(FirstTick(g, w.jiffies, due), tm);
    assert Expected(g, w.jiffies, SlotFor(g, w.jiffies, tm.expires), tm) == entry by {
      FiledTickIs(g, w.jiffies, tm.expires);
    }
    AgendaAdd(g, w.jiffies, w, tm);
  }

  lemma ApplyOnly<T>(g: nat, w: Wheel<T>, op: Op<T>, x: T, f: Option<Firing<T>>) returns (f': Option<Firing<T>>)
    requires 1 <= g <= 64 && Valid(g, w) && Enabled(w, op) && Spares(w, op, x)
    requires Only(AgendaOf(g, w), x, f) && (f.Some? ==> f.value.at >= w.jiffies)
    ensures Only(AgendaOf(g, Apply(g, w, op).0), x, f')
    ensures Life(g, f, Apply(g, w, op).0.jiffies, Ticks(Apply(g, w, op).1, x), f')
  {
    f' := f;
    match op
    case Start(param, due, period) =>
      var entry := CreatedEntry(g, w, param, due, period);
      OnlySum(multiset{entry}, AgendaOf(g, w), x, f);
    case Cancel(k, i) =>
      DeleteAgenda(g, w, k, i);
      OnlyWithout(AgendaOf(g, Delete(w, k, i)), Expected(g, w.jiffies, k, w.slots[k][i]), x, f);
    case RunTo(now) =>
      f' := RunOnly(g, w, now, x, f);
  }

  /** Over any history that spares x, x's callback runs at exactly the ticks of a timer that is
      alone in the world: the wheel, the other timers and the batching leave no trace. */
  lemma {:induction false} TimerAlone<T>(g: nat, w: Wheel<T>, ops: seq<Op<T>>, x: T, f: Option<Firing<T>>)
    requires 1 <= g <= 64 && Valid(g, w) && Possible(g, w, ops) && AllSpare(g, w, ops, x)
    requires Only(AgendaOf(g, w), x, f) && (f.Some? ==> f.value.at >= w.jiffies)
    ensures var (w', log) := History(g, w, ops);
            Ticks(log, x) == Alone(g, f, w'.jiffies) && Only(AgendaOf(g, w'), x, Left(g, f, w'.jiffies))
    decreases |ops|
  {
    if ops != [] {
      var (w1, log) := Apply(g, w, ops[0]);
      var (w2, more) := History(g, w1, ops[1..]);
      ApplyValid(g, w, ops[0]);
      var f1 := ApplyOnly(g, w, ops[0], x, f);
      HistoryValid(g, w1, ops[1..]);
      TimerAlone(g, w1, ops[1..], x, f1);
      TicksConcat(log, more, x);
      AloneSplits(g, f, w1.jiffies, w2.jiffies);
    }
  }

  /** create_timer puts x down for the tick EarlyBy before its time. */
  lemma CreateOnly<T>(g: nat, w: Wheel<T>, x: T, due: nat, period: nat) returns (entry: Firing<T>)
    requires 1 <= g <= 64 && Valid(g, w) && Only(AgendaOf(g, w), x, None)
    ensures entry == Firing(FirstTick(g, w.jiffies, due), Timer(x, w.jiffies + due, period))
    ensures Only(AgendaOf(g, Create(g, w, x, due, period)), x, Some(entry))
  {
    entry := CreatedEntry(g, w, x, due, period);
    OnlySum(AgendaOf(g, w), multiset{entry}, x, Some(entry));
  }

  // ----- when is the wheel exact?

  /** The remaining times that the granularity spoils: filed in wheel 1, but more than a turn away. */
  predicate InGap(g: nat, due: nat) {
    0x100 <= due < 0x100 * g
  }

  /** The time left when the timer is filed in wheel 1 or 2 for the first time. */
  function Short(g: nat, due: nat, e: nat): nat
    requires g >= 1
    decreases due
  {
    if due < 0x4000 * g then due
    else if due < 0x10_0000 * g then Short(g, Offset(3, e), e)
    else if due < 0x400_0000 * g then Short(g, Offset(4, e), e)
    else Short(g, Offset(5, e), e)
  }

  /** A timer is early exactly when it comes to wheel 1 or 2 with a remaining time in the gap. */
  lemma {:induction false} ExactIff(g: nat, due: nat, e: nat)
    requires g >= 1
    ensures EarlyBy(g, due, e) == 0 <==> !InGap(g, Short(g, due, e))
    ensures g == 1 ==> EarlyBy(g, due, e) == 0
    decreases due
  {
    if due >= 0x4000 * g {
      if due < 0x10_0000 * g {
        ExactIff(g, Offset(3, e), e);
      } else if due < 0x400_0000 * g {
        ExactIff(g, Offset(4, e), e);
      } else {
        ExactIff(g, Offset(5, e), e);
      }
    }
  }

  /** The same for the first three wheels, without recursion. */
  lemma ExactNear(g: nat, due: nat, e: nat)
    requires 1 <= g <= 64 && due < 0x10_0000 * g
    ensures EarlyBy(g, due, e) == 0 <==> !InGap(g, due) && (due >= 0x4000 * g ==> !InGap(g, e % 0x4000))
  {
    ExactIff(g, due, e);
  }

  /** A remaining time is never shortened to nothing. */
  lemma EarlyBelow(g: nat, due: nat, e: nat)
    requires g >= 1 && due >= 0x100 * g
    ensures 0 <= EarlyBy(g, due, e) < due
  {
    if due >= 0x4000 * g {
      if due < 0x10_0000 * g { EarlyAtMost(g, Offset(3, e), e); }
      else if due < 0x400_0000 * g { EarlyAtMost(g, Offset(4, e), e); }
      else { EarlyAtMost(g, Offset(5, e), e); }
    }
  }

  /** When a periodic timer that fires at tick t is next due to fire: after its period if that is
      up to 256 ticks; from 256 g ticks on, EarlyBy before; in between, only the last 1..256 ticks
      of the period are waited for. */
  ghost function NextTick(g: nat, t: nat, p: nat): (r: nat)
    requires g >= 1 && p > 0
    ensures t < r <= t + p
  {
    if p < 0x100 * g then t + (p - 1) % 256 + 1
    else
      EarlyBelow(g, p, t + p);
      t + p - EarlyBy(g, p, t + p)
  }

  /** It is on time exactly then. */
  predicate OnTime(g: nat, t: nat, p: nat)
    requires g >= 1
  {
    if p < 0x100 * g then p <= 256 else !InGap(g, Short(g, p, t + p))
  }

  lemma OnTimeIff(g: nat, t: nat, p: nat)
    requires g >= 1 && p > 0
    ensures NextTick(g, t, p) == t + p <==> OnTime(g, t, p)
    ensures g == 1 ==> OnTime(g, t, p)
  {
    ExactIff(g, p, t + p);
  }

  /** The wheel re-arms every periodic timer for that tick, whatever its period. */
  lemma NextPeriod<T>(g: nat, f: Firing<T>)
    requires g >= 1 && f.timer.period > 0
    ensures var p := f.timer.period;
            Next(g, f) == Some(Firing(NextTick(g, f.at, p), f.timer.(expires := f.at + p)))
    ensures Next(g, f).value.at == f.at + f.timer.period <==> OnTime(g, f.at, f.timer.period)
  {
    RearmedTick(g, f.at, f.timer.period);
    OnTimeIff(g, f.at, f.timer.period);
  }

  lemma RearmedTick(g: nat, now: nat, p: nat)
    requires g >= 1 && p > 0
    ensures FiledTick(g, now + 1, now, now + p) == NextTick(g, now, p)
  {
    var e := now + p;
    LevelForMeans(g, p);
    SlotInLevel(LevelFor(g, p), e);
    if p < 0x100 * g {
      NextAtIs(now + 1, e);
      LastTurn(now, p);
    } else {
      FiledTickIs(g, now, e);
    }
  }

  lemma LastTurn(now: nat, p: nat)
    requires p > 0
    ensures now + p - (now + p - (now + 1)) / 256 * 256 == now + (p - 1) % 256 + 1
  {
  }

  ghost function Progression(t: nat, p: nat, until: nat): seq<nat>
    requires p > 0
    decreases until - t
  {
    if t >= until then [] else [t] + Progression(t + p, p, until)
  }

  /** A timer that fires at t, t + p, t + 2 p ... is re-armed on time each time before `until`; the
      last time, it is enough that it does not come before `until`. */
  ghost predicate OnTimeUntil(g: nat, t: nat, p: nat, until: nat)
    requires g >= 1 && p > 0
    decreases until - t
  {
    t < until ==> NextTick(g, t, p) >= until || (OnTime(g, t, p) && OnTimeUntil(g, t + p, p, until))
  }

  lemma AloneFrom<T>(g: nat, f: Firing<T>, f': Firing<T>, until: nat)
    requires g >= 1 && Next(g, f) == Some(f') && f.at < until
    ensures Alone(g, Some(f), until) == [f.at] + Alone(g, Some(f'), until)
  {
  }

  /** A periodic timer does not drift if and only if it is on time at every firing. */
  lemma {:induction false} NoDriftIff<T>(g: nat, f: Firing<T>, p: nat, until: nat)
    requires g >= 1 && p > 0 && f.timer.period == p
    ensures Alone(g, Some(f), until) == Progression(f.at, p, until) <==> OnTimeUntil(g, f.at, p, until)
    decreases until - f.at
  {
    if f.at < until {
      var f' := Next(g, f).value;
      var tail, steady := Alone(g, Some(f'), until), Progression(f.at + p, p, until);
      NextPeriod(g, f);
      OnTimeIff(g, f.at, p);
      AloneFrom(g, f, f', until);
      assert Alone(g, Some(f), until)[1..] == tail && Progression(f.at, p, until)[1..] == steady;
      if f'.at < until {
        assert tail[0] == f'.at;
        if OnTime(g, f.at, p) {
          NoDriftIff(g, f', p, until);
        }
      }
    }
  }

  /** The i-th firing of a timer that keeps time. */
  ghost function Nth(t: nat, p: nat, i: nat): nat
    decreases i
  {
    if i == 0 then t else Nth(t + p, p, i - 1)
  }

  lemma {:induction false} NthIs(t: nat, p: nat, i: nat)
    ensures Nth(t, p, i) == t + i * p
    decreases i
  {
    if i > 0 {
      NthIs(t + p, p, i - 1);
    }
  }

  ghost predicate OnTimeNth(g: nat, t: nat, p: nat, i: nat)
    requires g >= 1
  {
    OnTime(g, Nth(t, p, i), p)
  }

  lemma {:induction false} OnTimeFrom(g: nat, t: nat, p: nat, until: nat)
    requires g >= 1 && p > 0 && forall i: nat :: OnTimeNth(g, t, p, i)
    ensures OnTimeUntil(g, t, p, until)
    decreases until - t
  {
    if t < until {
      var t1 := t + p;
      assert OnTimeNth(g, t, p, 0);
      forall i: nat ensures OnTimeNth(g, t1, p, i) {
        assert OnTimeNth(g, t, p, i + 1);
      }
      OnTimeFrom(g, t1, p, until);
    }
  }

  lemma {:induction false} OnTimeAt(g: nat, t: nat, p: nat, i: nat)
    requires g >= 1 && p > 0 && OnTimeUntil(g, t, p, Nth(t, p, i) + p + 1)
    ensures OnTimeNth(g, t, p, i)
    decreases i
  {
    NthIs(t, p, i);
    if i > 0 {
      OnTimeAt(g, t + p, p, i - 1);
    }
  }

  ghost predicate InStep<T>(g: nat, f: Firing<T>, p: nat, until: nat)
    requires g >= 1 && p > 0
  {
    Alone(g, Some(f), until) == Progression(f.at, p, until)
  }

  /** A periodic timer never drifts if and only if it is re-armed on time at each of its firings. */
  lemma NeverDriftsIff<T>(g: nat, f: Firing<T>, p: nat)
    requires g >= 1 && p > 0 && f.timer.period == p
    ensures (forall until: nat :: InStep(g, f, p, until)) <==> (forall i: nat :: OnTimeNth(g, f.at, p, i))
  {
    if forall until: nat :: InStep(g, f, p, until) {
      forall i: nat ensures OnTimeNth(g, f.at, p, i) {
        var until := Nth(f.at, p, i) + p + 1;
        assert InStep(g, f, p, until);
        NoDriftIff(g, f, p, until);
        OnTimeAt(g, f.at, p, i);
      }
    }
    if forall i: nat :: OnTimeNth(g, f.at, p, i) {
      forall until: nat ensures InStep(g, f, p, until) {
        OnTimeFrom(g, f.at, p, until);
        NoDriftIff(g, f, p, until);
      }
    }
  }

  /** At granularity 1 no periodic timer drifts. */
  lemma {:induction false} NoDriftAtOne(t: nat, p: nat, until: nat)
    requires p > 0
    ensures OnTimeUntil(1, t, p, until)
    decreases until - t
  {
    if t < until {
      OnTimeIff(1, t, p);
      NoDriftAtOne(t + p, p, until);
    }
  }

  /** Below 16384 g it depends on the period alone. */
  predicate SteadyPeriod(g: nat, p: nat) {
    0 < p < 0x4000 * g && (p <= 256 || 0x100 * g <= p)
  }

  lemma {:induction false} SteadyOnTime(g: nat, t: nat, p: nat, until: nat)
    requires g >= 1 && 0 < p < 0x4000 * g
    ensures OnTime(g, t, p) <==> SteadyPeriod(g, p)
    ensures SteadyPeriod(g, p) ==> OnTimeUntil(g, t, p, until)
    decreases until - t
  {
    if SteadyPeriod(g, p) && t < until {
      SteadyOnTime(g, t + p, p, until);
    }
  }

  /** Below 1048576 g it depends on the period and the place of the next expiry in its block. */
  lemma OnTimeNear(g: nat, t: nat, p: nat)
    requires g >= 1 && 0x4000 * g <= p < 0x10_0000 * g
    ensures OnTime(g, t, p) <==> !InGap(g, (t + p) % 0x4000)
  {
    assert Short(g, p, t + p) == Short(g, (t + p) % 0x4000, t + p);
  }

  /** So the same period may be kept or missed, depending on when the timer fires. */
  lemma LatePeriods<T>(param: T, e: nat)
    ensures var f := Firing(13292, Timer(param, e, 200000));
            Next(10, f).value.at == 13292 + 200000 - 256
    ensures OnTime(10, 13292 - 300, 200000) && !OnTime(10, 13292, 200000)
  {
    NextPeriod(10, Firing(13292, Timer(param, e, 200000)));
    assert EarlyBy(10, 300, 213292) == 256;
    OnTimeNear(10, 13292, 200000);
    OnTimeNear(10, 13292 - 300, 200000);
  }

  /** A periodic timer created for x, and then any history that spares it: it fires from its first
      tick on, each time at the tick it is re-armed for, and in step with its period if and only if
      it is on time each time. */
  lemma PeriodicHistory<T>(g: nat, w: Wheel<T>, x: T, due: nat, period: nat, w0: Wheel<T>, ops: seq<Op<T>>)
    requires 1 <= g <= 64 && Valid(g, w) && Only(AgendaOf(g, w), x, None)
    requires period > 0 && w0 == Create(g, w, x, due, period)
    requires Possible(g, w0, ops) && AllSpare(g, w0, ops, x)
    ensures var (w', log) := History(g, w0, ops);
            var t := FirstTick(g, w.jiffies, due);
            && Ticks(log, x) == Alone(g, Some(Firing(t, Timer(x, w.jiffies + due, period))), w'.jiffies)
            && (Ticks(log, x) == Progression(t, period, w'.jiffies) <==> OnTimeUntil(g, t, period, w'.jiffies))
  {
    var f := CreateOnly(g, w, x, due, period);
    CreateInv(g, w, x, due, period);
    TimerAlone(g, w0, ops, x, Some(f));
    NoDriftIff(g, f, period, History(g, w0, ops).0.jiffies);
  }

  lemma AloneOnce<T>(g: nat, f: Firing<T>, until: nat)
    requires g >= 1 && f.timer.period == 0
    ensures Alone(g, Some(f), until) == if f.at < until then [f.at] else []
  {
  }

  /** A one-shot timer created for x, and then any history that spares it. */
  lemma OneShotHistory<T>(g: nat, w: Wheel<T>, x: T, due: nat, w0: Wheel<T>, ops: seq<Op<T>>)
    requires 1 <= g <= 64 && Valid(g, w) && Only(AgendaOf(g, w), x, None)
    requires w0 == Create(g, w, x, due, 0) && Possible(g, w0, ops) && AllSpare(g, w0, ops, x)
    ensures var t := FirstTick(g, w.jiffies, due);
            var (w', log) := History(g, w0, ops);
            Ticks(log, x) == if t < w'.jiffies then [t] else []
  {
    var f := CreateOnly(g, w, x, due, 0);
    CreateInv(g, w, x, due, 0);
    TimerAlone(g, w0, ops, x, Some(f));
    AloneOnce(g, f, History(g, w0, ops).0.jiffies);
  }

  /** The first firing is on time if and only if the remaining time misses the gap. */
  lemma FirstTickIff(g: nat, now: nat, due: nat)
    requires 1 <= g <= 64
    ensures FirstTick(g, now, due) == now + due <==> !InGap(g, Short(g, due, now + due))
    ensures due < 0x10_0000 * g ==>
              (FirstTick(g, now, due) == now + due <==>
               !InGap(g, due) && (due >= 0x4000 * g ==> !InGap(g, (now + due) % 0x4000)))
    ensures InGap(g, due) ==> FirstTick(g, now, due) == now + due % 256
  {
    ExactIff(g, due, now + due);
    if due < 0x10_0000 * g {
      ExactNear(g, due, now + due);
    }
  }

  /** At the granularity of the program a sleep of one second, or a timer of period one second,
      lasts 232 ticks; the clean-up timer of 150000 ticks keeps time. */
  lemma AsConfigured(now: nat)
    ensures FirstTick(10, now, 1000) == now + 232
    ensures !SteadyPeriod(10, 1000)
    ensures FirstTick(10, now, 150000) == now + 150000 && SteadyPeriod(10, 150000)
  {
    FirstTickIff(10, now, 1000);
    FirstTickIff(10, now, 150000);
  }
}
