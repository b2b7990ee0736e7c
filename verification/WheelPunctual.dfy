/** Timers that fire exactly when they are due, at every granularity: all of them if it is 1, and
    otherwise those that are due, and due again, within 256 ticks. */
module WheelPunctual {
  import opened Basics
  import opened Wheel
  import opened WheelPlacement
  import opened WheelAgenda
  import opened WheelHistory
  import opened WheelTheorems

  ghost predicate Punctual<T>(g: nat, now: nat, tm: Timer<T>) {
    g == 1 || (tm.expires < now + 256 && tm.period <= 256)
  }

  /** A timer that is due is fired by the next turn, whatever slot it is in. */
  lemma DueFires<T>(g: nat, w: Wheel<T>, tm: Timer<T>)
    requires Valid(g, w) && tm in Pending(w.slots) && tm.expires == w.jiffies
    ensures tm in Tick(g, w).1
  {
    var (w1, fired) := Tick(g, w);
    TickInv(g, w);
    TickConserves(g, w);
    if tm !in fired {
      assert tm in Pending(w1.slots);
      PendingPlaced(g, w1, tm);
    }
  }

  /** A punctual timer is fired by a turn exactly when it is due. */
  lemma PunctualTick<T>(g: nat, w: Wheel<T>, tm: Timer<T>)
    requires Valid(g, w) && tm in Pending(w.slots) && Punctual(g, w.jiffies, tm)
    ensures tm in Tick(g, w).1 <==> tm.expires == w.jiffies
    ensures w.jiffies <= tm.expires
  {
    FiredInWindow(g, w);
    PendingPlaced(g, w, tm);
    if tm.expires == w.jiffies {
      DueFires(g, w, tm);
    }
  }

  /** The timer as it is filed again after its callback. */
  ghost function Again<T>(tm: Timer<T>): Option<Timer<T>> {
    if tm.period == 0 then None else Some(tm.(expires := tm.expires + tm.period))
  }

  /** The ticks before `until` at which the timer is due. */
  ghost function Dues<T>(tm: Option<Timer<T>>, until: nat): seq<nat>
    decreases if tm.Some? then until - tm.value.expires else 0
  {
    if tm.None? || tm.value.expires >= until then [] else [tm.value.expires] + Dues(Again(tm.value), until)
  }

  /** The timer that is pending then. */
  ghost function Rest<T>(tm: Option<Timer<T>>, until: nat): (r: Option<Timer<T>>)
    ensures r.Some? ==> r.value.expires >= until
    decreases if tm.Some? then until - tm.value.expires else 0
  {
    if tm.None? || tm.value.expires >= until then tm else Rest(Again(tm.value), until)
  }

  lemma {:induction false} DuesSplit<T>(tm: Option<Timer<T>>, a: nat, b: nat)
    requires a <= b
    ensures Dues(tm, b) == Dues(tm, a) + Dues(Rest(tm, a), b)
    ensures Rest(tm, b) == Rest(Rest(tm, a), b)
    decreases if tm.Some? then b - tm.value.expires else 0
  {
    if tm.Some? && tm.value.expires < a {
      DuesSplit(Again(tm.value), a, b);
    }
  }

  /** For a periodic timer they are an arithmetic progression. */
  lemma {:induction false} DuesPeriodic<T>(tm: Timer<T>, until: nat)
    requires tm.period > 0
    ensures Dues(Some(tm), until) == Progression(tm.expires, tm.period, until)
    decreases until - tm.expires
  {
    if tm.expires < until {
      DuesPeriodic(Again(tm).value, until);
    }
  }

  lemma HoldsSum<T>(a: multiset<Timer<T>>, b: multiset<Timer<T>>, x: T, tm: Option<Timer<T>>)
    requires Holds(a, x, None) && Holds(b, x, tm)
    ensures Holds(a + b, x, tm) && Holds(b + a, x, tm)
  {
  }

  lemma ForHolds<T>(l: seq<Timer<T>>, x: T, tm: Option<Timer<T>>)
    requires For(l, x) == match tm case None => [] case Some(t) => [t]
    ensures Holds(multiset(l), x, tm)
  {
    forall o | o in l && o.param == x ensures tm == Some(o) {
      ForCounts(l, x, o);
    }
    if tm.Some? {
      ForCounts(l, x, tm.value);
    }
  }

  /** The timer that x holds after a turn. */
  ghost function AfterTurn<T>(now: nat, tm: Option<Timer<T>>): Option<Timer<T>> {
    if tm.Some? && tm.value.expires == now then Again(tm.value) else tm
  }

  ghost predicate Ready<T>(g: nat, w: Wheel<T>, x: T, tm: Option<Timer<T>>) {
    Valid(g, w) && Holds(Pending(w.slots), x, tm) && (tm.Some? ==> Punctual(g, w.jiffies, tm.value))
  }

  lemma TurnFired<T>(g: nat, w: Wheel<T>, x: T, tm: Option<Timer<T>>)
    requires Ready(g, w, x, tm)
    ensures tm.Some? ==> tm.value.expires >= w.jiffies
    ensures For(Tick(g, w).1, x) == if tm.Some? && tm.value.expires == w.jiffies then [tm.value] else []
    ensures Holds(Pending(w.slots) - multiset(Tick(g, w).1), x,
                  if tm.Some? && tm.value.expires == w.jiffies then None else tm)
  {
    TickConserves(g, w);
    if tm.Some? {
      PunctualTick(g, w, tm.value);
    }
    FiredHolds(Pending(w.slots), Tick(g, w).1, x, tm);
    if For(Tick(g, w).1, x) == [] && tm.Some? {
      ForCounts(Tick(g, w).1, x, tm.value);
    }
  }

  lemma RearmedOne<T>(now: nat, l: seq<Timer<T>>, tm: Option<Timer<T>>)
    requires l == match tm case None => [] case Some(t) => [t]
    requires tm.Some? ==> tm.value.expires == now
    ensures Rearmed(now, l) == match tm
                               case None => []
                               case Some(t) => match Again(t) case None => [] case Some(u) => [u]
  {
  }

  lemma RearmedHolds<T>(now: nat, stay: multiset<Timer<T>>, fired: seq<Timer<T>>, x: T, tm: Option<Timer<T>>)
    requires var due := tm.Some? && tm.value.expires == now;
             && For(fired, x) == (if due then [tm.value] else []) && Holds(stay, x, if due then None else tm)
    ensures Holds(stay + multiset(Rearmed(now, fired)), x, AfterTurn(now, tm))
  {
    var again := Rearmed(now, fired);
    var due := if tm.Some? && tm.value.expires == now then tm else None;
    ForRearmed(now, fired, x);
    RearmedOne(now, For(fired, x), due);
    ForHolds(again, x, if due.Some? then Again(due.value) else None);
    if due.Some? {
      HoldsSum(stay, multiset(again), x, Again(tm.value));
    } else {
      HoldsSum(multiset(again), stay, x, tm);
    }
  }

  /** One turn of run_timer, seen by x. */
  lemma TurnReady<T>(g: nat, w: Wheel<T>, x: T, tm: Option<Timer<T>>)
    requires Ready(g, w, x, tm)
    ensures Ready(g, Tick(g, w).0, x, AfterTurn(w.jiffies, tm)) && (tm.Some? ==> tm.value.expires >= w.jiffies)
    ensures Ticks(Stamp(w.jiffies, Tick(g, w).1), x)
            == if tm.Some? && tm.value.expires == w.jiffies then [w.jiffies] else []
  {
    TurnFired(g, w, x, tm);
    TicksOfOne(w.jiffies, Tick(g, w).1, x);
    RearmedHolds(w.jiffies, Pending(w.slots) - multiset(Tick(g, w).1), Tick(g, w).1, x, tm);
    TickConserves(g, w);
    TickInv(g, w);
  }

  /** The ticks, and the timer left, of x when it has only been run until then. */
  ghost predicate Served<T>(tm: Option<Timer<T>>, until: nat, ticks: seq<nat>, tm': Option<Timer<T>>) {
    ticks == Dues(tm, until) && tm' == Rest(tm, until)
  }

  lemma ServedTurn<T>(now: nat, tm: Option<Timer<T>>, ticks: seq<nat>, until: nat, more: seq<nat>,
                      tm': Option<Timer<T>>)
    requires (tm.Some? ==> tm.value.expires >= now) && until > now
    requires ticks == if tm.Some? && tm.value.expires == now then [now] else []
    requires Served(AfterTurn(now, tm), until, more, tm')
    ensures Served(tm, until, ticks + more, tm')
  {
  }

  lemma {:induction false} RunReady<T>(g: nat, w: Wheel<T>, now: nat, x: T, tm: Option<Timer<T>>)
    returns (tm': Option<Timer<T>>)
    requires Ready(g, w, x, tm) && (tm.Some? ==> tm.value.expires >= w.jiffies)
    ensures Ready(g, Run(g, w, now).0, x, tm')
    ensures Served(tm, Run(g, w, now).0.jiffies, Ticks(Run(g, w, now).1, x), tm')
    decreases now + 1 - w.jiffies
  {
    tm' := tm;
    if now >= w.jiffies {
      TurnReady(g, w, x, tm);
      tm' := RunReady(g, Tick(g, w).0, now, x, AfterTurn(w.jiffies, tm));
      RunServed(g, w, now, x, tm, tm');
    }
  }

  lemma RunServed<T>(g: nat, w: Wheel<T>, now: nat, x: T, tm: Option<Timer<T>>, tm': Option<Timer<T>>)
    requires Valid(g, w) && now >= w.jiffies && (tm.Some? ==> tm.value.expires >= w.jiffies)
    requires Ticks(Stamp(w.jiffies, Tick(g, w).1), x)
             == if tm.Some? && tm.value.expires == w.jiffies then [w.jiffies] else []
    requires var (w2, more) := Run(g, Tick(g, w).0, now);
             Served(AfterTurn(w.jiffies, tm), w2.jiffies, Ticks(more, x), tm')
    ensures Served(tm, Run(g, w, now).0.jiffies, Ticks(Run(g, w, now).1, x), tm')
  {
    var stamped, more := Stamp(w.jiffies, Tick(g, w).1), Run(g, Tick(g, w).0, now).1;
    RunInv(g, w, now);
    TicksConcat(stamped, more, x);
    ServedTurn(w.jiffies, tm, Ticks(stamped, x), now + 1, Ticks(more, x), tm');
  }

  lemma ApplyReady<T>(g: nat, w: Wheel<T>, op: Op<T>, x: T, tm: Option<Timer<T>>) returns (tm': Option<Timer<T>>)
    requires Ready(g, w, x, tm) && (tm.Some? ==> tm.value.expires >= w.jiffies)
    requires Enabled(w, op) && Spares(w, op, x)
    ensures Ready(g, Apply(g, w, op).0, x, tm')
    ensures Served(tm, Apply(g, w, op).0.jiffies, Ticks(Apply(g, w, op).1, x), tm')
  {
    tm' := tm;
    match op
    case Start(param, due, period) =>
      StartHolds(g, w, Timer(param, w.jiffies + due, period), x, tm);
      CreateInv(g, w, param, due, period);
    case Cancel(k, i) =>
      DeletePending(w, k, i);
      DeleteInv(g, w, k, i);
      HoldsWithout(Pending(Delete(w, k, i).slots), w.slots[k][i], x, tm);
    case RunTo(now) =>
      tm' := RunReady(g, w, now, x, tm);
  }

  /** Over any history that spares x, its timer's callback runs at exactly the ticks at which it is
      due: always if the granularity is 1, and otherwise if the timer is due within 256 ticks and its
      period is at most 256.  What is pending afterwards is the timer with its next expiry. */
  lemma {:induction false} PunctualHistory<T>(g: nat, w: Wheel<T>, ops: seq<Op<T>>, x: T, tm: Option<Timer<T>>)
    requires Ready(g, w, x, tm) && (tm.Some? ==> tm.value.expires >= w.jiffies)
    requires Possible(g, w, ops) && AllSpare(g, w, ops, x)
    ensures var (w', log) := History(g, w, ops);
            Ticks(log, x) == Dues(tm, w'.jiffies) && Ready(g, w', x, Rest(tm, w'.jiffies))
    decreases |ops|
  {
    if ops != [] {
      var (w1, log) := Apply(g, w, ops[0]);
      var (w2, more) := History(g, w1, ops[1..]);
      ApplyValid(g, w, ops[0]);
      var tm1 := ApplyReady(g, w, ops[0], x, tm);
      HistoryValid(g, w1, ops[1..]);
      PunctualHistory(g, w1, ops[1..], x, tm1);
      TicksConcat(log, more, x);
      DuesSplit(tm, w1.jiffies, w2.jiffies);
    }
  }

  /** Once at e, or every p ticks from e on. */
  ghost function OnceOrEvery(e: nat, p: nat, until: nat): seq<nat> {
    if p > 0 then Progression(e, p, until) else if e < until then [e] else []
  }

  lemma DuesCreated<T>(tm: Timer<T>, until: nat)
    ensures Dues(Some(tm), until) == OnceOrEvery(tm.expires, tm.period, until)
  {
    if tm.period > 0 {
      DuesPeriodic(tm, until);
    }
  }

  lemma ReadyCreated<T>(g: nat, w: Wheel<T>, x: T, due: nat, period: nat, w0: Wheel<T>)
    requires Ready(g, w, x, None) && w0 == Create(g, w, x, due, period)
    requires g == 1 || (due < 256 && period <= 256)
    ensures Ready(g, w0, x, Some(Timer(x, w.jiffies + due, period))) && w0.jiffies == w.jiffies
  {
    CreateHolds(g, w, x, due, period);
    CreateInv(g, w, x, due, period);
  }

  lemma ReadyServed<T>(g: nat, w0: Wheel<T>, ops: seq<Op<T>>, x: T, e: nat, p: nat)
    requires Ready(g, w0, x, Some(Timer(x, e, p))) && e >= w0.jiffies
    requires Possible(g, w0, ops) && AllSpare(g, w0, ops, x)
    ensures Ticks(History(g, w0, ops).1, x) == OnceOrEvery(e, p, History(g, w0, ops).0.jiffies)
  {
    PunctualHistory(g, w0, ops, x, Some(Timer(x, e, p)));
    DuesCreated(Timer(x, e, p), History(g, w0, ops).0.jiffies);
  }

  /** Such a timer created for x, and then any history that spares it. */
  lemma PunctualCreated<T>(g: nat, w: Wheel<T>, x: T, due: nat, period: nat, w0: Wheel<T>, ops: seq<Op<T>>)
    requires Ready(g, w, x, None) && w0 == Create(g, w, x, due, period)
    requires g == 1 || (due < 256 && period <= 256)
    requires Possible(g, w0, ops) && AllSpare(g, w0, ops, x)
    ensures Ticks(History(g, w0, ops).1, x) == OnceOrEvery(w.jiffies + due, period, History(g, w0, ops).0.jiffies)
  {
    ReadyCreated(g, w, x, due, period, w0);
    ReadyServed(g, w0, ops, x, w.jiffies + due, period);
  }
}
