/** With granularity 1 the wheel is nothing but a fast form of a table from timers to expiries. */
module WheelTable {
  import opened Basics
  import opened Wheel
  import opened WheelPlacement
  import opened WheelAgenda
  import opened WheelHistory
  import opened WheelTheorems
  import opened WheelPunctual
  import opened WheelRuns

  /** The timers of the callbacks in the log. */
  ghost function Fired<T>(log: seq<Firing<T>>): seq<Timer<T>> {
    seq(|log|, i requires 0 <= i < |log| => log[i].timer)
  }

  lemma NotPending<T>(w: Wheel<T>, tm: Timer<T>)
    requires Valid(1, w) && tm.expires < w.jiffies
    ensures Pending(w.slots)[tm] == 0
  {
    if tm in Pending(w.slots) {
      PendingPlaced(1, w, tm);
    }
  }

  /** One turn fires the entries of its tick, all of them and only them. */
  lemma TickIsTable<T>(w: Wheel<T>, tm: Timer<T>)
    requires Valid(1, w)
    ensures multiset(Tick(1, w).1)[tm] == if tm.expires == w.jiffies then Pending(w.slots)[tm] else 0
    ensures tm.expires == w.jiffies ==> tm !in Pending(Tick(1, w).0.slots)
  {
    var (w1, fired) := Tick(1, w);
    TickConserves(1, w);
    FiredInWindow(1, w);
    if tm.expires == w.jiffies {
      TickInv(1, w);
      NotPending(w1, tm);
    } else {
      assert tm !in fired;
    }
  }

  lemma {:induction false} RearmedPeriodic<T>(now: nat, fired: seq<Timer<T>>)
    ensures forall o | o in Rearmed(now, fired) :: o.period > 0
  {
    if fired != [] {
      RearmedPeriodic(now, fired[1..]);
    }
  }

  lemma FiredConcat<T>(now: nat, fired: seq<Timer<T>>, log: seq<Firing<T>>)
    ensures Fired(Stamp(now, fired) + log) == fired + Fired(log)
  {
  }

  /** What a turn does to a one-shot timer, among any others. */
  lemma OneShotTick<T>(w: Wheel<T>, tm: Timer<T>)
    requires Valid(1, w) && tm.period == 0
    ensures Pending(Tick(1, w).0.slots)[tm] == if tm.expires == w.jiffies then 0 else Pending(w.slots)[tm]
  {
    var (w1, fired) := Tick(1, w);
    TickIsTable(w, tm);
    TickConserves(1, w);
    RearmedPeriodic(w.jiffies, fired);
    assert tm !in multiset(Rearmed(w.jiffies, fired));
  }

  /** run_timer up to `now` calls a one-shot timer back if its expiry is at most `now`, as often as it
      is pending, and otherwise leaves it; every callback runs at its timer's expiry.  With
      RunInOrder: in the order of the expiries. */
  lemma {:induction false} RunIsTable<T>(w: Wheel<T>, now: nat, tm: Timer<T>)
    requires Valid(1, w) && tm.period == 0
    ensures var (w1, log) := Run(1, w, now);
            && multiset(Fired(log))[tm] == (if tm.expires <= now then Pending(w.slots)[tm] else 0)
            && Pending(w1.slots)[tm] == (if tm.expires <= now then 0 else Pending(w.slots)[tm])
            && (forall f | f in log :: f.at == f.timer.expires)
    decreases now + 1 - w.jiffies
  {
    RunInWindow(1, w, now);
    if now >= w.jiffies {
      var (w1, fired) := Tick(1, w);
      var log := Run(1, w1, now).1;
      TickInv(1, w);
      TickIsTable(w, tm);
      OneShotTick(w, tm);
      RunIsTable(w1, now, tm);
      FiredConcat(w.jiffies, fired, log);
      assert multiset(fired + Fired(log)) == multiset(fired) + multiset(Fired(log));
      if tm.expires < w.jiffies && tm in Pending(w.slots) {
        PendingPlaced(1, w, tm);
      }
    } else if tm in Pending(w.slots) {
      PendingPlaced(1, w, tm);
    }
  }

  // ----- periodic timers as well

  /** The callbacks before `until` of a timer that is called whenever it is due. */
  ghost function Called<T>(tm: Option<Timer<T>>, until: nat): multiset<Firing<T>>
    decreases if tm.Some? then until - tm.value.expires else 0
  {
    if tm.None? || tm.value.expires >= until then multiset{}
    else multiset{Firing(tm.value.expires, tm.value)} + Called(Again(tm.value), until)
  }

  ghost function Caller<T>(until: nat): Timer<T> -> multiset<Firing<T>> {
    tm => Called(Some(tm), until)
  }

  ghost function Rester<T>(until: nat): Timer<T> -> multiset<Timer<T>> {
    tm => AsMultiset(Rest(Some(tm), until))
  }

  ghost function DueAt<T>(tm: Timer<T>): Firing<T> {
    Firing(tm.expires, tm)
  }

  ghost function Listed<T>(l: seq<Timer<T>>): seq<Firing<T>> {
    seq(|l|, i requires 0 <= i < |l| => DueAt(l[i]))
  }

  ghost function ListedTimer<T>(tm: Option<Timer<T>>): Option<Firing<T>> {
    match tm case None => None case Some(t) => Some(DueAt(t))
  }

  lemma {:induction false} ListedCounts<T>(l: seq<Timer<T>>, f: Firing<T>)
    ensures multiset(Listed(l))[f] == if f == DueAt(f.timer) then multiset(l)[f.timer] else 0
  {
    if l != [] {
      assert Listed(l) == [DueAt(l[0])] + Listed(l[1..]);
      assert l == [l[0]] + l[1..];
      ListedCounts(l[1..], f);
    }
  }

  lemma {:induction false} SumCounts<A, B>(ms: seq<multiset<A>>, ns: seq<multiset<B>>, a: A, b: B, same: bool)
    requires |ms| == |ns| && forall k :: 0 <= k < |ms| ==> ms[k][a] == if same then ns[k][b] else 0
    ensures Sum(ms)[a] == if same then Sum(ns)[b] else 0
  {
    if ms != [] {
      SumCounts(ms[1..], ns[1..], a, b, same);
    }
  }

  lemma AgendaCounts<T>(g: nat, base: nat, slots: seq<seq<Timer<T>>>, f: Firing<T>)
    requires g >= 1 && |slots| == SLOTS
    requires forall k: nat :: k < SLOTS ==> Entries(g, base, k, slots[k]) == Listed(slots[k])
    ensures Agenda(g, base, slots)[f] == if f == DueAt(f.timer) then Pending(slots)[f.timer] else 0
  {
    var ms := seq(SLOTS, k requires 0 <= k < SLOTS => multiset(Entries(g, base, k, slots[k])));
    var ns := seq(|slots|, k requires 0 <= k < |slots| => multiset(slots[k]));
    forall k | 0 <= k < SLOTS ensures ms[k][f] == if f == DueAt(f.timer) then ns[k][f.timer] else 0 {
      ListedCounts(slots[k], f);
    }
    SumCounts(ms, ns, f, f.timer, f == DueAt(f.timer));
  }

  /** At granularity 1 the agenda has each timer at its expiry. */
  lemma AgendaIsTable<T>(w: Wheel<T>, f: Firing<T>)
    requires Valid(1, w)
    ensures AgendaOf(1, w)[f] == if f == DueAt(f.timer) then Pending(w.slots)[f.timer] else 0
  {
    forall k: nat | k < SLOTS ensures Entries(1, w.jiffies, k, w.slots[k]) == Listed(w.slots[k]) {
      SlotIsTable(w, k);
    }
    AgendaCounts(1, w.jiffies, w.slots, f);
  }

  lemma SlotIsTable<T>(w: Wheel<T>, k: nat)
    requires Valid(1, w) && k < SLOTS
    ensures Entries(1, w.jiffies, k, w.slots[k]) == Listed(w.slots[k])
  {
    forall i | 0 <= i < |w.slots[k]|
      ensures Expected(1, w.jiffies, k, w.slots[k][i]) == DueAt(w.slots[k][i])
    {
      var e := w.slots[k][i].expires;
      assert Placed(1, Base(w.jiffies, 1, k), k, e);
      if k < 256 {
        NextAtIs(w.jiffies, e);
      } else {
        ExactIff(1, Offset(Level(k), e), e);
      }
    }
  }

  /** At granularity 1 an entry fires as its timer is called, and leaves its timer's rest. */
  lemma {:induction false} FiresAsCalled<T>(tm: Option<Timer<T>>, until: nat)
    ensures Fires(1, ListedTimer(tm), until) == Called(tm, until)
    ensures Left(1, ListedTimer(tm), until) == ListedTimer(Rest(tm, until))
    decreases if tm.Some? then until - tm.value.expires else 0
  {
    if tm.Some? && tm.value.expires < until {
      var f := DueAt(tm.value);
      if tm.value.period > 0 {
        NextPeriod(1, f);
        OnTimeIff(1, f.at, tm.value.period);
      }
      assert Next(1, f) == ListedTimer(Again(tm.value));
      FiresAsCalled(Again(tm.value), until);
    }
  }

  lemma {:induction false} AllCalled<T>(l: seq<Timer<T>>, until: nat)
    ensures AllFire(1, Listed(l), until) == Total(Caller(until), l)
  {
    if l != [] {
      assert Listed(l)[1..] == Listed(l[1..]);
      FiresAsCalled(Some(l[0]), until);
      AllCalled(l[1..], until);
    }
  }

  lemma RestCount<T>(t: Timer<T>, until: nat, tm: Timer<T>)
    ensures Stayer(1, until)(DueAt(t))[DueAt(tm)] == Rester(until)(t)[tm]
  {
    FiresAsCalled(Some(t), until);
  }

  lemma {:induction false} AllRest<T>(l: seq<Timer<T>>, until: nat, tm: Timer<T>)
    ensures AllStay(1, Listed(l), until)[DueAt(tm)] == Total(Rester(until), l)[tm]
  {
    if l != [] {
      assert Listed(l)[1..] == Listed(l[1..]);
      RestCount(l[0], until, tm);
      AllRest(l[1..], until, tm);
    }
  }

  lemma ListedIsAgenda<T>(w: Wheel<T>, l: seq<Timer<T>>)
    requires Valid(1, w) && multiset(l) == Pending(w.slots)
    ensures multiset(Listed(l)) == AgendaOf(1, w)
  {
    var a, b := multiset(Listed(l)), AgendaOf(1, w);
    forall f: Firing<T> ensures a[f] == b[f] {
      ListedCounts(l, f);
      AgendaIsTable(w, f);
    }
    SameCounts(a, b);
  }

  /** run_timer as a table, all timers together: with the pending timers listed in any order, the
      callbacks up to `now` are those of every timer at its expiry and, if it is periodic, at every
      period after it; what is pending afterwards is what each of them leaves. */
  lemma TableRun<T>(w: Wheel<T>, now: nat, l: seq<Timer<T>>)
    requires Valid(1, w) && multiset(l) == Pending(w.slots)
    ensures var (w', log) := Run(1, w, now);
            && multiset(log) == Total(Caller(w'.jiffies), l)
            && Pending(w'.slots) == Total(Rester(w'.jiffies), l)
  {
    var (w', log) := Run(1, w, now);
    var until := w'.jiffies;
    RunInv(1, w, now);
    ListedIsAgenda(w, l);
    RunIsAgenda(1, w, now, Listed(l));
    AllCalled(l, until);
    forall tm: Timer<T> ensures Pending(w'.slots)[tm] == Total(Rester(until), l)[tm] {
      AgendaIsTable(w', DueAt(tm));
      AllRest(l, until, tm);
    }
    SameCounts(Pending(w'.slots), Total(Rester(until), l));
  }
}
