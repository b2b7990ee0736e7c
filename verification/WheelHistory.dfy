/** Whole histories of a timing wheel: timers created, deleted and run, in any order. */
module WheelHistory {
  import opened Basics
  import opened Wheel
  import opened WheelPlacement
  import opened WheelAgenda

  datatype Op<T> =
    | Start(param: T, due: nat, period: nat)
    | Cancel(slot: nat, index: nat)
    | RunTo(now: nat)

  /** delete_timer is given a timer that is pending. */
  ghost predicate Enabled<T>(w: Wheel<T>, op: Op<T>)
    requires Shaped(w)
  {
    op.Cancel? ==> op.slot < SLOTS && op.index < |w.slots[op.slot]|
  }

  ghost function Apply<T>(g: nat, w: Wheel<T>, op: Op<T>): (r: (Wheel<T>, seq<Firing<T>>))
    requires g >= 1 && Shaped(w) && Enabled(w, op)
    ensures Shaped(r.0)
  {
    match op
    case Start(param, due, period) => (Create(g, w, param, due, period), [])
    case Cancel(k, i) => (Delete(w, k, i), [])
    case RunTo(now) => Run(g, w, now)
  }

  ghost predicate Possible<T>(g: nat, w: Wheel<T>, ops: seq<Op<T>>)
    requires g >= 1 && Shaped(w)
    decreases |ops|
  {
    ops != [] ==> Enabled(w, ops[0]) && Possible(g, Apply(g, w, ops[0]).0, ops[1..])
  }

  /** The wheel after the operations, and every callback they ran. */
  ghost function History<T>(g: nat, w: Wheel<T>, ops: seq<Op<T>>): (r: (Wheel<T>, seq<Firing<T>>))
    requires g >= 1 && Shaped(w) && Possible(g, w, ops)
    ensures Shaped(r.0)
    decreases |ops|
  {
    if ops == [] then (w, [])
    else
      var (w1, log) := Apply(g, w, ops[0]);
      var (w2, more) := History(g, w1, ops[1..]);
      (w2, log + more)
  }

  // ----- batching

  /** One catch-up run is the same as several: same wheel, same log, in the same order. */
  lemma {:induction false} RunInBatches<T>(g: nat, w: Wheel<T>, a: nat, b: nat)
    requires g >= 1 && Shaped(w) && a <= b
    ensures var (w1, log1) := Run(g, w, a);
            var (w2, log2) := Run(g, w1, b);
            Run(g, w, b) == (w2, log1 + log2)
    decreases a + 1 - w.jiffies
  {
    if a >= w.jiffies {
      var (t, fired) := Tick(g, w);
      RunInBatches(g, t, a, b);
      var (w1, log1) := Run(g, t, a);
      var (w2, log2) := Run(g, w1, b);
      assert Stamp(w.jiffies, fired) + (log1 + log2) == (Stamp(w.jiffies, fired) + log1) + log2;
    } else {
      var (w2, log2) := Run(g, w, b);
      assert [] + log2 == log2;
    }
  }

  ghost predicate InOrder<T>(log: seq<Firing<T>>, first: nat, last: nat) {
    && (forall f | f in log :: first <= f.at <= last)
    && (forall i, j :: 0 <= i < j < |log| ==> log[i].at <= log[j].at)
  }

  lemma OrderConcat<T>(s: seq<Firing<T>>, more: seq<Firing<T>>, first: nat, last: nat)
    requires InOrder(s, first, first) && InOrder(more, first + 1, last) && first <= last
    ensures InOrder(s + more, first, last)
  {
    var log := s + more;
    forall i, j | 0 <= i < j < |log| ensures log[i].at <= log[j].at {
      if j < |s| {
        assert log[i] == s[i] && log[j] == s[j];
      } else if i < |s| {
        assert log[i] in s && log[j] in more;
      } else {
        assert log[i] == more[i - |s|] && log[j] == more[j - |s|];
      }
    }
  }

  /** Callbacks run in the order of their ticks. */
  lemma {:induction false} RunInOrder<T>(g: nat, w: Wheel<T>, now: nat)
    requires g >= 1 && Shaped(w)
    ensures InOrder(Run(g, w, now).1, w.jiffies, now)
    decreases now + 1 - w.jiffies
  {
    if now >= w.jiffies {
      var (w1, fired) := Tick(g, w);
      RunInOrder(g, w1, now);
      OrderConcat(Stamp(w.jiffies, fired), Run(g, w1, now).1, w.jiffies, now);
    }
  }

  // ----- one timer among many

  /** The timers of a list that were created for x. */
  ghost function For<T>(l: seq<Timer<T>>, x: T): seq<Timer<T>> {
    if l == [] then [] else (if l[0].param == x then [l[0]] else []) + For(l[1..], x)
  }

  /** The ticks at which the callback for x ran. */
  ghost function Ticks<T>(log: seq<Firing<T>>, x: T): seq<nat> {
    if log == [] then [] else (if log[0].timer.param == x then [log[0].at] else []) + Ticks(log[1..], x)
  }

  lemma {:induction false} TicksConcat<T>(a: seq<Firing<T>>, b: seq<Firing<T>>, x: T)
    ensures Ticks(a + b, x) == Ticks(a, x) + Ticks(b, x)
  {
    if a == [] {
      assert a + b == b;
    } else {
      assert (a + b)[1..] == a[1..] + b;
      TicksConcat(a[1..], b, x);
      var h := if a[0].timer.param == x then [a[0].at] else [];
      assert h + (Ticks(a[1..], x) + Ticks(b, x)) == (h + Ticks(a[1..], x)) + Ticks(b, x);
    }
  }

  lemma {:induction false} ForCounts<T>(l: seq<Timer<T>>, x: T, tm: Timer<T>)
    ensures multiset(For(l, x))[tm] == if tm.param == x then multiset(l)[tm] else 0
  {
    if l != [] {
      ForCounts(l[1..], x, tm);
      assert l == [l[0]] + l[1..];
    }
  }

  lemma SameCounts<E>(a: multiset<E>, b: multiset<E>)
    requires forall e :: a[e] == b[e]
    ensures a == b
  {
  }

  lemma {:induction false} ForConcat<T>(a: seq<Timer<T>>, b: seq<Timer<T>>, x: T)
    ensures For(a + b, x) == For(a, x) + For(b, x)
  {
    if a == [] {
      assert a + b == b;
    } else {
      assert (a + b)[1..] == a[1..] + b;
      ForConcat(a[1..], b, x);
      var h := if a[0].param == x then [a[0]] else [];
      assert h + (For(a[1..], x) + For(b, x)) == (h + For(a[1..], x)) + For(b, x);
    }
  }

  /** If x has only the timer tm in l, and that once, then For(l, x) is just it. */
  lemma ForSole<T>(l: seq<Timer<T>>, x: T, tm: Timer<T>)
    requires tm.param == x && multiset(l)[tm] == 1
    requires forall o | o in l && o.param == x :: o == tm
    ensures For(l, x) == [tm]
  {
    var m := multiset(For(l, x));
    forall o: Timer<T> ensures m[o] == multiset{tm}[o] {
      ForCounts(l, x, o);
      if o.param == x && o != tm {
        assert o !in multiset(l);
      }
    }
    SameCounts(m, multiset{tm});
    assert |For(l, x)| == |m| == 1;
    assert For(l, x)[0] in m;
  }

  lemma ForNone<T>(l: seq<Timer<T>>, x: T)
    requires forall o | o in l :: o.param != x
    ensures For(l, x) == []
  {
    if For(l, x) != [] {
      var o := For(l, x)[0];
      assert o in multiset(For(l, x));
      ForCounts(l, x, o);
    }
  }

  lemma {:induction false} ForRearmed<T>(now: nat, l: seq<Timer<T>>, x: T)
    ensures For(Rearmed(now, l), x) == Rearmed(now, For(l, x))
  {
    if l != [] {
      var again := if l[0].period == 0 then [] else [l[0].(expires := now + l[0].period)];
      ForRearmed(now, l[1..], x);
      ForConcat(again, Rearmed(now, l[1..]), x);
      if l[0].param == x {
        assert For(again, x) == again;
        assert ([l[0]] + For(l[1..], x))[1..] == For(l[1..], x);
      } else {
        assert For(again, x) == [];
        assert For(l, x) == For(l[1..], x);
      }
    }
  }

  lemma {:induction false} TicksStamp<T>(now: nat, fired: seq<Timer<T>>, x: T)
    ensures |Ticks(Stamp(now, fired), x)| == |For(fired, x)|
    ensures forall t | t in Ticks(Stamp(now, fired), x) :: t == now
  {
    if fired != [] {
      assert Stamp(now, fired)[1..] == Stamp(now, fired[1..]);
      TicksStamp(now, fired[1..], x);
    }
  }

  lemma {:induction false} StampCounts<T>(now: nat, l: seq<Timer<T>>, tm: Timer<T>)
    ensures multiset(Stamp(now, l))[Firing(now, tm)] == multiset(l)[tm]
  {
    if l != [] {
      assert Stamp(now, l) == [Firing(now, l[0])] + Stamp(now, l[1..]);
      assert l == [l[0]] + l[1..];
      StampCounts(now, l[1..], tm);
    }
  }

  // ----- granularities 1..64: every timer behaves as if it were alone

  /** The list m holds the entry f for x and no other; or none at all. */
  ghost predicate Only<T>(m: multiset<Firing<T>>, x: T, f: Option<Firing<T>>) {
    && (forall e | e in m && e.timer.param == x :: f == Some(e))
    && (f.Some? ==> f.value.timer.param == x && m[f.value] == 1)
  }

  /** A timer filed during tick `now` for later will fire later. */
  lemma FiledLater(g: nat, now: nat, e: nat)
    requires g >= 1 && now < e
    ensures FiledTick(g, now + 1, now, e) > now
  {
    var k := SlotFor(g, now, e);
    FiledIsPlaced(g, now, e);
    EarlyAtMost(g, Offset(Level(k), e), e);
  }

  /** The entry that follows f, once f has fired: none for a one-shot timer. */
  ghost function Next<T>(g: nat, f: Firing<T>): (r: Option<Firing<T>>)
    requires g >= 1
    ensures r.Some? ==> r.value.at > f.at && r.value.timer.param == f.timer.param
  {
    if f.timer.period == 0 then None
    else
      var e := f.at + f.timer.period;
      FiledLater(g, f.at, e);
      Some(Expected(g, f.at + 1, SlotFor(g, f.at, e), f.timer.(expires := e)))
  }

  /** The ticks before `until` at which a timer fires that is alone, next at f.at. */
  ghost function Alone<T>(g: nat, f: Option<Firing<T>>, until: nat): seq<nat>
    requires g >= 1
    decreases if f.Some? then until - f.value.at else 0
  {
    if f.None? || f.value.at >= until then [] else [f.value.at] + Alone(g, Next(g, f.value), until)
  }

  /** The entry it is left with then. */
  ghost function Left<T>(g: nat, f: Option<Firing<T>>, until: nat): (r: Option<Firing<T>>)
    requires g >= 1
    ensures r.Some? ==> r.value.at >= until
    decreases if f.Some? then until - f.value.at else 0
  {
    if f.None? || f.value.at >= until then f else Left(g, Next(g, f.value), until)
  }

  lemma AloneFirst<T>(g: nat, f: Firing<T>, until: nat)
    requires g >= 1 && f.at < until
    ensures Alone(g, Some(f), until) == [f.at] + Alone(g, Next(g, f), until)
    ensures Left(g, Some(f), until) == Left(g, Next(g, f), until)
  {
  }

  lemma {:induction false} LeftSplits<T>(g: nat, f: Option<Firing<T>>, a: nat, b: nat)
    requires g >= 1 && a <= b
    ensures Left(g, f, b) == Left(g, Left(g, f, a), b)
    decreases if f.Some? then b - f.value.at else 0
  {
    if f.Some? && f.value.at < a {
      AloneFirst(g, f.value, a);
      AloneFirst(g, f.value, b);
      LeftSplits(g, Next(g, f.value), a, b);
    }
  }

  lemma Prepend<E>(h: E, s: seq<E>, t: seq<E>, u: seq<E>)
    requires s == t + u
    ensures [h] + s == ([h] + t) + u
  {
  }

  lemma {:induction false} TicksSplit<T>(g: nat, f: Option<Firing<T>>, a: nat, b: nat, l: Option<Firing<T>>)
    requires g >= 1 && a <= b && l == Left(g, f, a)
    ensures Alone(g, f, b) == Alone(g, f, a) + Alone(g, l, b)
    decreases if f.Some? then b - f.value.at else 0
  {
    if f.Some? && f.value.at < a {
      AloneFirst(g, f.value, a);
      AloneFirst(g, f.value, b);
      var n := Next(g, f.value);
      TicksSplit(g, n, a, b, l);
      Prepend(f.value.at, Alone(g, n, b), Alone(g, n, a), Alone(g, l, b));
    }
  }

  lemma AloneSplits<T>(g: nat, f: Option<Firing<T>>, a: nat, b: nat)
    requires g >= 1 && a <= b
    ensures Alone(g, f, b) == Alone(g, f, a) + Alone(g, Left(g, f, a), b)
    ensures Left(g, f, b) == Left(g, Left(g, f, a), b)
  {
    TicksSplit(g, f, a, b, Left(g, f, a));
    LeftSplits(g, f, a, b);
  }

  lemma OnlySum<T>(a: multiset<Firing<T>>, b: multiset<Firing<T>>, x: T, f: Option<Firing<T>>)
    requires Only(a, x, None) && Only(b, x, f)
    ensures Only(a + b, x, f) && Only(b + a, x, f)
  {
  }

  /** The entries for x. */
  ghost function Of<T>(es: seq<Firing<T>>, x: T): seq<Firing<T>> {
    if es == [] then [] else (if es[0].timer.param == x then [es[0]] else []) + Of(es[1..], x)
  }

  lemma {:induction false} OfCounts<T>(es: seq<Firing<T>>, x: T, f: Firing<T>)
    ensures multiset(Of(es, x))[f] == if f.timer.param == x then multiset(es)[f] else 0
  {
    if es != [] {
      OfCounts(es[1..], x, f);
      assert es == [es[0]] + es[1..];
    }
  }

  lemma OfOnly<T>(es: seq<Firing<T>>, x: T, f: Option<Firing<T>>)
    requires Of(es, x) == match f case None => [] case Some(e) => [e]
    ensures Only(multiset(es), x, f)
  {
    forall e | e in es && e.timer.param == x ensures f == Some(e) {
      OfCounts(es, x, e);
    }
    if f.Some? {
      OfCounts(es, x, f.value);
    }
  }

  lemma {:induction false} FiledOf<T>(g: nat, now: nat, l: seq<Timer<T>>, x: T)
    requires g >= 1
    ensures Of(Filed(g, now + 1, now, l), x) == Filed(g, now + 1, now, For(l, x))
    decreases |l|
  {
    if l != [] {
      var f := Filed(g, now + 1, now, l);
      assert f[1..] == Filed(g, now + 1, now, l[1..]);
      FiledOf(g, now, l[1..], x);
      if l[0].param == x {
        assert Filed(g, now + 1, now, For(l, x)) == [f[0]] + Filed(g, now + 1, now, For(l[1..], x));
      }
    }
  }

  /** What fires, and what stays, of the entries of x. */
  lemma FiredOnly<T>(now: nat, before: multiset<Firing<T>>, fired: seq<Timer<T>>, stay: multiset<Firing<T>>,
                     x: T, f: Option<Firing<T>>)
    requires before == multiset(Stamp(now, fired)) + stay && forall e | e in stay :: e.at > now
    requires Only(before, x, f)
    ensures f.Some? ==> f.value.at >= now
    ensures For(fired, x) == if f.Some? && f.value.at == now then [f.value.timer] else []
    ensures Only(stay, x, if f.Some? && f.value.at == now then None else f)
  {
    forall o | o in fired && o.param == x ensures f == Some(Firing(now, o)) {
      StampCounts(now, fired, o);
      assert Firing(now, o) in before;
    }
    if f.Some? && f.value.at == now {
      StampCounts(now, fired, f.value.timer);
      assert stay[f.value] == 0;
      ForSole(fired, x, f.value.timer);
    } else {
      ForNone(fired, x);
      if f.Some? {
        assert f.value !in Stamp(now, fired);
        assert f.value in stay;
      }
    }
  }

  /** One turn of run_timer, seen by x: its callback runs if and only if its entry says so. */
  lemma TickOnly<T>(g: nat, now: nat, before: multiset<Firing<T>>, fired: seq<Timer<T>>,
                    after: multiset<Firing<T>>, x: T, f: Option<Firing<T>>)
    requires g >= 1 && PlainTick(g, now, before, fired, after) && Only(before, x, f)
    ensures f.Some? ==> f.value.at >= now
    ensures For(fired, x) == if f.Some? && f.value.at == now then [f.value.timer] else []
    ensures Only(after, x, if f.Some? && f.value.at == now then Next(g, f.value) else f)
  {
    var again := Rearmed(now, fired);
    var stay, filed := before - multiset(Stamp(now, fired)), multiset(Filed(g, now + 1, now, again));
    FiredOnly(now, before, fired, stay, x, f);
    ForRearmed(now, fired, x);
    FiledNext(g, now, again, x, if f.Some? && f.value.at == now then f else None);
    if f.Some? && f.value.at == now {
      OnlySum(stay, filed, x, Next(g, f.value));
    } else {
      OnlySum(filed, stay, x, f);
    }
  }

  /** The entry that re-arming gives x back. */
  lemma FiledNext<T>(g: nat, now: nat, again: seq<Timer<T>>, x: T, f: Option<Firing<T>>)
    requires g >= 1 && (f.Some? ==> f.value.at == now && f.value.timer.param == x)
    requires For(again, x) == Rearmed(now, if f.Some? then [f.value.timer] else [])
    ensures Only(multiset(Filed(g, now + 1, now, again)), x, if f.Some? then Next(g, f.value) else None)
  {
    var es := Filed(g, now + 1, now, again);
    FiledOf(g, now, again, x);
    OfOnly(es, x, if f.Some? then Next(g, f.value) else None);
  }
}
