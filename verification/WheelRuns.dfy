/** Whole runs against the plain timer list: run_timer calls back what the entries of the list say,
    each as if it were alone, and leaves what they leave. */
module WheelRuns {
  import opened Basics
  import opened Wheel
  import opened WheelPlacement
  import opened WheelAgenda
  import opened WheelHistory

  // ----- sums over a list, in any order

  ghost function Total<E, F>(f: E -> multiset<F>, s: seq<E>): multiset<F> {
    if s == [] then multiset{} else f(s[0]) + Total(f, s[1..])
  }

  lemma {:induction false} TotalConcat<E, F>(f: E -> multiset<F>, a: seq<E>, b: seq<E>)
    ensures Total(f, a + b) == Total(f, a) + Total(f, b)
  {
    if a == [] {
      assert a + b == b;
    } else {
      assert (a + b)[1..] == a[1..] + b;
      TotalConcat(f, a[1..], b);
    }
  }

  lemma TotalMoved<E, F>(f: E -> multiset<F>, a: seq<E>, e: E, b: seq<E>)
    ensures Total(f, a + [e] + b) == f(e) + Total(f, a + b)
  {
    assert a + [e] + b == a + ([e] + b);
    assert ([e] + b)[1..] == b;
    TotalConcat(f, a, [e] + b);
    TotalConcat(f, a, b);
  }

  lemma {:induction false} TotalAnyOrder<E, F>(f: E -> multiset<F>, a: seq<E>, b: seq<E>)
    requires multiset(a) == multiset(b)
    ensures Total(f, a) == Total(f, b)
    decreases |a|
  {
    if a == [] {
      assert |multiset(b)| == 0;
    } else {
      var e, rest := a[0], a[1..];
      assert a == [e] + rest;
      assert e in multiset(b);
      var i :| 0 <= i < |b| && b[i] == e;
      var p, q := b[..i], b[i + 1..];
      assert b == p + [e] + q;
      SameRest(e, rest, p, q);
      TotalAnyOrder(f, rest, p + q);
      TotalMoved(f, p, e, q);
    }
  }

  lemma SameRest<E>(e: E, rest: seq<E>, p: seq<E>, q: seq<E>)
    requires multiset([e] + rest) == multiset(p + [e] + q)
    ensures multiset(rest) == multiset(p + q)
  {
    assert multiset([e] + rest) == multiset(rest) + multiset{e};
    assert multiset(p + [e] + q) == multiset(p + q) + multiset{e};
    CancelCommon(multiset(rest), multiset(p + q), multiset{e});
  }

  /** Every multiset is that of some list. */
  lemma {:induction false} Listing<E>(m: multiset<E>) returns (s: seq<E>)
    ensures multiset(s) == m
    decreases |m|
  {
    s := [];
    if m != multiset{} {
      var e :| e in m;
      var rest := Listing(m - multiset{e});
      s := [e] + rest;
    }
  }

  // ----- entries on their own

  /** The firings before `until` of an entry that is alone. */
  ghost function Fires<T>(g: nat, f: Option<Firing<T>>, until: nat): multiset<Firing<T>>
    requires g >= 1
    decreases if f.Some? then until - f.value.at else 0
  {
    if f.None? || f.value.at >= until then multiset{} else multiset{f.value} + Fires(g, Next(g, f.value), until)
  }

  ghost function AsMultiset<E>(e: Option<E>): multiset<E> {
    match e case None => multiset{} case Some(l) => multiset{l}
  }

  ghost function Firer<T>(g: nat, until: nat): Firing<T> -> multiset<Firing<T>>
    requires g >= 1
  {
    f => Fires(g, Some(f), until)
  }

  ghost function Stayer<T>(g: nat, until: nat): Firing<T> -> multiset<Firing<T>>
    requires g >= 1
  {
    f => AsMultiset(Left(g, Some(f), until))
  }

  /** All that fires before `until`, and all that is left then, of the entries of a list. */
  ghost function AllFire<T>(g: nat, es: seq<Firing<T>>, until: nat): multiset<Firing<T>>
    requires g >= 1
  {
    Total(Firer(g, until), es)
  }

  ghost function AllStay<T>(g: nat, es: seq<Firing<T>>, until: nat): multiset<Firing<T>>
    requires g >= 1
  {
    Total(Stayer(g, until), es)
  }

  // ----- one turn

  function AsList<E>(e: Option<E>): seq<E> {
    match e case None => [] case Some(l) => [l]
  }

  /** What one of the timers that have just fired goes on with. */
  ghost function Following<T>(g: nat, f: Firing<T>): seq<Firing<T>>
    requires g >= 1
  {
    AsList(Next(g, f))
  }

  lemma FiledFirst<T>(g: nat, now: nat, fired: seq<Timer<T>>)
    requires g >= 1 && fired != []
    ensures Filed(g, now + 1, now, Rearmed(now, fired))
            == Following(g, Firing(now, fired[0])) + Filed(g, now + 1, now, Rearmed(now, fired[1..]))
  {
    var again := if fired[0].period == 0 then [] else [fired[0].(expires := now + fired[0].period)];
    assert Filed(g, now + 1, now, again) == Following(g, Firing(now, fired[0]));
  }

  lemma FiresThen<T>(g: nat, f: Firing<T>, n: Option<Firing<T>>, until: nat)
    requires g >= 1 && f.at < until && n == Next(g, f)
    ensures Firer(g, until)(f) == multiset{f} + Fires(g, n, until)
    ensures Stayer(g, until)(f) == AsMultiset(Left(g, n, until))
  {
  }

  lemma TotalOne<E, F>(f: E -> multiset<F>, e: E)
    ensures Total(f, [e]) == f(e)
  {
    assert [e][1..] == [];
  }

  lemma OneOrNone<T>(g: nat, n: Option<Firing<T>>, until: nat)
    requires g >= 1
    ensures AllFire(g, AsList(n), until) == Fires(g, n, until)
    ensures AllStay(g, AsList(n), until) == AsMultiset(Left(g, n, until))
  {
    if n.Some? {
      TotalOne(Firer(g, until), n.value);
      TotalOne(Stayer(g, until), n.value);
      assert AsList(n) == [n.value];
    } else {
      assert AsList(n) == [];
    }
  }

  lemma FollowingFires<T>(g: nat, f: Firing<T>, until: nat)
    requires g >= 1 && f.at < until
    ensures Firer(g, until)(f) == multiset{f} + AllFire(g, Following(g, f), until)
    ensures Stayer(g, until)(f) == AllStay(g, Following(g, f), until)
  {
    var n := Next(g, f);
    FiresThen(g, f, n, until);
    OneOrNone(g, n, until);
  }

  /** The entries that are due fire, and each periodic timer among them goes on from its next entry. */
  lemma {:induction false} DueFire<T>(g: nat, now: nat, fired: seq<Timer<T>>, until: nat)
    requires g >= 1 && now < until
    ensures AllFire(g, Stamp(now, fired), until)
            == multiset(Stamp(now, fired)) + AllFire(g, Filed(g, now + 1, now, Rearmed(now, fired)), until)
    ensures AllStay(g, Stamp(now, fired), until)
            == AllStay(g, Filed(g, now + 1, now, Rearmed(now, fired)), until)
    decreases |fired|
  {
    if fired != [] {
      var f, stamped, rest := Firing(now, fired[0]), Stamp(now, fired), Stamp(now, fired[1..]);
      assert stamped == [f] + rest && stamped[1..] == rest;
      DueFire(g, now, fired[1..], until);
      FollowingFires(g, f, until);
      FiledFirst(g, now, fired);
      TotalConcat(Firer(g, until), Following(g, f), Filed(g, now + 1, now, Rearmed(now, fired[1..])));
      TotalConcat(Stayer(g, until), Following(g, f), Filed(g, now + 1, now, Rearmed(now, fired[1..])));
    }
  }

  /** A step of the plain list, for the whole list. */
  lemma PlainStepFires<T>(g: nat, now: nat, es: seq<Firing<T>>, fired: seq<Timer<T>>, after: multiset<Firing<T>>,
                          until: nat)
    returns (es': seq<Firing<T>>)
    requires g >= 1 && now < until && PlainTick(g, now, multiset(es), fired, after)
    ensures multiset(es') == after
    ensures AllFire(g, es, until) == multiset(Stamp(now, fired)) + AllFire(g, es', until)
    ensures AllStay(g, es, until) == AllStay(g, es', until)
  {
    var stamped, filed := Stamp(now, fired), Filed(g, now + 1, now, Rearmed(now, fired));
    var stay := Listing(multiset(es) - multiset(stamped));
    es' := filed + stay;
    DueFire(g, now, fired, until);
    TotalAnyOrder(Firer(g, until), es, stamped + stay);
    TotalAnyOrder(Stayer(g, until), es, stamped + stay);
    TotalConcat(Firer(g, until), stamped, stay);
    TotalConcat(Firer(g, until), filed, stay);
    TotalConcat(Stayer(g, until), stamped, stay);
    TotalConcat(Stayer(g, until), filed, stay);
  }

  // ----- whole runs

  /** Nothing in the list is overdue. */
  lemma AgendaNotBefore<T>(g: nat, w: Wheel<T>, f: Firing<T>)
    requires 1 <= g <= 64 && Valid(g, w) && f in AgendaOf(g, w)
    ensures f.at >= w.jiffies
  {
    TickRefines(g, w);
    var stamped := multiset(Stamp(w.jiffies, Tick(g, w).1));
    assert f in stamped || f in AgendaOf(g, w) - stamped;
  }

  lemma {:induction false} NotYet<T>(g: nat, es: seq<Firing<T>>, until: nat)
    requires g >= 1 && forall f | f in es :: f.at >= until
    ensures AllFire(g, es, until) == multiset{} && AllStay(g, es, until) == multiset(es)
  {
    if es != [] {
      NotYet(g, es[1..], until);
      assert Fires(g, Some(es[0]), until) == multiset{} && Left(g, Some(es[0]), until) == Some(es[0]);
      assert AllStay(g, es, until) == multiset{es[0]} + multiset(es[1..]);
      assert es == [es[0]] + es[1..];
    }
  }

  /** The log and the agenda left are those of the list es until then. */
  ghost predicate AsListed<T>(g: nat, es: seq<Firing<T>>, until: nat, log: seq<Firing<T>>, left: multiset<Firing<T>>)
    requires g >= 1
  {
    multiset(log) == AllFire(g, es, until) && left == AllStay(g, es, until)
  }

  lemma StepListed<T>(g: nat, now: nat, es: seq<Firing<T>>, fired: seq<Timer<T>>, es1: seq<Firing<T>>,
                      until: nat, more: seq<Firing<T>>, left: multiset<Firing<T>>)
    requires g >= 1
    requires AllFire(g, es, until) == multiset(Stamp(now, fired)) + AllFire(g, es1, until)
    requires AllStay(g, es, until) == AllStay(g, es1, until)
    requires AsListed(g, es1, until, more, left)
    ensures AsListed(g, es, until, Stamp(now, fired) + more, left)
  {
  }

  lemma RunStep<T>(g: nat, w: Wheel<T>, now: nat) returns (w1: Wheel<T>, fired: seq<Timer<T>>)
    requires 1 <= g <= 64 && Valid(g, w) && now >= w.jiffies
    ensures w1 == Tick(g, w).0 && fired == Tick(g, w).1 && Valid(g, w1) && w1.jiffies == w.jiffies + 1
    ensures PlainTick(g, w.jiffies, AgendaOf(g, w), fired, AgendaOf(g, w1))
    ensures Run(g, w, now) == (Run(g, w1, now).0, Stamp(w.jiffies, fired) + Run(g, w1, now).1)
    ensures Run(g, w1, now).0.jiffies == now + 1
  {
    w1, fired := Tick(g, w).0, Tick(g, w).1;
    TickInv(g, w);
    TickRefines(g, w);
    RunInv(g, w1, now);
  }

  lemma NothingDue<T>(g: nat, w: Wheel<T>, es: seq<Firing<T>>)
    requires 1 <= g <= 64 && Valid(g, w) && multiset(es) == AgendaOf(g, w)
    ensures AsListed(g, es, w.jiffies, [], AgendaOf(g, w))
  {
    forall f | f in es ensures f.at >= w.jiffies {
      assert f in multiset(es);
      AgendaNotBefore(g, w, f);
    }
    NotYet(g, es, w.jiffies);
  }

  ghost predicate RunListed<T>(g: nat, w: Wheel<T>, now: nat, es: seq<Firing<T>>)
    requires g >= 1 && Shaped(w)
  {
    var (w', log) := Run(g, w, now);
    AsListed(g, es, w'.jiffies, log, AgendaOf(g, w'))
  }

  lemma RunListedOn<T>(g: nat, w: Wheel<T>, now: nat, es: seq<Firing<T>>, w1: Wheel<T>, fired: seq<Timer<T>>,
                       es1: seq<Firing<T>>)
    requires g >= 1 && Shaped(w) && Shaped(w1) && RunListed(g, w1, now, es1)
    requires Run(g, w, now) == (Run(g, w1, now).0, Stamp(w.jiffies, fired) + Run(g, w1, now).1)
    requires Run(g, w1, now).0.jiffies == now + 1
    requires AllFire(g, es, now + 1) == multiset(Stamp(w.jiffies, fired)) + AllFire(g, es1, now + 1)
    requires AllStay(g, es, now + 1) == AllStay(g, es1, now + 1)
    ensures RunListed(g, w, now, es)
  {
    var (w2, more) := Run(g, w1, now);
    StepListed(g, w.jiffies, es, fired, es1, now + 1, more, AgendaOf(g, w2));
  }

  /** run_timer refines the plain timer list over whole runs: with the agenda listed in any order, its
      callbacks are exactly the firings of all the entries up to the clock, each taken by itself, and
      the agenda afterwards is what they leave. */
  lemma {:induction false} RunIsAgenda<T>(g: nat, w: Wheel<T>, now: nat, es: seq<Firing<T>>)
    requires 1 <= g <= 64 && Valid(g, w) && multiset(es) == AgendaOf(g, w)
    ensures RunListed(g, w, now, es)
    decreases now + 1 - w.jiffies
  {
    if now < w.jiffies {
      NothingDue(g, w, es);
    } else {
      var w1, fired := RunStep(g, w, now);
      var es1 := PlainStepFires(g, w.jiffies, es, fired, AgendaOf(g, w1), now + 1);
      RunIsAgenda(g, w1, now, es1);
      RunListedOn(g, w, now, es, w1, fired, es1);
    }
  }
}
