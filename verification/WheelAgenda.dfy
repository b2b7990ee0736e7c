/** What the wheel will do, read off its slots: every timer with the tick it will fire at.
    Against that plain list the wheel is only an index: cascading does not change it, and a
    turn of run_timer removes exactly the entries of its tick.  The list is exact for
    granularities 1..64, which covers the 10 the program uses. */
module WheelAgenda {
  import opened Wheel
  import opened WheelPlacement

  // ----- sums over the slots

  ghost function Sum<E>(ms: seq<multiset<E>>): multiset<E> {
    if ms == [] then multiset{} else ms[0] + Sum(ms[1..])
  }

  lemma CancelCommon<E>(a: multiset<E>, b: multiset<E>, m: multiset<E>)
    requires a + m == b + m
    ensures a == b
  {
    forall e ensures a[e] == b[e] {
      assert (a + m)[e] == (b + m)[e];
    }
  }

  lemma {:induction false} SumUpdate<E>(ms: seq<multiset<E>>, k: nat, m: multiset<E>)
    requires k < |ms|
    ensures Sum(ms[k := m]) + ms[k] == Sum(ms) + m
  {
    if k == 0 {
      assert ms[k := m][1..] == ms[1..];
    } else {
      var after := ms[1..][k - 1 := m];
      assert ms[k := m][1..] == after;
      SumUpdate(ms[1..], k - 1, m);
      calc {
        Sum(ms[k := m]) + ms[k];
        (ms[0] + Sum(after)) + ms[1..][k - 1];
        ms[0] + (Sum(after) + ms[1..][k - 1]);
        ms[0] + (Sum(ms[1..]) + m);
        Sum(ms) + m;
      }
    }
  }

  lemma {:induction false} SumMember<E>(ms: seq<multiset<E>>, e: E)
    ensures e in Sum(ms) <==> exists k :: 0 <= k < |ms| && e in ms[k]
  {
    if ms != [] {
      SumMember(ms[1..], e);
      if e in Sum(ms[1..]) {
        var k :| 0 <= k < |ms[1..]| && e in ms[1..][k];
        assert e in ms[k + 1];
      }
      if k :| 0 <= k < |ms| && e in ms[k] {
        if k > 0 {
          assert e in ms[1..][k - 1];
        }
      }
    }
  }

  // ----- the timers of a wheel, and the conservation of timers for every granularity

  ghost function Pending<T>(slots: seq<seq<Timer<T>>>): multiset<Timer<T>> {
    Sum(seq(|slots|, k requires 0 <= k < |slots| => multiset(slots[k])))
  }

  lemma PendingUpdate<T>(slots: seq<seq<Timer<T>>>, k: nat, l: seq<Timer<T>>)
    requires k < |slots|
    ensures Pending(slots[k := l]) + multiset(slots[k]) == Pending(slots) + multiset(l)
  {
    var ms := seq(|slots|, j requires 0 <= j < |slots| => multiset(slots[j]));
    var after := slots[k := l];
    assert seq(|after|, j requires 0 <= j < |after| => multiset(after[j])) == ms[k := multiset(l)];
    SumUpdate(ms, k, multiset(l));
  }

  lemma PendingMember<T>(slots: seq<seq<Timer<T>>>, tm: Timer<T>)
    ensures tm in Pending(slots) <==> exists k :: 0 <= k < |slots| && tm in slots[k]
  {
    var ms := seq(|slots|, j requires 0 <= j < |slots| => multiset(slots[j]));
    SumMember(ms, tm);
    if k :| 0 <= k < |slots| && tm in slots[k] {
      assert tm in ms[k];
    }
  }

  lemma PendingPut<T>(slots: seq<seq<Timer<T>>>, k: nat, tm: Timer<T>)
    requires k < |slots|
    ensures Pending(Put(slots, k, tm)) == Pending(slots) + multiset{tm}
  {
    PendingUpdate(slots, k, slots[k] + [tm]);
    assert multiset(slots[k] + [tm]) == multiset(slots[k]) + multiset{tm};
    CancelCommon(Pending(Put(slots, k, tm)), Pending(slots) + multiset{tm}, multiset(slots[k]));
  }

  lemma {:induction false} PendingAddAll<T>(g: nat, w: Wheel<T>, l: seq<Timer<T>>)
    requires g >= 1 && Shaped(w)
    ensures Pending(AddAll(g, w, l).slots) == Pending(w.slots) + multiset(l)
    decreases |l|
  {
    if l == [] {
    } else {
      PendingPut(w.slots, SlotFor(g, w.jiffies, l[0].expires), l[0]);
      PendingAddAll(g, Add(g, w, l[0]), l[1..]);
      assert l == [l[0]] + l[1..];
      assert multiset(l) == multiset{l[0]} + multiset(l[1..]);
    }
  }

  /** cascade_timer neither loses nor copies a timer. */
  lemma CascadeConserves<T>(g: nat, w: Wheel<T>, n: nat)
    requires g >= 1 && Shaped(w) && 2 <= n <= 5
    ensures Pending(Cascade(g, w, n).slots) == Pending(w.slots)
  {
    var k := CascadeSlot(w.jiffies, n);
    PendingUpdate(w.slots, k, []);
    PendingAddAll(g, w.(slots := w.slots[k := []]), w.slots[k]);
  }

  lemma {:induction false} CascadeFromConserves<T>(g: nat, w: Wheel<T>, n: nat)
    requires g >= 1 && Shaped(w) && 2 <= n <= 5
    ensures Pending(CascadeFrom(g, w, n).slots) == Pending(w.slots)
    decreases 5 - n
  {
    CascadeConserves(g, w, n);
    if Index(w.jiffies, n) == 0 && n < 5 {
      CascadeFromConserves(g, Cascade(g, w, n), n + 1);
    }
  }

  /** A turn of run_timer: what fires leaves, what is periodic comes back, the rest stays. */
  lemma TickConserves<T>(g: nat, w: Wheel<T>)
    requires g >= 1 && Shaped(w)
    ensures var (w1, fired) := Tick(g, w);
            && multiset(fired) <= Pending(w.slots)
            && Pending(w1.slots)
               == Pending(w.slots) - multiset(fired) + multiset(Rearmed(w.jiffies, fired))
  {
    var c := Carry(g, w);
    if w.jiffies % 256 == 0 {
      CascadeFromConserves(g, w, 2);
    }
    var k := w.jiffies % 256;
    var rest := c.(slots := c.slots[k := []]);
    PendingUpdate(c.slots, k, []);
    PendingAddAll(g, rest, Rearmed(w.jiffies, c.slots[k]));
    TakeOut(Pending(w.slots), multiset(c.slots[k]), Pending(rest.slots));
  }

  lemma TakeOut<E>(a: multiset<E>, f: multiset<E>, stay: multiset<E>)
    requires stay + f == a
    ensures f <= a && a - f == stay
  {
  }

  // ----- when a timer will fire

  /** The first tick from `base` on that looks at slot k of wheel 1. */
  function NextAt(base: nat, k: nat): nat
    requires k < 256
  {
    base + (k + 256 - base % 256) % 256
  }

  /** How early a timer fires that is filed with `due` ticks left. */
  function EarlyBy(g: nat, due: nat, e: nat): nat
    requires g >= 1
    decreases due
  {
    if due < 0x100 * g then due / 256 * 256
    else if due < 0x4000 * g then 0
    else if due < 0x10_0000 * g then EarlyBy(g, Offset(3, e), e)
    else if due < 0x400_0000 * g then EarlyBy(g, Offset(4, e), e)
    else EarlyBy(g, Offset(5, e), e)
  }

  /** The tick at which the timer of slot k, due at e, will fire. */
  function FireTick(g: nat, base: nat, k: nat, e: nat): int
    requires g >= 1 && k < SLOTS
  {
    if k < 256 then NextAt(base, k) else e - EarlyBy(g, Offset(Level(k), e), e)
  }

  /** The tick at which a timer filed at `now` will fire. */
  function FiledTick(g: nat, base: nat, now: nat, e: nat): int
    requires g >= 1
  {
    FireTick(g, base, SlotFor(g, now, e), e)
  }

  lemma {:induction false} EarlyAtMost(g: nat, due: nat, e: nat)
    requires g >= 1
    ensures 0 <= EarlyBy(g, due, e) <= due
    decreases due
  {
    if due >= 0x4000 * g {
      if due < 0x10_0000 * g { EarlyAtMost(g, Offset(3, e), e); }
      else if due < 0x400_0000 * g { EarlyAtMost(g, Offset(4, e), e); }
      else { EarlyAtMost(g, Offset(5, e), e); }
    }
  }

  /** A timer filed with `due` ticks left fires EarlyBy(due) before it is due. */
  lemma FiledTickIs(g: nat, now: nat, e: nat)
    requires g >= 1 && now <= e
    ensures FiledTick(g, now, now, e) == e - EarlyBy(g, e - now, e)
    ensures now <= FiledTick(g, now, now, e) <= e
  {
    LevelForMeans(g, e - now);
    EarlyAtMost(g, e - now, e);
    var n := LevelFor(g, e - now);
    SlotInLevel(n, e);
    if n == 1 {
      NextAtIs(now, e);
    } else if n == 2 {
      assert e % 256 < 256 * g;
    }
  }

  lemma NextAtIs(now: nat, e: nat)
    requires now <= e
    ensures NextAt(now, e % 256) == e - (e - now) / 256 * 256
  {
    var q, r := (e - now) / 256, (e - now) % 256;
    assert e == now + 256 * q + r;
    assert e % 256 == (now + r) % 256;
  }

  /** The heart of the matter: filing a timer of the turned slot again, at the tick its slot
      is turned, does not change when it will fire. */
  lemma RefiledTick(g: nat, now: nat, n: nat, k: nat, e: nat)
    requires 1 <= g <= 64 && 2 <= n <= 5
    requires Offset(n, now) == 0 && k == CascadeSlot(now, n)
    requires Placed(g, now, k, e)
    ensures FiledTick(g, now, now, e) == FireTick(g, now, k, e)
  {
    FiledTickIs(g, now, e);
    if Block(n, e) == Block(n, now) {
      SameBlock(n, now, e);
    } else {
      FarBlock(n, now, e);
    }
  }

  lemma SameBlock(n: nat, now: nat, e: nat)
    requires 2 <= n <= 5 && Offset(n, now) == 0 && Block(n, e) == Block(n, now)
    ensures e - now == Offset(n, e)
  {
  }

  lemma FarBlock(n: nat, now: nat, e: nat)
    requires 2 <= n <= 5 && Offset(n, now) == 0 && now <= e - Offset(n, e)
    requires Block(n, e) % 64 == Block(n, now) % 64 && Block(n, e) != Block(n, now)
    ensures e - now >= match n case 2 => 0x4000 case 3 => 0x10_0000 case 4 => 0x400_0000 case 5 => 0x1_0000_0000
  {
    assert Block(n, e) >= Block(n, now) + 64;
  }

  // ----- the agenda

  ghost function Entries<T>(g: nat, base: nat, k: nat, l: seq<Timer<T>>): seq<Firing<T>>
    requires g >= 1 && k < SLOTS
  {
    seq(|l|, i requires 0 <= i < |l| => Expected(g, base, k, l[i]))
  }

  ghost function Expected<T>(g: nat, base: nat, k: nat, tm: Timer<T>): Firing<T>
    requires g >= 1 && k < SLOTS
  {
    var t := FireTick(g, base, k, tm.expires);
    Firing(if t < 0 then 0 else t, tm)
  }

  ghost function Agenda<T>(g: nat, base: nat, slots: seq<seq<Timer<T>>>): multiset<Firing<T>>
    requires g >= 1 && |slots| == SLOTS
  {
    Sum(seq(SLOTS, k requires 0 <= k < SLOTS => multiset(Entries(g, base, k, slots[k]))))
  }

  lemma AgendaUpdate<T>(g: nat, base: nat, slots: seq<seq<Timer<T>>>, k: nat, l: seq<Timer<T>>)
    requires g >= 1 && |slots| == SLOTS && k < SLOTS
    ensures Agenda(g, base, slots[k := l]) + multiset(Entries(g, base, k, slots[k]))
            == Agenda(g, base, slots) + multiset(Entries(g, base, k, l))
  {
    var ms := seq(SLOTS, j requires 0 <= j < SLOTS => multiset(Entries(g, base, j, slots[j])));
    var after := slots[k := l];
    var m := multiset(Entries(g, base, k, l));
    assert seq(SLOTS, j requires 0 <= j < SLOTS => multiset(Entries(g, base, j, after[j]))) == ms[k := m];
    SumUpdate(ms, k, m);
  }

  lemma AgendaMember<T>(g: nat, base: nat, slots: seq<seq<Timer<T>>>, f: Firing<T>)
    requires g >= 1 && |slots| == SLOTS
    ensures f in Agenda(g, base, slots) <==>
            exists k: nat :: k < SLOTS && f.timer in slots[k] && f == Expected(g, base, k, f.timer)
  {
    var ms := seq(SLOTS, j requires 0 <= j < SLOTS => multiset(Entries(g, base, j, slots[j])));
    SumMember(ms, f);
    if k: nat :| k < SLOTS && f.timer in slots[k] && f == Expected(g, base, k, f.timer) {
      var i :| 0 <= i < |slots[k]| && slots[k][i] == f.timer;
      assert Entries(g, base, k, slots[k])[i] == f;
      assert f in ms[k];
    }
    if k :| 0 <= k < |ms| && f in ms[k] {
      assert f in Entries(g, base, k, slots[k]);
    }
  }

  /** What filing a list at `now` adds to the agenda. */
  ghost function Filed<T>(g: nat, base: nat, now: nat, l: seq<Timer<T>>): seq<Firing<T>>
    requires g >= 1
  {
    seq(|l|, i requires 0 <= i < |l| => Expected(g, base, SlotFor(g, now, l[i].expires), l[i]))
  }

  lemma {:induction false} AgendaAddAll<T>(g: nat, base: nat, w: Wheel<T>, l: seq<Timer<T>>)
    requires g >= 1 && Shaped(w)
    ensures Agenda(g, base, AddAll(g, w, l).slots)
            == Agenda(g, base, w.slots) + multiset(Filed(g, base, w.jiffies, l))
    decreases |l|
  {
    if l == [] {
    } else {
      AgendaAdd(g, base, w, l[0]);
      AgendaAddAll(g, base, Add(g, w, l[0]), l[1..]);
      assert Filed(g, base, w.jiffies, l)
             == [Filed(g, base, w.jiffies, l)[0]] + Filed(g, base, w.jiffies, l[1..]);
    }
  }

  lemma AgendaAdd<T>(g: nat, base: nat, w: Wheel<T>, tm: Timer<T>)
    requires g >= 1 && Shaped(w)
    ensures Agenda(g, base, Add(g, w, tm).slots) == Agenda(g, base, w.slots)
            + multiset{Expected(g, base, SlotFor(g, w.jiffies, tm.expires), tm)}
  {
    var k := SlotFor(g, w.jiffies, tm.expires);
    var f, here := Expected(g, base, k, tm), Entries(g, base, k, w.slots[k]);
    AgendaUpdate(g, base, w.slots, k, w.slots[k] + [tm]);
    assert Entries(g, base, k, w.slots[k] + [tm]) == here + [f];
    assert multiset(here + [f]) == multiset(here) + multiset{f};
    CancelCommon(Agenda(g, base, Add(g, w, tm).slots), Agenda(g, base, w.slots) + multiset{f}, multiset(here));
  }

  /** Cascading a wheel that is due leaves the agenda as it is. */
  lemma CascadeAgenda<T>(g: nat, w: Wheel<T>, n: nat)
    requires 1 <= g <= 64 && 2 <= n <= 5 && Inv(g, w, n - 1)
    requires Offset(n, w.jiffies) == 0
    ensures Agenda(g, w.jiffies, Cascade(g, w, n).slots) == Agenda(g, w.jiffies, w.slots)
  {
    var now, k := w.jiffies, CascadeSlot(w.jiffies, n);
    AgendaUpdate(g, now, w.slots, k, []);
    AgendaAddAll(g, now, w.(slots := w.slots[k := []]), w.slots[k]);
    forall i | 0 <= i < |w.slots[k]|
      ensures Filed(g, now, now, w.slots[k])[i] == Entries(g, now, k, w.slots[k])[i]
    {
      var e := w.slots[k][i].expires;
      assert Placed(g, Base(now, n - 1, k), k, e);
      RefiledTick(g, now, n, k, e);
    }
    assert Filed(g, now, now, w.slots[k]) == Entries(g, now, k, w.slots[k]);
  }

  lemma {:induction false} CascadeFromAgenda<T>(g: nat, w: Wheel<T>, n: nat)
    requires 1 <= g <= 64 && 2 <= n <= 5 && Inv(g, w, n - 1)
    requires Offset(n, w.jiffies) == 0
    ensures Agenda(g, w.jiffies, CascadeFrom(g, w, n).slots) == Agenda(g, w.jiffies, w.slots)
    decreases 5 - n
  {
    CascadeAgenda(g, w, n);
    CascadeInv(g, w, n);
    if n < 5 {
      SpanDivides(w.jiffies, n);
    }
    if Index(w.jiffies, n) == 0 && n < 5 {
      CascadeFromAgenda(g, Cascade(g, w, n), n + 1);
    }
  }

  /** Once the carry is done, the entries of this tick are exactly its slot of wheel 1. */
  lemma TurnedTicks<T>(g: nat, c: Wheel<T>, k: nat, tm: Timer<T>)
    requires 1 <= g <= 64 && Inv(g, c, 5) && k < SLOTS && tm in c.slots[k]
    ensures FireTick(g, c.jiffies, k, tm.expires) >= c.jiffies
    ensures FireTick(g, c.jiffies, k, tm.expires) == c.jiffies <==> k == c.jiffies % 256
    ensures k != c.jiffies % 256 ==>
              FireTick(g, c.jiffies, k, tm.expires) == FireTick(g, c.jiffies + 1, k, tm.expires)
  {
    assert Placed(g, Base(c.jiffies, 5, k), k, tm.expires);
    if k >= 256 {
      EarlyAtMost(g, Offset(Level(k), tm.expires), tm.expires);
    } else {
      NextAtHere(c.jiffies, k);
    }
  }

  lemma NextAtHere(now: nat, k: nat)
    requires k < 256
    ensures NextAt(now, k) >= now
    ensures NextAt(now, k) == now <==> k == now % 256
    ensures k != now % 256 ==> NextAt(now, k) == NextAt(now + 1, k)
  {
  }

  /** The agenda does not depend on the clock, once the slot of this tick is out. */
  lemma AgendaLater<T>(g: nat, c: Wheel<T>)
    requires 1 <= g <= 64 && Inv(g, c, 5)
    ensures var rest := c.slots[c.jiffies % 256 := []];
            Agenda(g, c.jiffies, rest) == Agenda(g, c.jiffies + 1, rest)
  {
    var rest := c.slots[c.jiffies % 256 := []];
    forall k: nat | k < SLOTS
      ensures Entries(g, c.jiffies, k, rest[k]) == Entries(g, c.jiffies + 1, k, rest[k])
    {
      forall i | 0 <= i < |rest[k]|
        ensures Entries(g, c.jiffies, k, rest[k])[i] == Entries(g, c.jiffies + 1, k, rest[k])[i]
      {
        TurnedTicks(g, c, k, rest[k][i]);
      }
    }
    assert seq(SLOTS, k requires 0 <= k < SLOTS => multiset(Entries(g, c.jiffies, k, rest[k])))
           == seq(SLOTS, k requires 0 <= k < SLOTS => multiset(Entries(g, c.jiffies + 1, k, rest[k])));
  }

  /** One step of the plain timer list at tick `now`: the entries of `now` fire, in some order,
      the others are all later and stay, and each periodic timer gets its next entry. */
  ghost predicate PlainStep<T>(g: nat, now: nat, before: multiset<Firing<T>>, fired: seq<Timer<T>>,
                               stay: multiset<Firing<T>>, after: multiset<Firing<T>>)
    requires g >= 1
  {
    && before == multiset(Stamp(now, fired)) + stay
    && (forall f | f in stay :: f.at > now)
    && after == stay + multiset(Filed(g, now + 1, now, Rearmed(now, fired)))
  }

  ghost predicate PlainTick<T>(g: nat, now: nat, before: multiset<Firing<T>>, fired: seq<Timer<T>>,
                               after: multiset<Firing<T>>)
    requires g >= 1
  {
    PlainStep(g, now, before, fired, before - multiset(Stamp(now, fired)), after)
  }

  /** After the carry the agenda is the slot of this tick plus what is for later. */
  lemma FiringSplits<T>(g: nat, c: Wheel<T>)
    requires 1 <= g <= 64 && Inv(g, c, 5)
    ensures var k := c.jiffies % 256;
            var stay := Agenda(g, c.jiffies + 1, c.slots[k := []]);
            && Agenda(g, c.jiffies, c.slots) == multiset(Stamp(c.jiffies, c.slots[k])) + stay
            && (forall f | f in stay :: f.at > c.jiffies)
  {
    var now, k := c.jiffies, c.jiffies % 256;
    var fired, rest := c.slots[k], c.slots[k := []];
    AgendaLater(g, c);
    AgendaUpdate(g, now, c.slots, k, []);
    forall i | 0 <= i < |fired| ensures Entries(g, now, k, fired)[i] == Stamp(now, fired)[i] {
      TurnedTicks(g, c, k, fired[i]);
    }
    assert Entries(g, now, k, fired) == Stamp(now, fired);
    assert Entries<T>(g, now, k, []) == [];
    assert Agenda(g, now, rest) + multiset(Stamp(now, fired)) == Agenda(g, now, c.slots);
    forall f | f in Agenda(g, now, rest) ensures f.at > now {
      AgendaMember(g, now, rest, f);
      var j: nat :| j < SLOTS && f.timer in rest[j] && f == Expected(g, now, j, f.timer);
      TurnedTicks(g, c, j, f.timer);
    }
  }

  /** The carry chain does not change when anything will fire. */
  lemma CarryAgenda<T>(g: nat, w: Wheel<T>)
    requires 1 <= g <= 64 && Valid(g, w)
    ensures Agenda(g, w.jiffies, Carry(g, w).slots) == Agenda(g, w.jiffies, w.slots)
  {
    if w.jiffies % 256 == 0 {
      CascadeFromAgenda(g, w, 2);
    }
  }

  lemma PlainTickIs<T>(g: nat, now: nat, before: multiset<Firing<T>>, fired: seq<Timer<T>>,
                       stay: multiset<Firing<T>>, after: multiset<Firing<T>>)
    requires g >= 1 && PlainStep(g, now, before, fired, stay, after)
    ensures PlainTick(g, now, before, fired, after)
  {
    TakeOut(before, multiset(Stamp(now, fired)), stay);
  }

  lemma FiringRefines<T>(g: nat, c: Wheel<T>, fired: seq<Timer<T>>, rest: Wheel<T>,
                         before: multiset<Firing<T>>, after: multiset<Firing<T>>)
    requires 1 <= g <= 64 && Inv(g, c, 5)
    requires fired == c.slots[c.jiffies % 256] && rest == c.(slots := c.slots[c.jiffies % 256 := []])
    requires before == Agenda(g, c.jiffies, c.slots)
    requires after == Agenda(g, c.jiffies + 1, AddAll(g, rest, Rearmed(c.jiffies, fired)).slots)
    ensures PlainTick(g, c.jiffies, before, fired, after)
  {
    FiringSplits(g, c);
    AgendaAddAll(g, c.jiffies + 1, rest, Rearmed(c.jiffies, fired));
    PlainTickIs(g, c.jiffies, before, fired, Agenda(g, c.jiffies + 1, rest.slots), after);
  }

  ghost function AgendaOf<T>(g: nat, w: Wheel<T>): multiset<Firing<T>>
    requires g >= 1 && Shaped(w)
  {
    Agenda(g, w.jiffies, w.slots)
  }

  /** run_timer refines the plain timer list, turn by turn. */
  lemma TickRefines<T>(g: nat, w: Wheel<T>)
    requires 1 <= g <= 64 && Valid(g, w)
    ensures PlainTick(g, w.jiffies, AgendaOf(g, w), Tick(g, w).1, AgendaOf(g, Tick(g, w).0))
  {
    var c, now := Carry(g, w), w.jiffies;
    CarryInv(g, w);
    CarryAgenda(g, w);
    FiringRefines(g, c, Tick(g, w).1, c.(slots := c.slots[now % 256 := []]),
                  AgendaOf(g, w), AgendaOf(g, Tick(g, w).0));
  }
}
