/** The placement invariant of the timing wheel, for every clock granularity g >= 1. */
module WheelPlacement {
  import opened Wheel

  /** A timer due at e may stand in slot k when `base` is the next tick to look at:
      the slot is the one for e, the part of time the slot stands for has not begun
      (wheels 2..5) or e itself has not passed (wheel 1), and e is within the wheel's
      reach, which the granularity stretches g times. */
  ghost predicate Placed(g: nat, base: nat, k: nat, e: nat)
    requires k < SLOTS
  {
    var n := Level(k);
    && k == SlotIn(n, e)
    && base <= e - Offset(n, e)
    && (n < 5 ==> e < base + Reach(n, g))
  }

  /** How far ahead wheel n is used: its 64 (or 256) slots, stretched g times. */
  function Reach(n: nat, g: nat): nat
    requires 1 <= n <= 4
  {
    match n
    case 1 => 0x100 * g
    case 2 => 0x4000 * g
    case 3 => 0x10_0000 * g
    case 4 => 0x400_0000 * g
  }

  /** In the middle of a tick wheels 2..m have been turned already: what they hold is for
      later ticks. */
  function Base(now: nat, m: nat, k: nat): nat
    requires 1 <= m <= 5
  {
    if 256 <= k < 192 + 64 * m then now + 1 else now
  }

  ghost predicate Inv<T>(g: nat, w: Wheel<T>, m: nat)
    requires 1 <= m <= 5
  {
    && g >= 1
    && Shaped(w)
    && forall k: nat, tm | k < SLOTS && tm in w.slots[k] ::
         Placed(g, Base(w.jiffies, m, k), k, tm.expires)
  }

  ghost predicate Valid<T>(g: nat, w: Wheel<T>) {
    Inv(g, w, 1)
  }

  ghost predicate NotBefore<T>(now: nat, l: seq<Timer<T>>) {
    forall tm | tm in l :: now <= tm.expires
  }

  /** The wheel chosen, in terms of the remaining time. */
  lemma LevelForMeans(g: nat, due: nat)
    requires g >= 1
    ensures var n := LevelFor(g, due);
            && 1 <= n <= 5
            && (n < 5 ==> due < Reach(n, g))
            && (n > 1 ==> Reach(n - 1, g) <= due)
  {
  }

  lemma SlotInLevel(n: nat, e: nat)
    requires 1 <= n <= 5
    ensures SlotIn(n, e) < SLOTS && Level(SlotIn(n, e)) == n
  {
  }

  /** add_timer files a timer where the invariant wants it; in wheels 2..5 even strictly. */
  lemma FiledIsPlaced(g: nat, now: nat, e: nat)
    requires g >= 1 && now <= e
    ensures var k := SlotFor(g, now, e);
            && k < SLOTS
            && Placed(g, now, k, e)
            && (k >= 256 || now < e ==> Placed(g, now + 1, k, e))
  {
    var n := LevelFor(g, e - now);
    LevelForMeans(g, e - now);
    SlotInLevel(n, e);
  }

  lemma AddInv<T>(g: nat, w: Wheel<T>, tm: Timer<T>, m: nat)
    requires 1 <= m <= 5 && Inv(g, w, m) && w.jiffies <= tm.expires
    ensures Inv(g, Add(g, w, tm), m)
  {
    FiledIsPlaced(g, w.jiffies, tm.expires);
  }

  lemma {:induction false} AddAllInv<T>(g: nat, w: Wheel<T>, l: seq<Timer<T>>, m: nat)
    requires 1 <= m <= 5 && Inv(g, w, m) && NotBefore(w.jiffies, l)
    ensures Inv(g, AddAll(g, w, l), m)
    decreases |l|
  {
    if l != [] {
      AddInv(g, w, l[0], m);
      AddAllInv(g, Add(g, w, l[0]), l[1..], m);
    }
  }

  /** Taking a slot out leaves an invariant in which its wheel has been turned. */
  lemma DetachInv<T>(g: nat, w: Wheel<T>, n: nat)
    requires 2 <= n <= 5 && Inv(g, w, n - 1)
    requires Offset(n, w.jiffies) == 0
    ensures var k := CascadeSlot(w.jiffies, n);
            && Inv(g, w.(slots := w.slots[k := []]), n)
            && NotBefore(w.jiffies, w.slots[k])
  {
    var k := CascadeSlot(w.jiffies, n);
    var d := w.(slots := w.slots[k := []]);
    forall j: nat, tm | j < SLOTS && tm in d.slots[j]
      ensures Placed(g, Base(d.jiffies, n, j), j, tm.expires)
    {
      assert tm in w.slots[j];
      assert Placed(g, Base(w.jiffies, n - 1, j), j, tm.expires);
      if Level(j) == n {
        assert Block(n, tm.expires) != Block(n, w.jiffies);
      }
    }
    forall tm | tm in w.slots[k] ensures w.jiffies <= tm.expires {
      assert Placed(g, Base(w.jiffies, n - 1, k), k, tm.expires);
    }
  }

  /** A wheel whose turn it is not: nothing in it begins at this tick. */
  lemma NotTurned<T>(g: nat, w: Wheel<T>, n: nat)
    requires 2 <= n <= 5 && Inv(g, w, n - 1)
    requires Offset(n, w.jiffies) != 0
    ensures Inv(g, w, n)
  {
    forall j: nat, tm | j < SLOTS && tm in w.slots[j]
      ensures Placed(g, Base(w.jiffies, n, j), j, tm.expires)
    {
      assert Placed(g, Base(w.jiffies, n - 1, j), j, tm.expires);
      if Level(j) == n {
        NotYet(n, w.jiffies, tm.expires);
      }
    }
  }

  lemma NotYet(n: nat, now: nat, e: nat)
    requires 2 <= n <= 5 && Offset(n, now) != 0 && now <= e - Offset(n, e)
    ensures now + 1 <= e - Offset(n, e)
  {
    match n
    case 2 => Multiple2(e / 0x100);
    case 3 => Multiple3(e / 0x4000);
    case 4 => Multiple4(e / 0x10_0000);
    case 5 => Multiple5(e / 0x400_0000);
  }

  lemma Multiple2(q: nat)
    ensures 0x100 * q % 0x100 == 0
  {
  }

  lemma Multiple3(q: nat)
    ensures 0x4000 * q % 0x4000 == 0
  {
  }

  lemma Multiple4(q: nat)
    ensures 0x10_0000 * q % 0x10_0000 == 0
  {
  }

  lemma Multiple5(q: nat)
    ensures 0x400_0000 * q % 0x400_0000 == 0
  {
  }

  lemma CascadeInv<T>(g: nat, w: Wheel<T>, n: nat)
    requires 2 <= n <= 5 && Inv(g, w, n - 1)
    requires Offset(n, w.jiffies) == 0
    ensures Inv(g, Cascade(g, w, n), n)
  {
    var k := CascadeSlot(w.jiffies, n);
    DetachInv(g, w, n);
    AddAllInv(g, w.(slots := w.slots[k := []]), w.slots[k], n);
  }

  lemma {:induction false} AllTurned<T>(g: nat, w: Wheel<T>, n: nat)
    requires 2 <= n <= 6 && Inv(g, w, n - 1)
    requires n < 6 ==> Offset(n, w.jiffies) != 0
    ensures Inv(g, w, 5)
    decreases 6 - n
  {
    if n < 6 {
      NotTurned(g, w, n);
      if n < 5 {
        SpanDivides(w.jiffies, n);
      }
      AllTurned(g, w, n + 1);
    }
  }

  lemma SpanDivides(now: nat, n: nat)
    requires 2 <= n <= 4
    ensures Offset(n + 1, now) == 0 <==> Offset(n, now) == 0 && Index(now, n) == 0
  {
    match n
    case 2 => Carry2(now);
    case 3 => Carry3(now);
    case 4 => Carry4(now);
  }

  lemma Carry2(t: nat)
    ensures t % 0x4000 == 0 <==> t % 0x100 == 0 && t / 0x100 % 64 == 0
  {
    var a, r := t / 0x100, t % 0x100;
    assert t == 0x4000 * (a / 64) + (0x100 * (a % 64) + r);
  }

  lemma Carry3(t: nat)
    ensures t % 0x10_0000 == 0 <==> t % 0x4000 == 0 && t / 0x4000 % 64 == 0
  {
    var a, r := t / 0x4000, t % 0x4000;
    assert t == 0x10_0000 * (a / 64) + (0x4000 * (a % 64) + r);
  }

  lemma Carry4(t: nat)
    ensures t % 0x400_0000 == 0 <==> t % 0x10_0000 == 0 && t / 0x10_0000 % 64 == 0
  {
    var a, r := t / 0x10_0000, t % 0x10_0000;
    assert t == 0x400_0000 * (a / 64) + (0x10_0000 * (a % 64) + r);
  }

  lemma {:induction false} CascadeFromInv<T>(g: nat, w: Wheel<T>, n: nat)
    requires 2 <= n <= 5 && Inv(g, w, n - 1)
    requires Offset(n, w.jiffies) == 0
    ensures Inv(g, CascadeFrom(g, w, n), 5)
    decreases 5 - n
  {
    CascadeInv(g, w, n);
    if n < 5 {
      SpanDivides(w.jiffies, n);
    }
    if Index(w.jiffies, n) == 0 && n < 5 {
      CascadeFromInv(g, Cascade(g, w, n), n + 1);
    } else {
      AllTurned(g, Cascade(g, w, n), n + 1);
    }
  }

  /** After the carry chain everything above wheel 1 is for later ticks. */
  lemma CarryInv<T>(g: nat, w: Wheel<T>)
    requires Valid(g, w)
    ensures Inv(g, Carry(g, w), 5)
  {
    if w.jiffies % 256 == 0 {
      CascadeFromInv(g, w, 2);
    } else {
      AllTurned(g, w, 2);
    }
  }

  lemma {:induction false} RearmedLater<T>(now: nat, fired: seq<Timer<T>>)
    ensures forall tm | tm in Rearmed(now, fired) :: now < tm.expires
  {
    if fired != [] {
      RearmedLater(now, fired[1..]);
    }
  }

  /** With the slot of this tick taken out, the clock may move on. */
  lemma FiringInv<T>(g: nat, c: Wheel<T>)
    requires Inv(g, c, 5)
    ensures Valid(g, Wheel(c.jiffies + 1, c.slots[c.jiffies % 256 := []]))
  {
    var k := c.jiffies % 256;
    var rest := Wheel(c.jiffies + 1, c.slots[k := []]);
    forall j: nat, tm | j < SLOTS && tm in rest.slots[j]
      ensures Placed(g, rest.jiffies, j, tm.expires)
    {
      assert tm in c.slots[j];
      assert Placed(g, Base(c.jiffies, 5, j), j, tm.expires);
      assert j < 256 ==> tm.expires != c.jiffies;
    }
  }

  /** Re-arming files with the old clock, and still satisfies the invariant of the new one. */
  lemma {:induction false} AddAllLater<T>(g: nat, w: Wheel<T>, l: seq<Timer<T>>)
    requires g >= 1 && Shaped(w) && Valid(g, w.(jiffies := w.jiffies + 1))
    requires forall tm | tm in l :: w.jiffies < tm.expires
    ensures Valid(g, AddAll(g, w, l).(jiffies := w.jiffies + 1))
    decreases |l|
  {
    if l != [] {
      var a := Add(g, w, l[0]);
      FiledIsPlaced(g, w.jiffies, l[0].expires);
      assert Valid(g, a.(jiffies := a.jiffies + 1));
      AddAllLater(g, a, l[1..]);
    }
  }

  /** Every turn of run_timer keeps the placement invariant. */
  lemma TickInv<T>(g: nat, w: Wheel<T>)
    requires Valid(g, w)
    ensures Valid(g, Tick(g, w).0)
  {
    var c := Carry(g, w);
    CarryInv(g, w);
    FiringInv(g, c);
    var k := w.jiffies % 256;
    RearmedLater(w.jiffies, c.slots[k]);
    AddAllLater(g, c.(slots := c.slots[k := []]), Rearmed(w.jiffies, c.slots[k]));
  }

  lemma {:induction false} RunInv<T>(g: nat, w: Wheel<T>, now: nat)
    requires Valid(g, w)
    ensures Valid(g, Run(g, w, now).0)
    ensures Run(g, w, now).0.jiffies == if now < w.jiffies then w.jiffies else now + 1
    decreases now + 1 - w.jiffies
  {
    if now >= w.jiffies {
      TickInv(g, w);
      RunInv(g, Tick(g, w).0, now);
    }
  }

  lemma CreateInv<T>(g: nat, w: Wheel<T>, param: T, due: nat, period: nat)
    requires Valid(g, w)
    ensures Valid(g, Create(g, w, param, due, period))
  {
    AddInv(g, w, Timer(param, w.jiffies + due, period), 1);
  }

  lemma DeleteInv<T>(g: nat, w: Wheel<T>, k: nat, i: nat)
    requires Valid(g, w) && k < SLOTS && i < |w.slots[k]|
    ensures Valid(g, Delete(w, k, i))
  {
  }

  /** Whatever run_timer calls at a tick is due in this very slot of wheel 1: never late,
      early by a multiple of 256 ticks, and by at most 256 * (g - 1). */
  lemma FiredInWindow<T>(g: nat, w: Wheel<T>)
    requires Valid(g, w)
    ensures forall tm | tm in Tick(g, w).1 ::
              && w.jiffies <= tm.expires
              && tm.expires % 256 == w.jiffies % 256
              && tm.expires - w.jiffies <= 256 * (g - 1)
  {
    var c := Carry(g, w);
    CarryInv(g, w);
    forall tm | tm in Tick(g, w).1
      ensures && w.jiffies <= tm.expires
              && tm.expires % 256 == w.jiffies % 256
              && tm.expires - w.jiffies <= 256 * (g - 1)
    {
      var k := w.jiffies % 256;
      assert tm in c.slots[k];
      assert Placed(g, Base(c.jiffies, 5, k), k, tm.expires);
      var late := (tm.expires - w.jiffies) / 256;
      assert tm.expires - w.jiffies == 256 * late;
      assert late < g;
    }
  }

  /** The bound over a whole catch-up run, whatever is pending. */
  lemma {:induction false} RunInWindow<T>(g: nat, w: Wheel<T>, now: nat)
    requires Valid(g, w)
    ensures forall f | f in Run(g, w, now).1 ::
              && w.jiffies <= f.at <= now
              && f.at <= f.timer.expires
              && f.timer.expires % 256 == f.at % 256
              && f.timer.expires - f.at <= 256 * (g - 1)
    decreases now + 1 - w.jiffies
  {
    if now >= w.jiffies {
      var (w1, fired) := Tick(g, w);
      TickInv(g, w);
      FiredInWindow(g, w);
      RunInWindow(g, w1, now);
      forall f | f in Run(g, w, now).1
        ensures && w.jiffies <= f.at <= now
                && f.at <= f.timer.expires
                && f.timer.expires % 256 == f.at % 256
                && f.timer.expires - f.at <= 256 * (g - 1)
      {
        if f in Stamp(w.jiffies, fired) {
          assert f.timer in fired;
        } else {
          assert f in Run(g, w1, now).1;
        }
      }
    }
  }

  lemma {:induction false} AddAllKeeps<T>(g: nat, w: Wheel<T>, l: seq<Timer<T>>, k: nat, tm: Timer<T>)
    requires g >= 1 && Shaped(w) && k < SLOTS && tm in w.slots[k]
    ensures tm in AddAll(g, w, l).slots[k]
    decreases |l|
  {
    if l != [] {
      AddAllKeeps(g, Add(g, w, l[0]), l[1..], k, tm);
    }
  }

  /** Nothing leaves wheel 1 in a carry. */
  lemma {:induction false} CascadeFromKeeps<T>(g: nat, w: Wheel<T>, n: nat, k: nat, tm: Timer<T>)
    requires g >= 1 && Shaped(w) && 2 <= n <= 5 && k < 256 && tm in w.slots[k]
    ensures tm in CascadeFrom(g, w, n).slots[k]
    decreases 5 - n
  {
    var j := CascadeSlot(w.jiffies, n);
    AddAllKeeps(g, w.(slots := w.slots[j := []]), w.slots[j], k, tm);
    if Index(w.jiffies, n) == 0 && n < 5 {
      CascadeFromKeeps(g, Cascade(g, w, n), n + 1, k, tm);
    }
  }

  /** The bound cannot be improved: a timer created that much ahead fires at the very next turn,
      at any granularity. */
  lemma WindowIsSharp<T>(g: nat, w: Wheel<T>, x: T, period: nat)
    requires g >= 1 && Shaped(w)
    ensures var tm := Timer(x, w.jiffies + 256 * (g - 1), period);
            tm in Tick(g, Create(g, w, x, 256 * (g - 1), period)).1
  {
    var tm, k := Timer(x, w.jiffies + 256 * (g - 1), period), w.jiffies % 256;
    var c := Create(g, w, x, 256 * (g - 1), period);
    LevelForMeans(g, 256 * (g - 1));
    assert tm in c.slots[k];
    if w.jiffies % 256 == 0 {
      CascadeFromKeeps(g, c, 2, k, tm);
    }
  }
}
