/** The five-level timing wheel as a value: what add_timer, cascade_timer and
    run_timer compute.  The arrays arrListTimer1..5 are laid end to end, as they are in the
    C structure: slots 0..255 are wheel 1, slots 256 + 64 * (n - 2) .. are wheel n.
    Ticks are natural numbers; the 32-bit wrap of the clock is not modelled. */
module Wheel {

  /** A pending timer: who it is for, when it is due, and its period (0 for one-shot). */
  datatype Timer<T> = Timer(param: T, expires: nat, period: nat)

  /** A callback `timer` run, or due to run, at wheel tick `at`. */
  datatype Firing<T> = Firing(at: nat, timer: Timer<T>)

  datatype Wheel<T> = Wheel(jiffies: nat, slots: seq<seq<Timer<T>>>)

  const SLOTS := 512

  /** The block of ticks that one slot of wheel n covers and that tick e lies in. */
  function Block(n: nat, e: nat): nat
    requires 1 <= n <= 5
  {
    match n
    case 1 => e
    case 2 => e / 0x100
    case 3 => e / 0x4000
    case 4 => e / 0x10_0000
    case 5 => e / 0x400_0000
  }

  /** How far tick e is into its block of wheel n. */
  function Offset(n: nat, e: nat): nat
    requires 1 <= n <= 5
  {
    match n
    case 1 => 0
    case 2 => e % 0x100
    case 3 => e % 0x4000
    case 4 => e % 0x10_0000
    case 5 => e % 0x400_0000
  }

  /** The wheel that slot k belongs to. */
  function Level(k: nat): nat
    requires k < SLOTS
  {
    if k < 256 then 1 else 2 + (k - 256) / 64
  }

  /** The slot of wheel n that holds tick e. */
  function SlotIn(n: nat, e: nat): nat
    requires 1 <= n <= 5
  {
    if n == 1 then e % 256 else 256 + 64 * (n - 2) + Block(n, e) % 64
  }

  /** The wheel add_timer picks for a timer with `due` ticks left, at clock granularity g.
      The code compares due / g with 2^8, 2^14, 2^20 and 2^26; LevelByDivision says that this
      is the same. */
  function LevelFor(g: nat, due: nat): nat
    requires g >= 1
  {
    if due < 0x100 * g then 1
    else if due < 0x4000 * g then 2
    else if due < 0x10_0000 * g then 3
    else if due < 0x400_0000 * g then 4
    else 5
  }

  lemma DivLess(a: nat, g: nat, c: nat)
    requires g >= 1
    ensures a / g < c <==> a < c * g
  {
    assert a == g * (a / g) + a % g;
    if a / g < c {
      assert g * (a / g) <= g * (c - 1);
    } else {
      assert g * (a / g) >= g * c;
    }
  }

  lemma LevelByDivision(g: nat, due: nat)
    requires g >= 1
    ensures LevelFor(g, due) ==
            if due / g < 0x100 then 1
            else if due / g < 0x4000 then 2
            else if due / g < 0x10_0000 then 3
            else if due / g < 0x400_0000 then 4
            else 5
  {
    DivLess(due, g, 0x100);
    DivLess(due, g, 0x4000);
    DivLess(due, g, 0x10_0000);
    DivLess(due, g, 0x400_0000);
  }

  /** The time left, by unsigned subtraction: an expiry in the past looks far away. */
  function Due(now: nat, e: nat): nat {
    if e >= now then e - now else if now - e <= 0x1_0000_0000 then 0x1_0000_0000 - (now - e) else 0
  }

  function SlotFor(g: nat, now: nat, e: nat): nat
    requires g >= 1
  {
    SlotIn(LevelFor(g, Due(now, e)), e)
  }

  ghost predicate Shaped<T>(w: Wheel<T>) {
    |w.slots| == SLOTS
  }

  function Empty<T>(now: nat): Wheel<T> {
    Wheel(now, seq(SLOTS, _ => []))
  }

  function Put<T>(slots: seq<seq<Timer<T>>>, k: nat, tm: Timer<T>): seq<seq<Timer<T>>>
    requires k < |slots|
  {
    slots[k := slots[k] + [tm]]
  }

  /** add_timer */
  function Add<T>(g: nat, w: Wheel<T>, tm: Timer<T>): (r: Wheel<T>)
    requires g >= 1 && Shaped(w)
    ensures Shaped(r) && r.jiffies == w.jiffies
  {
    w.(slots := Put(w.slots, SlotFor(g, w.jiffies, tm.expires), tm))
  }

  function AddAll<T>(g: nat, w: Wheel<T>, l: seq<Timer<T>>): (r: Wheel<T>)
    requires g >= 1 && Shaped(w)
    ensures Shaped(r) && r.jiffies == w.jiffies
    decreases |l|
  {
    if l == [] then w else AddAll(g, Add(g, w, l[0]), l[1..])
  }

  /** The index that cascade_timer is given for wheel n: INDEX(n - 2). */
  function Index(now: nat, n: nat): nat
    requires 2 <= n <= 5
  {
    Block(n, now) % 64
  }

  function CascadeSlot(now: nat, n: nat): nat
    requires 2 <= n <= 5
  {
    256 + 64 * (n - 2) + Index(now, n)
  }

  /** cascade_timer: take one slot of wheel n out and file its timers again. */
  function Cascade<T>(g: nat, w: Wheel<T>, n: nat): (r: Wheel<T>)
    requires g >= 1 && Shaped(w) && 2 <= n <= 5
    ensures Shaped(r) && r.jiffies == w.jiffies
  {
    var k := CascadeSlot(w.jiffies, n);
    AddAll(g, w.(slots := w.slots[k := []]), w.slots[k])
  }

  /** The carry chain of run_timer: wheel n + 1 turns when wheel n is back at index 0. */
  function CascadeFrom<T>(g: nat, w: Wheel<T>, n: nat): (r: Wheel<T>)
    requires g >= 1 && Shaped(w) && 2 <= n <= 5
    ensures Shaped(r) && r.jiffies == w.jiffies
    decreases 5 - n
  {
    var c := Cascade(g, w, n);
    if Index(w.jiffies, n) == 0 && n < 5 then CascadeFrom(g, c, n + 1) else c
  }

  function Carry<T>(g: nat, w: Wheel<T>): (r: Wheel<T>)
    requires g >= 1 && Shaped(w)
    ensures Shaped(r) && r.jiffies == w.jiffies
  {
    if w.jiffies % 256 == 0 then CascadeFrom(g, w, 2) else w
  }

  /** What becomes of the timers that have just fired at `now`: the periodic ones, due again. */
  function Rearmed<T>(now: nat, fired: seq<Timer<T>>): seq<Timer<T>> {
    if fired == [] then []
    else
      var again := if fired[0].period == 0 then [] else [fired[0].(expires := now + fired[0].period)];
      again + Rearmed(now, fired[1..])
  }

  /** One turn of run_timer's loop; the second result lists the callbacks run, in order. */
  function Tick<T>(g: nat, w: Wheel<T>): (r: (Wheel<T>, seq<Timer<T>>))
    requires g >= 1 && Shaped(w)
    ensures Shaped(r.0) && r.0.jiffies == w.jiffies + 1
  {
    var c := Carry(g, w);
    var k := w.jiffies % 256;
    var fired := c.slots[k];
    var rest := c.(slots := c.slots[k := []]);
    (AddAll(g, rest, Rearmed(w.jiffies, fired)).(jiffies := w.jiffies + 1), fired)
  }

  function Stamp<T>(now: nat, fired: seq<Timer<T>>): seq<Firing<T>> {
    seq(|fired|, i requires 0 <= i < |fired| => Firing(now, fired[i]))
  }

  /** run_timer: catch up with the clock. */
  function Run<T>(g: nat, w: Wheel<T>, now: nat): (r: (Wheel<T>, seq<Firing<T>>))
    requires g >= 1 && Shaped(w)
    ensures Shaped(r.0)
    decreases now + 1 - w.jiffies
  {
    if now < w.jiffies then (w, [])
    else
      var (w1, fired) := Tick(g, w);
      var (w2, log) := Run(g, w1, now);
      (w2, Stamp(w.jiffies, fired) + log)
  }

  /** create_timer */
  function Create<T>(g: nat, w: Wheel<T>, param: T, due: nat, period: nat): (r: Wheel<T>)
    requires g >= 1 && Shaped(w)
    ensures Shaped(r)
  {
    Add(g, w, Timer(param, w.jiffies + due, period))
  }

  /** delete_timer: unlink the i-th timer of slot k. */
  function Delete<T>(w: Wheel<T>, k: nat, i: nat): (r: Wheel<T>)
    requires Shaped(w) && k < SLOTS && i < |w.slots[k]|
    ensures Shaped(r)
  {
    w.(slots := w.slots[k := w.slots[k][..i] + w.slots[k][i + 1..]])
  }
}
