/** Timers that are due at the same tick: the one created first is called first, through all
    cascades and re-armings, at every granularity. */
module WheelOrder {
  import opened Basics
  import opened Wheel
  import opened WheelHistory
  import opened WheelTheorems

  // ----- the timers of x and y in a list

  ghost function Sel<T>(l: seq<Timer<T>>, x: T, y: T): seq<Timer<T>> {
    if l == [] then [] else (if l[0].param == x || l[0].param == y then [l[0]] else []) + Sel(l[1..], x, y)
  }

  lemma {:induction false} SelConcat<T>(a: seq<Timer<T>>, b: seq<Timer<T>>, x: T, y: T)
    ensures Sel(a + b, x, y) == Sel(a, x, y) + Sel(b, x, y)
  {
    if a == [] {
      assert a + b == b;
    } else {
      assert (a + b)[1..] == a[1..] + b;
      SelConcat(a[1..], b, x, y);
      var h := if a[0].param == x || a[0].param == y then [a[0]] else [];
      assert h + (Sel(a[1..], x, y) + Sel(b, x, y)) == (h + Sel(a[1..], x, y)) + Sel(b, x, y);
    }
  }

  /** Those that add_timer would file in slot i. */
  ghost function Landing<T>(g: nat, now: nat, l: seq<Timer<T>>, i: nat, x: T, y: T): seq<Timer<T>>
    requires g >= 1
  {
    if l == [] then []
    else
      (if (l[0].param == x || l[0].param == y) && SlotFor(g, now, l[0].expires) == i then [l[0]] else [])
      + Landing(g, now, l[1..], i, x, y)
  }

  lemma {:induction false} LandingSel<T>(g: nat, now: nat, l: seq<Timer<T>>, i: nat, x: T, y: T)
    requires g >= 1
    ensures Landing(g, now, l, i, x, y) == Landing(g, now, Sel(l, x, y), i, x, y)
  {
    if l != [] {
      LandingSel(g, now, l[1..], i, x, y);
      if l[0].param == x || l[0].param == y {
        assert Sel(l, x, y)[0] == l[0] && Sel(l, x, y)[1..] == Sel(l[1..], x, y);
      } else {
        assert Sel(l, x, y) == Sel(l[1..], x, y);
      }
    }
  }

  /** A timer of x, and one for y that is due at the same tick, with period q. */
  function Mate<T>(tm: Timer<T>, y: T, q: nat): Timer<T> {
    tm.(param := y, period := q)
  }

  ghost function Both<T>(tm: Option<Timer<T>>, y: T, q: nat): seq<Timer<T>> {
    match tm case None => [] case Some(t) => [t, Mate(t, y, q)]
  }

  lemma LandingBoth<T>(g: nat, now: nat, tm: Option<Timer<T>>, i: nat, x: T, y: T, q: nat)
    requires g >= 1 && (tm.Some? ==> tm.value.param == x)
    ensures Landing(g, now, Both(tm, y, q), i, x, y)
            == if tm.Some? && SlotFor(g, now, tm.value.expires) == i then Both(tm, y, q) else []
  {
    var l := Both(tm, y, q);
    if tm.Some? {
      var mate := [Mate(tm.value, y, q)];
      assert l[1..] == mate && mate[1..] == [];
      assert Landing(g, now, mate, i, x, y) == if SlotFor(g, now, tm.value.expires) == i then mate else [];
    }
  }

  // ----- the two timers in the wheel

  /** Slot k has the timers s of x and y, and no other slot has one. */
  ghost predicate InSlot<T>(w: Wheel<T>, k: nat, s: seq<Timer<T>>, x: T, y: T)
    requires Shaped(w)
  {
    k < SLOTS && forall i: nat :: i < SLOTS ==> Sel(w.slots[i], x, y) == if i == k then s else []
  }

  lemma PutSel<T>(g: nat, w: Wheel<T>, o: Timer<T>, i: nat, x: T, y: T)
    requires g >= 1 && Shaped(w) && i < SLOTS
    ensures Sel(Add(g, w, o).slots[i], x, y) == Sel(w.slots[i], x, y) + Landing(g, w.jiffies, [o], i, x, y)
  {
    SelConcat(w.slots[i], [o], x, y);
    assert [o][1..] == [];
  }

  /** Filing a list puts its timers behind those that are there, in the order of the list. */
  lemma {:induction false} AddAllSel<T>(g: nat, w: Wheel<T>, l: seq<Timer<T>>, i: nat, x: T, y: T)
    requires g >= 1 && Shaped(w) && i < SLOTS
    ensures Sel(AddAll(g, w, l).slots[i], x, y) == Sel(w.slots[i], x, y) + Landing(g, w.jiffies, l, i, x, y)
    decreases |l|
  {
    if l != [] {
      PutSel(g, w, l[0], i, x, y);
      assert [l[0]][1..] == [];
      AddAllSel(g, Add(g, w, l[0]), l[1..], i, x, y);
    }
  }

  /** The wheel has the timer tm for x and behind it, in the same slot, the same for y; or neither. */
  ghost predicate InPair<T>(w: Wheel<T>, x: T, y: T, q: nat, tm: Option<Timer<T>>)
    requires Shaped(w)
  {
    (tm.Some? ==> tm.value.param == x) && exists k: nat :: InSlot(w, k, Both(tm, y, q), x, y)
  }

  /** Filing a list that has the two, or of which the wheel has the two. */
  lemma AddAllPair<T>(g: nat, w: Wheel<T>, l: seq<Timer<T>>, x: T, y: T, q: nat, tm: Option<Timer<T>>)
    requires g >= 1 && Shaped(w) && (tm.Some? ==> tm.value.param == x)
    requires || (InPair(w, x, y, q, None) && Sel(l, x, y) == Both(tm, y, q))
             || (InPair(w, x, y, q, tm) && Sel(l, x, y) == [])
    ensures InPair(AddAll(g, w, l), x, y, q, tm)
  {
    var r := AddAll(g, w, l);
    var here := InPair(w, x, y, q, None) && Sel(l, x, y) == Both(tm, y, q);
    var k: nat :| InSlot(w, k, if here then [] else Both(tm, y, q), x, y);
    var j := if here && tm.Some? then SlotFor(g, w.jiffies, tm.value.expires) else k;
    forall i: nat | i < SLOTS ensures Sel(r.slots[i], x, y) == if i == j then Both(tm, y, q) else [] {
      AddAllSel(g, w, l, i, x, y);
      LandingSel(g, w.jiffies, l, i, x, y);
      LandingBoth(g, w.jiffies, if here then tm else None, i, x, y, q);
    }
    assert InSlot(r, j, Both(tm, y, q), x, y);
  }

  /** A slot is taken out: it has the two, or the rest has. */
  lemma TakenPair<T>(w: Wheel<T>, k: nat, x: T, y: T, q: nat, tm: Option<Timer<T>>)
    requires Shaped(w) && k < SLOTS && InPair(w, x, y, q, tm)
    ensures var rest := w.(slots := w.slots[k := []]);
            || (InPair(rest, x, y, q, None) && Sel(w.slots[k], x, y) == Both(tm, y, q))
            || (InPair(rest, x, y, q, tm) && Sel(w.slots[k], x, y) == [])
  {
    var rest := w.(slots := w.slots[k := []]);
    var j: nat :| InSlot(w, j, Both(tm, y, q), x, y);
    if j == k {
      assert InSlot(rest, k, Both<T>(None, y, q), x, y);
    } else {
      assert InSlot(rest, j, Both(tm, y, q), x, y);
    }
  }

  /** Cascading moves both, and keeps their order. */
  lemma {:induction false} CascadePair<T>(g: nat, w: Wheel<T>, n: nat, x: T, y: T, q: nat, tm: Option<Timer<T>>)
    requires g >= 1 && Shaped(w) && 2 <= n <= 5 && InPair(w, x, y, q, tm)
    ensures InPair(CascadeFrom(g, w, n), x, y, q, tm)
    decreases 5 - n
  {
    var k := CascadeSlot(w.jiffies, n);
    TakenPair(w, k, x, y, q, tm);
    AddAllPair(g, w.(slots := w.slots[k := []]), w.slots[k], x, y, q, tm);
    if Index(w.jiffies, n) == 0 && n < 5 {
      CascadePair(g, Cascade(g, w, n), n + 1, x, y, q, tm);
    }
  }

  lemma CarryPair<T>(g: nat, w: Wheel<T>, x: T, y: T, q: nat, tm: Option<Timer<T>>)
    requires g >= 1 && Shaped(w) && InPair(w, x, y, q, tm)
    ensures InPair(Carry(g, w), x, y, q, tm)
  {
    if w.jiffies % 256 == 0 {
      CascadePair(g, w, 2, x, y, q, tm);
    }
  }

  // ----- the two callbacks

  ghost function SelLog<T>(log: seq<Firing<T>>, x: T, y: T): seq<Firing<T>> {
    if log == [] then []
    else (if log[0].timer.param == x || log[0].timer.param == y then [log[0]] else []) + SelLog(log[1..], x, y)
  }

  lemma {:induction false} SelLogConcat<T>(a: seq<Firing<T>>, b: seq<Firing<T>>, x: T, y: T)
    ensures SelLog(a + b, x, y) == SelLog(a, x, y) + SelLog(b, x, y)
  {
    if a == [] {
      assert a + b == b;
    } else {
      assert (a + b)[1..] == a[1..] + b;
      SelLogConcat(a[1..], b, x, y);
      var h := if a[0].timer.param == x || a[0].timer.param == y then [a[0]] else [];
      assert h + (SelLog(a[1..], x, y) + SelLog(b, x, y)) == (h + SelLog(a[1..], x, y)) + SelLog(b, x, y);
    }
  }

  lemma {:induction false} SelStamp<T>(now: nat, fired: seq<Timer<T>>, x: T, y: T)
    ensures SelLog(Stamp(now, fired), x, y) == Stamp(now, Sel(fired, x, y))
  {
    if fired != [] {
      assert Stamp(now, fired)[1..] == Stamp(now, fired[1..]);
      SelStamp(now, fired[1..], x, y);
      if fired[0].param == x || fired[0].param == y {
        assert Sel(fired, x, y) == [fired[0]] + Sel(fired[1..], x, y);
      }
    }
  }

  lemma {:induction false} SelRearmed<T>(now: nat, l: seq<Timer<T>>, x: T, y: T)
    ensures Sel(Rearmed(now, l), x, y) == Rearmed(now, Sel(l, x, y))
  {
    if l != [] {
      var again := if l[0].period == 0 then [] else [l[0].(expires := now + l[0].period)];
      SelRearmed(now, l[1..], x, y);
      SelConcat(again, Rearmed(now, l[1..]), x, y);
      if l[0].param == x || l[0].param == y {
        assert Sel(l, x, y)[0] == l[0] && Sel(l, x, y)[1..] == Sel(l[1..], x, y);
        assert Sel(again, x, y) == again;
      } else {
        assert Sel(l, x, y) == Sel(l[1..], x, y) && Sel(again, x, y) == [];
      }
    }
  }

  /** The timer as it is filed again. */
  ghost function Refiled<T>(now: nat, tm: Timer<T>): Option<Timer<T>> {
    if tm.period == 0 then None else Some(tm.(expires := now + tm.period))
  }

  lemma RearmedBoth<T>(now: nat, tm: Timer<T>, y: T)
    ensures Rearmed(now, Both(Some(tm), y, tm.period)) == Both(Refiled(now, tm), y, tm.period)
  {
    var l, mate := Both(Some(tm), y, tm.period), [Mate(tm, y, tm.period)];
    assert l[1..] == mate && mate[1..] == [];
    assert Rearmed(now, mate) == if tm.period == 0 then [] else [mate[0].(expires := now + tm.period)];
  }

  /** The calls for x and y: x's, then at the same tick y's of the timer with period q; and if their
      periods are the same, so on for ever. */
  ghost predicate InTurn<T>(s: seq<Firing<T>>, x: T, y: T, q: nat, same: bool) {
    s != [] ==>
      && |s| >= 2 && s[0].timer.param == x && s[1] == Firing(s[0].at, Mate(s[0].timer, y, q))
      && (same ==> InTurn(s[2..], x, y, q, same))
  }

  lemma {:induction false} InTurnConcat<T>(a: seq<Firing<T>>, b: seq<Firing<T>>, x: T, y: T, q: nat, same: bool)
    requires InTurn(a, x, y, q, same) && (a == [] || same ==> InTurn(b, x, y, q, same))
    ensures InTurn(a + b, x, y, q, same)
    decreases |a|
  {
    if a == [] {
      assert a + b == b;
    } else if same {
      assert (a + b)[2..] == a[2..] + b;
      InTurnConcat(a[2..], b, x, y, q, same);
    }
  }

  lemma StampBoth<T>(now: nat, tm: Timer<T>, x: T, y: T, q: nat, same: bool)
    requires tm.param == x
    ensures InTurn(Stamp(now, Both(Some(tm), y, q)), x, y, q, same)
  {
    assert Stamp(now, Both(Some(tm), y, q))[2..] == [];
  }

  ghost predicate Same<T>(tm: Option<Timer<T>>, q: nat, same: bool) {
    same && tm.Some? ==> tm.value.period == q
  }

  /** One turn of run_timer: it calls neither or both, in their order. */
  lemma TickPair<T>(g: nat, w: Wheel<T>, x: T, y: T, q: nat, same: bool, tm: Option<Timer<T>>)
    returns (tm': Option<Timer<T>>)
    requires g >= 1 && Shaped(w) && InPair(w, x, y, q, tm) && Same(tm, q, same)
    ensures var s := SelLog(Stamp(w.jiffies, Tick(g, w).1), x, y);
            InTurn(s, x, y, q, same) && (s == [] || same ==> InPair(Tick(g, w).0, x, y, q, tm') && Same(tm', q, same))
  {
    var c, k := Carry(g, w), w.jiffies % 256;
    var fired, rest := c.slots[k], c.(slots := c.slots[k := []]);
    CarryPair(g, w, x, y, q, tm);
    TakenPair(c, k, x, y, q, tm);
    SelStamp(w.jiffies, fired, x, y);
    SelRearmed(w.jiffies, fired, x, y);
    tm' := tm;
    if tm.Some? && Sel(fired, x, y) == Both(tm, y, q) {
      StampBoth(w.jiffies, tm.value, x, y, q, same);
      tm' := Refiled(w.jiffies, tm.value);
      RearmedBoth(w.jiffies, tm.value, y);
    }
    if Sel(fired, x, y) == [] || same {
      AddAllPair(g, rest, Rearmed(w.jiffies, fired), x, y, q, tm');
      var j: nat :| InSlot(AddAll(g, rest, Rearmed(w.jiffies, fired)), j, Both(tm', y, q), x, y);
      assert InSlot(Tick(g, w).0, j, Both(tm', y, q), x, y);
    }
  }

  /** A periodic timer of y is due, and filed again where a timer tm of x waits for the same tick: the
      wheel then has the two, tm first. */
  lemma RearmedBehind<T>(g: nat, w: Wheel<T>, x: T, y: T, tm: Timer<T>, o: Timer<T>, c: Wheel<T>, j: nat)
    requires g >= 1 && Shaped(w) && c == Carry(g, w) && w.jiffies % 256 != j < SLOTS
    requires forall i: nat :: i < SLOTS ==>
               Sel(c.slots[i], x, y) == if i == w.jiffies % 256 then [o] else if i == j then [tm] else []
    requires tm.param == x && o.param == y && o.period > 0
    requires tm.expires == w.jiffies + o.period && j == SlotFor(g, w.jiffies, tm.expires)
    ensures InPair(Tick(g, w).0, x, y, o.period, Some(tm))
  {
    var k := w.jiffies % 256;
    var fired, rest := c.slots[k], c.(slots := c.slots[k := []]);
    var mate := Mate(tm, y, o.period);
    SelRearmed(w.jiffies, fired, x, y);
    assert Rearmed(w.jiffies, [o]) == [mate] by {
      assert [o][1..] == [];
    }
    forall i: nat | i < SLOTS
      ensures Sel(Tick(g, w).0.slots[i], x, y) == if i == j then Both(Some(tm), y, o.period) else []
    {
      AddAllSel(g, rest, Rearmed(w.jiffies, fired), i, x, y);
      LandingSel(g, w.jiffies, Rearmed(w.jiffies, fired), i, x, y);
      assert [mate][1..] == [];
    }
    assert InSlot(Tick(g, w).0, j, Both(Some(tm), y, o.period), x, y);
  }

  lemma {:induction false} RunPair<T>(g: nat, w: Wheel<T>, now: nat, x: T, y: T, q: nat, same: bool,
                                      tm: Option<Timer<T>>)
    returns (tm': Option<Timer<T>>)
    requires g >= 1 && Shaped(w) && InPair(w, x, y, q, tm) && Same(tm, q, same)
    ensures var s := SelLog(Run(g, w, now).1, x, y);
            InTurn(s, x, y, q, same) && (s == [] || same ==> InPair(Run(g, w, now).0, x, y, q, tm') && Same(tm', q, same))
    decreases now + 1 - w.jiffies
  {
    tm' := tm;
    if now >= w.jiffies {
      var (w1, fired) := Tick(g, w);
      var more := Run(g, w1, now).1;
      var s := SelLog(Stamp(w.jiffies, fired), x, y);
      SelLogConcat(Stamp(w.jiffies, fired), more, x, y);
      tm' := TickPair(g, w, x, y, q, same, tm);
      if s == [] || same {
        tm' := RunPair(g, w1, now, x, y, q, same, tm');
      }
      InTurnConcat(s, SelLog(more, x, y), x, y, q, same);
    }
  }

  // ----- histories

  ghost predicate SpareBoth<T>(g: nat, w: Wheel<T>, ops: seq<Op<T>>, x: T, y: T)
    requires g >= 1 && Shaped(w) && Possible(g, w, ops)
  {
    AllSpare(g, w, ops, x) && AllSpare(g, w, ops, y)
  }

  lemma OtherSel<T>(o: Timer<T>, x: T, y: T)
    requires o.param != x && o.param != y
    ensures Sel([o], x, y) == []
  {
    assert [o][1..] == [];
  }

  /** Creating and deleting other timers moves neither of the two. */
  lemma StillSel<T>(g: nat, w: Wheel<T>, op: Op<T>, x: T, y: T, i: nat)
    requires g >= 1 && Shaped(w) && Enabled(w, op) && Spares(w, op, x) && Spares(w, op, y) && !op.RunTo? && i < SLOTS
    ensures Sel(Apply(g, w, op).0.slots[i], x, y) == Sel(w.slots[i], x, y)
  {
    match op
    case Start(param, due, period) =>
      var o := Timer(param, w.jiffies + due, period);
      OtherSel(o, x, y);
      SelConcat(w.slots[i], [o], x, y);
    case Cancel(k, j) =>
      var l := w.slots[k];
      OtherSel(l[j], x, y);
      SelConcat(l[..j], l[j + 1..], x, y);
      SelConcat(l[..j], [l[j]], x, y);
      SelConcat(l[..j] + [l[j]], l[j + 1..], x, y);
      assert l == l[..j] + [l[j]] + l[j + 1..];
  }

  lemma ApplyPair<T>(g: nat, w: Wheel<T>, op: Op<T>, x: T, y: T, q: nat, same: bool, tm: Option<Timer<T>>)
    returns (tm': Option<Timer<T>>)
    requires g >= 1 && Shaped(w) && Enabled(w, op) && Spares(w, op, x) && Spares(w, op, y)
    requires InPair(w, x, y, q, tm) && Same(tm, q, same)
    ensures var s := SelLog(Apply(g, w, op).1, x, y);
            InTurn(s, x, y, q, same) && (s == [] || same ==> InPair(Apply(g, w, op).0, x, y, q, tm') && Same(tm', q, same))
  {
    if op.RunTo? {
      tm' := RunPair(g, w, op.now, x, y, q, same, tm);
    } else {
      tm' := tm;
      var k: nat :| InSlot(w, k, Both(tm, y, q), x, y);
      forall i: nat | i < SLOTS ensures Sel(Apply(g, w, op).0.slots[i], x, y) == if i == k then Both(tm, y, q) else [] {
        StillSel(g, w, op, x, y, i);
      }
      assert InSlot(Apply(g, w, op).0, k, Both(tm, y, q), x, y);
    }
  }

  /** Two timers in one slot with the same expiry: over any history that spares both, whatever happens
      in between, the first one is called first, and the other at the same tick; and if they have the
      same period, their calls go on in turn. */
  lemma {:induction false} HistoryPair<T>(g: nat, w: Wheel<T>, ops: seq<Op<T>>, x: T, y: T, q: nat, same: bool,
                                          tm: Option<Timer<T>>)
    requires g >= 1 && Shaped(w) && Possible(g, w, ops) && SpareBoth(g, w, ops, x, y)
    requires InPair(w, x, y, q, tm) && Same(tm, q, same)
    ensures InTurn(SelLog(History(g, w, ops).1, x, y), x, y, q, same)
    decreases |ops|
  {
    if ops != [] {
      var (w1, log) := Apply(g, w, ops[0]);
      var more := History(g, w1, ops[1..]).1;
      SelLogConcat(log, more, x, y);
      var tm' := ApplyPair(g, w, ops[0], x, y, q, same, tm);
      if SelLog(log, x, y) == [] || same {
        HistoryPair(g, w1, ops[1..], x, y, q, same, tm');
      }
      InTurnConcat(SelLog(log, x, y), SelLog(more, x, y), x, y, q, same);
    }
  }

  /** Only creating and deleting: the wheel's time stands still. */
  ghost predicate Still<T>(ops: seq<Op<T>>) {
    forall op | op in ops :: !op.RunTo?
  }

  lemma {:induction false} StillSlot<T>(g: nat, w: Wheel<T>, ops: seq<Op<T>>, w1: Wheel<T>, k: nat, s: seq<Timer<T>>,
                                        x: T, y: T)
    requires g >= 1 && Shaped(w) && Possible(g, w, ops) && SpareBoth(g, w, ops, x, y) && Still(ops)
    requires InSlot(w, k, s, x, y) && w1 == History(g, w, ops).0
    ensures InSlot(w1, k, s, x, y) && w1.jiffies == w.jiffies
    decreases |ops|
  {
    if ops != [] {
      assert ops[0] in ops;
      var w0 := Apply(g, w, ops[0]).0;
      forall i: nat | i < SLOTS ensures Sel(w0.slots[i], x, y) == if i == k then s else [] {
        StillSel(g, w, ops[0], x, y, i);
      }
      StillSlot(g, w0, ops[1..], w1, k, s, x, y);
    }
  }

  /** Filing one more timer of x or y where the others are. */
  lemma OneMoreInSlot<T>(g: nat, w: Wheel<T>, k: nat, s: seq<Timer<T>>, o: Timer<T>, x: T, y: T)
    requires g >= 1 && Shaped(w) && InSlot(w, k, s, x, y) && (o.param == x || o.param == y)
    requires s == [] || k == SlotFor(g, w.jiffies, o.expires)
    ensures InSlot(Add(g, w, o), SlotFor(g, w.jiffies, o.expires), s + [o], x, y)
  {
    var j := SlotFor(g, w.jiffies, o.expires);
    forall i: nat | i < SLOTS ensures Sel(Add(g, w, o).slots[i], x, y) == if i == j then s + [o] else [] {
      PutSel(g, w, o, i, x, y);
      assert [o][1..] == [];
    }
  }

  lemma FirstCreated<T>(g: nat, w: Wheel<T>, x: T, y: T, q: nat, due: nat, p: nat, w0: Wheel<T>) returns (j: nat)
    requires g >= 1 && Shaped(w) && InPair(w, x, y, q, None) && w0 == Create(g, w, x, due, p)
    ensures j == SlotFor(g, w.jiffies, w.jiffies + due) && w0.jiffies == w.jiffies
    ensures InSlot(w0, j, [Timer(x, w.jiffies + due, p)], x, y)
  {
    var k: nat :| InSlot(w, k, Both<T>(None, y, q), x, y);
    j := SlotFor(g, w.jiffies, w.jiffies + due);
    OneMoreInSlot(g, w, k, [], Timer(x, w.jiffies + due, p), x, y);
  }

  lemma SecondCreated<T>(g: nat, w1: Wheel<T>, x: T, y: T, q: nat, due: nat, tm: Timer<T>, j: nat, w2: Wheel<T>)
    requires g >= 1 && Shaped(w1) && w2 == Create(g, w1, y, due, q) && tm.param == x && tm.expires == w1.jiffies + due
    requires j == SlotFor(g, w1.jiffies, tm.expires) && InSlot(w1, j, [tm], x, y)
    ensures InPair(w2, x, y, q, Some(tm))
  {
    OneMoreInSlot(g, w1, j, [tm], Mate(tm, y, q), x, y);
    assert [tm] + [Mate(tm, y, q)] == Both(Some(tm), y, q);
    assert InSlot(w2, j, Both(Some(tm), y, q), x, y);
  }

  lemma CreatedPair<T>(g: nat, w: Wheel<T>, x: T, y: T, due: nat, p: nat, q: nat, w0: Wheel<T>,
                       between: seq<Op<T>>, w1: Wheel<T>, w2: Wheel<T>)
    requires g >= 1 && Shaped(w) && InPair(w, x, y, q, None) && w0 == Create(g, w, x, due, p)
    requires Possible(g, w0, between) && SpareBoth(g, w0, between, x, y) && Still(between)
    requires w1 == History(g, w0, between).0 && w2 == Create(g, w1, y, due, q)
    ensures InPair(w2, x, y, q, Some(Timer(x, w.jiffies + due, p)))
  {
    var tm := Timer(x, w.jiffies + due, p);
    var j := FirstCreated(g, w, x, y, q, due, p, w0);
    StillSlot(g, w0, between, w1, j, [tm], x, y);
    SecondCreated(g, w1, x, y, q, due, tm, j, w2);
  }

  /** x and y have no timers; each gets one, x first, at the same wheel time and with the same due time.
      Then over any history that spares both, at every granularity, x is called first, and y at the
      same tick; and if their periods are the same, they are called in turn for ever. */
  lemma InCreationOrder<T>(g: nat, w: Wheel<T>, x: T, y: T, due: nat, p: nat, q: nat, w0: Wheel<T>,
                           between: seq<Op<T>>, w1: Wheel<T>, w2: Wheel<T>, ops: seq<Op<T>>)
    requires g >= 1 && Shaped(w) && InPair(w, x, y, q, None) && w0 == Create(g, w, x, due, p)
    requires Possible(g, w0, between) && SpareBoth(g, w0, between, x, y) && Still(between)
    requires w1 == History(g, w0, between).0 && w2 == Create(g, w1, y, due, q)
    requires Possible(g, w2, ops) && SpareBoth(g, w2, ops, x, y)
    ensures InTurn(SelLog(History(g, w2, ops).1, x, y), x, y, q, p == q)
  {
    CreatedPair(g, w, x, y, due, p, q, w0, between, w1, w2);
    HistoryPair(g, w2, ops, x, y, q, p == q, Some(Timer(x, w.jiffies + due, p)));
  }

  // ----- positions in the log

  lemma {:induction false} SelPosition<T>(log: seq<Firing<T>>, x: T, y: T) returns (i: nat)
    requires SelLog(log, x, y) != []
    ensures i < |log| && log[i] == SelLog(log, x, y)[0]
  {
    i := 0;
    if log[0].timer.param != x && log[0].timer.param != y {
      i := SelPosition(log[1..], x, y);
      i := i + 1;
    }
  }

  lemma {:induction false} InTurnAt<T>(s: seq<Firing<T>>, x: T, y: T, q: nat, same: bool, i: nat)
    requires InTurn(s, x, y, q, same) && x != y && i < |s| && s[i].timer.param == x && (same || i == 0)
    ensures i + 1 < |s| && s[i + 1] == Firing(s[i].at, Mate(s[i].timer, y, q))
    decreases i
  {
    if i >= 2 {
      InTurnAt(s[2..], x, y, q, same, i - 2);
    }
  }

  /** So the first call for x, and with the same period each of them, is followed in the log by one
      for y at the same tick. */
  lemma MateFollows<T>(log: seq<Firing<T>>, x: T, y: T, q: nat, same: bool, i: nat) returns (j: nat)
    requires InTurn(SelLog(log, x, y), x, y, q, same) && x != y && i < |log| && log[i].timer.param == x
    requires same || SelLog(log[..i], x, y) == []
    ensures i < j < |log| && log[j] == Firing(log[i].at, Mate(log[i].timer, y, q))
  {
    var before, rest := log[..i], log[i + 1..];
    assert log == before + ([log[i]] + rest);
    assert ([log[i]] + rest)[1..] == rest;
    SelLogConcat(before, [log[i]] + rest, x, y);
    var n := |SelLog(before, x, y)|;
    assert SelLog(log, x, y)[n] == log[i];
    InTurnAt(SelLog(log, x, y), x, y, q, same, n);
    j := SelPosition(rest, x, y);
    j := j + i + 1;
  }
}
