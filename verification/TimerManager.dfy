/** The timer manager on the heap: 512 circular lists whose links are rewritten in place,
    proved against the value `model` of module Wheel. */
module TimerManager {
  import opened Wheel
  import opened TimerRing

  ghost function ViewOf<T>(n: Link<T>): Timer<T>
    reads n`uExpires
  {
    Timer(n.param, n.uExpires, n.uPeriod)
  }

  ghost function Views<T>(s: seq<Link<T>>): seq<Timer<T>>
    reads (set n | n in s)`uExpires
  {
    if s == [] then [] else [ViewOf(s[0])] + Views(s[1..])
  }

  /** A list being drained: following pNext from p meets the links s and ends at the head. */
  ghost predicate Chain<T>(p: Link<T>, s: seq<Link<T>>, h: Link<T>)
    reads set n | n in s
  {
    && h !in s && Distinct(s) && p == At(h, s, 0)
    && (forall i {:trigger s[i].pNext} :: 0 <= i < |s| ==> s[i].pNext == At(h, s, i + 1))
  }

  /** In the middle of draining: the links s, showing l, are still ahead of p. */
  ghost predicate Draining<T>(p: Link<T>, s: seq<Link<T>>, h: Link<T>, l: seq<Timer<T>>)
    reads set n | n in s
  {
    Chain(p, s, h) && Views(s) == l
  }

  lemma DrainNext<T>(p: Link<T>, s: seq<Link<T>>, h: Link<T>, l: seq<Timer<T>>)
    requires Draining(p, s, h, l) && p != h
    ensures s != [] && p == s[0] && p !in s[1..] && l != [] && ViewOf(p) == l[0]
    ensures Draining(p.pNext, s[1..], h, l[1..])
  {
    assert s[0].pNext == At(h, s, 1);
  }

  /** The list of slot k: a ring of links that know their slot and show the timers l. */
  ghost predicate ListOk<T>(k: int, h: Link<T>, s: seq<Link<T>>, l: seq<Timer<T>>)
    reads Nodes(h, s)
  {
    && (forall n :: n in Nodes(h, s) ==> n.home == k)
    && Ring(h, s) && Views(s) == l
  }

  class TimerManager<T> {
    const g: nat                   // clock_granularity
    const heads: seq<Link<T>>      // arrListTimer1 .. arrListTimer5, end to end
    var uJiffies: nat
    ghost var lists: seq<seq<Link<T>>>
    ghost var model: Wheel<T>
    ghost var Repr: set<Link<T>>   // the heads and the links of all pending timers

    ghost predicate Shape()
      reads this
    {
      && g >= 1 && |heads| == SLOTS && |lists| == SLOTS
      && Shaped(model) && model.jiffies == uJiffies
    }

    ghost predicate SlotOk(k: nat, repr: set<Link<T>>)
      requires Shape() && k < SLOTS
      reads this, repr
    {
      Nodes(heads[k], lists[k]) <= repr && ListOk(k, heads[k], lists[k], model.slots[k])
    }

    ghost predicate Valid()
      reads this, Repr
    {
      Shape() && forall k: nat :: k < SLOTS ==> SlotOk(k, Repr)
    }

    /** Bookkeeping: the ring at the head of slot i is now s, showing l. */
    ghost method SetSlot(i: nat, s: seq<Link<T>>, l: seq<Timer<T>>, repr: set<Link<T>>)
      requires Shape() && i < SLOTS
      requires forall k: nat :: k < SLOTS && k != i ==> SlotOk(k, repr)
      requires Nodes(heads[i], s) <= repr && ListOk(i, heads[i], s, l)
      modifies this`lists, this`model, this`Repr
      ensures Valid() && Repr == repr && lists == old(lists)[i := s]
      ensures model == old(model).(slots := old(model).slots[i := l])
    {
      lists := lists[i := s];
      model := model.(slots := model.slots[i := l]);
      Repr := repr;
      forall k: nat | k < SLOTS ensures SlotOk(k, Repr) {
        assert k != i ==> old(SlotOk(k, repr));
      }
    }

    /** add_timer */
    method AddTimer(pTmr: Link<T>)
      requires Valid() && pTmr !in Repr
      modifies this`lists, this`model, this`Repr
      modifies pTmr`pNext, pTmr`pPrev, pTmr`home, Repr`pNext, Repr`pPrev
      ensures Valid() && Repr == old(Repr) + {pTmr}
      ensures model == Add(g, old(model), old(ViewOf(pTmr)))
    {
      var uExpires := pTmr.uExpires;
      var uDueTime := Due(uJiffies, uExpires) / g;
      var i: nat;
      if uDueTime < 0x100 {
        i := uExpires % 256;
      } else if uDueTime < 0x4000 {
        i := 256 + uExpires / 0x100 % 64;
      } else if uDueTime < 0x10_0000 {
        i := 320 + uExpires / 0x4000 % 64;
      } else if uDueTime < 0x400_0000 {
        i := 384 + uExpires / 0x10_0000 % 64;
      } else {
        i := 448 + uExpires / 0x400_0000 % 64;
      }
      assert i == SlotFor(g, uJiffies, uExpires) by {
        LevelByDivision(g, Due(uJiffies, uExpires));
      }
      Append(pTmr, i);
    }

    /** The insertion at the tail of slot i. */
    method Append(pTmr: Link<T>, i: nat)
      requires Valid() && pTmr !in Repr && i < SLOTS
      modifies this`lists, this`model, this`Repr
      modifies pTmr`pNext, pTmr`pPrev, pTmr`home, Repr`pNext, Repr`pPrev
      ensures Valid() && Repr == old(Repr) + {pTmr}
      ensures model == old(model).(slots := Put(old(model).slots, i, old(ViewOf(pTmr))))
    {
      ghost var s := lists[i];
      assert SlotOk(i, Repr);
      InsertTail(pTmr, heads[i], s);
      pTmr.home := i;
      forall k: nat | k < SLOTS && k != i ensures SlotOk(k, Repr + {pTmr}) {
        assert old(SlotOk(k, Repr));
      }
      ViewsAppend(s, pTmr);
      SetSlot(i, s + [pTmr], model.slots[i] + [ViewOf(pTmr)], Repr + {pTmr});
    }

    /** list_timer_replace_init on the head of slot i: the list comes out under the head pNew. */
    method Detach(i: nat, pNew: Link<T>)
      requires Valid() && i < SLOTS && pNew !in Repr
      modifies this`lists, this`model, this`Repr
      modifies pNew`pNext, pNew`pPrev, Repr`pNext, Repr`pPrev
      ensures Valid() && Repr == old(Repr - set n | n in lists[i])
      ensures model == old(model).(slots := old(model).slots[i := []])
      ensures Ring(pNew, old(lists)[i]) && Views(old(lists)[i]) == old(model).slots[i]
    {
      ghost var s := lists[i];
      ghost var rest := Repr - set n | n in s;
      assert SlotOk(i, Repr);
      ReplaceInit(heads[i], pNew, s);
      forall k: nat | k < SLOTS && k != i ensures SlotOk(k, rest) {
        assert old(SlotOk(k, Repr));
        assert forall n :: n in Nodes(heads[k], lists[k]) ==> n.home == k;
      }
      assert heads[i] !in s;
      SetSlot(i, [], [], rest);
    }

    /** The loop of cascade_timer: file again, one by one, the links of a detached list. */
    method Refile(listTmr: Link<T>, ghost s: seq<Link<T>>)
      requires Valid() && Ring(listTmr, s) && Nodes(listTmr, s) !! Repr
      modifies this`lists, this`model, this`Repr
      modifies Nodes(listTmr, s)`pNext, Nodes(listTmr, s)`pPrev, Nodes(listTmr, s)`home, Repr`pNext, Repr`pPrev
      ensures Valid() && Repr == old(Repr) + set n | n in s
      ensures model == AddAll(g, old(model), old(Views(s)))
    {
      var pListTimer := listTmr.pNext;
      ghost var rest := s;
      ghost var todo := Views(s);
      while pListTimer != listTmr
        invariant Valid() && Draining(pListTimer, rest, listTmr, todo)
        invariant forall n :: n in rest ==> n in s && n !in Repr
        invariant listTmr !in Repr
        invariant Repr + (set n | n in rest) == old(Repr) + set n | n in s
        invariant AddAll(g, model, todo) == AddAll(g, old(model), old(Views(s)))
        decreases |rest|
      {
        var pTmr := pListTimer;
        DrainNext(pTmr, rest, listTmr, todo);
        pListTimer := pListTimer.pNext;
        AddTimer(pTmr);
        rest, todo := rest[1..], todo[1..];
      }
    }

    /** cascade_timer */
    method CascadeTimer(n: nat) returns (idx: nat)
      requires Valid() && 2 <= n <= 5
      modifies this`lists, this`model, this`Repr, Repr`pNext, Repr`pPrev, Repr`home
      ensures Valid() && Repr == old(Repr)
      ensures idx == Index(old(model).jiffies, n) && model == Cascade(g, old(model), n)
    {
      idx := Index(uJiffies, n);
      var k := CascadeSlot(uJiffies, n);
      var listTmr := new Link<T>(heads[k].param, 0);
      assert SlotOk(k, Repr);
      ghost var s := lists[k];
      Detach(k, listTmr);
      Refile(listTmr, s);
    }

    /** The carry chain at the top of run_timer's loop. */
    method CarryOver()
      requires Valid()
      modifies this`lists, this`model, this`Repr, Repr`pNext, Repr`pPrev, Repr`home
      ensures Valid() && Repr == old(Repr) && model == Carry(g, old(model))
    {
      ghost var w := model;
      if uJiffies % 256 == 0 {
        var idx := CascadeTimer(2);
        if idx == 0 {
          idx := CascadeTimer(3);
          if idx == 0 {
            idx := CascadeTimer(4);
            if idx == 0 {
              idx := CascadeTimer(5);
            }
          }
        }
        CascadeChain(g, w);
      }
    }

    /** The body of run_timer's inner loop: step on, call back, and file a periodic timer again. */
    method FireNext(pTmr: Link<T>, ghost rest: seq<Link<T>>, ghost h: Link<T>, ghost todo: seq<Timer<T>>)
      returns (next: Link<T>, call: Firing<T>)
      requires Valid() && Draining(pTmr, rest, h, todo) && pTmr != h && h !in Repr
      requires forall n :: n in rest ==> n !in Repr
      modifies this`lists, this`model, this`Repr
      modifies pTmr`pNext, pTmr`pPrev, pTmr`home, pTmr`uExpires, Repr`pNext, Repr`pPrev
      ensures rest != [] && pTmr == rest[0] && todo != []
      ensures Valid() && Draining(next, rest[1..], h, todo[1..])
      ensures Repr == if todo[0].period == 0 then old(Repr) else old(Repr) + {pTmr}
      ensures forall n :: n in rest[1..] ==> n !in Repr
      ensures h !in Repr
      ensures call == Firing(uJiffies, todo[0]) && model == FiledAgain(g, old(model), todo[0])
    {
      DrainNext(pTmr, rest, h, todo);
      next := pTmr.pNext;
      call := Firing(uJiffies, Timer(pTmr.param, pTmr.uExpires, pTmr.uPeriod));
      if pTmr.uPeriod != 0 {
        pTmr.uExpires := uJiffies + pTmr.uPeriod;
        AddTimer(pTmr);
      }
    }

    /** The inner loop of run_timer: call back every link of the expired list, in order, and
        file the periodic ones again; the others are freed.  `log` is the record of the calls. */
    method FireAll(listTmrExpire: Link<T>, ghost s: seq<Link<T>>) returns (log: seq<Firing<T>>)
      requires Valid() && Ring(listTmrExpire, s) && Nodes(listTmrExpire, s) !! Repr
      modifies this`lists, this`model, this`Repr
      modifies Nodes(listTmrExpire, s), Repr`pNext, Repr`pPrev
      ensures Valid() && Repr <= old(Repr) + set n | n in s
      ensures model == AddAll(g, old(model), Rearmed(uJiffies, old(Views(s))))
      ensures log == Stamp(uJiffies, old(Views(s)))
    {
      log := [];
      var pListTmrExpire := listTmrExpire.pNext;
      ghost var rest, todo := s, Views(s);
      while pListTmrExpire != listTmrExpire
        invariant Valid() && Draining(pListTmrExpire, rest, listTmrExpire, todo)
        invariant forall n :: n in rest ==> n in s && n !in Repr
        invariant listTmrExpire !in Repr && Repr <= old(Repr) + set n | n in s
        invariant AddAll(g, model, Rearmed(uJiffies, todo))
                  == AddAll(g, old(model), Rearmed(uJiffies, old(Views(s))))
        invariant log + Stamp(uJiffies, todo) == Stamp(uJiffies, old(Views(s)))
        decreases |rest|
      {
        DrainNext(pListTmrExpire, rest, listTmrExpire, todo);
        FileNext(g, model, todo);
        StampNext(uJiffies, log, todo);
        var call: Firing<T>;
        pListTmrExpire, call := FireNext(pListTmrExpire, rest, listTmrExpire, todo);
        log := log + [call];
        rest, todo := rest[1..], todo[1..];
      }
    }

    /** One turn of run_timer's outer loop. */
    method OneTick() returns (log: seq<Firing<T>>)
      requires Valid()
      modifies this, Repr
      ensures Valid() && Repr <= old(Repr)
      ensures model == Tick(g, old(model)).0
      ensures log == Stamp(old(model).jiffies, Tick(g, old(model)).1)
    {
      var idx := uJiffies % 256;
      CarryOver();
      var listTmrExpire := new Link<T>(heads[idx].param, 0);
      assert SlotOk(idx, Repr);
      ghost var s := lists[idx];
      Detach(idx, listTmrExpire);
      log := FireAll(listTmrExpire, s);
      Advance();
    }

    method Advance()
      requires Valid()
      modifies this`uJiffies, this`model
      ensures Valid() && model == old(model).(jiffies := old(uJiffies) + 1)
    {
      uJiffies := uJiffies + 1;
      model := model.(jiffies := uJiffies);
      forall k: nat | k < SLOTS ensures SlotOk(k, Repr) {
        assert old(SlotOk(k, Repr));
      }
    }

    /** run_timer, with the clock reading `now` */
    method RunTimer(now: nat) returns (log: seq<Firing<T>>)
      requires Valid()
      modifies this, Repr
      ensures Valid() && Repr <= old(Repr)
      ensures (model, log) == Run(g, old(model), now)
    {
      log := [];
      while now >= uJiffies
        invariant Valid() && Repr <= old(Repr)
        invariant Run(g, model, now).0 == Run(g, old(model), now).0
        invariant log + Run(g, model, now).1 == Run(g, old(model), now).1
        decreases now + 1 - uJiffies
      {
        RunNext(g, model, now, log);
        var more := OneTick();
        log := log + more;
      }
      assert Run(g, model, now) == (model, []);
      assert log + [] == log;
    }

    /** create_timer */
    method CreateTimer(param: T, uDueTime: nat, uPeriod: nat) returns (pTmr: Link<T>)
      requires Valid()
      modifies this`lists, this`model, this`Repr, Repr`pNext, Repr`pPrev
      ensures Valid() && fresh(pTmr) && Repr == old(Repr) + {pTmr}
      ensures model == Create(g, old(model), param, uDueTime, uPeriod)
    {
      pTmr := new Link<T>(param, uPeriod);
      pTmr.uExpires := uJiffies + uDueTime;
      AddTimer(pTmr);
    }

    /** delete_timer, for the timer that is the i-th of slot k */
    method DeleteTimer(lpTimer: Link<T>, ghost k: nat, ghost i: nat)
      requires Valid() && k < SLOTS && i < |lists[k]| && lists[k][i] == lpTimer
      modifies this`lists, this`model, this`Repr, Repr`pNext, Repr`pPrev
      ensures Valid() && Repr == old(Repr) - {lpTimer}
      ensures i < |old(model).slots[k]| && model == Delete(old(model), k, i)
    {
      assert SlotOk(k, Repr);
      ghost var s, h := lists[k], heads[k];
      ghost var t := s[..i] + s[i + 1..];
      ViewsRemoved(s, i);
      RemovedDistinct(s, i, t);
      Unlink(lpTimer, h, s, i, t);
      forall j: nat | j < SLOTS && j != k ensures SlotOk(j, Repr - {lpTimer}) {
        assert old(SlotOk(j, Repr));
        assert forall n :: n in Nodes(heads[j], lists[j]) ==> n.home == j;
      }
      SetSlot(k, t, model.slots[k][..i] + model.slots[k][i + 1..], Repr - {lpTimer});
    }

    /** timer_init: every slot a list head that points at itself. */
    constructor (g: nat, now: nat, none: T)
      requires g >= 1
      ensures Valid() && fresh(Repr) && this.g == g && model == Empty(now)
    {
      var hs: seq<Link<T>> := [];
      while |hs| < SLOTS
        invariant |hs| <= SLOTS
        invariant forall k :: 0 <= k < |hs| ==> fresh(hs[k]) && hs[k].home == k && Ring(hs[k], [])
        decreases SLOTS - |hs|
      {
        var h := new Link<T>(none, 0);
        h.home := |hs|;
        hs := hs + [h];
      }
      this.g, heads, uJiffies := g, hs, now;
      lists, model, Repr := seq(SLOTS, _ => []), Empty(now), set h | h in hs;
      new;
      forall k: nat | k < SLOTS ensures SlotOk(k, Repr) {
        assert heads[k] in hs;
      }
    }
  }

  lemma RunNext<T>(g: nat, w: Wheel<T>, now: nat, log: seq<Firing<T>>)
    requires g >= 1 && Shaped(w) && now >= w.jiffies
    ensures var (w1, fired) := Tick(g, w);
            && Run(g, w, now).0 == Run(g, w1, now).0
            && log + Run(g, w, now).1 == (log + Stamp(w.jiffies, fired)) + Run(g, w1, now).1
  {
  }

  lemma {:induction false} ViewsRemoved<T>(s: seq<Link<T>>, i: nat)
    requires i < |s|
    ensures |Views(s)| == |s|
    ensures Views(s[..i] + s[i + 1..]) == Views(s)[..i] + Views(s)[i + 1..]
  {
    ViewsLength(s);
    if i == 0 {
      assert s[..0] + s[1..] == s[1..];
    } else {
      ViewsRemoved(s[1..], i - 1);
      assert (s[..i] + s[i + 1..])[1..] == s[1..][..i - 1] + s[1..][i..];
    }
  }

  lemma {:induction false} ViewsLength<T>(s: seq<Link<T>>)
    ensures |Views(s)| == |s|
  {
    if s != [] {
      ViewsLength(s[1..]);
    }
  }

  /** The wheel after the callback of tm, at this tick. */
  ghost function FiledAgain<T>(g: nat, w: Wheel<T>, tm: Timer<T>): (r: Wheel<T>)
    requires g >= 1 && Shaped(w)
    ensures Shaped(r) && r.jiffies == w.jiffies
  {
    if tm.period == 0 then w else Add(g, w, tm.(expires := w.jiffies + tm.period))
  }

  lemma FileNext<T>(g: nat, w: Wheel<T>, todo: seq<Timer<T>>)
    requires g >= 1 && Shaped(w) && todo != []
    ensures AddAll(g, w, Rearmed(w.jiffies, todo))
            == AddAll(g, FiledAgain(g, w, todo[0]), Rearmed(w.jiffies, todo[1..]))
  {
    var more := Rearmed(w.jiffies, todo[1..]);
    if todo[0].period == 0 {
      assert Rearmed(w.jiffies, todo) == more;
    } else {
      var again := todo[0].(expires := w.jiffies + todo[0].period);
      assert Rearmed(w.jiffies, todo) == [again] + more;
      assert ([again] + more)[1..] == more;
    }
  }

  lemma StampNext<T>(now: nat, log: seq<Firing<T>>, todo: seq<Timer<T>>)
    requires todo != []
    ensures log + Stamp(now, todo) == (log + [Firing(now, todo[0])]) + Stamp(now, todo[1..])
  {
  }

  lemma CascadeChain<T>(g: nat, w: Wheel<T>)
    requires g >= 1 && Shaped(w)
    ensures var w2 := Cascade(g, w, 2);
            var w3 := Cascade(g, w2, 3);
            var w4 := Cascade(g, w3, 4);
            CascadeFrom(g, w, 2) ==
            if Index(w.jiffies, 2) != 0 then w2
            else if Index(w.jiffies, 3) != 0 then w3
            else if Index(w.jiffies, 4) != 0 then w4
            else Cascade(g, w4, 5)
  {
    var w2 := Cascade(g, w, 2);
    var w3 := Cascade(g, w2, 3);
    var w4 := Cascade(g, w3, 4);
    assert CascadeFrom(g, w4, 5) == Cascade(g, w4, 5);
    assert CascadeFrom(g, w3, 4) == if Index(w.jiffies, 4) == 0 then CascadeFrom(g, w4, 5) else w4;
    assert CascadeFrom(g, w2, 3) == if Index(w.jiffies, 3) == 0 then CascadeFrom(g, w3, 4) else w3;
  }

  lemma {:induction false} ViewsAppend<T>(s: seq<Link<T>>, n: Link<T>)
    ensures Views(s + [n]) == Views(s) + [ViewOf(n)]
  {
    if s == [] {
    } else {
      assert (s + [n])[1..] == s[1..] + [n];
      ViewsAppend(s[1..], n);
    }
  }
}
