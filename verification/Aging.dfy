/** The other way of choosing the next task, get_next_task_011: tasks that are not competing for
    the processor gather ticks, and the ready task with the most ticks runs. */
module Aging {
  import opened Basics
  import opened Kernel
  import opened KernelPartition

  // ----- gathering ticks

  /** One pass over a task that waits or sleeps; ticks is a uint8_t. */
  function Gather(p: nat, t: nat): nat {
    Narrow8(t / 2 + p)
  }

  function Passes(p: nat, t: nat, k: nat): nat
    decreases k
  {
    if k == 0 then t else Passes(p, Gather(p, t), k - 1)
  }

  /** Each pass halves what is missing to 2p - 1, or what is above 2p; this is what it comes to
      after k passes. */
  function Gathered(p: nat, t: nat, k: nat): int {
    if t < 2 * p then 2 * p - 1 - (2 * p - 1 - t) / Pow2(k) else 2 * p + (t - 2 * p) / Pow2(k)
  }

  lemma Further(d: nat, x: nat, y: nat)
    requires x < y
    ensures d * x + d <= d * y
  {
    assert d * y == d * x + d * (y - x);
    assert d * (y - x) == d + d * (y - x - 1);
  }

  lemma Quotient(u: nat, d: nat, q: nat)
    requires d >= 1 && d * q <= u < d * q + d
    ensures u / d == q
  {
    var e := u / d;
    assert d * e <= u < d * e + d;
    if e < q {
      Further(d, e, q);
    } else if q < e {
      Further(d, q, e);
    }
  }

  lemma Halves(u: nat, m: nat)
    requires m >= 1
    ensures u / (2 * m) == (u / 2) / m
  {
    var q := (u / 2) / m;
    assert m * q <= u / 2 < m * q + m;
    assert (2 * m) * q == 2 * (m * q);
    Quotient(u, 2 * m, q);
  }

  lemma GatherHalves(p: nat, t: nat)
    requires p <= 128 && t <= 255
    ensures Gather(p, t) <= 255 && (Gather(p, t) < 2 * p <==> t < 2 * p)
    ensures t < 2 * p ==> t <= Gather(p, t) && 2 * p - 1 - Gather(p, t) == (2 * p - 1 - t) / 2
    ensures t >= 2 * p ==> Gather(p, t) <= t && Gather(p, t) - 2 * p == (t - 2 * p) / 2
  {
    var h := t / 2;
    assert 2 * h <= t <= 2 * h + 1;
    assert Gather(p, t) == h + p;
  }

  lemma GatheredNext(p: nat, t: nat, k: nat)
    requires p <= 128 && t <= 255 && k > 0
    ensures Gathered(p, t, k) == Gathered(p, Gather(p, t), k - 1)
  {
    GatherHalves(p, t);
    if t < 2 * p {
      Halves(2 * p - 1 - t, Pow2(k - 1));
    } else {
      Halves(t - 2 * p, Pow2(k - 1));
    }
  }

  /** The closed form: the ticks approach 2p - 1 from below or 2p from above, and never wrap around. */
  lemma {:induction false} PassesClosedForm(p: nat, t: nat, k: nat)
    requires p <= 128 && t <= 255
    ensures Passes(p, t, k) == Gathered(p, t, k)
    ensures if t < 2 * p then t <= Passes(p, t, k) < 2 * p else 2 * p <= Passes(p, t, k) <= t
    ensures Passes(p, t, k) <= 255
    decreases k
  {
    if k > 0 {
      GatherHalves(p, t);
      GatheredNext(p, t, k);
      PassesClosedForm(p, Gather(p, t), k - 1);
    }
  }

  /** From any uint8 values the ticks follow the closed form for ever if and only if the priority
      is at most 128; above that, some pass wraps around. */
  lemma NeverWrapsIff(p: nat, t: nat)
    requires p <= 255 && t <= 255
    ensures (forall k: nat :: Passes(p, t, k) == Gathered(p, t, k)) <==> p <= 128
  {
    if p <= 128 {
      forall k: nat ensures Passes(p, t, k) == Gathered(p, t, k) {
        PassesClosedForm(p, t, k);
      }
    } else {
      Pow2Nine();
      assert Gathered(p, t, 9) == 2 * p - 1;
      PassesIsByte(p, t, 9);
    }
  }

  lemma Pow2Nine()
    ensures Pow2(9) == 512
  {
    assert Pow2(3) == 8 && Pow2(6) == 8 * Pow2(3);
  }

  lemma {:induction false} PassesIsByte(p: nat, t: nat, k: nat)
    requires t <= 255
    ensures Passes(p, t, k) <= 255
    decreases k
  {
    if k > 0 {
      PassesIsByte(p, Gather(p, t), k - 1);
    }
  }

  /** Nine passes bring a task of priority at most 128 to its limit, whatever it started with. */
  lemma NinePasses(p: nat, t: nat)
    requires p <= 128 && t <= 255
    ensures Passes(p, t, 9) == if t < 2 * p then 2 * p - 1 else 2 * p
  {
    Pow2Nine();
    PassesClosedForm(p, t, 9);
  }

  // ----- the choice

  ghost function Aged<C>(t: Tcb<C>): Tcb<C> {
    if IsBlocked(t.status) || t.collaborative then t.(ticks := Gather(t.priority, t.ticks)) else t
  }

  /** The pass over task_all_list. */
  ghost function AgeAll<T, C>(k: Kernel<T, C>): Kernel<T, C> {
    k.(tcb := map x | x in k.tcb :: if x in k.all then Aged(k.tcb[x]) else k.tcb[x])
  }

  /** Among the first n tasks, the i-th is the earliest READY one with the most ticks. */
  ghost predicate IsPick<T, C>(k: Kernel<T, C>, n: nat, i: nat)
    requires n <= |k.all| && forall x :: x in k.all ==> x in k.tcb
  {
    && i < n && k.tcb[k.all[i]].status == READY
    && (forall j :: 0 <= j < n && k.tcb[k.all[j]].status == READY ==>
          k.tcb[k.all[j]].ticks <= k.tcb[k.all[i]].ticks)
    && (forall j :: 0 <= j < i && k.tcb[k.all[j]].status == READY ==>
          k.tcb[k.all[j]].ticks < k.tcb[k.all[i]].ticks)
  }

  /** get_next_task_011, whose choice is the i-th task. */
  ghost function Next011<T, C>(k: Kernel<T, C>, i: nat): Kernel<T, C>
    requires i < |k.all| && k.all[i] in k.tcb
  {
    var a, x := AgeAll(k), k.all[i];
    a.(ready := Remove(k.ready, x), tcb := a.tcb[x := a.tcb[x].(status := RUNNING)])
  }

  lemma AgeAllParts<T, C>(k: Kernel<T, C>, running: Option<T>)
    requires Parts(k, running)
    ensures Parts(AgeAll(k), running)
  {
    var a := AgeAll(k);
    forall x | x in a.all ensures StatusOk(a, x, running) {
      assert StatusOk(k, x, running);
    }
  }

  /** There is a choice if and only if some task is ready, and then there is exactly one. */
  lemma {:induction false} PickExists<T, C>(k: Kernel<T, C>, n: nat) returns (i: nat)
    requires n <= |k.all| && forall x :: x in k.all ==> x in k.tcb
    ensures IsPick(k, n, i) <==> exists j :: 0 <= j < n && k.tcb[k.all[j]].status == READY
    ensures forall j: nat :: IsPick(k, n, j) ==> j == i
    decreases n
  {
    i := 0;
    if n > 0 {
      i := PickExists(k, n - 1);
      var last := k.tcb[k.all[n - 1]];
      if last.status == READY && (!IsPick(k, n - 1, i) || last.ticks > k.tcb[k.all[i]].ticks) {
        i := n - 1;
      }
    }
  }

  lemma TakenParts<T, C>(a: Kernel<T, C>, x: T, s: Kernel<T, C>)
    requires Parts(a, None) && a.part == map[] && x in a.all && a.tcb[x].status == READY
    requires s == a.(ready := Remove(a.ready, x), tcb := a.tcb[x := a.tcb[x].(status := RUNNING)], current := x)
    ensures Partition(s) && x in a.ready && forall y :: y in s.ready <==> y in a.ready && y != x
  {
    RemoveMeans(a.ready, x);
    assert StatusOk(a, x, None);
    forall y | y in s.all ensures StatusOk(s, y, Some(x)) {
      assert StatusOk(a, y, None);
    }
  }

  /** Nobody who is ready loses or gains ticks, and the choice has the most. */
  lemma PickTicks<T, C>(k: Kernel<T, C>, i: nat, y: T)
    requires Parts(k, None) && IsPick(AgeAll(k), |k.all|, i) && y in k.ready && y in k.all
    ensures AgeAll(k).tcb[y].ticks == k.tcb[y].ticks <= AgeAll(k).tcb[k.all[i]].ticks
  {
    assert StatusOk(k, y, None);
    var j :| 0 <= j < |k.all| && k.all[j] == y;
  }

  /** Making the chosen task current keeps the partition, as get_next_task's choice does; nobody
      else leaves the ready list, and nobody who was ready has lost or gained ticks.  The choice has the
      most ticks, and of those with the most it was started first. */
  lemma Next011Parts<T, C>(k: Kernel<T, C>, i: nat)
    requires Parts(k, None) && k.part == map[] && IsPick(AgeAll(k), |k.all|, i)
    ensures var s, x := Next011(k, i).(current := k.all[i]), k.all[i];
            && Partition(s) && x in k.ready
            && (forall y :: y in s.ready <==> y in k.ready && y != x)
            && (forall y :: y in k.ready ==> s.tcb[y].ticks == k.tcb[y].ticks)
            && (forall y :: y in k.ready ==> s.tcb[y].ticks <= s.tcb[x].ticks)
            && (forall j :: 0 <= j < i && k.all[j] in k.ready ==> s.tcb[k.all[j]].ticks < s.tcb[x].ticks)
  {
    var x := k.all[i];
    var s := Next011(k, i).(current := x);
    AgeAllParts(k, None);
    TakenParts(AgeAll(k), x, s);
    forall j | 0 <= j < i && k.all[j] in k.ready ensures s.tcb[k.all[j]].ticks < s.tcb[x].ticks {
      assert StatusOk(k, k.all[j], None);
    }
    forall y | y in k.ready
      ensures s.tcb[y].ticks == k.tcb[y].ticks && s.tcb[y].ticks <= s.tcb[x].ticks
    {
      PickTicks(k, i, y);
    }
  }

  // ----- the loop

  /** The first j tasks of the list have gathered their ticks. */
  ghost predicate AgedTo<T, C>(k: Kernel<T, C>, tcb: map<T, Tcb<C>>, j: nat)
    requires j <= |k.all|
  {
    && tcb.Keys == k.tcb.Keys
    && forall x :: x in tcb ==> tcb[x] == if x in k.all[..j] then Aged(k.tcb[x]) else k.tcb[x]
  }

  lemma AgedOn<T, C>(k: Kernel<T, C>, tcb: map<T, Tcb<C>>, j: nat)
    requires NoDup(k.all) && j < |k.all| && k.all[j] in k.tcb && AgedTo(k, tcb, j)
    ensures tcb[k.all[j]] == k.tcb[k.all[j]]
    ensures AgedTo(k, tcb[k.all[j] := Aged(tcb[k.all[j]])], j + 1)
  {
    assert k.all[..j + 1] == k.all[..j] + [k.all[j]];
    assert k.all[j] !in k.all[..j];
  }

  lemma AgedAll<T, C>(k: Kernel<T, C>, tcb: map<T, Tcb<C>>)
    requires AgedTo(k, tcb, |k.all|)
    ensures tcb == AgeAll(k).tcb
  {
    assert k.all[..|k.all|] == k.all;
  }

  /** What the loop has found among the first j tasks: nobody ready, or task i with c ticks. */
  ghost predicate PickedTo<T, C>(k: Kernel<T, C>, j: nat, i: nat, c: int)
    requires j <= |k.all| && forall x :: x in k.all ==> x in k.tcb
  {
    if c == -1 then forall m :: 0 <= m < j ==> k.tcb[k.all[m]].status != READY
    else
      && i < j && k.tcb[k.all[i]].status == READY && c == Aged(k.tcb[k.all[i]]).ticks
      && (forall m :: 0 <= m < j && k.tcb[k.all[m]].status == READY ==> Aged(k.tcb[k.all[m]]).ticks <= c)
      && (forall m :: 0 <= m < i && k.tcb[k.all[m]].status == READY ==> Aged(k.tcb[k.all[m]]).ticks < c)
  }

  lemma PickedOn<T, C>(k: Kernel<T, C>, j: nat, i: nat, c: int)
    requires j < |k.all| && (forall x :: x in k.all ==> x in k.tcb) && c >= -1 && PickedTo(k, j, i, c)
    ensures var t := Aged(k.tcb[k.all[j]]);
            if t.status == READY && t.ticks > c then PickedTo(k, j + 1, j, t.ticks) else PickedTo(k, j + 1, i, c)
  {
    assert k.all[j] in k.all;
  }

  lemma PickedAll<T, C>(k: Kernel<T, C>, i: nat, c: int)
    requires (forall x :: x in k.all ==> x in k.tcb) && PickedTo(k, |k.all|, i, c)
    ensures (exists j :: 0 <= j < |k.all| && k.tcb[k.all[j]].status == READY) ==>
              c != -1 && IsPick(AgeAll(k), |k.all|, i)
  {
    assert forall j :: 0 <= j < |k.all| ==> AgeAll(k).tcb[k.all[j]] == Aged(k.tcb[k.all[j]]);
  }
}
