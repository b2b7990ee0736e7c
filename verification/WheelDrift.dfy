/** Which periodic timers of wheel 3 keep time: a test on the period and the first firing alone. */
module WheelDrift {
  import opened Basics
  import opened Wheel
  import opened WheelHistory
  import opened WheelTheorems

  /** The largest power of two, up to the n-th, that divides p; so gcd(p, 2^n). */
  function Twos(p: nat, n: nat): (d: nat)
    ensures d >= 1
  {
    if n == 0 || p % 2 == 1 then 1 else 2 * Twos(p / 2, n - 1)
  }

  lemma AtLeast(k: nat, m: nat)
    requires k >= 1
    ensures k * m >= m
  {
    var j: nat := k - 1;
    assert k * m == j * m + m;
    assert j * m >= 0;
  }

  lemma Multiple(k: int, m: nat)
    requires k != 0
    ensures k * m >= m || k * m + m <= 0
  {
    if k > 0 {
      AtLeast(k, m);
    } else {
      AtLeast(-k, m);
      assert k * m == -((-k) * m);
    }
  }

  lemma ModIs(x: int, m: nat, c: int, r: nat)
    requires m >= 1 && x == r + c * m && r < m
    ensures x % m == r
  {
    var q, s := x / m, x % m;
    assert x == m * q + s;
    assert (c - q) * m == c * m - m * q == s - r;
    if c != q {
      Multiple(c - q, m);
    }
  }

  lemma HalfMod(x: nat, d: nat)
    requires d >= 1
    ensures x % (2 * d) == 2 * (x / 2 % d) + x % 2
  {
    var h := x / 2;
    assert h == d * (h / d) + h % d;
    assert x == (2 * (h % d) + x % 2) + (h / d) * (2 * d);
    ModIs(x, 2 * d, h / d, 2 * (h % d) + x % 2);
  }

  /** The i-th multiple of p takes t to r, modulo m. */
  ghost predicate Hits(p: nat, m: nat, t: nat, r: nat, i: nat, c: int) {
    t + i * p == r + c * m
  }

  lemma HitsDouble(p: nat, m: nat, t: nat, r: nat, i: nat, c: int, b: nat)
    requires Hits(p, m, t, r, i, c)
    ensures Hits(2 * p, 2 * m, 2 * t + b, 2 * r + b, i, c)
  {
    assert i * (2 * p) == 2 * (i * p);
    assert c * (2 * m) == 2 * (c * m);
  }

  lemma HitsBeyond(p: nat, m: nat, t: nat, r: nat, i: nat, c: int)
    requires r >= m && Hits(p, m, t, r - m, i, c)
    ensures Hits(p, m, t, r, i, c - 1)
  {
    assert (c - 1) * m == c * m - m;
  }

  /** Modulo twice m either the same multiple does, or the one m later if p is odd. */
  lemma HitsTwice(p: nat, m: nat, t: nat, r: nat, i: nat, c: int) returns (i': nat, c': int)
    requires Hits(p, m, t, r, i, c) && p % 2 == 1
    ensures i' >= i && Hits(p, 2 * m, t, r, i', c')
  {
    if c % 2 == 0 {
      i', c' := i, c / 2;
      assert c * m == c' * (2 * m) by {
        assert c == 2 * c';
      }
    } else {
      i', c' := i + m, (c + p) / 2;
      assert i' * p == i * p + m * p;
      assert (c + p) * m == c * m + m * p;
      assert (c + p) * m == c' * (2 * m) by {
        assert c + p == 2 * c';
      }
    }
  }

  lemma {:induction false} ReachOdd(p: nat, n: nat, t: nat, r: nat) returns (i: nat, c: int)
    requires r < Pow2(n) && p % 2 == 1
    ensures i >= 1 && Hits(p, Pow2(n), t, r, i, c)
    decreases n
  {
    if n == 0 {
      i, c := 1, t + p - r;
    } else {
      var h := Pow2(n - 1);
      if r < h {
        i, c := ReachOdd(p, n - 1, t, r);
      } else {
        i, c := ReachOdd(p, n - 1, t, r - h);
        HitsBeyond(p, h, t, r, i, c);
        c := c - 1;
      }
      i, c := HitsTwice(p, h, t, r, i, c);
    }
  }

  /** The multiples of p reach, modulo 2^n, everything that is congruent modulo gcd(p, 2^n). */
  lemma {:induction false} Reach(p: nat, n: nat, t: nat, r: nat) returns (i: nat, c: int)
    requires r < Pow2(n) && r % Twos(p, n) == t % Twos(p, n)
    ensures i >= 1 && Hits(p, Pow2(n), t, r, i, c)
    decreases n
  {
    if n == 0 || p % 2 == 1 {
      i, c := ReachAny(p, n, t, r);
    } else {
      HalfMod(r, Twos(p / 2, n - 1));
      HalfMod(t, Twos(p / 2, n - 1));
      i, c := Reach(p / 2, n - 1, t / 2, r / 2);
      HitsDouble(p / 2, Pow2(n - 1), t / 2, r / 2, i, c, t % 2);
    }
  }

  lemma ReachAny(p: nat, n: nat, t: nat, r: nat) returns (i: nat, c: int)
    requires r < Pow2(n) && (n == 0 || p % 2 == 1)
    ensures i >= 1 && Hits(p, Pow2(n), t, r, i, c)
  {
    if n == 0 {
      i, c := 1, t + p - r;
    } else {
      i, c := ReachOdd(p, n, t, r);
    }
  }

  /** gcd(p, 2^n) divides both. */
  lemma {:induction false} TwosDivide(p: nat, n: nat)
    ensures p % Twos(p, n) == 0 && Pow2(n) % Twos(p, n) == 0
    decreases n
  {
    if n > 0 && p % 2 == 0 {
      TwosDivide(p / 2, n - 1);
      HalfMod(p, Twos(p / 2, n - 1));
      HalfMod(Pow2(n), Twos(p / 2, n - 1));
    }
  }

  lemma CommonDivisor(p: nat, m: nat, d: nat, i: nat, c: int, e: nat)
    requires e >= 1 && p % e == 0 && m % e == 0 && Hits(p, m, 0, d, i, c)
    ensures d % e == 0
  {
    var a, b := p / e, m / e;
    assert i * p == (i * a) * e by {
      assert p == a * e;
    }
    assert c * m == (c * b) * e by {
      assert m == b * e;
    }
    assert d == 0 + (i * a - c * b) * e;
    ModIs(d, e, i * a - c * b, 0);
  }

  /** And it is the greatest such number: every common divisor divides it. */
  lemma TwosGreatest(p: nat, n: nat, e: nat)
    requires e >= 1 && p % e == 0 && Pow2(n) % e == 0
    ensures Twos(p, n) % e == 0
  {
    var d := Twos(p, n);
    TwosAtMost(p, n);
    if d < Pow2(n) {
      var i, c := Reach(p, n, 0, d);
      CommonDivisor(p, Pow2(n), d, i, c, e);
    }
  }

  lemma {:induction false} TwosAtMost(p: nat, n: nat)
    ensures Twos(p, n) <= Pow2(n)
    decreases n
  {
    if n > 0 && p % 2 == 0 {
      TwosAtMost(p / 2, n - 1);
    }
  }

  // ----- the test

  /** The remainders modulo 16384 that the timer's expiries can have miss [256, 256 g). */
  predicate MissesGap(g: nat, t: nat, p: nat) {
    var d := Twos(p, 14);
    g <= 1 || ((d >= 0x100 * g || d == 0x4000) && !InGap(g, t % d))
  }

  lemma SumOfMultiples(d: nat, u: int, v: int, w: int)
    ensures u * d + v * d - w * d == (u + v - w) * d
  {
  }

  lemma Quotient(x: nat, d: nat)
    requires d >= 1
    ensures x == (x / d) * d + x % d
  {
  }

  lemma SamePart(x: nat, t: nat, p: nat, i: nat, d: nat)
    requires d >= 1 && p % d == 0 && 0x4000 % d == 0 && x == t + i * p
    ensures x % 0x4000 % d == t % d
  {
    var y, a, b, c := x % 0x4000, p / d, 0x4000 / d, x / 0x4000;
    Quotient(p, d);
    Quotient(0x4000, d);
    Quotient(t, d);
    assert i * p == (i * a) * d && c * 0x4000 == (c * b) * d;
    SumOfMultiples(d, t / d, i * a, c * b);
    ModIs(y, d, t / d + i * a - c * b, t % d);
  }

  lemma Pow2Fourteen()
    ensures Pow2(14) == 0x4000
  {
    assert Pow2(7) == 128;
    assert Pow2(14) == 128 * Pow2(7);
  }

  lemma NthNext(t: nat, p: nat, i: nat)
    ensures Nth(t, p, i) + p == t + (i + 1) * p
  {
    NthIs(t, p, i);
    assert (i + 1) * p == i * p + p;
  }

  /** If the remainders miss the gap, the timer is on time each time. */
  lemma MissesOnTime(g: nat, t: nat, p: nat, i: nat)
    requires g >= 1 && 0x4000 * g <= p < 0x10_0000 * g && MissesGap(g, t, p)
    ensures OnTimeNth(g, t, p, i)
  {
    var d, x := Twos(p, 14), Nth(t, p, i) + p;
    OnTimeNear(g, Nth(t, p, i), p);
    NthNext(t, p, i);
    TwosDivide(p, 14);
    Pow2Fourteen();
    SamePart(x, t, p, i + 1, d);
    NotInGap(g, x % 0x4000, t, d);
  }

  lemma SmallMod(y: nat, d: nat)
    requires y < d
    ensures y % d == y
  {
  }

  lemma NotInGap(g: nat, y: nat, t: nat, d: nat)
    requires g >= 1 && d >= 1 && y < 0x4000 && y % d == t % d
    requires g <= 1 || ((d >= 0x100 * g || d == 0x4000) && !InGap(g, t % d))
    ensures !InGap(g, y)
  {
    if y < d {
      SmallMod(y, d);
    }
  }

  /** A shift by 256 that keeps the remainder. */
  lemma Shifted(t: nat, d: nat) returns (r: nat)
    requires d >= 1
    ensures 256 <= r < 256 + d && r % d == t % d
  {
    var s := t + 256 * d - 256;
    r := 256 + s % d;
    Quotient(s, d);
    Quotient(t, d);
    SumOfMultiples(d, t / d, 256, s / d);
    ModIs(r, d, t / d + 256 - s / d, t % d);
  }

  /** A remainder in the gap that the expiries can have. */
  lemma SomeInGap(g: nat, t: nat, d: nat) returns (r: nat)
    requires g > 1 && 1 <= d <= 0x4000 && (d >= 0x100 ==> d % 0x100 == 0) && (d > 0x2000 ==> d == 0x4000)
    requires !((d >= 0x100 * g || d == 0x4000) && !InGap(g, t % d))
    ensures r < 0x4000 && InGap(g, r) && r % d == t % d
  {
    if d >= 0x100 * g || d == 0x4000 {
      r := t % d;
      SmallMod(r, d);
    } else {
      r := Shifted(t, d);
    }
  }

  lemma {:induction false} TwosIsPower(p: nat, n: nat) returns (j: nat)
    ensures j <= n && Twos(p, n) == Pow2(j)
    decreases n
  {
    j := 0;
    if n > 0 && p % 2 == 0 {
      j := TwosIsPower(p / 2, n - 1);
      j := j + 1;
    }
  }

  lemma PowersToFourteen(j: nat)
    requires j <= 14
    ensures Pow2(j) <= 0x4000 && (Pow2(j) >= 0x100 ==> Pow2(j) % 0x100 == 0) && (Pow2(j) > 0x2000 ==> Pow2(j) == 0x4000)
  {
    assert Pow2(1) == 2 && Pow2(2) == 4 && Pow2(3) == 8 && Pow2(4) == 16 && Pow2(5) == 32;
    assert Pow2(6) == 64 && Pow2(7) == 128 && Pow2(8) == 256 && Pow2(9) == 512 && Pow2(10) == 1024;
    assert Pow2(11) == 2048 && Pow2(12) == 4096 && Pow2(13) == 8192 && Pow2(14) == 16384;
  }

  /** If some remainder is in the gap, the timer is early once. */
  lemma HitsGap(g: nat, t: nat, p: nat) returns (i: nat)
    requires g >= 1 && 0x4000 * g <= p < 0x10_0000 * g && !MissesGap(g, t, p)
    ensures !OnTimeNth(g, t, p, i)
  {
    var d := Twos(p, 14);
    var j := TwosIsPower(p, 14);
    PowersToFourteen(j);
    var r := SomeInGap(g, t, d);
    Pow2Fourteen();
    var m, c := Reach(p, 14, t, r);
    i := m - 1;
    NthNext(t, p, i);
    ModIs(t + m * p, 0x4000, c, r);
    OnTimeNear(g, Nth(t, p, i), p);
  }

  /** A periodic timer of wheel 3 never drifts if and only if, with d the greatest common divisor of its
      period and 16384, the remainder of its first firing modulo d misses [256, 256 g) and d is not
      below 256 g (or is 16384). */
  lemma DriftTest<T>(g: nat, f: Firing<T>, p: nat)
    requires g >= 1 && 0x4000 * g <= p < 0x10_0000 * g && f.timer.period == p
    ensures (forall until: nat :: InStep(g, f, p, until)) <==> MissesGap(g, f.at, p)
  {
    NeverDriftsIff(g, f, p);
    if MissesGap(g, f.at, p) {
      forall i: nat ensures OnTimeNth(g, f.at, p, i) {
        MissesOnTime(g, f.at, p, i);
      }
    } else {
      var i := HitsGap(g, f.at, p);
    }
  }
}
