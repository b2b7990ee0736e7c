/** The bitmap of bitmap.c: a byte array read as a sequence of bits, first-fit search for a run
    of clear bits, and setting one bit. */
module Bitmap {
  /** BITMAP_MASK << i */
  function Mask(i: nat): bv8
    requires i < 8
  {
    match i
    case 0 => 0x01
    case 1 => 0x02
    case 2 => 0x04
    case 3 => 0x08
    case 4 => 0x10
    case 5 => 0x20
    case 6 => 0x40
    case 7 => 0x80
  }

  predicate Bit(b: bv8, i: nat)
    requires i < 8
  {
    b & Mask(i) != 0
  }

  lemma FullByte(b: bv8)
    ensures b == 0xff <==> forall i :: 0 <= i < 8 ==> Bit(b, i)
  {
    if forall i :: 0 <= i < 8 ==> Bit(b, i) {
      assert Bit(b, 0) && Bit(b, 1) && Bit(b, 2) && Bit(b, 3);
      assert Bit(b, 4) && Bit(b, 5) && Bit(b, 6) && Bit(b, 7);
    }
  }

  /** Writing bit k of a byte changes that bit and no other. */
  lemma WriteBit(b: bv8, k: nat, i: nat)
    requires k < 8 && i < 8
    ensures Bit(b | Mask(k), i) <==> i == k || Bit(b, i)
    ensures Bit(b & !Mask(k), i) <==> i != k && Bit(b, i)
  {
  }

  /** The bits of the bytes, in the order of their numbers. */
  function BitsOf(bytes: seq<bv8>): (s: seq<bool>)
    ensures |s| == 8 * |bytes|
  {
    seq(8 * |bytes|, i requires 0 <= i < 8 * |bytes| => Bit(bytes[i / 8], i % 8))
  }

  lemma BitAt(bytes: seq<bv8>, k: nat, b: nat)
    requires k < |bytes| && b < 8
    ensures BitsOf(bytes)[8 * k + b] == Bit(bytes[k], b)
  {
    assert (8 * k + b) / 8 == k && (8 * k + b) % 8 == b;
  }

  lemma OneByte(bytes: seq<bv8>, i: nat, b: bv8, value: bool)
    requires i < 8 * |bytes|
    requires forall m :: 0 <= m < 8 ==> (Bit(b, m) <==> if m == i % 8 then value else Bit(bytes[i / 8], m))
    ensures BitsOf(bytes[i / 8 := b]) == BitsOf(bytes)[i := value]
  {
    var after := BitsOf(bytes[i / 8 := b]);
    forall j | 0 <= j < 8 * |bytes| ensures after[j] == BitsOf(bytes)[i := value][j] {
      assert j / 8 == i / 8 && j % 8 == i % 8 <==> j == i;
    }
  }

  /** Writing bit i % 8 of byte i / 8 changes bit i and no other. */
  lemma WriteBits(bytes: seq<bv8>, i: nat, value: bool)
    requires i < 8 * |bytes|
    ensures var b := if value then bytes[i / 8] | Mask(i % 8) else bytes[i / 8] & !Mask(i % 8);
            BitsOf(bytes[i / 8 := b]) == BitsOf(bytes)[i := value]
  {
    var b := if value then bytes[i / 8] | Mask(i % 8) else bytes[i / 8] & !Mask(i % 8);
    forall m | 0 <= m < 8 ensures Bit(b, m) <==> if m == i % 8 then value else Bit(bytes[i / 8], m) {
      WriteBit(bytes[i / 8], i % 8, m);
    }
    OneByte(bytes, i, b, value);
  }

  /** A full byte stands for eight set bits. */
  lemma FullByteBits(bytes: seq<bv8>, k: nat, j: nat)
    requires k < |bytes| && bytes[k] == 0xff && 8 * k <= j < 8 * k + 8
    ensures BitsOf(bytes)[j]
  {
    FullByte(bytes[k]);
    BitAt(bytes, k, j - 8 * k);
  }

  /** Bits s .. s + cnt - 1 exist and are clear. */
  predicate ClearRun(v: seq<bool>, s: int, cnt: nat) {
    0 <= s && s + cnt <= |v| && forall j :: s <= j < s + cnt ==> !v[j]
  }

  predicate FirstRun(v: seq<bool>, s: int, cnt: nat) {
    ClearRun(v, s, cnt) && forall r :: 0 <= r < s ==> !ClearRun(v, r, cnt)
  }

  /** The `count` bits before `next` are clear, and no run of cnt starts before those. */
  predicate Counted(v: seq<bool>, next: nat, count: nat, cnt: nat) {
    && count <= next <= |v|
    && (forall j :: next - count <= j < next ==> !v[j])
    && (forall s :: 0 <= s < next - count ==> !ClearRun(v, s, cnt))
  }

  lemma CountFirst(v: seq<bool>, first: nat, cnt: nat)
    requires cnt >= 1 && first < |v| && !v[first] && forall j :: 0 <= j < first ==> v[j]
    ensures Counted(v, first + 1, 1, cnt)
  {
    forall s | 0 <= s < first ensures !ClearRun(v, s, cnt) {
      assert v[s];
    }
  }

  lemma CountOne(v: seq<bool>, next: nat, count: nat, cnt: nat)
    requires Counted(v, next, count, cnt) && next < |v| && count < cnt
    ensures Counted(v, next + 1, if v[next] then 0 else count + 1, cnt)
  {
  }

  /** The search is over: r is the first run, also of the map if that has one, or -1 if there is none. */
  ghost predicate Found(bits: seq<bool>, next: bool, cnt: nat, r: int) {
    var v := bits + [next];
    && (r == -1 || FirstRun(v, r, cnt))
    && (r == -1 ==> forall s :: !ClearRun(v, s, cnt))
    && ((exists s :: ClearRun(bits, s, cnt)) ==> FirstRun(bits, r, cnt))
  }

  lemma FoundRun(bits: seq<bool>, next: bool, i: nat, cnt: nat)
    requires cnt >= 1 && Counted(bits + [next], i, cnt, cnt)
    ensures Found(bits, next, cnt, i - cnt)
    ensures i == |bits| + 1 ==> forall s :: !ClearRun(bits, s, cnt)
  {
    if s :| ClearRun(bits, s, cnt) {
      RunInside(bits, next, cnt, s, i - cnt);
    }
  }

  lemma FoundNone(bits: seq<bool>, next: bool, count: nat, cnt: nat)
    requires count < cnt && Counted(bits + [next], |bits| + 1, count, cnt)
    ensures Found(bits, next, cnt, -1) && forall s :: !ClearRun(bits, s, cnt)
  {
    var v := bits + [next];
    forall s ensures !ClearRun(v, s, cnt) && !ClearRun(bits, s, cnt) {
      assert ClearRun(bits, s, cnt) ==> ClearRun(v, s, cnt);
    }
  }

  /** Seeing one bit more than the map has makes no difference while the map has a run. */
  lemma RunInside(bits: seq<bool>, next: bool, cnt: nat, s: int, r: int)
    requires ClearRun(bits, s, cnt) && FirstRun(bits + [next], r, cnt)
    ensures FirstRun(bits, r, cnt)
  {
    assert ClearRun(bits + [next], s, cnt);
    assert forall j :: r <= j < r + cnt ==> (bits + [next])[j] == bits[j];
    forall q | 0 <= q < r ensures !ClearRun(bits, q, cnt) {
      assert ClearRun(bits, q, cnt) ==> ClearRun(bits + [next], q, cnt);
    }
  }

  /** When the map has none, a run is reported if and only if it would take one bit more. */
  lemma RunOutside(bits: seq<bool>, next: bool, cnt: nat, r: int)
    requires cnt >= 1 && forall s :: !ClearRun(bits, s, cnt)
    ensures FirstRun(bits + [next], r, cnt) <==>
            r == |bits| + 1 - cnt && !next && ClearRun(bits, r, cnt - 1)
  {
    var v := bits + [next];
    forall q ensures ClearRun(v, q, cnt) <==> q == |bits| + 1 - cnt && !next && ClearRun(bits, q, cnt - 1) {
      if ClearRun(v, q, cnt) && q + cnt <= |bits| {
        assert forall j :: q <= j < q + cnt ==> bits[j] == v[j];
        assert ClearRun(bits, q, cnt);
      }
      if ClearRun(v, q, cnt) && q + cnt == |v| {
        assert !v[|bits|];
        assert forall j :: q <= j < q + cnt - 1 ==> bits[j] == v[j];
      }
    }
  }

  class Bitmap {
    const bytes: array<bv8>

    ghost function Bits(): seq<bool>
      reads bytes
    {
      BitsOf(bytes[..])
    }

    /** bitmap_init */
    constructor (len: nat)
      ensures fresh(bytes) && bytes.Length == len
      ensures Bits() == seq(8 * len, i => false)
    {
      bytes := new bv8[len](i => 0);
    }

    /** bitmap_scan_test; the bit just past the end is bit 0 of whatever byte lies there. */
    method Test(i: nat, beyond: bv8) returns (taken: bool)
      requires i <= 8 * bytes.Length
      ensures taken == (Bits() + [Bit(beyond, 0)])[i]
    {
      var b := if i / 8 < bytes.Length then bytes[i / 8] else beyond;
      taken := b & Mask(i % 8) != 0;
    }

    /** bitmap_set */
    method Set(i: nat, value: bool)
      requires i < 8 * bytes.Length
      modifies bytes
      ensures Bits() == old(Bits())[i := value]
    {
      WriteBits(bytes[..], i, value);
      var k := i / 8;
      if value {
        bytes[k] := bytes[k] | Mask(i % 8);
      } else {
        bytes[k] := bytes[k] & !Mask(i % 8);
      }
      assert bytes[..] == old(bytes[..])[k := bytes[k]];
    }

    /** The first clear bit, by bytes and then within the byte. */
    method FirstFree() returns (i: nat)
      requires exists j :: 0 <= j < |Bits()| && !Bits()[j]
      ensures i < |Bits()| && !Bits()[i] && forall j :: 0 <= j < i ==> Bits()[j]
    {
      ghost var bits, free :| bits == Bits() && 0 <= free < |bits| && !bits[free];
      var k := 0;
      while bytes[k] == 0xff
        invariant k <= free / 8
        invariant forall j :: 0 <= j < 8 * k ==> bits[j]
        decreases bytes.Length - k
      {
        forall j | 8 * k <= j < 8 * k + 8 ensures bits[j] {
          FullByteBits(bytes[..], k, j);
        }
        k := k + 1;
      }
      FullByte(bytes[k]);
      var b := 0;
      while bytes[k] & Mask(b) != 0
        invariant b < 8 && exists j :: b <= j < 8 && !Bit(bytes[k], j)
        invariant forall j :: 0 <= j < 8 * k + b ==> bits[j]
        decreases 8 - b
      {
        assert Bit(bytes[k], b);
        BitAt(bytes[..], k, b);
        b := b + 1;
      }
      BitAt(bytes[..], k, b);
      i := 8 * k + b;
    }

    /** bitmap_scan for cnt bits; as it asserts, it must not be called on a full map.  It returns
        the first run of the map if there is one, and then `past` is false: it has not read past
        the end.  Otherwise it goes on to the bit after the last. */
    method Scan(cnt: nat, beyond: bv8) returns (r: int, ghost past: bool)
      requires cnt >= 1 && exists j :: 0 <= j < |Bits()| && !Bits()[j]
      ensures Found(Bits(), Bit(beyond, 0), cnt, r)
      ensures past ==> forall s :: !ClearRun(Bits(), s, cnt)
    {
      ghost var bits, v := Bits(), Bits() + [Bit(beyond, 0)];
      var first := FirstFree();
      CountFirst(v, first, cnt);
      past := false;
      if cnt == 1 {
        FoundRun(bits, Bit(beyond, 0), first + 1, cnt);
        return first, past;
      }
      var left: nat, next: nat, count: nat := 8 * bytes.Length - first, first + 1, 1;
      r := -1;
      while left > 0
        invariant count < cnt && next + left == |v| && r == -1
        invariant Counted(v, next, count, cnt)
      {
        CountOne(v, next, count, cnt);
        left := left - 1;
        past := next == |bits|;
        var taken := Test(next, beyond);
        count := if taken then 0 else count + 1;
        if count == cnt {
          FoundRun(bits, Bit(beyond, 0), next + 1, cnt);
          r := next - cnt + 1;
          return;
        }
        next := next + 1;
      }
      FoundNone(bits, Bit(beyond, 0), count, cnt);
    }
  }
}
