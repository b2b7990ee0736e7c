/** List operations that a tick interrupts between two of their writes.  The callbacks of the tick
    append to the same list, and run to their end; this says exactly when an element is lost. */
module ListRaces {
  import opened IntrusiveList

  /** Following the next links from s[0] gives s. */
  ghost predicate Forward(s: seq<Elem>)
    reads s
  {
    && s != [] && Distinct(s) && s[|s| - 1].next == null
    && forall i {:trigger s[i].next} :: 0 <= i < |s| - 1 ==> s[i].next == s[i + 1]
  }

  /** Appending continues s: its last element is the one before the tail. */
  ghost predicate Open(s: seq<Elem>, tail: Elem)
    reads s, tail
  {
    && s != [] && Distinct(s) && tail !in s && tail.next == null && tail.prev == s[|s| - 1]
    && forall i {:trigger s[i].next} :: 0 <= i < |s| - 1 ==> s[i].next == s[i + 1]
  }

  lemma DistinctAppend(s: seq<Elem>, x: Elem)
    requires Distinct(s) && x !in s
    ensures Distinct(s + [x])
  {
  }

  /** list_append, as the handler runs it; whatever followed the last element before. */
  method Append(tail: Elem, y: Elem, ghost s: seq<Elem>)
    requires Open(s, tail) && y !in s && y != tail
    modifies Node(s, |s| - 1)`next, tail`prev, y
    ensures Open(s + [y], tail) && y.next == tail
  {
    tail.prev.next := y;
    y.prev := tail.prev;
    y.next := tail;
    tail.prev := y;
    DistinctAppend(s, y);
  }

  /** Several of them. */
  method AppendAll(tail: Elem, ys: seq<Elem>, ghost s: seq<Elem>)
    requires Open(s, tail) && Distinct(s + ys) && tail !in ys
    modifies Node(s, |s| - 1)`next, ys, tail`prev
    ensures Open(s + ys, tail)
    ensures ys != [] ==> Forward(s + ys + [tail])
    ensures ys == [] ==> s[|s| - 1].next == old(s[|s| - 1].next)
  {
    var i := 0;
    assert s + ys[..0] == s;
    while i < |ys|
      invariant i <= |ys| && Open(s + ys[..i], tail)
      invariant i > 0 ==> ys[i - 1].next == tail
      invariant i == 0 ==> s[|s| - 1].next == old(s[|s| - 1].next)
    {
      ghost var t := s + ys[..i];
      assert (s + ys)[|t|] == ys[i];
      assert ys[i] !in t by {
        assert t == (s + ys)[..|t|];
      }
      Append(tail, ys[i], t);
      i := i + 1;
      assert s + ys[..i] == t + [ys[i - 1]];
    }
    assert ys[..i] == ys;
    ghost var t := s + ys;
    if ys != [] {
      DistinctAppend(t, tail);
      assert t[|t| - 1] == ys[|ys| - 1];
    }
  }

  // ----- an append that is interrupted

  /** What the list is when the append of x to s has been interrupted after `cut` of its four writes,
      by appends of ys. */
  ghost function Interrupted(s: seq<Elem>, x: Elem, ys: seq<Elem>, cut: nat): seq<Elem> {
    if cut == 0 then s + ys + [x] else if cut >= 4 then s + [x] + ys else if ys == [] then s + [x] else s + ys
  }

  lemma DistinctWith(s: seq<Elem>, x: Elem, ys: seq<Elem>)
    requires Distinct(s + ys) && x !in s && x !in ys
    ensures Distinct(s + [x] + ys) && Distinct(s + ys + [x])
  {
    var t, all := s + [x] + ys, s + ys;
    forall i, j | 0 <= i < j < |t| ensures t[i] != t[j] {
      if i != |s| && j != |s| {
        assert t[i] == all[if i < |s| then i else i - 1] && t[j] == all[if j < |s| then j else j - 1];
      } else {
        assert t[i] == x ==> t[j] in ys;
      }
    }
    assert x !in all;
  }

  /** The writes of list_append, with the tick after the first, the second or the third. */
  method AppendInside(tail: Elem, x: Elem, ys: seq<Elem>, cut: nat, ghost s: seq<Elem>)
    requires Open(s, tail) && 0 < cut < 4 && ys != []
    requires Distinct(s + ys) && tail !in ys && x !in s && x !in ys && x != tail
    modifies Node(s, |s| - 1)`next, ys, tail`prev, x
    ensures Forward(s + ys + [tail]) && tail.prev == x
  {
    tail.prev.next := x;
    if cut == 1 {
      AppendAll(tail, ys, s);
    }
    x.prev := tail.prev;
    if cut == 2 {
      AppendAll(tail, ys, s);
    }
    x.next := tail;
    if cut == 3 {
      AppendAll(tail, ys, s);
    }
    ghost var f := s + ys + [tail];
    assert Forward(f) && x !in f;
    tail.prev := x;
  }

  /** The append of x comes to be in the list exactly if the tick comes before its first write or after
      its last, or appends nothing.  Otherwise x is lost, and the list stays open at x. */
  method InterruptedAppend(tail: Elem, x: Elem, ys: seq<Elem>, cut: nat, ghost s: seq<Elem>)
    requires Open(s, tail) && s[|s| - 1].next == tail && cut <= 4
    requires Distinct(s + ys) && tail !in ys && x !in s && x !in ys && x != tail
    modifies s, ys, tail, x
    ensures Forward(Interrupted(s, x, ys, cut) + [tail])
    ensures x in Interrupted(s, x, ys, cut) <==> cut == 0 || cut == 4 || ys == []
    ensures tail.prev == if cut == 4 && ys != [] then ys[|ys| - 1] else x
  {
    DistinctWith(s, x, ys);
    if cut == 0 {
      AppendAll(tail, ys, s);
      Append(tail, x, s + ys);
    } else if cut == 4 {
      Append(tail, x, s);
      AppendAll(tail, ys, s + [x]);
    } else if ys == [] {
      Append(tail, x, s);
    } else {
      AppendInside(tail, x, ys, cut, s);
    }
  }

  /** Whatever is appended to a list that is open at an element out of reach is lost as well. */
  method LostAppends(tail: Elem, x: Elem, zs: seq<Elem>, ghost s: seq<Elem>)
    requires Forward(s + [tail]) && tail.prev == x && x !in s && x != tail
    requires Distinct([x] + zs) && tail !in zs && forall z :: z in zs ==> z !in s
    modifies x, zs, tail
    ensures Forward(s + [tail]) && tail.prev == ([x] + zs)[|zs|]
  {
    ghost var f := s + [tail];
    assert forall i :: 0 <= i < |s| ==> f[i] == s[i] && s[i] in s;
    AppendAll(tail, zs, [x]);
    assert forall i :: 0 <= i < |s| ==> f[i].next == old(f[i].next);
  }

  // ----- a pop that is interrupted

  lemma DistinctRest(s: seq<Elem>, i: nat, ys: seq<Elem>)
    requires Distinct(s + ys) && i <= |s|
    ensures Distinct(s[i..] + ys) && Distinct(s[..i] + ys) && forall x :: x in s ==> x !in ys
  {
    var all, t, h := s + ys, s[i..] + ys, s[..i] + ys;
    assert forall j :: 0 <= j < |t| ==> t[j] == all[i + j];
    assert forall j :: 0 <= j < |h| ==> h[j] == all[if j < i then j else j - i + |s|];
    forall j, k | 0 <= j < |s| && 0 <= k < |ys| ensures s[j] != ys[k] {
      assert all[j] != all[|s| + k];
    }
  }

  /** What is left when the pop of es[0] has been interrupted after `cut` of its two writes. */
  ghost function Popped(es: seq<Elem>, ys: seq<Elem>, cut: nat): seq<Elem>
    requires es != []
  {
    if cut == 1 && |es| == 1 then [] else es[1..] + ys
  }

  /** A list with its two sentinels. */
  ghost predicate Whole(head: Elem, es: seq<Elem>, tail: Elem)
    reads head, es, tail
  {
    Open([head] + es, tail) && Forward([head] + es + [tail])
  }

  lemma OpenRest(s: seq<Elem>, tail: Elem, i: nat)
    requires Open(s, tail) && i < |s|
    ensures Open(s[i..], tail)
  {
    var t := s[i..];
    assert forall j :: 0 <= j < |t| ==> t[j] == s[i + j];
  }

  /** The first element is skipped. */
  lemma Skipped(head: Elem, es: seq<Elem>, tail: Elem)
    requires es != [] && Distinct([head] + es + [tail]) && Forward(es + [tail])
    requires head.next == (es + [tail])[1]
    ensures Forward([head] + es[1..] + [tail])
  {
    var all, from, to := [head] + es + [tail], es + [tail], [head] + es[1..] + [tail];
    assert forall i :: 0 <= i < |from| ==> from[i] == all[i + 1];
    assert forall i :: 1 <= i < |to| ==> to[i] == from[i];
  }

  lemma ForwardRest(s: seq<Elem>)
    requires Forward(s) && |s| > 1
    ensures Forward(s[1..]) && s[0].next == s[1]
  {
    var t := s[1..];
    assert forall i :: 0 <= i < |t| ==> t[i] == s[i + 1];
  }

  /** list_pop, not interrupted. */
  method Pop(head: Elem, tail: Elem, ghost es: seq<Elem>)
    requires Whole(head, es, tail) && es != [] && es[0].prev == head
    modifies head`next, Node(es + [tail], 1)`prev
    ensures Forward([head] + es[1..] + [tail])
    ensures tail.prev == ([head] + es[1..])[|es| - 1]
  {
    ghost var all, from := [head] + es + [tail], es + [tail];
    ForwardRest(all);
    assert all[1..] == from;
    ForwardRest(from);
    var e := head.next;
    e.prev.next := e.next;
    e.next.prev := e.prev;
    Skipped(head, es, tail);
  }

  /** Between its two writes, appends to a list of one element hang on the popped one. */
  method PopInside(head: Elem, tail: Elem, ys: seq<Elem>, ghost es: seq<Elem>)
    requires Whole(head, es, tail) && es != [] && es[0].prev == head
    requires ys != [] && Distinct([head] + es + ys) && tail !in ys
    modifies head`next, Node(es + [tail], 1)`prev, Node(es, |es| - 1)`next, ys, tail`prev
    ensures Forward([head] + Popped(es, ys, 1) + [tail])
    ensures tail.prev == ys[|ys| - 1]
  {
    ghost var all, from, both := [head] + es + [tail], es + [tail], [head] + es;
    ForwardRest(all);
    assert all[1..] == from && both[1..] == es;
    ForwardRest(from);
    OpenRest(both, tail, 1);
    DistinctRest(both, 1, ys);
    assert head in both && es[0] in both;
    var e := head.next;
    e.prev.next := e.next;
    AppendAll(tail, ys, es);
    assert (es + ys + [tail])[0].next == (es + ys + [tail])[1];
    e.next.prev := e.prev;
    if |es| > 1 {
      DistinctAppend(both + ys, tail);
      assert [head] + (es + ys) + [tail] == both + ys + [tail];
      assert (es + ys)[1..] == es[1..] + ys;
      Skipped(head, es + ys, tail);
    }
  }

  lemma DropSecond(head: Elem, es: seq<Elem>, ys: seq<Elem>)
    requires es != [] && Distinct([head] + es + ys)
    ensures Distinct([head] + es[1..] + ys)
  {
    var all, t := [head] + es + ys, [head] + es[1..] + ys;
    assert forall i :: 0 <= i < |t| ==> t[i] == all[if i == 0 then 0 else i + 1];
  }

  lemma ForwardOpen(s: seq<Elem>, tail: Elem)
    requires s != [] && Forward(s + [tail]) && tail.prev == s[|s| - 1]
    ensures Open(s, tail)
  {
    var f := s + [tail];
    assert forall i :: 0 <= i < |s| ==> f[i] == s[i];
    assert f[|s|] == tail;
  }

  method PopEarly(head: Elem, tail: Elem, ys: seq<Elem>, ghost es: seq<Elem>)
    requires Whole(head, es, tail) && es != [] && es[0].prev == head
    requires Distinct([head] + es + ys) && tail !in ys
    modifies head, es, ys, tail
    ensures Forward([head] + es[1..] + ys + [tail])
  {
    ghost var both, more := [head] + es, es + ys;
    DistinctRest(both, 1, ys);
    assert both[1..] == es && es[0] in both && both + ys == [head] + more && both[|both| - 1] == es[|es| - 1];
    assert [head] + es + [tail] == both + [tail];
    AppendAll(tail, ys, both);
    assert ys == [] ==> more == es;
    Pop(head, tail, more);
    assert more[1..] == es[1..] + ys && [head] + more[1..] == [head] + es[1..] + ys;
  }

  method PopLate(head: Elem, tail: Elem, ys: seq<Elem>, ghost es: seq<Elem>)
    requires Whole(head, es, tail) && es != [] && es[0].prev == head
    requires Distinct([head] + es + ys) && tail !in ys
    modifies head, es, ys, tail
    ensures Forward([head] + es[1..] + ys + [tail])
  {
    ghost var rest := [head] + es[1..];
    Pop(head, tail, es);
    ForwardOpen(rest, tail);
    DropSecond(head, es, ys);
    assert ys == [] ==> rest + ys == rest;
    AppendAll(tail, ys, rest);
    assert ys == [] ==> forall i :: 0 <= i < |rest| ==> (rest + [tail])[i] == rest[i];
  }

  lemma PoppedIff(es: seq<Elem>, ys: seq<Elem>, cut: nat)
    requires es != []
    ensures (forall y | y in ys :: y in Popped(es, ys, cut)) <==> cut != 1 || |es| > 1 || ys == []
  {
    if ys != [] {
      assert ys[0] in ys;
    }
  }

  /** Appends by a tick in the middle of list_pop are all in the list, unless they come between its two
      writes and the popped element is the only one; then all of them are lost. */
  method InterruptedPop(head: Elem, tail: Elem, ys: seq<Elem>, cut: nat, ghost es: seq<Elem>)
    requires Whole(head, es, tail) && es != [] && es[0].prev == head && cut <= 2
    requires Distinct([head] + es + ys) && tail !in ys
    modifies head, es, ys, tail
    ensures Forward([head] + Popped(es, ys, cut) + [tail])
    ensures (forall y | y in ys :: y in Popped(es, ys, cut)) <==> cut != 1 || |es| > 1 || ys == []
  {
    PoppedIff(es, ys, cut);
    assert [head] + (es[1..] + ys) + [tail] == [head] + es[1..] + ys + [tail];
    if cut == 0 {
      PopEarly(head, tail, ys, es);
    } else if cut == 1 && ys != [] {
      PopInside(head, tail, ys, es);
    } else {
      PopLate(head, tail, ys, es);
      assert es[1..] == [] ==> [head] + es[1..] + [tail] == [head] + [] + [tail];
    }
  }
}
