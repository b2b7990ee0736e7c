/** The circular lists under the timing wheel, on the heap.  A list head and the link in a
    timer are the same structure; here one class stands for both, and a head leaves the
    timer fields unused (the offsetof casts of the program become the identity). */
module TimerRing {

  class Link<T> {
    var pPrev: Link<T>
    var pNext: Link<T>
    var uExpires: nat
    const uPeriod: nat
    const param: T
    ghost var home: int  // the slot this link was last put in

    constructor (param: T, period: nat)
      ensures this.pPrev == this && this.pNext == this && this.param == param && this.uPeriod == period
    {
      this.pPrev, this.pNext := this, this;
      this.param, this.uPeriod, this.uExpires, this.home := param, period, 0, -1;
    }
  }

  /** What stands at position i of the circle; the head stands on both sides of the list. */
  ghost function At<T>(h: Link<T>, s: seq<Link<T>>, i: int): Link<T> {
    if 0 <= i < |s| then s[i] else h
  }

  ghost function Nodes<T>(h: Link<T>, s: seq<Link<T>>): set<Link<T>> {
    {h} + set n | n in s
  }

  ghost predicate Distinct<T>(s: seq<Link<T>>) {
    forall i, j :: 0 <= i < j < |s| ==> s[i] != s[j]
  }

  /** From h forwards, and backwards, one meets exactly the links s and comes back to h. */
  ghost predicate Ring<T>(h: Link<T>, s: seq<Link<T>>)
    reads Nodes(h, s)
  {
    && h !in s && Distinct(s)
    && h.pNext == At(h, s, 0) && h.pPrev == At(h, s, |s| - 1)
    && (forall i {:trigger s[i].pNext} :: 0 <= i < |s| ==> s[i].pNext == At(h, s, i + 1))
    && (forall i {:trigger s[i].pPrev} :: 0 <= i < |s| ==> s[i].pPrev == At(h, s, i - 1))
  }

  /** list_timer_insert, between two neighbours. */
  method Insert<T>(pNew: Link<T>, pPrev: Link<T>, pNext: Link<T>)
    requires pNew != pPrev && pNew != pNext
    modifies pNew`pNext, pNew`pPrev, pPrev`pNext, pNext`pPrev
    ensures pNext.pPrev == pNew && pNew.pNext == pNext && pNew.pPrev == pPrev && pPrev.pNext == pNew
    ensures pNext != pPrev ==> pPrev.pPrev == old(pPrev.pPrev) && pNext.pNext == old(pNext.pNext)
  {
    pNext.pPrev := pNew;
    pNew.pNext := pNext;
    pNew.pPrev := pPrev;
    pPrev.pNext := pNew;
  }

  /** list_timer_insert_tail */
  method InsertTail<T>(pNew: Link<T>, pHead: Link<T>, ghost s: seq<Link<T>>)
    requires Ring(pHead, s) && pNew !in Nodes(pHead, s)
    modifies pNew`pNext, pNew`pPrev, pHead`pPrev, At(pHead, s, |s| - 1)`pNext
    ensures Ring(pHead, s + [pNew])
  {
    Insert(pNew, pHead.pPrev, pHead);
  }

  /** list_timer_replace_init: the whole list moves to the head pNew, and pOld is left empty.
      When pOld is empty already, its links alias, and the result is two empty lists. */
  method ReplaceInit<T>(pOld: Link<T>, pNew: Link<T>, ghost s: seq<Link<T>>)
    requires Ring(pOld, s) && pNew !in Nodes(pOld, s)
    modifies pNew`pNext, pNew`pPrev, Nodes(pOld, s)`pNext, Nodes(pOld, s)`pPrev
    ensures Ring(pNew, s) && Ring(pOld, [])
  {
    pNew.pNext := pOld.pNext;
    pNew.pNext.pPrev := pNew;
    pNew.pPrev := pOld.pPrev;
    pNew.pPrev.pNext := pNew;
    pOld.pNext := pOld;
    pOld.pPrev := pOld;
  }

  /** t is s without its i-th link. */
  ghost predicate Removed<T>(s: seq<Link<T>>, i: nat, t: seq<Link<T>>)
    requires i < |s|
  {
    |t| == |s| - 1 && forall j :: 0 <= j < |t| ==> t[j] == s[if j < i then j else j + 1]
  }

  lemma RemovedDistinct<T>(s: seq<Link<T>>, i: nat, t: seq<Link<T>>)
    requires i < |s| && Distinct(s) && Removed(s, i, t)
    ensures Distinct(t) && s[i] !in t
    ensures forall n :: n in t <==> n in s && n != s[i]
  {
    forall n | n in s && n != s[i] ensures n in t {
      var j :| 0 <= j < |s| && s[j] == n;
      assert n == if j < i then t[j] else t[j - 1];
    }
  }

  /** The unlinking in delete_timer. */
  method Unlink<T>(pListTmr: Link<T>, ghost h: Link<T>, ghost s: seq<Link<T>>, ghost i: nat, ghost t: seq<Link<T>>)
    requires Ring(h, s) && i < |s| && s[i] == pListTmr && Removed(s, i, t)
    modifies Nodes(h, s)`pNext, Nodes(h, s)`pPrev
    ensures Ring(h, t)
  {
    RemovedDistinct(s, i, t);
    pListTmr.pPrev.pNext := pListTmr.pNext;
    pListTmr.pNext.pPrev := pListTmr.pPrev;
    forall j | 0 <= j < |t| ensures t[j].pNext == At(h, t, j + 1) && t[j].pPrev == At(h, t, j - 1) {
      var o := if j < i then j else j + 1;
      assert t[j] == s[o] && old(s[o].pNext) == At(h, s, o + 1) && old(s[o].pPrev) == At(h, s, o - 1);
    }
  }
}
