/** The doubly linked list of list.c, on the heap: two sentinels in the list structure, and the
    elements are links inside the tasks.  Every operation is proved against the sequence of the
    elements between the sentinels. */
module IntrusiveList {
  import opened Basics

  class Elem {
    var prev: Elem?
    var next: Elem?

    constructor ()
      ensures prev == null && next == null
    {
      prev, next := null, null;
    }
  }

  ghost predicate Distinct(s: seq<Elem>) {
    forall i, j :: 0 <= i < j < |s| ==> s[i] != s[j]
  }

  /** Each node's links lead to its neighbours in s, and to nothing at the two ends. */
  ghost predicate Chain(s: seq<Elem>)
    reads s
  {
    && Distinct(s)
    && (forall i {:trigger s[i].next} :: 0 <= i < |s| ==> s[i].next == if i + 1 < |s| then s[i + 1] else null)
    && (forall i {:trigger s[i].prev} :: 0 <= i < |s| ==> s[i].prev == if i > 0 then s[i - 1] else null)
  }

  ghost function Node(s: seq<Elem>, i: nat): Elem
    requires i < |s|
  {
    s[i]
  }

  /** list_insert_before, at position k of the chain. */
  method InsertBefore(before: Elem, elem: Elem, ghost s: seq<Elem>, ghost k: nat)
    requires Chain(s) && 0 < k < |s| && before == s[k] && elem !in s
    modifies Node(s, k - 1)`next, before`prev, elem
    ensures Chain(s[..k] + [elem] + s[k..])
  {
    before.prev.next := elem;
    elem.prev := before.prev;
    elem.next := before;
    before.prev := elem;
  }

  /** list_remove; the links of the removed element itself are left as they are. */
  method Unlink(pelem: Elem, ghost s: seq<Elem>, ghost k: nat)
    requires Chain(s) && 0 < k < |s| - 1 && pelem == s[k]
    modifies Node(s, k - 1)`next, Node(s, k + 1)`prev
    ensures Chain(s[..k] + s[k + 1..])
  {
    pelem.prev.next := pelem.next;
    pelem.next.prev := pelem.prev;
  }

  class List {
    const head: Elem
    const tail: Elem
    ghost var elems: seq<Elem>

    ghost function Nodes(): seq<Elem>
      reads this
    {
      [head] + elems + [tail]
    }

    ghost predicate Valid()
      reads this, Nodes()
    {
      Chain(Nodes())
    }

    /** list_init */
    constructor ()
      ensures Valid() && elems == [] && fresh(head) && fresh(tail)
    {
      head := new Elem();
      tail := new Elem();
      elems := [];
      new;
      head.next := tail;
      tail.prev := head;
    }

    /** list_push */
    method Push(elem: Elem)
      requires Valid() && elem !in Nodes()
      modifies `elems, Nodes(), elem
      ensures Valid() && elems == [elem] + old(elems)
    {
      ghost var s := Nodes();
      assert s[0] == head && head.next == s[1] && Node(s, 0) in s;
      InsertBefore(head.next, elem, s, 1);
      elems := [elem] + elems;
      assert Nodes() == s[..1] + [elem] + s[1..];
    }

    /** list_append */
    method Append(elem: Elem)
      requires Valid() && elem !in Nodes()
      modifies `elems, Nodes(), elem
      ensures Valid() && elems == old(elems) + [elem]
    {
      ghost var s := Nodes();
      assert s[|s| - 1] == tail && Node(s, |s| - 2) in s;
      InsertBefore(tail, elem, s, |s| - 1);
      elems := elems + [elem];
      assert Nodes() == s[..|s| - 1] + [elem] + s[|s| - 1..];
    }

    /** list_remove of the element at position k. */
    method Remove(elem: Elem, ghost k: nat)
      requires Valid() && k < |elems| && elems[k] == elem
      modifies `elems, Nodes()
      ensures Valid() && elems == old(elems)[..k] + old(elems)[k + 1..]
      ensures elem !in Nodes()
    {
      ghost var s := Nodes();
      Unlink(elem, s, k + 1);
      elems := elems[..k] + elems[k + 1..];
      assert Nodes() == s[..k + 1] + s[k + 2..];
    }

    /** list_pop */
    method Pop() returns (elem: Elem)
      requires Valid() && elems != []
      modifies `elems, Nodes()
      ensures Valid() && [elem] + elems == old(elems) && elem !in Nodes()
    {
      assert Nodes()[0] == head && Nodes()[1] == elems[0];
      elem := head.next;
      Remove(elem, 0);
    }

    /** list_empty */
    method IsEmpty() returns (empty: bool)
      requires Valid()
      ensures empty <==> elems == []
    {
      assert Nodes()[0] == head && Nodes()[|elems| + 1] == tail;
      empty := head.next == tail;
    }

    /** elem_find */
    method Find(obj: Elem) returns (found: bool)
      requires Valid()
      ensures found <==> obj in elems
    {
      ghost var s, i := Nodes(), 1;
      assert s[0] == head && s[|elems| + 1] == tail;
      var elem := head.next;
      while elem != tail
        invariant 1 <= i < |s| && elem == s[i]
        invariant obj !in s[1..i]
        decreases |s| - i
      {
        if elem == obj {
          return true;
        }
        assert s[1..i + 1] == s[1..i] + [s[i]];
        elem := elem.next;
        i := i + 1;
      }
      assert s[1..i] == elems;
      found := false;
    }

    /** list_traversal: the first element that satisfies func. */
    method Traverse(func: Elem -> bool) returns (hit: Option<Elem>)
      requires Valid()
      ensures hit.Some? ==> exists k :: 0 <= k < |elems| && elems[k] == hit.value && func(elems[k])
                                      && forall j :: 0 <= j < k ==> !func(elems[j])
      ensures hit.None? ==> forall e :: e in elems ==> !func(e)
    {
      ghost var s, i := Nodes(), 1;
      assert s[0] == head && s[|elems| + 1] == tail;
      var elem := head.next;
      while elem != tail
        invariant 1 <= i < |s| && elem == s[i]
        invariant forall j :: 0 <= j < i - 1 ==> !func(elems[j])
        decreases |s| - i
      {
        assert s[i] == elems[i - 1];
        if func(elem) {
          hit := Some(elem);
          return;
        }
        elem := elem.next;
        i := i + 1;
      }
      hit := None;
    }

    /** list_len */
    method Len() returns (length: nat)
      requires Valid()
      ensures length == |elems|
    {
      ghost var s := Nodes();
      assert s[0] == head && s[|elems| + 1] == tail;
      var elem := head.next;
      length := 0;
      while elem != tail
        invariant length <= |elems| && elem == s[length + 1]
        decreases |elems| - length
      {
        elem := elem.next;
        length := length + 1;
      }
    }
  }
}
