/** clean_dead_task, the callback of the clean-up timer: which dead tasks of the pool it frees. */
module DeadTasks {

  /** The number of tasks that one call is to free at most. */
  function Limit(allNums: nat): nat {
    if allNums / 8 > 16 then 16 else allNums / 8
  }

  function Min(a: nat, b: nat): nat {
    if a < b then a else b
  }

  /** The condition of the loop is the opposite of what it should be: the loop is entered when the limit
      is zero, and goes on when the pool is empty.  So the call frees nobody when it may, one task when
      it may free nobody, and if that is the last one it pops the empty list.  It frees as many as the
      limit and the pool allow only if there is nothing to free. */
  method CleanDeadTask<T>(pool: seq<T>, allNums: nat) returns (freed: seq<T>, rest: seq<T>, popsEmpty: bool)
    ensures freed + rest == pool
    ensures |freed| == if pool != [] && allNums < 8 then 1 else 0
    ensures popsEmpty <==> |pool| == 1 && allNums < 8
    ensures !popsEmpty && |freed| <= Limit(allNums) <==> pool == [] || allNums >= 8
    ensures !popsEmpty && |freed| == Min(Limit(allNums), |pool|) <==> pool == []
  {
    freed, rest, popsEmpty := [], pool, false;
    if pool == [] {
      return;
    }
    var count: int := if allNums / 8 > 16 then 16 else allNums / 8;
    while !popsEmpty && (rest == [] || count == 0)
      invariant freed + rest == pool
      invariant count == Limit(allNums) - |freed| - if popsEmpty then 1 else 0
      invariant |freed| == 0 || (|freed| == 1 && allNums < 8)
      invariant popsEmpty ==> rest == []
      decreases |rest|, !popsEmpty
    {
      if rest == [] {
        popsEmpty := true;
      } else {
        freed, rest := freed + [rest[0]], rest[1..];
      }
      count := count - 1;
    }
  }
}
