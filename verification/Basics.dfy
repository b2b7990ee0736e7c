/** Small types and sequence facts used by several parts of the model. */
module Basics {
  datatype Option<+T> = None | Some(value: T)

  function Pow2(k: nat): (r: nat)
    ensures r >= 1
  {
    if k == 0 then 1 else 2 * Pow2(k - 1)
  }

  /** Queues compose: a queue w that j joined and d left is w1, and one that js joined and ds left
      after that is w2. */
  lemma QueueThen<T>(w: seq<T>, j: seq<T>, d: seq<T>, w1: seq<T>, js: seq<T>, ds: seq<T>, w2: seq<T>)
    requires w + j == d + w1 && w1 + js == ds + w2
    ensures w + (j + js) == (d + ds) + w2
  {
    calc {
      w + (j + js);
      (w + j) + js;
      d + (w1 + js);
      (d + ds) + w2;
    }
  }
}
