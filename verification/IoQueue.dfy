/** The character queue of ioqueue.c with one producer and one consumer, each of which may be
    switched out between its test, its access to the buffer and its update of an index. */
module IoQueue {
  const BUFSIZE := 64

  datatype Producer = Making | Cleared(byte: char) | Stored(byte: char)
  datatype Consumer = Asking | Allowed | Loaded(byte: char)

  /** produced: the characters of the finished calls of ioq_putchar; consumed: those that the
      finished calls of ioq_getchar returned. */
  datatype Queue = Queue(buf: seq<char>, head: nat, tail: nat, producer: Producer, consumer: Consumer,
                         produced: seq<char>, consumed: seq<char>)

  function NextPos(pos: nat): nat {
    (pos + 1) % BUFSIZE
  }

  predicate Full(head: nat, tail: nat) {
    NextPos(head) == tail
  }

  predicate Empty(head: nat, tail: nat) {
    head == tail
  }

  /** ioq_length */
  function Length(head: nat, tail: nat): nat
    requires head < BUFSIZE && tail < BUFSIZE
  {
    if head >= tail then head - tail else BUFSIZE - (tail - head)
  }

  /** The i-th place from tail on, around the ring. */
  function Place(tail: nat, i: nat): nat {
    (tail + i) % BUFSIZE
  }

  /** The characters in the buffer, oldest first. */
  function Contents(buf: seq<char>, head: nat, tail: nat): (s: seq<char>)
    requires |buf| == BUFSIZE && head < BUFSIZE && tail < BUFSIZE
    ensures |s| == Length(head, tail)
  {
    seq(Length(head, tail), i requires 0 <= i => buf[Place(tail, i)])
  }

  datatype Event =
    | Put(byte: char)      // ioq_putchar is called, and tests for room until there is some
    | Store                // buf[head] = byte
    | AdvanceHead          // head = next_pos(head)
    | Get                  // ioq_getchar is called, and tests for a character
    | Load                 // byte = buf[tail]
    | AdvanceTail          // tail = next_pos(tail), and the call returns byte

  predicate Shaped(q: Queue) {
    |q.buf| == BUFSIZE && q.head < BUFSIZE && q.tail < BUFSIZE
  }

  predicate Enabled(q: Queue, e: Event) {
    match e
    case Put(_) => q.producer == Making && !Full(q.head, q.tail)
    case Store => q.producer.Cleared?
    case AdvanceHead => q.producer.Stored?
    case Get => q.consumer == Asking && !Empty(q.head, q.tail)
    case Load => q.consumer == Allowed
    case AdvanceTail => q.consumer.Loaded?
  }

  function Step(q: Queue, e: Event): Queue
    requires Shaped(q) && Enabled(q, e)
  {
    match e
    case Put(byte) => q.(producer := Cleared(byte))
    case Store => q.(buf := q.buf[q.head := q.producer.byte], producer := Stored(q.producer.byte))
    case AdvanceHead => q.(head := NextPos(q.head), producer := Making, produced := q.produced + [q.producer.byte])
    case Get => q.(consumer := Allowed)
    case Load => q.(consumer := Loaded(q.buf[q.tail]))
    case AdvanceTail => q.(tail := NextPos(q.tail), consumer := Asking, consumed := q.consumed + [q.consumer.byte])
  }

  // ----- the law

  /** What has been consumed and what is in the buffer is what has been produced, in order; and
      what each side has seen is still true. */
  predicate Inv(q: Queue) {
    && Shaped(q)
    && q.produced == q.consumed + Contents(q.buf, q.head, q.tail)
    && (q.producer != Making ==> !Full(q.head, q.tail))
    && (q.producer.Stored? ==> q.buf[q.head] == q.producer.byte)
    && (q.consumer != Asking ==> !Empty(q.head, q.tail))
    && (q.consumer.Loaded? ==> q.buf[q.tail] == q.consumer.byte)
  }

  /** ioq_length counts from tail to head around the ring; it is 63 exactly when the queue is full
      and 0 exactly when it is empty. */
  lemma LengthMeans(head: nat, tail: nat)
    requires head < BUFSIZE && tail < BUFSIZE
    ensures Length(head, tail) < 64 && Place(tail, Length(head, tail)) == head
    ensures Length(head, tail) == 63 <==> Full(head, tail)
    ensures Length(head, tail) == 0 <==> Empty(head, tail)
  {
  }

  /** The free place at head is not part of the contents. */
  lemma StoreUnseen(buf: seq<char>, head: nat, tail: nat, byte: char)
    requires |buf| == BUFSIZE && head < BUFSIZE && tail < BUFSIZE
    ensures Contents(buf[head := byte], head, tail) == Contents(buf, head, tail)
  {
    forall i | 0 <= i < Length(head, tail) ensures Place(tail, i) != head {
    }
  }

  lemma HeadMoves(buf: seq<char>, head: nat, tail: nat)
    requires |buf| == BUFSIZE && head < BUFSIZE && tail < BUFSIZE && !Full(head, tail)
    ensures Contents(buf, NextPos(head), tail) == Contents(buf, head, tail) + [buf[head]]
  {
    LengthMeans(head, tail);
    assert Length(NextPos(head), tail) == Length(head, tail) + 1;
  }

  lemma TailMoves(buf: seq<char>, head: nat, tail: nat)
    requires |buf| == BUFSIZE && head < BUFSIZE && tail < BUFSIZE && !Empty(head, tail)
    ensures Contents(buf, head, tail) == [buf[tail]] + Contents(buf, head, NextPos(tail))
  {
    assert Length(head, NextPos(tail)) == Length(head, tail) - 1;
    forall i | 0 <= i < Length(head, NextPos(tail))
      ensures Place(NextPos(tail), i) == Place(tail, i + 1)
    {
    }
  }

  lemma StepInv(q: Queue, e: Event)
    requires Inv(q) && Enabled(q, e)
    ensures Inv(Step(q, e))
  {
    match e
    case Put(byte) =>
    case Store => StoreUnseen(q.buf, q.head, q.tail, q.producer.byte);
    case AdvanceHead =>
      HeadMoves(q.buf, q.head, q.tail);
      LengthMeans(NextPos(q.head), q.tail);
    case Get =>
    case Load =>
    case AdvanceTail =>
      TailMoves(q.buf, q.head, q.tail);
      LengthMeans(q.head, NextPos(q.tail));
  }

  predicate Possible(q: Queue, run: seq<Event>)
    decreases |run|
  {
    run != [] ==> Shaped(q) && Enabled(q, run[0]) && Possible(Step(q, run[0]), run[1..])
  }

  function Exec(q: Queue, run: seq<Event>): Queue
    requires Possible(q, run)
    decreases |run|
  {
    if run == [] then q else Exec(Step(q, run[0]), run[1..])
  }

  /** First in, first out, whatever the interleaving: the characters that calls of ioq_getchar
      have returned are the first of those that calls of ioq_putchar have put, and the others are
      in the buffer, at most 63 of them. */
  lemma {:induction false} FirstInFirstOut(q: Queue, run: seq<Event>)
    requires Inv(q) && Possible(q, run)
    ensures var r := Exec(q, run);
            && Inv(r) && r.consumed <= r.produced
            && |r.produced| - |r.consumed| == Length(r.head, r.tail) <= 63
    decreases |run|
  {
    if run != [] {
      StepInv(q, run[0]);
      FirstInFirstOut(Step(q, run[0]), run[1..]);
    } else {
      LengthMeans(q.head, q.tail);
    }
  }

  /** The producer can go on unless 63 characters are waiting, and the consumer unless none is: so one of
      them always can. */
  lemma WhoCanGoOn(q: Queue, byte: char)
    requires Inv(q)
    ensures Enabled(q, Put(byte)) <==> q.producer == Making && |q.produced| < |q.consumed| + 63
    ensures Enabled(q, Get) <==> q.consumer == Asking && |q.produced| > |q.consumed|
    ensures q.producer == Making && q.consumer == Asking ==> Enabled(q, Put(byte)) || Enabled(q, Get)
    ensures q.producer.Cleared? ==> Enabled(q, Store)
    ensures q.producer.Stored? ==> Enabled(q, AdvanceHead)
    ensures q.consumer == Allowed ==> Enabled(q, Load)
    ensures q.consumer.Loaded? ==> Enabled(q, AdvanceTail)
  {
    LengthMeans(q.head, q.tail);
    assert |q.produced| == |q.consumed| + Length(q.head, q.tail);
  }

  // ----- the calls of the run

  /** The characters with which ioq_putchar was called and found room, in the order of the calls. */
  function Puts(run: seq<Event>): seq<char> {
    if run == [] then [] else (if run[0].Put? then [run[0].byte] else []) + Puts(run[1..])
  }

  /** What the calls of ioq_getchar returned. */
  function Gots(q: Queue, run: seq<Event>): seq<char>
    requires Possible(q, run)
    decreases |run|
  {
    if run == [] then []
    else (if run[0].AdvanceTail? then [q.consumer.byte] else []) + Gots(Step(q, run[0]), run[1..])
  }

  /** The character of a call of ioq_putchar that has not returned. */
  function InHand(p: Producer): seq<char> {
    match p
    case Making => []
    case Cleared(byte) => [byte]
    case Stored(byte) => [byte]
  }

  /** Every character that was put has gone into the queue, or is still in hand. */
  lemma {:induction false} PutsGoIn(q: Queue, run: seq<Event>)
    requires Inv(q) && Possible(q, run)
    ensures var r := Exec(q, run);
            q.produced + InHand(q.producer) + Puts(run) == r.produced + InHand(r.producer)
    decreases |run|
  {
    if run != [] {
      var r, one := Step(q, run[0]), if run[0].Put? then [run[0].byte] else [];
      var before := q.produced + InHand(q.producer);
      StepInv(q, run[0]);
      PutsGoIn(r, run[1..]);
      assert before + one == r.produced + InHand(r.producer);
      assert before + (one + Puts(run[1..])) == (before + one) + Puts(run[1..]);
    } else {
      assert q.produced + InHand(q.producer) + [] == q.produced + InHand(q.producer);
    }
  }

  /** And what has been consumed is what the calls returned. */
  lemma {:induction false} GotsComeOut(q: Queue, run: seq<Event>)
    requires Inv(q) && Possible(q, run)
    ensures Exec(q, run).consumed == q.consumed + Gots(q, run)
    decreases |run|
  {
    if run != [] {
      StepInv(q, run[0]);
      GotsComeOut(Step(q, run[0]), run[1..]);
    }
  }

  /** So from an empty queue the characters come out as they were put in: what the calls of ioq_getchar
      have returned is the beginning of what ioq_putchar was called with, and at most 64 characters are
      still on their way, 63 in the buffer and one in the producer's hand. */
  lemma OutAsIn(q: Queue, run: seq<Event>)
    requires Inv(q) && q.produced == q.consumed == [] && q.producer == Making && Possible(q, run)
    ensures Gots(q, run) <= Puts(run) && |Puts(run)| - |Gots(q, run)| <= 64
  {
    var r := Exec(q, run);
    PutsGoIn(q, run);
    GotsComeOut(q, run);
    FirstInFirstOut(q, run);
    assert [] + [] + Puts(run) == Puts(run) && [] + Gots(q, run) == Gots(q, run);
    assert Puts(run) == r.produced + InHand(r.producer) && Gots(q, run) == r.consumed;
  }

  // ----- the queue in memory

  class Ring {
    var buf: array<char>
    var head: nat
    var tail: nat
    ghost var producer: Producer
    ghost var consumer: Consumer
    ghost var produced: seq<char>
    ghost var consumed: seq<char>

    ghost function View(): Queue
      reads this, buf
    {
      Queue(buf[..], head, tail, producer, consumer, produced, consumed)
    }

    /** ioqueue_init; the buffer holds whatever it holds. */
    constructor ()
      ensures Inv(View()) && fresh(buf) && head == tail == 0 && produced == consumed == []
      ensures producer == Making && consumer == Asking
    {
      buf := new char[BUFSIZE];
      head, tail := 0, 0;
      producer, consumer, produced, consumed := Making, Asking, [], [];
    }

    /** One test of ioq_putchar's loop. */
    method TestRoom(ghost byte: char) returns (room: bool)
      requires Shaped(View()) && producer == Making
      modifies `producer
      ensures room <==> Enabled(old(View()), Put(byte))
      ensures View() == if room then Step(old(View()), Put(byte)) else old(View())
    {
      room := NextPos(head) != tail;
      if room {
        producer := Cleared(byte);
      }
    }

    method StoreByte(byte: char)
      requires Shaped(View()) && producer == Cleared(byte)
      modifies buf, `producer
      ensures View() == Step(old(View()), Store) && buf == old(buf)
    {
      buf[head] := byte;
      producer := Stored(byte);
    }

    method MoveHead()
      requires Shaped(View()) && producer.Stored?
      modifies `head, `producer, `produced
      ensures View() == Step(old(View()), AdvanceHead)
    {
      head := NextPos(head);
      produced := produced + [producer.byte];
      producer := Making;
    }

    /** One test of ioq_getchar's loop. */
    method TestByte() returns (some: bool)
      requires Shaped(View()) && consumer == Asking
      modifies `consumer
      ensures some <==> Enabled(old(View()), Get)
      ensures View() == if some then Step(old(View()), Get) else old(View())
    {
      some := head != tail;
      if some {
        consumer := Allowed;
      }
    }

    method LoadByte() returns (byte: char)
      requires Shaped(View()) && consumer == Allowed
      modifies `consumer
      ensures View() == Step(old(View()), Load) && consumer == Loaded(byte)
    {
      byte := buf[tail];
      consumer := Loaded(byte);
    }

    method MoveTail(byte: char)
      requires Shaped(View()) && consumer == Loaded(byte)
      modifies `tail, `consumer, `consumed
      ensures View() == Step(old(View()), AdvanceTail)
    {
      tail := NextPos(tail);
      consumed := consumed + [byte];
      consumer := Asking;
    }

    method Count() returns (len: nat)
      requires Inv(View())
      ensures len == |produced| - |consumed|
    {
      len := if head >= tail then head - tail else BUFSIZE - (tail - head);
    }
  }
}
