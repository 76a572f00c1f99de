/** The queue of a service and the global list of queues, skynet-src/skynet_mq.c, as the objects that
    the C code changes in place: a ring buffer that grows, and a list linked through the queues. */
module MessageQueue {
  import opened Arithmetic

  const DefaultQueueSize := 64
  const OverloadStart := 1024

  lemma WrapOnce(x: nat, cap: nat)
    requires x < 2 * cap
    ensures x % cap == if x < cap then x else x - cap
  {
    if x >= cap { assert x == (x - cap) + cap * 1; }
  }

  /** The slots of a ring from `head` on, up to `tail`. */
  ghost function Between<T>(ring: seq<T>, head: nat, tail: nat): seq<T>
    requires head < |ring| && tail < |ring|
  {
    if head <= tail then ring[head..tail] else ring[head..] + ring[..tail]
  }

  lemma Dequeued<T>(ring: seq<T>, head: nat, next: nat, tail: nat)
    requires head < |ring| && tail < |ring| && head != tail
    requires next == if head + 1 < |ring| then head + 1 else 0
    ensures Between(ring, head, tail) == [ring[head]] + Between(ring, next, tail)
  {
    if head < tail {
      assert ring[head..tail] == [ring[head]] + ring[next..tail];
    } else if next == 0 {
      assert ring[head..] == [ring[head]];
    } else {
      assert ring[head..] == [ring[head]] + ring[head + 1..];
    }
  }

  lemma Enqueued<T>(ring: seq<T>, head: nat, tail: nat, next: nat, x: T)
    requires head < |ring| && tail < |ring|
    requires next == if tail + 1 < |ring| then tail + 1 else 0
    ensures head != next ==> Between(ring[tail := x], head, next) == Between(ring, head, tail) + [x]
    ensures head == next ==> ring[tail := x][head..] + ring[tail := x][..head] == Between(ring, head, tail) + [x]
  {
  }

  /** `after` is `before`, doubled `k` times. */
  ghost predicate Doubled(before: nat, after: nat, k: nat) { after == before * Pow2(k) }

  /** The threshold after a length has been noted: doubled as often as it takes for it to cover the length. */
  ghost predicate LeastDoubling(before: nat, length: nat, after: nat) {
    && length <= after && (after != before ==> 2 * length > after)
    && exists k: nat :: Doubled(before, after, k)
  }

  lemma DoubledOnce(n: nat, k: nat)
    ensures n * Pow2(k + 1) == 2 * (n * Pow2(k))
  {
  }

  /** A service queue. `head == tail` means empty: a push that fills the ring doubles it at once. */
  class Queue<Msg(0)> {
    var cap: nat
    var head: nat
    var tail: nat
    var release: bool
    var inGlobal: bool
    var overload: nat
    var threshold: nat
    var ring: array<Msg>
    var next: Queue?<Msg>

    ghost predicate Valid()
      reads this
    {
      cap > 0 && ring.Length == cap && head < cap && tail < cap && threshold > 0
    }

    /** The number of messages, as `skynet_mq_length` computes it. */
    function Count(): (length: nat)
      reads this, ring
      requires Valid()
      ensures length == |Contents()|
    {
      if head <= tail then tail - head else tail + cap - head
    }

    /** The messages in the queue, the oldest first. */
    ghost function Contents(): seq<Msg>
      reads this, ring
      requires Valid()
    {
      Between(ring[..], head, tail)
    }

    constructor ()
      ensures Valid() && fresh(ring) && Contents() == []
      ensures inGlobal && !release && next == null && overload == 0 && cap == 64 && threshold == 1024
    {
      cap, head, tail := DefaultQueueSize, 0, 0;
      release, inGlobal, overload, threshold := false, true, 0, OverloadStart;
      next := null;
      ring := new Msg[DefaultQueueSize];
    }

    /** The ring is full, which only `Push` sees: `head == tail`, and all slots are in use. */
    method Expand()
      requires Valid() && head == tail
      modifies this`cap, this`head, this`tail, this`ring
      ensures Valid() && fresh(ring)
      ensures Contents() == old(ring[head..] + ring[..head])
    {
      ghost var all := ring[head..] + ring[..head];
      var bigger := new Msg[cap * 2];
      var i := 0;
      while i < cap
        modifies bigger
        invariant i <= cap && bigger[..i] == all[..i]
      {
        WrapOnce(head + i, cap);
        bigger[i] := ring[(head + i) % cap];
        i := i + 1;
      }
      head, tail, cap := 0, cap, cap * 2;
      ring := bigger;
    }

    /** Puts a message at the end, and makes room at once if that was the last slot. */
    method Add(message: Msg)
      requires Valid()
      modifies this`cap, this`head, this`tail, this`ring, ring
      ensures Valid() && (ring == old(ring) || fresh(ring))
      ensures Contents() == old(Contents()) + [message]
    {
      ghost var before := ring[..];
      ring[tail] := message;
      tail := tail + 1;
      if tail >= cap { tail := 0; }
      assert ring[..] == before[old(tail) := message];
      Enqueued(before, head, old(tail), tail, message);
      hide Between;
      if head == tail {
        assert ring[head..] == ring[..][head..] && ring[..head] == ring[..][..head];
        Expand();
      }
    }

    /** Puts a message at the end, and the queue on the global list if it is not on its way. */
    method Push(message: Msg, global: GlobalQueue<Msg>)
      requires Valid() && global.Valid() && (!inGlobal ==> this !in global.Queues && next == null)
      modifies this`cap, this`head, this`tail, this`ring, this`inGlobal, ring
      modifies global, (set q | q in global.Queues && q == global.tail)`next
      ensures Valid() && (ring == old(ring) || fresh(ring))
      ensures Contents() == old(Contents()) + [message]
      ensures inGlobal && global.Valid()
      ensures global.Queues == old(global.Queues) + if old(inGlobal) then [] else [this]
    {
      Add(message);
      if !inGlobal {
        inGlobal := true;
        global.Push(this);
      }
    }

    /** Notes a length that passes the threshold, and raises the threshold. */
    method Watch(length: nat)
      requires threshold > 0
      modifies this`overload, this`threshold
      ensures LeastDoubling(old(threshold), length, threshold)
      ensures overload == if length > old(threshold) then length else old(overload)
    {
      ghost var k: nat := 0;
      while length > threshold
        invariant threshold >= old(threshold) && threshold > 0
        invariant threshold == old(threshold) * Pow2(k) && (k > 0 ==> 2 * length > threshold)
        invariant threshold == old(threshold) ==> k == 0
        invariant threshold == old(threshold) ==> overload == old(overload)
        invariant threshold > old(threshold) ==> length > old(threshold) && overload == length
        decreases length - threshold
      {
        overload := length;
        threshold := threshold * 2;
        DoubledOnce(old(threshold), k);
        k := k + 1;
      }
      assert Doubled(old(threshold), threshold, k);
    }

    /** Takes the oldest message, or finds the queue empty and then flags it as not in the global list.
        The overload mark is the length whenever it passes a threshold that doubles. */
    method Pop(dummy: Msg) returns (empty: bool, message: Msg)
      requires Valid()
      modifies this`head, this`inGlobal, this`overload, this`threshold
      ensures Valid()
      ensures empty == (old(Contents()) == [])
      ensures empty ==> Contents() == [] && !inGlobal && overload == old(overload) && threshold == OverloadStart
      ensures !empty ==> old(Contents()) == [message] + Contents() && inGlobal == old(inGlobal)
      ensures !empty ==> LeastDoubling(old(threshold), |Contents()|, threshold)
      ensures !empty ==> overload == if |Contents()| > old(threshold) then |Contents()| else old(overload)
    {
      empty, message := true, dummy;
      if head != tail {
        message := ring[head];
        head := head + 1;
        empty := false;
        if head >= cap { head := 0; }
        var length := tail - head;
        if length < 0 { length := length + cap; }
        Dequeued(ring[..], old(head), head, tail);
        Watch(length);
      } else {
        threshold := OverloadStart;
      }
      if empty { inGlobal := false; }
    }

    /** Marks the queue of a deleted context, and wakes it up to be dropped. */
    method MarkRelease(global: GlobalQueue<Msg>)
      requires !release && global.Valid() && (!inGlobal ==> this !in global.Queues && next == null)
      modifies this`release, global, (set q | q in global.Queues && q == global.tail)`next
      ensures release && global.Valid()
      ensures global.Queues == old(global.Queues) + if inGlobal then [] else [this]
    {
      release := true;
      if !inGlobal { global.Push(this); }
    }

    /** `_drop_queue`: takes out and returns what is left, in order, until the queue is empty. */
    method DropAll(dummy: Msg) returns (dropped: seq<Msg>)
      requires Valid()
      modifies this`head, this`inGlobal, this`overload, this`threshold
      ensures Valid() && Contents() == [] && dropped == old(Contents()) && !inGlobal
    {
      dropped := [];
      var empty, message := Pop(dummy);
      while !empty
        invariant Valid()
        invariant empty ==> Contents() == [] && !inGlobal && dropped == old(Contents())
        invariant !empty ==> dropped + [message] + Contents() == old(Contents())
        decreases |Contents()|, !empty
      {
        dropped := dropped + [message];
        ghost var rest := Contents();
        empty, message := Pop(dummy);
        assert !empty ==> rest == [message] + Contents();
      }
    }
  }

  /** The list of queues that wait for a worker, linked through `next`. */
  class GlobalQueue<Msg(0)> {
    var head: Queue?<Msg>
    var tail: Queue?<Msg>
    ghost var Queues: seq<Queue<Msg>>

    ghost predicate Valid()
      reads this, Queues
    {
      && (forall i, j :: 0 <= i < j < |Queues| ==> Queues[i] != Queues[j])
      && (if Queues == [] then head == null && tail == null else head == Queues[0] && tail == Queues[|Queues| - 1])
      && (forall i :: 0 < i < |Queues| ==> Queues[i - 1].next == Queues[i])
      && (Queues != [] ==> Queues[|Queues| - 1].next == null)
    }

    constructor ()
      ensures Valid() && Queues == []
    {
      head, tail := null, null;
      Queues := [];
    }

    /** The queue must be off the list; the C code asserts as much of it as it can see. */
    method Push(queue: Queue<Msg>)
      requires Valid() && queue !in Queues && queue.next == null
      modifies this, (set q | q in Queues && q == tail)`next
      ensures Valid() && Queues == old(Queues) + [queue]
    {
      if tail != null {
        tail.next := queue;
        tail := queue;
      } else {
        head := queue;
        tail := queue;
      }
      Queues := Queues + [queue];
    }

    method Pop() returns (mq: Queue?<Msg>)
      requires Valid()
      modifies this, (set q | q in Queues && q == head)`next
      ensures Valid()
      ensures mq == null <==> old(Queues) == []
      ensures mq == null ==> Queues == []
      ensures mq != null ==> old(Queues) == [mq] + Queues && mq.next == null && mq !in Queues
    {
      mq := head;
      if mq != null {
        assert |Queues| > 1 ==> mq.next == Queues[1];
        head := mq.next;
        if head == null {
          assert mq == tail;
          tail := null;
        }
        mq.next := null;
        Queues := Queues[1..];
      }
    }
  }
}
