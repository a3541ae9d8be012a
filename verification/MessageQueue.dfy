/** The message queue of a service: a ring buffer that doubles when it gets full. */
module MessageQueue {

  const DEFAULT_QUEUE_SIZE := 64

  class RingQueue<T(0)> {
    var queue: array<T>
    var cap: nat
    var head: nat
    var tail: nat

    ghost predicate Valid()
      reads this
    {
      queue.Length == cap && head < cap && tail < cap && cap > 0
    }

    /** The messages waiting, oldest first. The buffer is never full between operations. */
    ghost function Contents(): (s: seq<T>)
      reads this, queue
      requires Valid()
      ensures |s| < cap
    {
      if head <= tail then queue[head..tail] else queue[head..] + queue[..tail]
    }

    constructor ()
      ensures Valid() && Contents() == [] && fresh(queue)
    {
      cap, head, tail := DEFAULT_QUEUE_SIZE, 0, 0;
      queue := new T[DEFAULT_QUEUE_SIZE];
    }

    /** 'skynet_mq_length'. */
    method Length() returns (n: nat)
      requires Valid()
      ensures n == |Contents()|
    {
      if head <= tail {
        return tail - head;
      }
      return tail + cap - head;
    }

    /** 'skynet_mq_pop': nothing when the queue is empty. */
    method Pop() returns (found: bool, message: T)
      requires Valid()
      modifies this`head
      ensures Valid()
      ensures found == (old(Contents()) != [])
      ensures found ==> message == old(Contents())[0] && Contents() == old(Contents())[1..]
      ensures !found ==> Contents() == old(Contents())
    {
      found := head != tail;
      message := queue[head];
      if found {
        head := head + 1;
        if head >= cap {
          head := 0;
        }
      }
    }

    /** 'expand_queue', called when the tail has caught up with the head. */
    method Expand()
      requires Valid() && head == tail
      modifies this
      ensures Valid() && fresh(queue)
      ensures Contents() == old(queue[head..] + queue[..head])
    {
      ghost var was := queue[head..] + queue[..head];
      var bigger := new T[2 * cap];
      var i := 0;
      while i < cap
        modifies bigger
        invariant i <= cap
        invariant forall k :: 0 <= k < i ==> bigger[k] == was[k]
      {
        Wrap(head, i, cap);
        bigger[i] := queue[(head + i) % cap];
        i := i + 1;
      }
      head, tail, cap := 0, cap, 2 * cap;
      queue := bigger;
      assert queue[0..tail] == was;
    }

    /** 'skynet_mq_push': the message goes behind all others, however full the buffer is. */
    method Push(message: T)
      requires Valid()
      modifies this, queue
      ensures Valid() && (queue == old(queue) || fresh(queue))
      ensures Contents() == old(Contents()) + [message]
    {
      ghost var was := Contents();
      queue[tail] := message;
      tail := tail + 1;
      if tail >= cap {
        tail := 0;
      }
      if head == tail {
        assert queue[head..] + queue[..head] == was + [message];
        Expand();
      }
    }
  }

  lemma Wrap(head: nat, k: nat, cap: nat)
    requires head < cap && k < cap
    ensures (head + k) % cap == if head + k < cap then head + k else head + k - cap
  {
  }
}
