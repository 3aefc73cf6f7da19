/**
 The bounded bulkhead of one environment as an object: a semaphore's free permits and the counter
 of callers waiting for one. `bulkhead_slot` suspends twice, so each method is the code between
 two of its awaits; the ghost sets say who is inside and who waits.
 */
module Bulkhead {
  type Caller = nat

  class BulkheadState {
    const capacity: nat
    const maxWaiters: nat
    var permits: int
    var waiters: int
    ghost var inside: set<Caller>
    ghost var queued: set<Caller>

    /** Free permits and holders make up the capacity; the counter counts exactly those that wait. */
    ghost predicate Valid()
      reads this
    {
      && permits >= 0 && permits + |inside| == capacity
      && waiters == |queued| <= maxWaiters
      && inside !! queued
    }

    constructor (capacity: nat, maxWaiters: nat)
      requires capacity > 0 && maxWaiters > 0
      ensures Valid() && this.capacity == capacity && this.maxWaiters == maxWaiters
      ensures inside == {} && queued == {}
    {
      this.capacity, this.maxWaiters := capacity, maxWaiters;
      permits, waiters := capacity, 0;
      inside, queued := {}, {};
    }

    /** Up to the wait for the semaphore: refused when the queue is full, else counted as waiting. */
    method Join(c: Caller) returns (joined: bool)
      requires Valid() && c !in inside && c !in queued
      modifies this
      ensures Valid() && inside == old(inside) && permits == old(permits)
      ensures joined <==> |old(queued)| < maxWaiters
      ensures queued == if joined then old(queued) + {c} else old(queued)
    {
      joined := waiters < maxWaiters;
      if joined {
        waiters := waiters + 1;
        queued := queued + {c};
      }
    }

    /** The semaphore lets a waiting caller in: it stops waiting and takes one permit. */
    method Acquire(c: Caller)
      requires Valid() && c in queued && permits > 0
      modifies this
      ensures Valid() && inside == old(inside) + {c} && queued == old(queued) - {c}
      ensures permits == old(permits) - 1
    {
      permits := permits - 1;
      waiters := waiters - 1;
      inside, queued := inside + {c}, queued - {c};
    }

    /** The wait ran out: the caller stops waiting and takes nothing. */
    method TimeOut(c: Caller)
      requires Valid() && c in queued
      modifies this
      ensures Valid() && inside == old(inside) && queued == old(queued) - {c} && permits == old(permits)
    {
      waiters := waiters - 1;
      queued := queued - {c};
    }

    /** The `finally` of a caller that got in, whatever ended its stay. */
    method Leave(c: Caller)
      requires Valid() && c in inside
      modifies this
      ensures Valid() && inside == old(inside) - {c} && queued == old(queued) && permits == old(permits) + 1
    {
      permits := permits + 1;
      inside := inside - {c};
    }

    /** One caller with nobody else about: it gets in at once or finds the queue full, and leaves all as it was. */
    method PassThrough(c: Caller) returns (entered: bool)
      requires Valid() && c !in inside && c !in queued
      modifies this
      ensures Valid() && inside == old(inside) && queued == old(queued)
      ensures permits == old(permits) && waiters == old(waiters)
      ensures entered <==> |old(queued)| < maxWaiters && |old(inside)| < capacity
    {
      var joined := Join(c);
      if !joined {
        return false;
      }
      entered := permits > 0;
      if entered {
        Acquire(c);
        Leave(c);
      } else {
        TimeOut(c);
      }
      assert inside == old(inside) && queued == old(queued);
    }
  }
}
