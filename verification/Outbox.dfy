/**
 A connection's outbox: a 64-slot channel that drops what does not fit and is emptied from the
 front by the write pump. Both the relay's and the agent's connections have one.
 */
module Outbox {
  import opened Ordering

  const CAPACITY: nat := 64

  class Box<T(==)> {
    var buffer: seq<T>
    /** What was ever handed to Send, and what the write pump has taken out, both in order. */
    ghost var offered: seq<T>
    ghost var taken: seq<T>

    ghost predicate Valid()
      reads this
    {
      |buffer| <= CAPACITY && Subsequence(taken + buffer, offered)
    }

    constructor ()
      ensures Valid() && buffer == [] && offered == [] && taken == []
    {
      buffer, offered, taken := [], [], [];
    }

    method Send(x: T)
      requires Valid()
      modifies this
      ensures Valid()
      ensures offered == old(offered) + [x] && taken == old(taken)
      ensures buffer == if |old(buffer)| < CAPACITY then old(buffer) + [x] else old(buffer)
    {
      SubsequenceAppend(taken + buffer, offered, x);
      if |buffer| < CAPACITY {
        assert taken + (buffer + [x]) == (taken + buffer) + [x];
        buffer := buffer + [x];
      }
      offered := offered + [x];
    }

    /** The write pump takes the oldest message, if any; whether the peer gets it is another matter. */
    method Take() returns (x: Option<T>)
      requires Valid()
      modifies this
      ensures Valid() && offered == old(offered)
      ensures old(buffer) == [] ==> x == None && buffer == [] && taken == old(taken)
      ensures old(buffer) != [] ==>
                x == Some(old(buffer)[0]) && buffer == old(buffer)[1..] && taken == old(taken) + [old(buffer)[0]]
    {
      if buffer == [] {
        return None;
      }
      x := Some(buffer[0]);
      assert (taken + [buffer[0]]) + buffer[1..] == taken + buffer;
      taken, buffer := taken + [buffer[0]], buffer[1..];
    }
  }

  // ---- Flushing commands in row order through a shared outbox ----

  /** A command dispatched by a given flush, or any other traffic on the connection. */
  datatype Message = Dispatch(flush: nat, key: Key) | Traffic(n: nat)

  /** The commands of one flush, in the order they appear. */
  function OfFlush(ms: seq<Message>, flush: nat): seq<Key> {
    if ms == [] then []
    else if ms[0].Dispatch? && ms[0].flush == flush then [ms[0].key] + OfFlush(ms[1..], flush)
    else OfFlush(ms[1..], flush)
  }

  lemma {:induction false} OfFlushAppend(a: seq<Message>, b: seq<Message>, flush: nat)
    ensures OfFlush(a + b, flush) == OfFlush(a, flush) + OfFlush(b, flush)
  {
    if a == [] {
      assert a + b == b;
    } else {
      assert (a + b)[1..] == a[1..] + b;
      OfFlushAppend(a[1..], b, flush);
    }
  }

  lemma {:induction false} OfFlushSubsequence(a: seq<Message>, b: seq<Message>, flush: nat)
    requires Subsequence(a, b)
    ensures Subsequence(OfFlush(a, flush), OfFlush(b, flush))
    decreases |b|
  {
    if a != [] {
      if a[0] == b[0] && Subsequence(a[1..], b[1..]) {
        OfFlushSubsequence(a[1..], b[1..], flush);
      } else {
        OfFlushSubsequence(a, b[1..], flush);
        SubsequenceOfLonger(OfFlush(a, flush), OfFlush(b[1..], flush), OfFlush(b[..1], flush));
        OfFlushAppend(b[..1], b[1..], flush);
        assert b == b[..1] + b[1..];
      }
    }
  }

  /**
   Whatever else shares the connection and whatever is dropped, the commands of a flush leave in
   the order in which the flush offered them: (CreatedAt, CommandId) order.
   */
  lemma FlushLeavesInOrder(offered: seq<Message>, kept: seq<Message>, flush: nat, pending: set<Key>, n: nat)
    requires Subsequence(kept, offered)
    requires n <= |Sorted(pending)| && OfFlush(offered, flush) == Sorted(pending)[..n]
    ensures Increasing(OfFlush(kept, flush))
    ensures forall k | k in OfFlush(kept, flush) :: k in pending
  {
    SortedLists(pending);
    OfFlushSubsequence(kept, offered, flush);
    SubsequenceIncreasing(OfFlush(kept, flush), Sorted(pending)[..n]);
    forall k | k in OfFlush(kept, flush) ensures k in pending {
      SubsequenceMember(OfFlush(kept, flush), Sorted(pending)[..n], k);
    }
  }
}
