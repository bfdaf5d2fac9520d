/** Flushing a device's pending commands into the outbox of its agent. */
module Flush {
  import opened Ordering
  import opened RelayDb
  import RelayStore
  import opened Outbox

  lemma OneMoreOffered(offered: seq<Message>, pending: seq<Key>, i: nat, flush: nat)
    requires i < |pending| && OfFlush(offered, flush) == pending[..i]
    ensures OfFlush(offered + [Message.Dispatch(flush, pending[i])], flush) == pending[..i + 1]
  {
    var m := Message.Dispatch(flush, pending[i]);
    assert OfFlush([m], flush) == [pending[i]] by { assert [m][1..] == []; }
    OfFlushAppend(offered, [m], flush);
  }

  /** What others do to the connection meanwhile: senders offer a message, the write pump takes one. */
  datatype Noise = Offer(n: nat) | Pump

  /** Any of it keeps the flush as it is; without offers nothing is dropped. */
  method Interfere(box: Box<Message>, noise: seq<Noise>, ghost flush: nat)
    requires box.Valid()
    modifies box
    ensures box.Valid()
    ensures OfFlush(box.offered, flush) == OfFlush(old(box.offered), flush)
    ensures (forall e | e in noise :: e.Pump?) ==>
              box.taken + box.buffer == old(box.taken) + old(box.buffer) && |box.buffer| <= |old(box.buffer)|
    ensures (forall e | e in noise :: e.Offer?) ==> box.taken == old(box.taken)
  {
    for i := 0 to |noise|
      invariant box.Valid()
      invariant OfFlush(box.offered, flush) == OfFlush(old(box.offered), flush)
      invariant (forall e | e in noise :: e.Pump?) ==>
                  box.taken + box.buffer == old(box.taken) + old(box.buffer) && |box.buffer| <= |old(box.buffer)|
      invariant (forall e | e in noise :: e.Offer?) ==> box.taken == old(box.taken)
    {
      assert noise[i] in noise;
      match noise[i]
      case Offer(n) =>
        OfFlushAppend(box.offered, [Traffic(n)], flush);
        assert OfFlush([Traffic(n)], flush) == [];
        box.Send(Traffic(n));
      case Pump =>
        var _ := box.Take();
    }
  }

  function Dispatches(keys: seq<Key>, flush: nat): seq<Message> {
    seq(|keys|, i requires 0 <= i < |keys| => Message.Dispatch(flush, keys[i]))
  }

  /** Sends each command and marks it DISPATCHED, in turn. */
  method SendAll(store: RelayStore.Store, box: Box<Message>, pending: seq<Key>, flush: nat, clock: nat -> int,
                 noise: nat -> seq<Noise>)
    requires box.Valid() && OfFlush(box.offered, flush) == []
    modifies store, box
    ensures store.Value() == MarkAll(old(store.Value()), pending, clock)
    ensures box.Valid() && OfFlush(box.offered, flush) == pending
    ensures |old(box.buffer)| + |pending| <= CAPACITY && OnlyPump(noise, |pending|) ==>
              box.taken + box.buffer == old(box.taken) + old(box.buffer) + Dispatches(pending, flush)
    ensures OnlyOffers(noise, |pending|) ==> box.taken == old(box.taken)
  {
    ghost var start, front := store.Value(), box.taken + box.buffer;
    ghost var fits := |box.buffer| + |pending| <= CAPACITY && OnlyPump(noise, |pending|);
    for i := 0 to |pending|
      invariant store.Value() == MarkAll(start, pending[..i], clock)
      invariant box.Valid() && OfFlush(box.offered, flush) == pending[..i]
      invariant fits ==> |box.buffer| + |pending| - i <= CAPACITY
      invariant fits ==> box.taken + box.buffer == front + Dispatches(pending[..i], flush)
      invariant OnlyOffers(noise, |pending|) ==> box.taken == old(box.taken)
    {
      Interfere(box, noise(i), flush);
      OneMoreOffered(box.offered, pending, i, flush);
      assert pending[..i + 1][..i] == pending[..i];
      OneMoreKept(front, pending, i, flush, box.taken, box.buffer);
      box.Send(Message.Dispatch(flush, pending[i]));
      store.MarkCommandDispatched(pending[i].id, clock(i));
    }
    assert pending[..|pending|] == pending;
  }

  /**
   Reads the pending commands and looks the agent up; `box` is its outbox, or null if there is
   none, and then nothing happens. A full outbox drops a message; the command is marked all the
   same. `flush` numbers this flush, `noise(i)` is what others do to the outbox before the i-th send.
   */
  method FlushPendingCommands(store: RelayStore.Store, box: Box?<Message>, deviceId: string, flush: nat,
                              clock: nat -> int, noise: nat -> seq<Noise>)
    returns (pending: seq<Key>)
    requires box != null ==> box.Valid() && OfFlush(box.offered, flush) == []
    modifies store, box
    ensures pending == Sorted(PendingKeys(old(store.Value()), deviceId))
    ensures store.Value() == if box == null then old(store.Value()) else MarkAll(old(store.Value()), pending, clock)
    ensures box != null ==> forall id :: !PendingFor(store.Value(), deviceId, id)
    ensures box != null ==> box.Valid() && OfFlush(box.offered, flush) == pending
    // Whatever is dropped and taken meanwhile, what is on its way is in row order.
    ensures box != null ==> Increasing(OfFlush(box.taken + box.buffer, flush))
    // When it all fits and nobody else sends, nothing is lost.
    ensures box != null && |old(box.buffer)| + |pending| <= CAPACITY && OnlyPump(noise, |pending|) ==>
              box.taken + box.buffer == old(box.taken) + old(box.buffer) + Dispatches(pending, flush)
    ensures box != null && OnlyOffers(noise, |pending|) ==> box.taken == old(box.taken)
  {
    pending := store.GetPendingCommands(deviceId);
    if box == null {
      return;
    }
    ghost var start, keys := store.Value(), PendingKeys(store.Value(), deviceId);
    SendAll(store, box, pending, flush, clock, noise);
    assert Sorted(keys)[..|pending|] == pending;
    FlushLeavesInOrder(box.offered, box.taken + box.buffer, flush, keys, |pending|);
    forall id ensures !PendingFor(store.Value(), deviceId, id) {
      HandOutClears(start, deviceId, clock, id);
    }
  }

  ghost predicate OnlyPump(noise: nat -> seq<Noise>, n: nat) {
    forall i: nat, e | i < n && e in noise(i) :: e.Pump?
  }

  ghost predicate OnlyOffers(noise: nat -> seq<Noise>, n: nat) {
    forall i: nat, e | i < n && e in noise(i) :: e.Offer?
  }

  lemma OneMoreKept(front: seq<Message>, pending: seq<Key>, i: nat, flush: nat,
                    taken: seq<Message>, buffer: seq<Message>)
    requires i < |pending|
    ensures taken + buffer == front + Dispatches(pending[..i], flush) ==>
              taken + (buffer + [Message.Dispatch(flush, pending[i])]) == front + Dispatches(pending[..i + 1], flush)
  {
    var m := Message.Dispatch(flush, pending[i]);
    assert Dispatches(pending[..i + 1], flush) == Dispatches(pending[..i], flush) + [m];
    assert taken + (buffer + [m]) == (taken + buffer) + [m];
  }
}
