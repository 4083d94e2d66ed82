/** IdProvider (logics/id/IdProvider.cs): hands out 64-bit identifiers,
    counting up from 0 and recycling freed ones through a FIFO queue.

    The source's static members work on the registered instance; here they
    are methods of that instance, and the static `instance` field is the
    object IdProviderSlot. Identifiers are ulong values: naturals below
    2^64, with the counter's wrap-around written out. */
module Ids {
  import opened Results

  /** 2^64, the number of ulong values. */
  const U64: nat := 0x1_0000_0000_0000_0000

  datatype IdError =
    | ConstructorRejected  // the constructor's exception
    | EmptyQueue           // Queue.Dequeue on an empty queue

  /** ulong subtraction of one: 0 - 1 wraps to 2^64 - 1. */
  function Pred(n: nat): (r: nat)
    requires n < U64
    ensures r < U64 && (n > 0 ==> r == n - 1) && (n == 0 ==> r == U64 - 1)
  {
    (n - 1) % U64
  }

  /** The index of the first element of q that is at least n, or |q| when
      there is none. */
  function FirstAtLeast(q: seq<nat>, n: nat): (k: nat)
    ensures k <= |q| && (k < |q| ==> q[k] >= n)
    ensures forall j :: 0 <= j < k ==> q[j] < n
  {
    if q == [] then 0
    else if q[0] >= n then 0
    else 1 + FirstAtLeast(q[1..], n)
  }

  /** The index of the first element of q that is below n, or |q| when there
      is none. */
  function FirstBelow(q: seq<nat>, n: nat): (k: nat)
    ensures k <= |q| && (k < |q| ==> q[k] < n)
    ensures forall j :: 0 <= j < k ==> q[j] >= n
  {
    if q == [] then 0
    else if q[0] < n then 0
    else 1 + FirstBelow(q[1..], n)
  }

  class IdProvider {
    var nextID: nat
    /** The queue of freed identifiers; its front is index 0. */
    var availableIDs: seq<nat>
    /** The identifiers handed out and not freed since. */
    ghost var live: set<nat>

    /** Every live identifier is below the counter; the queue holds distinct
        identifiers below the counter, none of them live. */
    ghost predicate Valid()
      reads this
    {
      && nextID < U64
      && (forall x :: x in live ==> x < nextID)
      && (forall i :: 0 <= i < |availableIDs| ==> availableIDs[i] < nextID && availableIDs[i] !in live)
      && (forall i, j :: 0 <= i < j < |availableIDs| ==> availableIDs[i] != availableIDs[j])
    }

    constructor ()
      ensures Valid() && nextID == 0 && availableIDs == [] && live == {}
    {
      nextID := 0;
      availableIDs := [];
      live := {};
    }

    /** NewID as written: with an empty queue it returns the counter and
        advances it; otherwise it dequeues until it meets an identifier NOT
        below the counter, and the dequeue throws once the queue is empty.
        As every identifier Free enqueues is below the counter, the queue
        is never used: a non-empty queue always ends in the exception. */
    method NewIDAsWritten() returns (r: Result<nat, IdError>)
      requires nextID < U64
      modifies this
      ensures live == old(live)
      ensures old(availableIDs) == [] ==>
                r == Success(old(nextID)) && nextID == (old(nextID) + 1) % U64 && availableIDs == []
      ensures old(availableIDs) != [] ==> nextID == old(nextID)
      ensures old(availableIDs) != [] && FirstAtLeast(old(availableIDs), old(nextID)) < |old(availableIDs)| ==>
                var k := FirstAtLeast(old(availableIDs), old(nextID));
                r == Success(old(availableIDs)[k]) && availableIDs == old(availableIDs)[k + 1..]
      ensures old(availableIDs) != [] && FirstAtLeast(old(availableIDs), old(nextID)) == |old(availableIDs)| ==>
                r == Failure(EmptyQueue) && availableIDs == []
      ensures old(Valid()) && old(availableIDs) != [] ==> r == Failure(EmptyQueue)
    {
      if |availableIDs| > 0 {
        ghost var q := availableIDs;
        var newID;
        while true
          invariant q == old(availableIDs) && nextID == old(nextID) && live == old(live)
          invariant availableIDs == q[|q| - |availableIDs|..]
          invariant FirstAtLeast(q, nextID) >= |q| - |availableIDs|
          decreases |availableIDs|
        {
          if availableIDs == [] {
            return Failure(EmptyQueue);
          }
          newID := availableIDs[0];
          availableIDs := availableIDs[1..];
          if newID >= nextID {
            return Success(newID);
          }
        }
      }
      r := Success(nextID);
      nextID := (nextID + 1) % U64;
    }

    /** NewID with the loop condition the other way round: a non-empty
        queue is handed to Recycle, an empty one hands out the counter and
        advances it. The result is never live, and the oldest freed
        identifier is reused first. */
    method NewID() returns (id: nat)
      requires Valid()
      requires availableIDs == [] ==> nextID < U64 - 1
      modifies this
      ensures Valid()
      ensures id !in old(live) && live == old(live) + {id}
      ensures old(availableIDs) != [] ==>
                id == old(availableIDs[0]) && availableIDs == old(availableIDs[1..]) && nextID == old(nextID)
      ensures old(availableIDs) == [] ==>
                id == old(nextID) && nextID == old(nextID) + 1 && availableIDs == []
    {
      if |availableIDs| > 0 {
        id := Recycle();
      } else {
        id := nextID;
        nextID := nextID + 1;
      }
      live := live + {id};
    }

    /** The corrected dequeue loop: identifiers not below the counter are
        stale and skipped, the first one below it is returned. Should the
        queue run dry, the counter is handed out instead. */
    method Recycle() returns (id: nat)
      requires nextID < U64
      modifies this`availableIDs, this`nextID
      ensures var k := FirstBelow(old(availableIDs), old(nextID));
              && (k < |old(availableIDs)| ==>
                    id == old(availableIDs)[k] && availableIDs == old(availableIDs)[k + 1..] && nextID == old(nextID))
              && (k == |old(availableIDs)| ==>
                    id == old(nextID) && availableIDs == [] && nextID == (old(nextID) + 1) % U64)
    {
      ghost var q := availableIDs;
      while availableIDs != []
        invariant nextID == old(nextID)
        invariant availableIDs == q[|q| - |availableIDs|..]
        invariant FirstBelow(q, nextID) >= |q| - |availableIDs|
        decreases |availableIDs|
      {
        id := availableIDs[0];
        availableIDs := availableIDs[1..];
        if id < nextID {
          return;
        }
      }
      id := nextID;
      nextID := (nextID + 1) % U64;
    }

    /** Free: the identifier just below the counter lowers the counter to it;
        any other identifier below the counter is enqueued; one at or above
        the counter changes nothing. Freeing a live identifier keeps the
        invariant and makes it not live. */
    method Free(id: nat)
      requires id < U64 && nextID < U64
      modifies this
      ensures id == Pred(old(nextID)) ==> nextID == id && availableIDs == old(availableIDs)
      ensures id != Pred(old(nextID)) && id < old(nextID) ==>
                nextID == old(nextID) && availableIDs == old(availableIDs) + [id]
      ensures id != Pred(old(nextID)) && id >= old(nextID) ==>
                nextID == old(nextID) && availableIDs == old(availableIDs)
      ensures live == old(live) - {id}
      ensures old(Valid()) && id in old(live) ==> Valid()
    {
      if id == Pred(nextID) {
        nextID := id;
      } else if id < nextID {
        availableIDs := availableIDs + [id];
      }
      live := live - {id};
    }
  }

  /** The static IdProvider.instance. */
  class IdProviderSlot {
    var instance: IdProvider?

    constructor ()
      ensures instance == null
    {
      instance := null;
    }

    /** The constructor as written: it registers itself only when an instance
        already exists and throws otherwise. Starting from no instance, it
        always throws and the slot stays empty, so no provider can ever be
        registered. */
    method CreateAsWritten() returns (r: Result<IdProvider, IdError>)
      modifies this
      ensures old(instance) == null ==> r == Failure(ConstructorRejected) && instance == null
      ensures old(instance) != null ==> r.Success? && fresh(r.value) && instance == r.value
    {
      if instance != null {
        var provider := new IdProvider();
        instance := provider;
        return Success(provider);
      }
      return Failure(ConstructorRejected);
    }

    /** The constructor with its guard the right way round: the first
        provider registers itself, a second one throws. */
    method Create() returns (r: Result<IdProvider, IdError>)
      modifies this
      ensures old(instance) == null ==>
                && r.Success? && fresh(r.value) && instance == r.value
                && r.value.Valid() && r.value.nextID == 0 && r.value.availableIDs == []
      ensures old(instance) != null ==> r == Failure(ConstructorRejected) && instance == old(instance)
    {
      if instance == null {
        var provider := new IdProvider();
        instance := provider;
        return Success(provider);
      }
      return Failure(ConstructorRejected);
    }
  }
}
