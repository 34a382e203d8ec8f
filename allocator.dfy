/** An ID pool (memif IDs, VRF IDs). Its implementation is not part of this
    model; the renderer relies only on an allocation returning a non-zero ID
    that is not already in use, and on 0 meaning "unallocated". */
module Allocator {

  class IdAllocator {
    /** IDs handed out so far. */
    var inUse: set<nat>
    var next: nat

    ghost predicate Valid()
      reads this
    {
      next > 0 && forall id :: id in inUse ==> 0 < id < next
    }

    constructor ()
      ensures Valid() && inUse == {}
    {
      inUse := {};
      next := 1;
    }

    method Allocate() returns (id: nat)
      requires Valid()
      modifies this
      ensures Valid()
      ensures id > 0 && id !in old(inUse)
      ensures inUse == old(inUse) + {id}
    {
      id := next;
      inUse := inUse + {id};
      next := next + 1;
    }
  }
}
