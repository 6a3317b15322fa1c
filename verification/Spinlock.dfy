/** spinlock.hpp used by one thread at a time; threads that contend for a lock are in Threads. */
module Spinlock {

  class SpinLock {
    var locked: bool

    constructor ()
      ensures !locked
    {
      locked := false;
    }

    /** `exchange(true)`: says whether the lock was taken before. */
    method Exchange() returns (was: bool)
      modifies this
      ensures was == old(locked) && locked
    {
      was, locked := locked, true;
    }

    method TryLock() returns (taken: bool)
      modifies this
      ensures taken == !old(locked) && locked
    {
      var was := Exchange();
      taken := !was;
    }

    /** The loop ends with the first exchange that finds the lock free.  A single thread that finds
        it taken spins for ever, so here the lock has to be free. */
    method Lock()
      requires !locked
      modifies this
      ensures locked
    {
      var was := Exchange();
      assert !was;
    }

    method Unlock()
      modifies this
      ensures !locked
    {
      locked := false;
    }
  }
}
