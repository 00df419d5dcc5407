/** The counting semaphore (packages/server/src/middleware/semaphore.ts). A permit is the release closure. */
module Semaphores {

  class Permit {
    var released: bool

    constructor ()
      ensures !released
    {
      released := false;
    }
  }

  class Semaphore {
    const capacity: int
    var count: int
    ghost var permits: set<Permit>  // every permit handed out so far

    ghost predicate Valid()
      reads this, permits
    {
      capacity > 0 && count == |Outstanding()| && count <= capacity
    }

    /** The permits that have not been released yet. */
    ghost function Outstanding(): set<Permit>
      reads this, permits
    {
      set p | p in permits && !p.released
    }

    constructor (capacity: int)
      requires capacity > 0
      ensures Valid() && this.capacity == capacity && count == 0 && permits == {}
    {
      this.capacity := capacity;
      count := 0;
      permits := {};
    }

    /** Hands out a new permit unless the cap is reached. */
    method TryAcquire() returns (permit: Permit?)
      requires Valid()
      modifies this
      ensures Valid()
      ensures permit == null <==> old(count) == capacity
      ensures permit == null ==> count == old(count) && permits == old(permits)
      ensures permit != null ==>
        fresh(permit) && !permit.released && permits == old(permits) + {permit} && count == old(count) + 1
    {
      if count >= capacity {
        return null;
      }
      ghost var before := Outstanding();
      count := count + 1;
      permit := new Permit();
      permits := permits + {permit};
      assert permit !in before && Outstanding() == before + {permit};
    }

    /** Calling a release closure again has no effect, so no slot is ever given back twice. */
    method Release(permit: Permit)
      requires Valid() && permit in permits
      modifies this, permit
      ensures Valid() && permits == old(permits)
      ensures Outstanding() == old(Outstanding()) - {permit}
      ensures count == if old(permit.released) then old(count) else old(count) - 1
    {
      if permit.released {
        assert Outstanding() == old(Outstanding()) - {permit};
        return;
      }
      permit.released := true;
      count := count - 1;
      assert Outstanding() == old(Outstanding()) - {permit};
    }
  }

  /** A capacity as a caller may pass it. */
  datatype Number = NaN | Infinite(negative: bool) | Finite(value: real)

  datatype MadeSemaphore = Made(semaphore: Semaphore) | BadCapacity(capacity: Number)

  predicate IsPositiveInteger(n: Number) {
    n.Finite? && n.value > 0.0 && n.value == n.value.Floor as real
  }

  /** `createSemaphore`: anything but a positive integer is refused. */
  method CreateSemaphore(capacity: Number) returns (r: MadeSemaphore)
    ensures r.Made? <==> IsPositiveInteger(capacity)
    ensures r.Made? ==>
      && fresh(r.semaphore) && r.semaphore.Valid() && r.semaphore.count == 0
      && r.semaphore.capacity as real == capacity.value
  {
    if !capacity.Finite? || capacity.value <= 0.0 || capacity.value != capacity.value.Floor as real {
      return BadCapacity(capacity);
    }
    var s := new Semaphore(capacity.value.Floor);
    return Made(s);
  }
}
