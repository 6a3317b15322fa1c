/** small_function.hpp: a callable in a buffer, reached through three function pointers. */
module SmallFunction {
  import opened Core
  import opened Ownership
  import opened Memory

  class SmallFunction<A, R> {
    const mem: Memory<A, R>
    var invokeFn: Option<nat>
    var destroyFn: Option<nat>
    var moveFn: Option<nat>
    var storage: nat                    // the object last constructed in the buffer

    function Owner(): Option<nat>
      reads this
    {
      if invokeFn.Some? then Some(storage) else None
    }

    /** The three pointers are for one type, the type of the live object in the buffer. */
    ghost predicate Valid()
      reads this, mem
    {
      && invokeFn == destroyFn == moveFn
      && Owns(mem.w, Owner())
      && (invokeFn.Some? ==> mem.w.objs[storage].kind == invokeFn.value)
    }

    constructor (mem: Memory<A, R>)
      ensures Valid() && this.mem == mem && Owner() == None && mem.w == old(mem.w)
    {
      this.mem := mem;
      invokeFn, destroyFn, moveFn, storage := None, None, None, 0;
    }

    constructor From(mem: Memory<A, R>, kind: nat, content: nat)
      modifies mem
      ensures Valid() && this.mem == mem
      ensures mem.w == Made(old(mem.w), kind, content) && Owner() == Some(|old(mem.w).objs|)
    {
      this.mem := mem;
      var id := mem.PlacementNew(kind, content);
      storage := id;
      invokeFn, destroyFn, moveFn := Some(kind), Some(kind), Some(kind);
    }

    constructor MoveFrom(other: SmallFunction<A, R>)
      requires other.Valid()
      modifies other, other.mem
      ensures Valid() && other.Valid() && mem == other.mem
      ensures mem.w == Transferred(old(other.mem.w), old(other.Owner()))
      ensures Owner() == NewOwner(old(other.mem.w), old(other.Owner())) && other.Owner() == None
    {
      mem := other.mem;
      invokeFn, destroyFn, moveFn, storage := other.invokeFn, other.destroyFn, other.moveFn, 0;
      new;
      if moveFn.Some? {
        storage := mem.MoveImpl(moveFn.value, other.storage);
        mem.DestroyImpl(destroyFn.value, other.storage);
      }
      other.invokeFn, other.destroyFn, other.moveFn := None, None, None;
    }

    /** Assignment from itself changes nothing; otherwise the object owned before is destroyed and the
        other one moves in. */
    method MoveAssign(other: SmallFunction<A, R>)
      requires Valid() && other.Valid() && mem == other.mem
      requires this != other && Owner().Some? ==> Owner() != other.Owner()
      modifies this, other, mem
      ensures Valid() && other.Valid()
      ensures this == other ==> mem.w == old(mem.w) && Owner() == old(Owner())
      ensures this != other ==>
                && mem.w == Transferred(Released(old(mem.w), old(Owner())), old(other.Owner()))
                && Owner() == NewOwner(old(mem.w), old(other.Owner())) && other.Owner() == None
    {
      if this != other {
        Reset();
        invokeFn := other.invokeFn;
        destroyFn := other.destroyFn;
        moveFn := other.moveFn;
        if moveFn.Some? {
          storage := mem.MoveImpl(moveFn.value, other.storage);
          mem.DestroyImpl(destroyFn.value, other.storage);
        }
        other.invokeFn, other.destroyFn, other.moveFn := None, None, None;
      }
    }

    /** `reset()`, which is all that the destructor does. */
    method Reset()
      requires Valid()
      modifies this, mem
      ensures Valid() && Owner() == None && mem.w == Released(old(mem.w), old(Owner()))
    {
      if destroyFn.Some? {
        mem.DestroyImpl(destroyFn.value, storage);
      }
      invokeFn, destroyFn, moveFn := None, None, None;
    }

    /** To call an empty one is undefined.  The callable may change itself. */
    method Invoke(arg: A) returns (result: R)
      requires Valid() && Owner().Some?
      modifies mem
      ensures Valid()
      ensures var id := Owner().value;
              var kind := old(mem.w.objs[id].kind);
              var ran := mem.run(Callable(kind, old(mem.w.objs[id].content.value)), arg);
              result == ran.result && mem.w == Used(old(mem.w), kind, id, ran.content)
    {
      result := mem.InvokeImpl(invokeFn.value, storage, arg);
    }
  }
}
