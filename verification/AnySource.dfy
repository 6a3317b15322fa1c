/** any_source.hpp: a source in a buffer, reached through one table of functions. */
module AnySource {
  import opened Core
  import opened Ownership
  import opened Memory

  datatype Request = Connect | Disconnect | Subscribe | Publish | SetMessageCallback | Poll | IsConnected

  datatype Answer = Done(r: Result) | Flag(b: bool)

  /** What the operations of the sources do, each to the source it is asked of. */
  type SourceCode = (Callable, Request) -> Ran<Answer>

  /** What an empty `any_source` answers: connect fails, and it is not connected. */
  function EmptyAnswer(request: Request): Answer {
    match request
    case Connect => Done(Err(NotConnected))
    case IsConnected => Flag(false)
    case _ => Done(Ok)
  }

  /** The answer of a holder, given the source stored in it. */
  function AnswerOf(run: SourceCode, stored: Option<Callable>, request: Request): Answer {
    if stored.None? then EmptyAnswer(request) else run(stored.value, request).result
  }

  class AnySource {
    const mem: Memory<Request, Answer>
    var vtable: Option<nat>
    var storage: nat

    function Owner(): Option<nat>
      reads this
    {
      if vtable.Some? then Some(storage) else None
    }

    /** The table is the one for the type of the live source in the buffer. */
    ghost predicate Valid()
      reads this, mem
    {
      Owns(mem.w, Owner()) && (vtable.Some? ==> mem.w.objs[storage].kind == vtable.value)
    }

    /** The stored source. */
    ghost function Stored(): Option<Callable>
      requires Valid()
      reads this, mem
    {
      MeaningOf(mem.w, Here(Owner())).callable
    }

    constructor (mem: Memory<Request, Answer>)
      ensures Valid() && this.mem == mem && Owner() == None && mem.w == old(mem.w)
    {
      this.mem := mem;
      vtable, storage := None, 0;
    }

    constructor From(mem: Memory<Request, Answer>, kind: nat, content: nat)
      modifies mem
      ensures Valid() && this.mem == mem && Stored() == Some(Callable(kind, content))
      ensures mem.w == Made(old(mem.w), kind, content) && Owner() == Some(|old(mem.w).objs|)
    {
      this.mem := mem;
      vtable := Some(kind);
      var id := mem.PlacementNew(kind, content);
      storage := id;
    }

    constructor MoveFrom(other: AnySource)
      requires other.Valid()
      modifies other, other.mem
      ensures Valid() && other.Valid() && mem == other.mem
      ensures mem.w == Transferred(old(other.mem.w), old(other.Owner()))
      ensures Owner() == NewOwner(old(other.mem.w), old(other.Owner())) && other.Owner() == None
      ensures Stored() == old(other.Stored())
    {
      mem := other.mem;
      vtable, storage := other.vtable, 0;
      new;
      if vtable.Some? {
        storage := mem.MoveImpl(vtable.value, other.storage);
        mem.DestroyImpl(vtable.value, other.storage);
      }
      other.vtable := None;
    }

    /** Assignment from itself changes nothing; otherwise the source owned before is destroyed and the
        other one moves in. */
    method MoveAssign(other: AnySource)
      requires Valid() && other.Valid() && mem == other.mem
      requires this != other && Owner().Some? ==> Owner() != other.Owner()
      modifies this, other, mem
      ensures Valid() && other.Valid() && Stored() == old(other.Stored())
      ensures this == other ==> mem.w == old(mem.w) && Owner() == old(Owner())
      ensures this != other ==>
                && mem.w == Transferred(Released(old(mem.w), old(Owner())), old(other.Owner()))
                && Owner() == NewOwner(old(mem.w), old(other.Owner())) && other.Owner() == None
    {
      if this != other {
        Reset();
        vtable := other.vtable;
        if vtable.Some? {
          storage := mem.MoveImpl(vtable.value, other.storage);
          mem.DestroyImpl(vtable.value, other.storage);
        }
        other.vtable := None;
      }
    }

    method Reset()
      requires Valid()
      modifies this, mem
      ensures Valid() && Owner() == None && mem.w == Released(old(mem.w), old(Owner()))
    {
      if vtable.Some? {
        mem.DestroyImpl(vtable.value, storage);
      }
      vtable := None;
    }

    /** The stored source is asked, and may change itself; an empty holder answers by itself. */
    method Ask(request: Request) returns (answer: Answer)
      requires Valid()
      modifies mem
      ensures Valid()
      ensures answer == AnswerOf(mem.run, old(Stored()), request)
      ensures Owner().Some? ==> old(Stored()).Some? && answer == mem.run(old(Stored()).value, request).result
      ensures Owner().None? ==>
                answer == if request == Connect then Done(Err(NotConnected))
                          else if request == IsConnected then Flag(false)
                          else Done(Ok)
      ensures if Owner().None? then mem.w == old(mem.w)
              else mem.w == Used(old(mem.w), old(mem.w.objs[storage].kind), storage,
                                 mem.run(old(Stored()).value, request).content)
    {
      if vtable.Some? {
        answer := mem.InvokeImpl(vtable.value, storage, request);
      } else {
        answer := EmptyAnswer(request);
      }
    }
  }

  /** A move carries the behaviour over: whatever is asked of the new holder is answered as the old one
      would have answered it, and the old one answers as an empty holder. */
  method AnswersMove(to: AnySource, from: AnySource, request: Request) returns (answer: Answer, emptied: Answer)
    requires to != from && to.Valid() && from.Valid() && to.mem == from.mem
    requires to.Owner().Some? ==> to.Owner() != from.Owner()
    modifies to, from, to.mem
    ensures answer == AnswerOf(to.mem.run, old(from.Stored()), request)
    ensures old(from.Stored()).Some? ==> answer == to.mem.run(old(from.Stored()).value, request).result
    ensures emptied == EmptyAnswer(request)
  {
    to.MoveAssign(from);
    emptied := from.Ask(request);
    answer := to.Ask(request);
  }
}
