/** The memory in which stored callables and sources live, and the code of their types. */
module Memory {
  import opened Ownership

  /** What a call returns, and what it leaves of the object that was called. */
  datatype Ran<R> = Ran(result: R, content: nat)

  /** A function pointer to the code for one type is the number of that type.  `run` is what the call
      operators, or the operations of the sources, do. */
  class Memory<A, R> {
    const run: (Callable, A) -> Ran<R>
    var w: World

    constructor (run: (Callable, A) -> Ran<R>)
      ensures w == NOTHING.w && this.run == run
    {
      this.run := run;
      w := NOTHING.w;
    }

    method PlacementNew(kind: nat, content: nat) returns (id: nat)
      modifies this
      ensures w == Made(old(w), kind, content) && id == |old(w).objs|
    {
      id := |w.objs|;
      w := Made(w, kind, content);
    }

    method MoveImpl(kind: nat, src: nat) returns (dst: nat)
      modifies this
      ensures w == MovedOut(old(w), kind, src) && dst == |old(w).objs|
    {
      dst := |w.objs|;
      w := MovedOut(w, kind, src);
    }

    method DestroyImpl(kind: nat, id: nat)
      modifies this
      ensures w == Destroyed(old(w), kind, id)
    {
      w := Destroyed(w, kind, id);
    }

    method InvokeImpl(kind: nat, id: nat, arg: A) returns (result: R)
      requires Usable(w, kind, id)
      modifies this
      ensures var ran := run(Callable(kind, old(w).objs[id].content.value), arg);
              result == ran.result && w == Used(old(w), kind, id, ran.content)
    {
      var ran := run(Callable(kind, w.objs[id].content.value), arg);
      w := Used(w, kind, id, ran.content);
      result := ran.result;
    }
  }
}
