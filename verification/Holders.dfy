/** A program over any number of `small_function` objects, and that it does to the memory what
    Ownership says of holders: its results hold of these objects. */
module Holders {
  import opened Core
  import opened Ownership
  import opened Memory
  import opened SmallFunction

  class Holders<A, R> {
    const mem: Memory<A, R>
    var cells: seq<SmallFunction?<A, R>>     // in the order of construction; null after the end of the lifetime
    ghost var holders: seq<Holder>

    /** The object is what the holder says, and its function pointers are those for the object it owns. */
    ghost predicate Matches(c: SmallFunction?<A, R>, h: Holder)
      reads c, mem
    {
      if c == null then h == Gone
      else
        && h == Here(c.Owner()) && c.mem == mem && c.invokeFn == c.destroyFn == c.moveFn
        && (c.invokeFn.Some? ==> c.storage < |mem.w.objs| && mem.w.objs[c.storage].kind == c.invokeFn.value)
    }

    ghost function Now(): State
      reads this, mem
    {
      State(mem.w, holders)
    }

    /** Every object is what its holder says, and no two are the same. */
    ghost predicate AllMatch()
      reads this, mem, cells
    {
      && |cells| == |holders|
      && (forall i :: 0 <= i < |cells| ==> Matches(cells[i], holders[i]))
      && (forall i, j :: 0 <= i < j < |cells| && cells[i] != null ==> cells[i] != cells[j])
    }

    ghost predicate Valid()
      reads this, mem, cells
    {
      AllMatch() && Inv(Now())
    }

    constructor (run: (Callable, A) -> Ran<R>)
      ensures Valid() && Now() == NOTHING && fresh(mem) && mem.run == run
    {
      mem := new Memory(run);
      cells, holders := [], [];
    }

    method MakeEmpty()
      requires Valid()
      modifies this
      ensures Valid() && Now() == Step(old(Now()), Op.MakeEmpty)
    {
      StepKeeps(Now(), Op.MakeEmpty);
      var c := new SmallFunction(mem);
      cells, holders := cells + [c], holders + [Here(None)];
    }

    method Make(kind: nat, content: nat)
      requires Valid()
      modifies this, mem
      ensures Valid() && Now() == Step(old(Now()), Op.Make(kind, content))
    {
      StepKeeps(Now(), Op.Make(kind, content));
      var c := new SmallFunction.From(mem, kind, content);
      cells, holders := cells + [c], holders + [Here(c.Owner())];
    }

    method MoveMake(g: nat)
      requires Valid() && Allowed(Now(), Op.MoveMake(g))
      modifies this, mem, cells[g]
      ensures Valid() && Now() == Step(old(Now()), Op.MoveMake(g))
    {
      StepKeeps(Now(), Op.MoveMake(g));
      assert Owns(mem.w, holders[g].owner);
      MoveOut(g);
      assert holders == Step(old(Now()), Op.MoveMake(g)).holders;
    }

    /** Construction from a holder that gives up what it owns. */
    method MoveOut(g: nat)
      requires AllMatch() && g < |cells| && holders[g].Here? && Owns(mem.w, holders[g].owner)
      modifies this, mem, cells[g]
      ensures AllMatch() && mem.w == Transferred(old(mem.w), old(holders[g].owner))
      ensures holders == old(holders)[g := Here(None)] + [Here(NewOwner(old(mem.w), old(holders[g].owner)))]
    {
      assert Matches(cells[g], holders[g]);
      var c := new SmallFunction.MoveFrom(cells[g]);
      cells, holders := cells + [c], holders[g := Here(None)] + [Here(c.Owner())];
    }

    method MoveAssign(h: nat, g: nat)
      requires Valid() && Allowed(Now(), Op.MoveAssign(h, g))
      modifies this, mem, cells
      ensures Valid() && Now() == Step(old(Now()), Op.MoveAssign(h, g))
    {
      StepKeeps(Now(), Op.MoveAssign(h, g));
      assert Matches(cells[h], holders[h]) && Owns(mem.w, holders[h].owner);
      if h == g {
        cells[h].MoveAssign(cells[h]);
      } else {
        assert Matches(cells[g], holders[g]) && Owns(mem.w, holders[g].owner);
        assert holders[h] != holders[g] || holders[h].owner.None?;
        MoveApart(h, g);
      }
    }

    /** The assignment between two different objects, which own different things. */
    method MoveApart(h: nat, g: nat)
      requires AllMatch() && h < |cells| && g < |cells| && h != g && holders[h].Here? && holders[g].Here?
      requires Owns(mem.w, holders[h].owner) && Owns(mem.w, holders[g].owner)
      requires holders[h].owner.Some? ==> holders[h].owner != holders[g].owner
      modifies this, mem, cells[h], cells[g]
      ensures AllMatch() && cells == old(cells)
      ensures mem.w == Transferred(Released(old(mem.w), old(holders[h].owner)), old(holders[g].owner))
      ensures holders == old(holders)[h := Here(None)][g := Here(None)][h := Here(NewOwner(old(mem.w), old(holders[g].owner)))]
    {
      assert Matches(cells[h], holders[h]) && Matches(cells[g], holders[g]);
      cells[h].MoveAssign(cells[g]);
      holders := holders[h := Here(None)][g := Here(None)][h := Here(cells[h].Owner())];
    }

    method Reset(h: nat)
      requires Valid() && Allowed(Now(), Op.Reset(h))
      modifies this, mem, cells
      ensures Valid() && Now() == Step(old(Now()), Op.Reset(h))
    {
      StepKeeps(Now(), Op.Reset(h));
      assert Matches(cells[h], holders[h]) && Owns(mem.w, holders[h].owner);
      cells[h].Reset();
      holders := holders[h := Here(None)];
    }

    /** The end of the lifetime: the destructor resets. */
    method Destroy(h: nat)
      requires Valid() && Allowed(Now(), Op.Destroy(h))
      modifies this, mem, cells
      ensures Valid() && Now() == Step(old(Now()), Op.Destroy(h))
    {
      StepKeeps(Now(), Op.Destroy(h));
      assert Matches(cells[h], holders[h]) && Owns(mem.w, holders[h].owner);
      cells[h].Reset();
      cells, holders := cells[h := null], holders[h := Gone];
    }

    /** A call reaches the callable that the holder means as a value, returns what that one returns, and
        leaves it as it leaves itself. */
    method Invoke(h: nat, arg: A, ghost a: seq<Meaning>) returns (result: R)
      requires Valid() && Allowed(Now(), Op.Invoke(h, 0)) && Stands(Now(), a)
      modifies mem
      ensures Valid() && a[h].Means? && a[h].callable.Some?
      ensures var ran := mem.run(a[h].callable.value, arg);
              result == ran.result && Now() == Step(old(Now()), Op.Invoke(h, ran.content))
    {
      assert Matches(cells[h], holders[h]) && Owns(mem.w, holders[h].owner);
      assert a[h] == MeaningOf(mem.w, holders[h]);
      StepKeeps(Now(), Op.Invoke(h, mem.run(a[h].callable.value, arg).content));
      result := cells[h].Invoke(arg);
    }
  }
}
