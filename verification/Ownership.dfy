/** The ownership protocol shared by small_function.hpp and any_source.hpp: holders that own at most
    one object each, over the memory in which these objects live and die. */
module Ownership {
  import opened Core

  /** An object of some type.  `content` is what it does when it is called; a moved-from object has
      none left. */
  datatype Obj = Obj(kind: nat, content: Option<nat>, live: bool)

  /** Every object ever constructed, by number, and how many calls of destructors there were.  `ok`
      is lost when a dead or moved-from object is used, when an object is destroyed twice, or when
      either is done through the functions of another type. */
  datatype World = World(objs: seq<Obj>, destroyed: nat, ok: bool)

  predicate Usable(w: World, kind: nat, id: nat) {
    id < |w.objs| && w.objs[id].live && w.objs[id].kind == kind && w.objs[id].content.Some?
  }

  function Made(w: World, kind: nat, content: nat): World {
    w.(objs := w.objs + [Obj(kind, Some(content), true)])
  }

  /** `move_impl`: a new object with the content of the old one, which stays alive without it. */
  function MovedOut(w: World, kind: nat, id: nat): World {
    if Usable(w, kind, id) then
      w.(objs := w.objs[id := w.objs[id].(content := None)] + [w.objs[id]])
    else
      w.(objs := w.objs + [Obj(kind, None, true)], ok := false)
  }

  /** `destroy_impl`. */
  function Destroyed(w: World, kind: nat, id: nat): World {
    if id < |w.objs| && w.objs[id].live && w.objs[id].kind == kind then
      w.(objs := w.objs[id := w.objs[id].(live := false)], destroyed := w.destroyed + 1)
    else
      w.(destroyed := w.destroyed + 1, ok := false)
  }

  /** `invoke_impl`, or an operation of a source: the object may change itself, to `next`. */
  function Used(w: World, kind: nat, id: nat, next: nat): World {
    if Usable(w, kind, id) then w.(objs := w.objs[id := w.objs[id].(content := Some(next))]) else w.(ok := false)
  }

  // ----- what an operation of a holder does, given the object it owns

  predicate Owns(w: World, owner: Option<nat>) {
    owner.Some? ==> owner.value < |w.objs| && Usable(w, w.objs[owner.value].kind, owner.value)
  }

  function Released(w: World, owner: Option<nat>): World
    requires Owns(w, owner)
  {
    if owner.None? then w else Destroyed(w, w.objs[owner.value].kind, owner.value)
  }

  /** The object moves into a new one, and what is left of it is destroyed. */
  function Transferred(w: World, owner: Option<nat>): World
    requires Owns(w, owner)
  {
    if owner.None? then w
    else
      var kind := w.objs[owner.value].kind;
      Destroyed(MovedOut(w, kind, owner.value), kind, owner.value)
  }

  function NewOwner(w: World, owner: Option<nat>): Option<nat> {
    if owner.None? then None else Some(|w.objs|)
  }

  lemma TransferredEffect(w: World, owner: Option<nat>)
    requires Owns(w, owner) && owner.Some?
    ensures var id := owner.value;
            var t := Transferred(w, owner);
            && t.ok == w.ok && t.destroyed == w.destroyed + 1 && |t.objs| == |w.objs| + 1
            && t.objs[|w.objs|] == w.objs[id]
            && t.objs[id] == w.objs[id].(content := None, live := false)
            && forall i :: 0 <= i < |w.objs| && i != id ==> t.objs[i] == w.objs[i]
  {
  }

  // ----- programs over any number of holders

  datatype Holder = Gone | Here(owner: Option<nat>)

  datatype State = State(w: World, holders: seq<Holder>)

  /** Holders are numbered in the order of their construction.  Constructors make a new one. */
  datatype Op =
    | MakeEmpty
    | Make(kind: nat, content: nat)
    | MoveMake(from: nat)
    | MoveAssign(to: nat, from: nat)
    | Reset(h: nat)
    | Destroy(h: nat)
    | Invoke(h: nat, next: nat)       // the call leaves the callable as `next`

  const NOTHING := State(World([], 0, true), [])

  predicate IsHere(s: State, h: nat) {
    h < |s.holders| && s.holders[h].Here?
  }

  /** What a C++ program can do: use holders within their lifetime and call none that is empty. */
  predicate Allowed(s: State, op: Op) {
    match op
    case MakeEmpty => true
    case Make(_, _) => true
    case MoveMake(g) => IsHere(s, g)
    case MoveAssign(h, g) => IsHere(s, h) && IsHere(s, g)
    case Reset(h) => IsHere(s, h)
    case Destroy(h) => IsHere(s, h)
    case Invoke(h, _) => IsHere(s, h) && s.holders[h].owner.Some?
  }

  /** Every holder owns an object that can be used. */
  predicate Owning(s: State) {
    forall h :: 0 <= h < |s.holders| && s.holders[h].Here? ==> Owns(s.w, s.holders[h].owner)
  }

  /** No two holders own the same object. */
  predicate Apart(s: State) {
    forall g, h :: 0 <= g < h < |s.holders| && s.holders[g].Here? && s.holders[g].owner.Some?
      ==> s.holders[g] != s.holders[h]
  }

  /** Every live object has an owner. */
  predicate Owned(s: State, id: nat) {
    exists h :: 0 <= h < |s.holders| && s.holders[h] == Here(Some(id))
  }

  function Live(objs: seq<Obj>): nat {
    if objs == [] then 0 else Live(objs[..|objs| - 1]) + if objs[|objs| - 1].live then 1 else 0
  }

  /** Nothing was misused; every live object has exactly one owner and can be used by it; every
      object that was constructed is alive or was destroyed, once. */
  ghost predicate Inv(s: State) {
    && s.w.ok && Owning(s) && Apart(s)
    && (forall id :: 0 <= id < |s.w.objs| && s.w.objs[id].live ==> Owned(s, id))
    && s.w.destroyed + Live(s.w.objs) == |s.w.objs|
  }

  /** A holder without an object. */
  function AddHolder(s: State): State {
    s.(holders := s.holders + [Here(None)])
  }

  function Construct(s: State, kind: nat, content: nat): State {
    State(Made(s.w, kind, content), s.holders + [Here(Some(|s.w.objs|))])
  }

  function Release(s: State, h: nat): State
    requires Owning(s) && IsHere(s, h)
  {
    State(Released(s.w, s.holders[h].owner), s.holders[h := Here(None)])
  }

  function MoveInto(s: State, h: nat, g: nat): State
    requires Owning(s) && IsHere(s, h) && IsHere(s, g)
  {
    var owner := s.holders[g].owner;
    State(Transferred(s.w, owner), s.holders[g := Here(None)][h := Here(NewOwner(s.w, owner))])
  }

  function Call(s: State, h: nat, next: nat): State
    requires Owning(s) && IsHere(s, h) && s.holders[h].owner.Some?
  {
    assert Owns(s.w, s.holders[h].owner);
    var id := s.holders[h].owner.value;
    s.(w := Used(s.w, s.w.objs[id].kind, id, next))
  }

  lemma {:induction false} LiveUpdate(objs: seq<Obj>, id: nat, o: Obj)
    requires id < |objs|
    ensures Live(objs[id := o]) + (if objs[id].live then 1 else 0) == Live(objs) + (if o.live then 1 else 0)
  {
    var n := |objs| - 1;
    if id < n {
      LiveUpdate(objs[..n], id, o);
      assert objs[id := o][..n] == objs[..n][id := o];
    } else {
      assert objs[id := o][..n] == objs[..n];
    }
  }

  lemma LiveSnoc(objs: seq<Obj>, o: Obj)
    ensures Live(objs + [o]) == Live(objs) + if o.live then 1 else 0
  {
    assert (objs + [o])[..|objs|] == objs;
  }

  lemma AddHolderKeeps(s: State)
    requires Inv(s)
    ensures Inv(AddHolder(s))
  {
    var t := AddHolder(s);
    forall id | 0 <= id < |t.w.objs| && t.w.objs[id].live
      ensures Owned(t, id)
    {
      assert Owned(s, id);
      var h :| 0 <= h < |s.holders| && s.holders[h] == Here(Some(id));
      assert t.holders[h] == Here(Some(id));
    }
  }

  lemma ConstructKeeps(s: State, kind: nat, content: nat)
    requires Inv(s)
    ensures Inv(Construct(s, kind, content))
  {
    var t := Construct(s, kind, content);
    LiveSnoc(s.w.objs, Obj(kind, Some(content), true));
    forall id | 0 <= id < |t.w.objs| && t.w.objs[id].live
      ensures Owned(t, id)
    {
      if id < |s.w.objs| {
        assert Owned(s, id);
        var h :| 0 <= h < |s.holders| && s.holders[h] == Here(Some(id));
        assert t.holders[h] == Here(Some(id));
      } else {
        assert t.holders[|s.holders|] == Here(Some(id));
      }
    }
  }

  lemma ReleaseKeeps(s: State, h: nat)
    requires Inv(s) && IsHere(s, h)
    ensures Inv(Release(s, h))
  {
    var t := Release(s, h);
    assert Owns(s.w, s.holders[h].owner);
    if s.holders[h].owner.Some? {
      var id := s.holders[h].owner.value;
      LiveUpdate(s.w.objs, id, s.w.objs[id].(live := false));
    }
    forall id | 0 <= id < |t.w.objs| && t.w.objs[id].live
      ensures Owned(t, id)
    {
      assert Owned(s, id);
      var g :| 0 <= g < |s.holders| && s.holders[g] == Here(Some(id));
      assert t.holders[g] == Here(Some(id));
    }
  }

  lemma CallKeeps(s: State, h: nat, next: nat)
    requires Inv(s) && IsHere(s, h) && s.holders[h].owner.Some?
    ensures Inv(Call(s, h, next))
  {
    var t := Call(s, h, next);
    assert Owns(s.w, s.holders[h].owner);
    var id := s.holders[h].owner.value;
    LiveUpdate(s.w.objs, id, s.w.objs[id].(content := Some(next)));
    forall i | 0 <= i < |t.w.objs| && t.w.objs[i].live
      ensures Owned(t, i)
    {
      assert Owned(s, i);
    }
  }

  lemma TransferCounts(w: World, owner: Option<nat>)
    requires Owns(w, owner) && w.destroyed + Live(w.objs) == |w.objs|
    ensures var t := Transferred(w, owner); t.destroyed + Live(t.objs) == |t.objs|
  {
    if owner.Some? {
      var id := owner.value;
      var t := Transferred(w, owner);
      TransferredEffect(w, owner);
      LiveUpdate(w.objs, id, t.objs[id]);
      LiveSnoc(w.objs[id := t.objs[id]], w.objs[id]);
      assert t.objs == w.objs[id := t.objs[id]] + [w.objs[id]];
    }
  }

  lemma MoveIntoOwned(s: State, h: nat, g: nat, id: nat)
    requires Inv(s) && IsHere(s, h) && IsHere(s, g) && h != g && s.holders[h].owner.None?
    requires var t := MoveInto(s, h, g); id < |t.w.objs| && t.w.objs[id].live
    ensures Owned(MoveInto(s, h, g), id)
  {
    var t := MoveInto(s, h, g);
    assert Owns(s.w, s.holders[g].owner);
    if id < |s.w.objs| {
      assert Owned(s, id);
      var k :| 0 <= k < |s.holders| && s.holders[k] == Here(Some(id));
      assert t.holders[k] == Here(Some(id));
    } else {
      assert t.holders[h] == Here(Some(id));
    }
  }

  lemma MoveIntoKeeps(s: State, h: nat, g: nat)
    requires Inv(s) && IsHere(s, h) && IsHere(s, g) && h != g && s.holders[h].owner.None?
    ensures Inv(MoveInto(s, h, g))
  {
    var t := MoveInto(s, h, g);
    var owner := s.holders[g].owner;
    assert Owns(s.w, owner);
    TransferCounts(s.w, owner);
    if owner.Some? {
      TransferredEffect(s.w, owner);
    }
    forall id | 0 <= id < |t.w.objs| && t.w.objs[id].live
      ensures Owned(t, id)
    {
      MoveIntoOwned(s, h, g, id);
    }
  }

  // ----- every operation

  ghost function Step(s: State, op: Op): State
    requires Inv(s) && Allowed(s, op)
  {
    match op
    case MakeEmpty => AddHolder(s)
    case Make(kind, content) => Construct(s, kind, content)
    case MoveMake(g) => AddHolderKeeps(s); MoveInto(AddHolder(s), |s.holders|, g)
    case MoveAssign(h, g) => if h == g then s else ReleaseKeeps(s, h); MoveInto(Release(s, h), h, g)
    case Reset(h) => Release(s, h)
    case Destroy(h) => Release(s, h).(holders := s.holders[h := Gone])
    case Invoke(h, next) => Call(s, h, next)
  }

  lemma StepKeeps(s: State, op: Op)
    requires Inv(s) && Allowed(s, op)
    ensures Inv(Step(s, op))
  {
    match op
    case MakeEmpty => AddHolderKeeps(s);
    case Make(kind, content) => ConstructKeeps(s, kind, content);
    case MoveMake(g) =>
      AddHolderKeeps(s);
      MoveIntoKeeps(AddHolder(s), |s.holders|, g);
    case MoveAssign(h, g) =>
      if h != g {
        ReleaseKeeps(s, h);
        MoveIntoKeeps(Release(s, h), h, g);
      }
    case Reset(h) => ReleaseKeeps(s, h);
    case Destroy(h) =>
      ReleaseKeeps(s, h);
      GoneKeeps(Release(s, h), h);
      assert Release(s, h).holders[h := Gone] == s.holders[h := Gone];
    case Invoke(h, next) => CallKeeps(s, h, next);
  }

  lemma GoneKeeps(s: State, h: nat)
    requires Inv(s) && h < |s.holders| && s.holders[h] == Here(None)
    ensures Inv(s.(holders := s.holders[h := Gone]))
  {
    var t := s.(holders := s.holders[h := Gone]);
    forall id | 0 <= id < |t.w.objs| && t.w.objs[id].live
      ensures Owned(t, id)
    {
      assert Owned(s, id);
      var g :| 0 <= g < |s.holders| && s.holders[g] == Here(Some(id));
      assert t.holders[g] == Here(Some(id));
    }
  }

  // ----- what a user of the holders sees

  /** Something to call: which type it has and what it does. */
  datatype Callable = Callable(kind: nat, content: nat)

  datatype Meaning = Ended | Means(callable: Option<Callable>)

  /** The holders as values: a move carries the callable over and leaves its source empty, and a call
      changes the one that is called and no other. */
  function Effect(a: seq<Meaning>, op: Op): seq<Meaning> {
    match op
    case MakeEmpty => a + [Means(None)]
    case Make(kind, content) => a + [Means(Some(Callable(kind, content)))]
    case MoveMake(g) => if g < |a| then a[g := Means(None)] + [a[g]] else a
    case MoveAssign(h, g) => if h != g && g < |a| && h < |a| then a[g := Means(None)][h := a[g]] else a
    case Reset(h) => if h < |a| then a[h := Means(None)] else a
    case Destroy(h) => if h < |a| then a[h := Ended] else a
    case Invoke(h, next) =>
      if h < |a| && a[h].Means? && a[h].callable.Some? then a[h := Means(Some(a[h].callable.value.(content := next)))] else a
  }

  predicate Sensible(a: seq<Meaning>, op: Op) {
    match op
    case MakeEmpty => true
    case Make(_, _) => true
    case MoveMake(g) => g < |a| && a[g].Means?
    case MoveAssign(h, g) => h < |a| && g < |a| && a[h].Means? && a[g].Means?
    case Reset(h) => h < |a| && a[h].Means?
    case Destroy(h) => h < |a| && a[h].Means?
    case Invoke(h, _) => h < |a| && a[h].Means? && a[h].callable.Some?
  }

  function MeaningOf(w: World, h: Holder): Meaning
    requires h.Here? ==> Owns(w, h.owner)
  {
    match h
    case Gone => Ended
    case Here(None) => Means(None)
    case Here(Some(id)) => Means(Some(Callable(w.objs[id].kind, w.objs[id].content.value)))
  }

  /** The holders mean what the values say. */
  predicate Stands(s: State, a: seq<Meaning>)
    requires Owning(s)
  {
    |a| == |s.holders| && forall h :: 0 <= h < |a| ==> a[h] == MeaningOf(s.w, s.holders[h])
  }

  lemma MoveIntoMoves(s: State, h: nat, g: nat, a: seq<Meaning>)
    requires Inv(s) && IsHere(s, h) && IsHere(s, g) && h != g && s.holders[h].owner.None? && Stands(s, a)
    ensures Inv(MoveInto(s, h, g)) && Stands(MoveInto(s, h, g), a[g := Means(None)][h := a[g]])
  {
    MoveIntoKeeps(s, h, g);
    assert Owns(s.w, s.holders[g].owner);
    if s.holders[g].owner.Some? {
      TransferredEffect(s.w, s.holders[g].owner);
    }
    var t := MoveInto(s, h, g);
    forall k | 0 <= k < |a|
      ensures a[g := Means(None)][h := a[g]][k] == MeaningOf(t.w, t.holders[k])
    {
      assert a[k] == MeaningOf(s.w, s.holders[k]);
      assert s.holders[k].Here? ==> Owns(s.w, s.holders[k].owner);
    }
  }

  lemma ReleaseEmpties(s: State, h: nat, a: seq<Meaning>)
    requires Inv(s) && IsHere(s, h) && Stands(s, a)
    ensures Inv(Release(s, h)) && Stands(Release(s, h), a[h := Means(None)])
  {
    ReleaseKeeps(s, h);
    var t := Release(s, h);
    forall k | 0 <= k < |a|
      ensures a[h := Means(None)][k] == MeaningOf(t.w, t.holders[k])
    {
      assert a[k] == MeaningOf(s.w, s.holders[k]);
      assert s.holders[k].Here? ==> Owns(s.w, s.holders[k].owner);
    }
  }

  lemma CallStands(s: State, h: nat, next: nat, a: seq<Meaning>)
    requires Inv(s) && IsHere(s, h) && s.holders[h].owner.Some? && Stands(s, a)
    ensures Inv(Call(s, h, next)) && Stands(Call(s, h, next), Effect(a, Invoke(h, next)))
  {
    CallKeeps(s, h, next);
    var t := Call(s, h, next);
    assert Owns(s.w, s.holders[h].owner);
    assert a[h] == MeaningOf(s.w, s.holders[h]);
    forall k | 0 <= k < |a|
      ensures Effect(a, Invoke(h, next))[k] == MeaningOf(t.w, t.holders[k])
    {
      assert a[k] == MeaningOf(s.w, s.holders[k]);
      assert s.holders[k].Here? ==> Owns(s.w, s.holders[k].owner);
    }
  }

  lemma AddHolderStands(s: State, a: seq<Meaning>)
    requires Inv(s) && Stands(s, a)
    ensures Inv(AddHolder(s)) && Stands(AddHolder(s), a + [Means(None)])
  {
    AddHolderKeeps(s);
  }

  lemma ConstructStands(s: State, kind: nat, content: nat, a: seq<Meaning>)
    requires Inv(s) && Stands(s, a)
    ensures Inv(Construct(s, kind, content))
    ensures Stands(Construct(s, kind, content), a + [Means(Some(Callable(kind, content)))])
  {
    ConstructKeeps(s, kind, content);
    var t := Construct(s, kind, content);
    forall k | 0 <= k < |a|
      ensures a[k] == MeaningOf(t.w, t.holders[k])
    {
      assert a[k] == MeaningOf(s.w, s.holders[k]);
      assert s.holders[k].Here? ==> Owns(s.w, s.holders[k].owner);
    }
  }

  lemma AllowedIffSensible(s: State, op: Op, a: seq<Meaning>)
    requires Inv(s) && Stands(s, a)
    ensures Allowed(s, op) <==> Sensible(a, op)
  {
  }

  lemma MoveMakeStands(s: State, g: nat, a: seq<Meaning>)
    requires Inv(s) && Stands(s, a) && IsHere(s, g)
    ensures var t := Step(s, MoveMake(g)); Inv(t) && Stands(t, Effect(a, MoveMake(g)))
  {
    AddHolderStands(s, a);
    MoveIntoMoves(AddHolder(s), |s.holders|, g, a + [Means(None)]);
    assert (a + [Means(None)])[g := Means(None)][|a| := a[g]] == Effect(a, MoveMake(g));
  }

  lemma MoveAssignStands(s: State, h: nat, g: nat, a: seq<Meaning>)
    requires Inv(s) && Stands(s, a) && IsHere(s, h) && IsHere(s, g)
    ensures var t := Step(s, MoveAssign(h, g)); Inv(t) && Stands(t, Effect(a, MoveAssign(h, g)))
  {
    if h != g {
      ReleaseEmpties(s, h, a);
      MoveIntoMoves(Release(s, h), h, g, a[h := Means(None)]);
      assert a[h := Means(None)][g := Means(None)][h := a[g]] == Effect(a, MoveAssign(h, g));
    }
  }

  /** Every operation does to the objects what the values say. */
  lemma StepStands(s: State, op: Op, a: seq<Meaning>)
    requires Inv(s) && Stands(s, a)
    ensures Allowed(s, op) <==> Sensible(a, op)
    ensures Allowed(s, op) ==> Inv(Step(s, op)) && Stands(Step(s, op), Effect(a, op))
  {
    AllowedIffSensible(s, op, a);
    if Allowed(s, op) {
      match op
      case MakeEmpty => AddHolderStands(s, a);
      case Make(kind, content) => ConstructStands(s, kind, content, a);
      case MoveMake(g) => MoveMakeStands(s, g, a);
      case MoveAssign(h, g) => MoveAssignStands(s, h, g, a);
      case Reset(h) => ReleaseEmpties(s, h, a);
      case Destroy(h) =>
        ReleaseEmpties(s, h, a);
        StepKeeps(s, op);
      case Invoke(h, next) => CallStands(s, h, next, a);
    }
  }

  /** A whole program; what no C++ program can do is left out. */
  ghost function Run(ops: seq<Op>): (s: State)
    ensures Inv(s)
    decreases |ops|
  {
    if ops == [] then NOTHING
    else
      var s := Run(ops[..|ops| - 1]);
      var op := ops[|ops| - 1];
      if Allowed(s, op) then StepKeeps(s, op); Step(s, op) else s
  }

  function Effects(ops: seq<Op>): seq<Meaning>
    decreases |ops|
  {
    if ops == [] then []
    else
      var a := Effects(ops[..|ops| - 1]);
      var op := ops[|ops| - 1];
      if Sensible(a, op) then Effect(a, op) else a
  }

  /** Over any program nothing is misused, every live object has exactly one owner, each object is
      destroyed once or still alive, and the holders mean what they mean as values. */
  lemma {:induction false} OwnershipIsSound(ops: seq<Op>)
    ensures Inv(Run(ops)) && Stands(Run(ops), Effects(ops))
    decreases |ops|
  {
    if ops != [] {
      var n := |ops| - 1;
      OwnershipIsSound(ops[..n]);
      StepStands(Run(ops[..n]), ops[n], Effects(ops[..n]));
    }
  }

  /** After any program, an assignment of one holder to another gives the target what the source meant
      and leaves the source empty; the target's own callable is gone, every other holder means what it
      meant, and an assignment to itself changes nothing. */
  lemma MoveCarriesMeaning(ops: seq<Op>, h: nat, g: nat)
    requires IsHere(Run(ops), h) && IsHere(Run(ops), g)
    ensures var a := Effects(ops);
            var after := Effects(ops + [MoveAssign(h, g)]);
            && |after| == |a| == |Run(ops).holders| && after[h] == a[g]
            && (h != g ==> after[g] == Means(None))
            && (forall k :: 0 <= k < |a| && k != h && k != g ==> after[k] == a[k])
            && Stands(Run(ops + [MoveAssign(h, g)]), after)
  {
    OwnershipIsSound(ops);
    OwnershipIsSound(ops + [MoveAssign(h, g)]);
    assert (ops + [MoveAssign(h, g)])[..|ops|] == ops;
    AllowedIffSensible(Run(ops), MoveAssign(h, g), Effects(ops));
  }

  /** After any program a construction adds a holder with what it was given. */
  lemma ConstructionsMean(ops: seq<Op>, kind: nat, content: nat)
    ensures Effects(ops + [MakeEmpty]) == Effects(ops) + [Means(None)]
    ensures Effects(ops + [Make(kind, content)]) == Effects(ops) + [Means(Some(Callable(kind, content)))]
  {
    OneMoreEffect(ops, MakeEmpty);
    OneMoreEffect(ops, Make(kind, content));
  }

  /** A reset empties its holder, and no other holder means anything else. */
  lemma ResetsMean(ops: seq<Op>, h: nat)
    requires IsHere(Run(ops), h)
    ensures h < |Effects(ops)| && Effects(ops + [Reset(h)]) == Effects(ops)[h := Means(None)]
  {
    AsManyHolders(ops);
    OneMoreEffect(ops, Reset(h));
  }

  /** A destruction ends its holder, and no other holder means anything else. */
  lemma DestructionsMean(ops: seq<Op>, h: nat)
    requires IsHere(Run(ops), h)
    ensures h < |Effects(ops)| && Effects(ops + [Destroy(h)]) == Effects(ops)[h := Ended]
  {
    AsManyHolders(ops);
    OneMoreEffect(ops, Destroy(h));
  }

  lemma AsManyHolders(ops: seq<Op>)
    ensures |Effects(ops)| == |Run(ops).holders|
  {
    OwnershipIsSound(ops);
  }

  /** A call leaves the callable as it leaves itself, and no other holder means anything else. */
  lemma CallsMean(ops: seq<Op>, h: nat, next: nat)
    requires IsHere(Run(ops), h) && Run(ops).holders[h].owner.Some?
    ensures var a := Effects(ops);
            && h < |a| && a[h].Means? && a[h].callable.Some?
            && Effects(ops + [Invoke(h, next)]) == a[h := Means(Some(Callable(a[h].callable.value.kind, next)))]
  {
    OwnershipIsSound(ops);
    AllowedIffSensible(Run(ops), Invoke(h, next), Effects(ops));
    OneMoreEffect(ops, Invoke(h, next));
  }

  lemma OneMoreEffect(ops: seq<Op>, op: Op)
    ensures Effects(ops + [op]) == if Allowed(Run(ops), op) then Effect(Effects(ops), op) else Effects(ops)
  {
    OwnershipIsSound(ops);
    AllowedIffSensible(Run(ops), op, Effects(ops));
    assert (ops + [op])[..|ops|] == ops;
  }

  /** Move construction gives the new holder what the old one meant and leaves that one empty. */
  lemma MoveMakeCarriesMeaning(ops: seq<Op>, g: nat)
    requires IsHere(Run(ops), g)
    ensures var a := Effects(ops);
            var after := Effects(ops + [MoveMake(g)]);
            && |after| == |a| + 1 && g < |a| && after[|a|] == a[g] && after[g] == Means(None)
            && (forall k :: 0 <= k < |a| && k != g ==> after[k] == a[k])
            && Stands(Run(ops + [MoveMake(g)]), after)
  {
    OwnershipIsSound(ops);
    OwnershipIsSound(ops + [MoveMake(g)]);
    assert (ops + [MoveMake(g)])[..|ops|] == ops;
    AllowedIffSensible(Run(ops), MoveMake(g), Effects(ops));
  }

  /** The single owner of a live object. */
  lemma OneOwner(ops: seq<Op>, id: nat)
    requires id < |Run(ops).w.objs| && Run(ops).w.objs[id].live
    ensures exists h :: 0 <= h < |Run(ops).holders| && Run(ops).holders[h] == Here(Some(id))
                        && forall g :: 0 <= g < |Run(ops).holders| && Run(ops).holders[g] == Here(Some(id)) ==> g == h
  {
    var s := Run(ops);
    assert Owned(s, id);
    var h :| 0 <= h < |s.holders| && s.holders[h] == Here(Some(id));
    forall g | 0 <= g < |s.holders| && s.holders[g] == Here(Some(id))
      ensures g == h
    {
    }
  }

  lemma {:induction false} LiveNone(objs: seq<Obj>)
    requires forall id :: 0 <= id < |objs| ==> !objs[id].live
    ensures Live(objs) == 0
  {
    if objs != [] {
      LiveNone(objs[..|objs| - 1]);
    }
  }

  /** When all holders are empty or gone, every object that was ever constructed has been destroyed,
      and there were as many destructions as constructions. */
  lemma NothingLeaks(ops: seq<Op>)
    requires forall h :: 0 <= h < |Effects(ops)| ==> Effects(ops)[h] == Ended || Effects(ops)[h] == Means(None)
    ensures var w := Run(ops).w;
            w.ok && w.destroyed == |w.objs| && forall id :: 0 <= id < |w.objs| ==> !w.objs[id].live
  {
    OwnershipIsSound(ops);
    var s := Run(ops);
    forall h | 0 <= h < |s.holders|
      ensures s.holders[h] == Gone || s.holders[h] == Here(None)
    {
      assert Effects(ops)[h] == MeaningOf(s.w, s.holders[h]);
    }
    assert forall id :: 0 <= id < |s.w.objs| && s.w.objs[id].live ==> Owned(s, id);
    LiveNone(s.w.objs);
  }
}
