/** connect_to.hpp with one thread at work: pipelines that are wired step by step, and an `emit` that
    calls the `emit` of the next pipeline while it holds its own lock. */
module Network {
  import opened Core
  import opened Message
  import opened Processing
  import opened Wiring

  /** The wiring after the sink of `p` was set. */
  function Rewired<S>(sys: System<S>, p: nat, sink: Sink<S>): System<S>
    requires p < |sys.pipes|
  {
    sys.(pipes := sys.pipes[p := sys.pipes[p].(sink := sink)])
  }

  /** The two wirings differ in the sink of `p` at most. */
  ghost predicate SameBut<S>(a: System<S>, b: System<S>, p: nat) {
    && |a.pipes| == |b.pipes|
    && forall x :: 0 <= x < |a.pipes| && x != p ==> a.pipes[x].sink == b.pipes[x].sink
  }

  /** A way to `p` in one wiring is, up to its first visit of `p`, a way in the other. */
  lemma {:induction false} ReachesBoth<S>(a: System<S>, b: System<S>, p: nat, x: nat, k: nat) returns (m: nat)
    requires SameBut(a, b, p) && Follow(a, x, k) == Some(p)
    ensures Follow(b, x, m) == Some(p)
    decreases k
  {
    if x == p {
      return 0;
    }
    m := ReachesBoth(a, b, p, a.pipes[x].sink.target, k - 1);
    return m + 1;
  }

  /** A way is the same in both wirings, or it visits `p` before its end, after `j` forwards. */
  lemma {:induction false} SameOrVisits<S>(a: System<S>, b: System<S>, p: nat, x: nat, k: nat) returns (j: nat)
    requires SameBut(a, b, p)
    ensures Follow(a, x, k) == Follow(b, x, k) || (j < k && Follow(a, x, j) == Some(p))
    decreases k
  {
    j := 0;
    if k > 0 && x < |a.pipes| && x != p && a.pipes[x].sink.Forward? {
      j := SameOrVisits(a, b, p, a.pipes[x].sink.target, k - 1);
      j := j + 1;
    }
  }

  /** Whoever is on a cycle comes back to every pipeline that the cycle visits. */
  lemma CycleVisits<S>(sys: System<S>, x: nat, k: nat, j: nat, p: nat)
    requires j < k && Follow(sys, x, k) == Some(x) && Follow(sys, x, j) == Some(p)
    ensures Follow(sys, p, k) == Some(p)
  {
    FollowAdds(sys, x, j, k - j);
    FollowAdds(sys, p, k - j, j);
  }

  /** Letting `p` forward to `q` keeps an acyclic wiring acyclic exactly when `p` cannot be reached from
      `q`; in particular no pipeline may be connected to itself. */
  lemma ConnectKeepsAcyclic<S>(sys: System<S>, p: nat, q: nat, remap: Remap<S>)
    requires Acyclic(sys) && p < |sys.pipes| && q < |sys.pipes|
    ensures Acyclic(Rewired(sys, p, Forward(q, remap))) <==> forall k: nat :: Follow(sys, q, k) != Some(p)
  {
    var wired := Rewired(sys, p, Forward(q, remap));
    if k: nat :| Follow(sys, q, k) == Some(p) {
      var m := ReachesBoth(sys, wired, p, q, k);
      assert Follow(wired, p, m + 1) == Some(p);
    } else {
      forall x: nat, k: nat | x < |sys.pipes| && 1 <= k
        ensures Follow(wired, x, k) != Some(x)
      {
        NoNewCycle(sys, wired, p, q, x, k);
      }
    }
  }

  lemma NoNewCycle<S>(sys: System<S>, wired: System<S>, p: nat, q: nat, x: nat, k: nat)
    requires Acyclic(sys) && SameBut(sys, wired, p) && p < |sys.pipes| && x < |sys.pipes| && 1 <= k
    requires wired.pipes[p].sink.Forward? && wired.pipes[p].sink.target == q
    requires forall m: nat :: Follow(sys, q, m) != Some(p)
    ensures Follow(wired, x, k) != Some(x)
  {
    var j := SameOrVisits(wired, sys, p, x, k);
    if Follow(wired, x, k) == Some(x) {
      CycleVisits(wired, x, k, j, p);
      var m := ReachesBoth(wired, sys, p, q, k - 1);
    }
  }

  /** The captured states and what happened to each pipeline, as one list. */
  function CellsOf<S>(mems: seq<S>, logs: seq<seq<Entry>>): seq<Cell<S>>
    requires |mems| == |logs|
  {
    seq(|mems|, i requires 0 <= i < |mems| == |logs| => Cell(mems[i], logs[i]))
  }

  function ShapesOf<S>(stages: seq<seq<Stage<S>>>, sinks: seq<Sink<S>>): seq<Shape<S>>
    requires |stages| == |sinks|
  {
    seq(|stages|, i requires 0 <= i < |stages| == |sinks| => Shape(stages[i], sinks[i]))
  }

  class Network<S> {
    const cfg: Config
    const stages: seq<seq<Stage<S>>>
    const sinks: array<Sink<S>>
    const locked: array<bool>
    const mems: array<S>
    ghost var logs: seq<seq<Entry>>

    /** One of each for every pipeline. */
    ghost predicate Sized() {
      && |stages| == sinks.Length == locked.Length == mems.Length
      && sinks as object != mems as object && locked as object != mems as object
    }

    ghost predicate Valid()
      reads `logs
    {
      Sized() && |logs| == |stages|
    }

    ghost function Wires(): System<S>
      requires Sized()
      reads sinks
    {
      System(cfg, ShapesOf(stages, sinks[..]), [])
    }

    ghost function Cells(): seq<Cell<S>>
      requires Valid()
      reads `logs, mems
    {
      CellsOf(mems[..], logs)
    }

    /** `set_sink`, as `operator|` and `with_remap` call it. */
    method SetSink(p: nat, sink: Sink<S>)
      requires Valid() && p < |stages|
      modifies sinks
      ensures Valid() && Wires() == Rewired(old(Wires()), p, sink)
    {
      sinks[p] := sink;
    }

    /** `pipe | connect_to(target)`. */
    method Pipe(p: nat, target: nat)
      requires Valid() && p < |stages| && target < |stages|
      modifies sinks
      ensures Valid() && Wires() == Rewired(old(Wires()), p, ConnectTo(target))
    {
      SetSink(p, ConnectTo(target));
    }

    /** `pipe | connect_to(target, prefix)`. */
    method PipeWithPrefix(p: nat, target: nat, prefix: string)
      requires Valid() && p < |stages| && target < |stages|
      modifies sinks
      ensures Valid() && Wires() == Rewired(old(Wires()), p, ConnectToPrefix(target, prefix))
    {
      SetSink(p, ConnectToPrefix(target, prefix));
    }

    /** The stages of one pipeline on the message its lock holder brought. */
    method RunStagesOf(p: nat, msg: View) returns (out: Option<View>)
      requires Valid() && p < |stages|
      modifies mems
      ensures Outcome(mems[p], out) == RunStages(stages[p], 0, old(mems[p]), msg)
      ensures forall x :: 0 <= x < mems.Length && x != p ==> mems[x] == old(mems[x])
    {
      var m, i := msg, 0;
      while i < |stages[p]|
        invariant i <= |stages[p]|
        invariant RunStages(stages[p], 0, old(mems[p]), msg) == RunStages(stages[p], i, mems[p], m)
        invariant forall x :: 0 <= x < mems.Length && x != p ==> mems[x] == old(mems[x])
      {
        var o := stages[p][i](mems[p], m);
        mems[p] := o.mem;
        if !o.keep {
          return None;
        }
        m, i := o.msg, i + 1;
      }
      return Some(m);
    }

    /** The locks of all pipelines with fewer than `h` hops to go are free. */
    ghost predicate FreeBelow(h: nat)
      requires Sized() && Acyclic(Wires())
      reads sinks, locked
    {
      forall x :: 0 <= x < |stages| && Hops(Wires(), x) < h ==> !locked[x]
    }

    /** The nested calls do to all pipelines what the sequential emit is defined to do, and leave every
        lock as it was. */
    method Emit(ghost tk: Ticket, p: nat, msg: View)
      requires Valid() && p < |stages| && Acyclic(Wires()) && FreeBelow(Hops(Wires(), p) + 1)
      modifies locked, mems, `logs
      ensures Valid() && locked[..] == old(locked[..])
      ensures Cells() == SeqEmit(Wires(), old(Cells()), tk, p, msg)
      decreases Hops(Wires(), p), 1
    {
      ghost var before := Cells();
      assert !locked[p];
      locked[p] := true;
      logs := logs[p := logs[p] + [Entry(tk, msg)]];
      assert Cells() == before[p := Enter(before[p], tk, msg)];
      ghost var visit := Visit(Wires(), p, before[p], tk, msg);
      assert Cells()[p := visit.cell] == before[p := visit.cell];
      ProcessMessage(tk, p, msg);
      locked[p] := false;
    }

    /** `process_message` while the lock of `p` is held. */
    method ProcessMessage(ghost tk: Ticket, p: nat, msg: View)
      requires Valid() && p < |stages| && Acyclic(Wires()) && FreeBelow(Hops(Wires(), p))
      modifies locked, mems, `logs
      ensures Valid() && locked[..] == old(locked[..])
      ensures var l := FromEntry(cfg, Wires().pipes[p], old(Cells())[p], msg);
              var after := old(Cells())[p := l.cell];
              Cells() == if l.next.None? then after
                         else SeqEmit(Wires(), after, tk, l.next.value.pipe, l.next.value.view)
      decreases Hops(Wires(), p), 0
    {
      ghost var before := Cells();
      ghost var l := FromEntry(cfg, Wires().pipes[p], before[p], msg);
      if |msg.topic| > cfg.maxTopicLen || |msg.payload| > cfg.maxPayloadLen {
        assert Cells() == before[p := l.cell];
        return;
      }
      var out := RunStagesOf(p, msg);
      if out.Some? {
        match sinks[p]
        case NoSink =>
        case Local(absorb) => mems[p] := absorb(mems[p], out.value);
        case Forward(target, remap) =>
          var r := remap(mems[p], out.value);
          mems[p] := r.mem;
          ForwardIsCloser(Wires(), p);
          assert l == Leave(Cell(mems[p], logs[p]), Some(Job(target, r.view)));
          assert Cells() == before[p := l.cell];
          Emit(tk, target, r.view);
          return;
      }
      assert l == Leave(Cell(mems[p], logs[p]), None);
      assert Cells() == before[p := l.cell];
    }
  }
}
