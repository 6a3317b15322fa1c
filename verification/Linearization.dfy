/** Every interleaving of emits is explained by the same emits run whole, one after the other.

    An emit takes the lock of each pipeline it passes and gives none back before it has the last one,
    so it takes effect as a whole when its processing is complete: `order` lists the emits by those
    moments.  The abstract state is the sequential run over `order`. */
module Linearization {
  import opened Core
  import opened Message
  import opened Processing
  import opened Wiring
  import opened Threads

  /** The current emit of the thread is complete and only unlocks what it still holds. */
  predicate Completed(th: Thread) {
    th.stack != [] && Top(th.stack).pc.Releasing?
  }

  /** How many emits of its program the thread has completed. */
  function Done(th: Thread): nat {
    th.next + if Completed(th) then 1 else 0
  }

  /** The frames that hold the lock of their pipeline: all but one that is still acquiring it. */
  function Holding(th: Thread): nat {
    if th.stack == [] then 0
    else if Top(th.stack).pc.Acquiring? then |th.stack| - 1
    else |th.stack|
  }

  // ----- the sequential explanation

  ghost predicate Tickets<S>(sys: System<S>, order: seq<Ticket>) {
    forall k :: 0 <= k < |order| ==> ValidTicket(sys, order[k])
  }

  /** What a lock holder has done so far, from the abstract cell on: it has entered, or has run the
      first `i` stages on its message and holds what they left, or its own part of the emit is done. */
  ghost predicate FrameExplained<S>(sys: System<S>, was: Cell<S>, now: Cell<S>, tk: Ticket, f: Frame)
    requires f.pipe < |sys.pipes|
  {
    var entered := Enter(was, tk, f.view);
    match f.pc
    case Acquiring => true
    case Entered => now == entered
    case AtStage(i, msg) =>
      && Fits(sys.cfg, f.view) && i <= |sys.pipes[f.pipe].stages|
      && now.log == entered.log
      && RunFirst(sys.pipes[f.pipe].stages, i, was.mem, f.view) == Outcome(now.mem, Some(msg))
    case InTarget => now == Visit(sys, f.pipe, was, tk, f.view).cell
    case Releasing => now == was
  }

  /** The work so far, finished from the present cell, is the whole visit from the abstract cell. */
  lemma Finishes<S>(sys: System<S>, was: Cell<S>, now: Cell<S>, tk: Ticket, f: Frame)
    requires f.pipe < |sys.pipes| && f.pc.AtStage? && FrameExplained(sys, was, now, tk, f)
    ensures FromStage(sys.pipes[f.pipe], f.pc.i, now, f.pc.msg) == Visit(sys, f.pipe, was, tk, f.view)
  {
    FirstThenRest(sys.pipes[f.pipe].stages, f.pc.i, was.mem, f.view);
  }

  /** The emit on top is the one the sink below makes in the sequential run. */
  ghost predicate LinkExplained<S>(sys: System<S>, was: Cell<S>, tk: Ticket, f: Frame, above: Frame)
    requires f.pipe < |sys.pipes|
  {
    Visit(sys, f.pipe, was, tk, f.view).next == Some(Job(above.pipe, above.view))
  }

  /** Everything a thread has changed and not completed is the partial progress of its current emit;
      once the emit is complete, everything it still holds is as the abstract state says. */
  ghost predicate ThreadExplained<S>(sys: System<S>, abst: seq<Cell<S>>, cells: seq<Cell<S>>, tk: Ticket, th: Thread) {
    && |abst| == |cells| == |sys.pipes|
    && (forall i :: 0 <= i < |th.stack| ==>
         && th.stack[i].pipe < |sys.pipes|
         && if Completed(th) then cells[th.stack[i].pipe] == abst[th.stack[i].pipe]
            else FrameExplained(sys, abst[th.stack[i].pipe], cells[th.stack[i].pipe], tk, th.stack[i]))
    && (!Completed(th) ==> forall i :: 0 <= i < |th.stack| - 1 ==>
         LinkExplained(sys, abst[th.stack[i].pipe], tk, th.stack[i], th.stack[i + 1]))
  }

  // ----- locks

  /** The auxiliary holder is what the lock bit says, and only frames that hold a lock are holders. */
  predicate LocksMatch<S>(s: State<S>) {
    && |s.locks| == |s.holders|
    && (forall p :: 0 <= p < |s.locks| ==> s.locks[p] == s.holders[p].Some?)
  }

  predicate HoldsOwn<S>(s: State<S>, t: nat)
    requires t < |s.threads|
  {
    var th := s.threads[t];
    forall i :: 0 <= i < Holding(th) ==>
      th.stack[i].pipe < |s.holders| && s.holders[th.stack[i].pipe] == Some(t)
  }

  ghost predicate HolderHolds<S>(s: State<S>, p: nat)
    requires p < |s.holders|
  {
    s.holders[p].Some? ==>
      var t := s.holders[p].value;
      t < |s.threads| && exists i :: 0 <= i < Holding(s.threads[t]) && s.threads[t].stack[i].pipe == p
  }

  // ----- program order

  /** The jobs of one thread, in the order in which they took effect. */
  function Mine(order: seq<Ticket>, t: nat): seq<nat> {
    if order == [] then []
    else
      var last := order[|order| - 1];
      Mine(order[..|order| - 1], t) + if last.thread == t then [last.job] else []
  }

  function Upto(n: nat): seq<nat> {
    seq(n, i => i)
  }

  // ----- the invariant

  ghost function Abstract<S>(sys: System<S>, init: seq<Cell<S>>, s: State<S>): (r: seq<Cell<S>>)
    requires Acyclic(sys) && |init| == |sys.pipes| && Tickets(sys, s.order)
    ensures |r| == |sys.pipes|
  {
    SeqRun(sys, init, s.order)
  }

  ghost predicate Explained<S>(sys: System<S>, abst: seq<Cell<S>>, s: State<S>)
    requires |abst| == |sys.pipes| && Shaped(sys, s)
  {
    && (forall p :: 0 <= p < |s.locks| ==> !s.locks[p] ==> s.cells[p] == abst[p])
    && (forall t :: 0 <= t < |s.threads| ==>
         ThreadExplained(sys, abst, s.cells, Ticket(t, s.threads[t].next), s.threads[t]))
  }

  ghost predicate LocksKept<S>(s: State<S>) {
    && LocksMatch(s)
    && (forall t :: 0 <= t < |s.threads| ==> HoldsOwn(s, t))
    && (forall p :: 0 <= p < |s.holders| ==> HolderHolds(s, p))
  }

  ghost predicate ProgramOrder<S>(s: State<S>) {
    forall t :: 0 <= t < |s.threads| ==> Mine(s.order, t) == Upto(Done(s.threads[t]))
  }

  ghost predicate Inv<S>(sys: System<S>, init: seq<Cell<S>>, s: State<S>) {
    && Acyclic(sys) && ProgramsValid(sys) && |init| == |sys.pipes|
    && Shaped(sys, s)
    && LocksKept(s)
    && Tickets(sys, s.order)
    && ProgramOrder(s)
    && Explained(sys, Abstract(sys, init, s), s)
  }

  // ----- pipelines on one stack

  lemma {:induction false} StackGetsCloser<S>(sys: System<S>, program: seq<Job>, th: Thread, i: nat, j: nat)
    requires Acyclic(sys) && ThreadShaped(sys, program, th) && i < j < |th.stack|
    ensures Hops(sys, th.stack[j].pipe) < Hops(sys, th.stack[i].pipe)
    decreases j
  {
    ForwardIsCloser(sys, th.stack[j - 1].pipe);
    if i < j - 1 {
      StackGetsCloser(sys, program, th, i, j - 1);
    }
  }

  lemma StackDistinct<S>(sys: System<S>, program: seq<Job>, th: Thread)
    requires Acyclic(sys) && ThreadShaped(sys, program, th)
    ensures forall i, j :: 0 <= i < j < |th.stack| ==> th.stack[i].pipe != th.stack[j].pipe
  {
    forall i, j | 0 <= i < j < |th.stack|
      ensures th.stack[i].pipe != th.stack[j].pipe
    {
      StackGetsCloser(sys, program, th, i, j);
    }
  }

  // ----- completing an emit

  /** Frame `j`'s visit, from the abstract cell, gives the present cell and the frame above. */
  ghost predicate Visited<S>(sys: System<S>, th: Thread, tk: Ticket, from: seq<Cell<S>>, cells: seq<Cell<S>>, j: nat)
    requires j < |th.stack| && |cells| == |from| == |sys.pipes| && th.stack[j].pipe < |sys.pipes|
  {
    var f := th.stack[j];
    Visit(sys, f.pipe, from[f.pipe], tk, f.view)
    == Leave(cells[f.pipe],
             if j + 1 < |th.stack| then Some(Job(th.stack[j + 1].pipe, th.stack[j + 1].view)) else None)
  }

  /** From frame `i` on, the sequential emit changes exactly the pipelines on the stack, to what they
      are when the last one's processing ends. */
  lemma {:induction false} EmitFollowsStack<S>(sys: System<S>, program: seq<Job>, th: Thread, tk: Ticket,
                                               cells: seq<Cell<S>>, from: seq<Cell<S>>, i: nat)
    requires Acyclic(sys) && ThreadShaped(sys, program, th) && i < |th.stack|
    requires |cells| == |from| == |sys.pipes|
    requires forall j :: i <= j < |th.stack| ==> Visited(sys, th, tk, from, cells, j)
    ensures var r := SeqEmit(sys, from, tk, th.stack[i].pipe, th.stack[i].view);
            && (forall j :: i <= j < |th.stack| ==> r[th.stack[j].pipe] == cells[th.stack[j].pipe])
            && (forall x :: 0 <= x < |r| && (forall j :: i <= j < |th.stack| ==> th.stack[j].pipe != x) ==> r[x] == from[x])
    decreases |th.stack| - i
  {
    assert Visited(sys, th, tk, from, cells, i);
    StackDistinct(sys, program, th);
    if i + 1 < |th.stack| {
      var p := th.stack[i].pipe;
      var after := from[p := cells[p]];
      forall j | i + 1 <= j < |th.stack|
        ensures Visited(sys, th, tk, after, cells, j)
      {
        assert Visited(sys, th, tk, from, cells, j);
      }
      EmitFollowsStack(sys, program, th, tk, cells, after, i + 1);
    }
  }

  /** The pipeline whose lock thread `t` holds, or takes because it is free, is no other thread's. */
  lemma OthersElsewhere<S>(s: State<S>, t: nat, u: nat, p: nat)
    requires u < |s.threads| && u != t && HoldsOwn(s, u)
    requires p < |s.holders| && (s.holders[p] == Some(t) || s.holders[p] == None)
    ensures forall i :: 0 <= i < Holding(s.threads[u]) ==> s.threads[u].stack[i].pipe != p
  {
  }

  /** A thread stays explained while the cells it holds stay. */
  lemma StaysExplained<S>(sys: System<S>, abst: seq<Cell<S>>, abst': seq<Cell<S>>,
                          cells: seq<Cell<S>>, cells': seq<Cell<S>>, tk: Ticket, th: Thread)
    requires ThreadExplained(sys, abst, cells, tk, th)
    requires |abst'| == |cells'| == |sys.pipes|
    requires forall i :: 0 <= i < Holding(th) ==>
               abst'[th.stack[i].pipe] == abst[th.stack[i].pipe] && cells'[th.stack[i].pipe] == cells[th.stack[i].pipe]
    ensures ThreadExplained(sys, abst', cells', tk, th)
  {
  }

  // ----- what a step keeps

  /** Thread `t` changes, and holds the same locks as before. */
  predicate SameHold<S>(s: State<S>, s': State<S>, t: nat)
    requires t < |s.threads|
  {
    && s'.locks == s.locks && s'.holders == s.holders
    && |s'.threads| == |s.threads|
    && s'.threads == s.threads[t := s'.threads[t]]
    && var h := Holding(s.threads[t]);
       Holding(s'.threads[t]) == h
       && forall i :: 0 <= i < h ==> s'.threads[t].stack[i].pipe == s.threads[t].stack[i].pipe
  }

  lemma LocksStay<S>(s: State<S>, s': State<S>, t: nat)
    requires LocksKept(s) && t < |s.threads| && SameHold(s, s', t)
    ensures LocksKept(s')
  {
    forall u | 0 <= u < |s'.threads|
      ensures HoldsOwn(s', u)
    {
      assert HoldsOwn(s, u);
    }
    forall p | 0 <= p < |s'.holders|
      ensures HolderHolds(s', p)
    {
      assert HolderHolds(s, p);
      if s.holders[p].Some? {
        var u := s.holders[p].value;
        var i :| 0 <= i < Holding(s.threads[u]) && s.threads[u].stack[i].pipe == p;
        assert 0 <= i < Holding(s'.threads[u]) && s'.threads[u].stack[i].pipe == p;
      }
    }
  }

  /** Thread `t` may change the cell of a pipeline it holds, and no other cell. */
  ghost predicate OnlyCell<S>(s: State<S>, s': State<S>, t: nat, p: nat) {
    && t < |s.threads| && p < |s.cells| == |s'.cells| && p < |s.holders| && s.holders[p] == Some(t)
    && (forall x :: 0 <= x < |s.cells| && x != p ==> s'.cells[x] == s.cells[x])
  }

  lemma OthersStayExplained<S>(sys: System<S>, abst: seq<Cell<S>>, s: State<S>, s': State<S>, t: nat, p: nat, u: nat)
    requires OnlyCell(s, s', t, p) && u < |s.threads| && u != t && HoldsOwn(s, u)
    requires ThreadExplained(sys, abst, s.cells, Ticket(u, s.threads[u].next), s.threads[u])
    ensures ThreadExplained(sys, abst, s'.cells, Ticket(u, s.threads[u].next), s.threads[u])
  {
    OthersElsewhere(s, t, u, p);
    StaysExplained(sys, abst, abst, s.cells, s'.cells, Ticket(u, s.threads[u].next), s.threads[u]);
  }

  /** A step that does not complete an emit. */
  lemma Advances<S>(sys: System<S>, init: seq<Cell<S>>, s: State<S>, s': State<S>, t: nat, p: nat)
    requires Inv(sys, init, s) && OnlyCell(s, s', t, p)
    requires Shaped(sys, s') && SameHold(s, s', t) && s'.order == s.order
    requires Done(s'.threads[t]) == Done(s.threads[t])
    requires var tk := Ticket(t, s'.threads[t].next);
             ThreadExplained(sys, Abstract(sys, init, s), s'.cells, tk, s'.threads[t])
    ensures Inv(sys, init, s')
  {
    LocksStay(s, s', t);
    var abst := Abstract(sys, init, s);
    forall u | 0 <= u < |s'.threads|
      ensures ThreadExplained(sys, abst, s'.cells, Ticket(u, s'.threads[u].next), s'.threads[u])
    {
      if u != t {
        assert HoldsOwn(s, u);
        OthersStayExplained(sys, abst, s, s', t, p, u);
      }
    }
    assert s.locks[p];
  }

  lemma OrderGrows<S>(s: State<S>, s': State<S>, t: nat)
    requires ProgramOrder(s) && t < |s.threads| && |s'.threads| == |s.threads|
    requires s'.threads == s.threads[t := s'.threads[t]]
    requires s'.order == s.order + [Ticket(t, Done(s.threads[t]))]
    requires Done(s'.threads[t]) == Done(s.threads[t]) + 1
    ensures ProgramOrder(s')
  {
    assert s'.order[..|s'.order| - 1] == s.order;
    forall u | 0 <= u < |s'.threads|
      ensures Mine(s'.order, u) == Upto(Done(s'.threads[u]))
    {
      assert Mine(s.order, u) == Upto(Done(s.threads[u]));
    }
  }

  /** Thread `t` completes its emit in pipeline `p`. */
  ghost predicate Completing<S>(sys: System<S>, init: seq<Cell<S>>, s: State<S>, s': State<S>, t: nat, p: nat) {
    && Inv(sys, init, s) && t < |s.threads| && p < |sys.pipes| && s.holders[p] == Some(t)
    && Shaped(sys, s') && SameHold(s, s', t)
    && var th := s.threads[t];
    && th.stack != [] && p == Top(th.stack).pipe
    && !Completed(th) && Holding(th) == |th.stack|
    && s'.threads[t] == th.(stack := SetTop(th.stack, Releasing))
    && s'.order == s.order + [Ticket(t, th.next)]
    && (forall x :: 0 <= x < |s.cells| && x != p ==> s'.cells[x] == s.cells[x])
    && Visit(sys, p, Abstract(sys, init, s)[p], Ticket(t, th.next), Top(th.stack).view) == Leave(s'.cells[p], None)
  }

  /** What Inv says of one thread. */
  lemma ThreadFacts<S>(sys: System<S>, init: seq<Cell<S>>, s: State<S>, u: nat)
    requires Inv(sys, init, s) && u < |s.threads|
    ensures ThreadShaped(sys, sys.programs[u], s.threads[u]) && HoldsOwn(s, u)
    ensures ThreadExplained(sys, Abstract(sys, init, s), s.cells, Ticket(u, s.threads[u].next), s.threads[u])
  {
  }

  /** The visit of every frame below the top is over, and so is the top's in the new cells. */
  lemma StackVisited<S>(sys: System<S>, program: seq<Job>, abst: seq<Cell<S>>, cells: seq<Cell<S>>, cells': seq<Cell<S>>,
                        tk: Ticket, th: Thread)
    requires Acyclic(sys) && ThreadShaped(sys, program, th) && th.stack != [] && !Completed(th)
    requires ThreadExplained(sys, abst, cells, tk, th) && |cells'| == |cells|
    requires var p := Top(th.stack).pipe;
             && (forall x :: 0 <= x < |cells| && x != p ==> cells'[x] == cells[x])
             && Visit(sys, p, abst[p], tk, Top(th.stack).view) == Leave(cells'[p], None)
    ensures forall j :: 0 <= j < |th.stack| ==> Visited(sys, th, tk, abst, cells', j)
  {
    StackDistinct(sys, program, th);
    forall j | 0 <= j < |th.stack| - 1
      ensures Visited(sys, th, tk, abst, cells', j)
    {
      assert FrameExplained(sys, abst[th.stack[j].pipe], cells[th.stack[j].pipe], tk, th.stack[j]);
      assert LinkExplained(sys, abst[th.stack[j].pipe], tk, th.stack[j], th.stack[j + 1]);
    }
  }

  lemma AllVisited<S>(sys: System<S>, init: seq<Cell<S>>, s: State<S>, s': State<S>, t: nat, p: nat)
    requires Completing(sys, init, s, s', t, p)
    ensures var th := s.threads[t];
            forall j :: 0 <= j < |th.stack| ==>
              Visited(sys, th, Ticket(t, th.next), Abstract(sys, init, s), s'.cells, j)
  {
    ThreadFacts(sys, init, s, t);
    StackVisited(sys, sys.programs[t], Abstract(sys, init, s), s.cells, s'.cells,
                 Ticket(t, s.threads[t].next), s.threads[t]);
  }

  /** The abstract state takes the whole emit over: all pipelines on the stack, and no other. */
  lemma AbstractCompletes<S>(sys: System<S>, init: seq<Cell<S>>, s: State<S>, s': State<S>, t: nat, p: nat)
    requires Completing(sys, init, s, s', t, p)
    ensures Tickets(sys, s'.order)
    ensures var stack := s.threads[t].stack;
            var abst := Abstract(sys, init, s);
            var abst' := Abstract(sys, init, s');
            && (forall j :: 0 <= j < |stack| ==> abst'[stack[j].pipe] == s'.cells[stack[j].pipe])
            && (forall x :: 0 <= x < |abst| && (forall j :: 0 <= j < |stack| ==> stack[j].pipe != x) ==> abst'[x] == abst[x])
  {
    var th := s.threads[t];
    var tk := Ticket(t, th.next);
    assert ThreadShaped(sys, sys.programs[t], th);
    assert ValidTicket(sys, tk);
    assert s'.order[..|s'.order| - 1] == s.order;
    AllVisited(sys, init, s, s', t, p);
    EmitFollowsStack(sys, sys.programs[t], th, tk, s'.cells, Abstract(sys, init, s), 0);
  }

  lemma CompletedExplained<S>(sys: System<S>, init: seq<Cell<S>>, s: State<S>, s': State<S>, t: nat, p: nat)
    requires Completing(sys, init, s, s', t, p) && Tickets(sys, s'.order)
    ensures ThreadExplained(sys, Abstract(sys, init, s'), s'.cells, Ticket(t, s'.threads[t].next), s'.threads[t])
  {
    AbstractCompletes(sys, init, s, s', t, p);
    assert ThreadShaped(sys, sys.programs[t], s'.threads[t]);
  }

  /** What other threads hold is not on the stack of the emit that completes. */
  lemma OthersUntouched<S>(sys: System<S>, init: seq<Cell<S>>, s: State<S>, s': State<S>, t: nat, p: nat, x: nat)
    requires Completing(sys, init, s, s', t, p) && x < |s.holders| && s.holders[x] != Some(t)
    ensures Tickets(sys, s'.order)
    ensures Abstract(sys, init, s')[x] == Abstract(sys, init, s)[x] && s'.cells[x] == s.cells[x]
  {
    AbstractCompletes(sys, init, s, s', t, p);
    assert HoldsOwn(s, t);
  }

  /** A pipeline that another thread holds stays as it is, in fact and in the sequential run. */
  lemma HeldStays<S>(sys: System<S>, init: seq<Cell<S>>, s: State<S>, s': State<S>, t: nat, p: nat, u: nat, i: nat)
    requires Completing(sys, init, s, s', t, p) && Tickets(sys, s'.order)
    requires u < |s.threads| && u != t && i < Holding(s.threads[u])
    ensures var x := s.threads[u].stack[i].pipe;
            && x < |s.cells| == |s'.cells| == |sys.pipes|
            && Abstract(sys, init, s')[x] == Abstract(sys, init, s)[x] && s'.cells[x] == s.cells[x]
  {
    assert HoldsOwn(s, u);
    OthersUntouched(sys, init, s, s', t, p, s.threads[u].stack[i].pipe);
  }

  lemma OthersUncompleted<S>(sys: System<S>, init: seq<Cell<S>>, s: State<S>, s': State<S>, t: nat, p: nat, u: nat)
    requires Completing(sys, init, s, s', t, p) && Tickets(sys, s'.order) && u < |s'.threads| && u != t
    ensures ThreadExplained(sys, Abstract(sys, init, s'), s'.cells, Ticket(u, s'.threads[u].next), s'.threads[u])
  {
    var th := s.threads[u];
    forall i | 0 <= i < Holding(th)
      ensures var x := th.stack[i].pipe;
              && x < |s.cells| == |s'.cells| == |sys.pipes|
              && Abstract(sys, init, s')[x] == Abstract(sys, init, s)[x] && s'.cells[x] == s.cells[x]
    {
      HeldStays(sys, init, s, s', t, p, u, i);
    }
    ThreadFacts(sys, init, s, u);
    StaysExplained(sys, Abstract(sys, init, s), Abstract(sys, init, s'), s.cells, s'.cells, Ticket(u, th.next), th);
  }

  /** The step that completes an emit: its last pipeline's processing ends and all it holds is what
      the sequential emit makes of it. */
  lemma Completes<S>(sys: System<S>, init: seq<Cell<S>>, s: State<S>, s': State<S>, t: nat, p: nat)
    requires Completing(sys, init, s, s', t, p)
    ensures Inv(sys, init, s')
  {
    LocksStay(s, s', t);
    OrderGrows(s, s', t);
    AbstractCompletes(sys, init, s, s', t, p);
    forall u | 0 <= u < |s'.threads|
      ensures ThreadExplained(sys, Abstract(sys, init, s'), s'.cells, Ticket(u, s'.threads[u].next), s'.threads[u])
    {
      if u == t {
        CompletedExplained(sys, init, s, s', t, p);
      } else {
        OthersUncompleted(sys, init, s, s', t, p, u);
      }
    }
    assert HoldsOwn(s, t);
  }
}
