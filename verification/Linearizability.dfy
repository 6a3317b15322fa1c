/** The main results about concurrent `emit`: mutual exclusion, atomicity, program order, real-time
    order, and what each pipeline's state is a function of. */
module Linearizability {
  import opened Core
  import opened Message
  import opened Wiring
  import opened Threads
  import opened Linearization

  lemma AcquireLocks<S>(sys: System<S>, s: State<S>, t: nat)
    requires Shaped(sys, s) && LocksKept(s) && t < |s.threads|
    requires s.threads[t].stack != [] && Top(s.threads[t].stack).pc.Acquiring?
    requires var p := Top(s.threads[t].stack).pipe; p < |s.locks| && !s.locks[p]
    ensures LocksKept(TryAcquire(s, t))
  {
    var s' := TryAcquire(s, t);
    var th := s.threads[t];
    var p := Top(th.stack).pipe;
    var h := Holding(th);
    forall u | 0 <= u < |s'.threads|
      ensures HoldsOwn(s', u)
    {
      assert HoldsOwn(s, u);
    }
    forall x | 0 <= x < |s'.holders|
      ensures HolderHolds(s', x)
    {
      assert HolderHolds(s, x);
      if x == p {
        assert 0 <= h < Holding(s'.threads[t]) && s'.threads[t].stack[h].pipe == p;
      } else if s.holders[x].Some? {
        var u := s.holders[x].value;
        var i :| 0 <= i < Holding(s.threads[u]) && s.threads[u].stack[i].pipe == x;
        assert 0 <= i < Holding(s'.threads[u]) && s'.threads[u].stack[i].pipe == x;
      }
    }
  }

  /** The thread's own account after a step of its top frame that leaves the emit incomplete. */
  lemma TopMoves<S>(sys: System<S>, program: seq<Job>, abst: seq<Cell<S>>, cells: seq<Cell<S>>, cells': seq<Cell<S>>,
                    tk: Ticket, th: Thread, pc: Pc)
    requires Acyclic(sys) && ThreadShaped(sys, program, th) && th.stack != []
    requires ThreadExplained(sys, abst, cells, tk, th) && !Completed(th) && !pc.Releasing?
    requires |cells'| == |cells|
    requires var p := Top(th.stack).pipe;
             && (forall x :: 0 <= x < |cells| && x != p ==> cells'[x] == cells[x])
             && FrameExplained(sys, abst[p], cells'[p], tk, Top(th.stack).(pc := pc))
    ensures ThreadExplained(sys, abst, cells', tk, th.(stack := SetTop(th.stack, pc)))
  {
    StackDistinct(sys, program, th);
    var th' := th.(stack := SetTop(th.stack, pc));
    forall i | 0 <= i < |th.stack| - 1
      ensures LinkExplained(sys, abst[th.stack[i].pipe], tk, th'.stack[i], th'.stack[i + 1])
    {
      assert LinkExplained(sys, abst[th.stack[i].pipe], tk, th.stack[i], th.stack[i + 1]);
    }
  }

  /** The same when its sink starts an emit of its own. */
  lemma TopPushes<S>(sys: System<S>, program: seq<Job>, abst: seq<Cell<S>>, cells: seq<Cell<S>>, tk: Ticket, th: Thread,
                     above: Frame)
    requires ThreadShaped(sys, program, th) && th.stack != [] && above.pc.Acquiring? && above.pipe < |sys.pipes|
    requires var waiting := th.(stack := SetTop(th.stack, InTarget));
             ThreadExplained(sys, abst, cells, tk, waiting)
    requires LinkExplained(sys, abst[Top(th.stack).pipe], tk, Top(th.stack), above)
    ensures ThreadExplained(sys, abst, cells, tk, th.(stack := SetTop(th.stack, InTarget) + [above]))
  {
    var low := SetTop(th.stack, InTarget);
    var stack := low + [above];
    forall i | 0 <= i < |stack| - 1
      ensures LinkExplained(sys, abst[stack[i].pipe], tk, stack[i], stack[i + 1])
    {
      if i + 1 < |low| {
        assert LinkExplained(sys, abst[low[i].pipe], tk, low[i], low[i + 1]);
      }
    }
  }

  lemma AcquireEffect<S>(s: State<S>, t: nat, p: nat)
    requires t < |s.threads| && s.threads[t].stack != [] && Top(s.threads[t].stack).pc.Acquiring?
    requires p == Top(s.threads[t].stack).pipe && p < |s.locks| && p < |s.cells| && p < |s.holders| && !s.locks[p]
    ensures var s' := TryAcquire(s, t);
            && |s'.cells| == |s.cells| && |s'.threads| == |s.threads|
            && s'.cells[p] == Enter(s.cells[p], Ticket(t, s.threads[t].next), Top(s.threads[t].stack).view)
            && (forall x :: 0 <= x < |s.cells| && x != p ==> s'.cells[x] == s.cells[x])
            && (forall u :: 0 <= u < |s.threads| && u != t ==> s'.threads[u] == s.threads[u])
            && s'.threads[t] == s.threads[t].(stack := SetTop(s.threads[t].stack, Entered))
            && Done(s'.threads[t]) == Done(s.threads[t])
  {
  }

  lemma AcquireExplains<S>(sys: System<S>, init: seq<Cell<S>>, s: State<S>, t: nat, u: nat)
    requires Inv(sys, init, s) && t < |s.threads| && u < |s.threads|
    requires s.threads[t].stack != [] && Top(s.threads[t].stack).pc.Acquiring?
    requires var p := Top(s.threads[t].stack).pipe; p < |s.locks| && !s.locks[p]
    ensures var s' := TryAcquire(s, t);
            && ThreadExplained(sys, Abstract(sys, init, s), s'.cells, Ticket(u, s'.threads[u].next), s'.threads[u])
            && Done(s'.threads[u]) == Done(s.threads[u])
  {
    var p := Top(s.threads[t].stack).pipe;
    ThreadFacts(sys, init, s, u);
    AcquireEffect(s, t, p);
    if u == t {
      AcquireOwn(sys, init, s, t, p);
    } else {
      OthersElsewhere(s, t, u, p);
      StaysExplained(sys, Abstract(sys, init, s), Abstract(sys, init, s), s.cells, TryAcquire(s, t).cells,
                     Ticket(u, s.threads[u].next), s.threads[u]);
    }
  }

  lemma AcquireOwn<S>(sys: System<S>, init: seq<Cell<S>>, s: State<S>, t: nat, p: nat)
    requires Inv(sys, init, s) && t < |s.threads|
    requires s.threads[t].stack != [] && Top(s.threads[t].stack).pc.Acquiring?
    requires p == Top(s.threads[t].stack).pipe && p < |s.locks| && !s.locks[p]
    ensures var s' := TryAcquire(s, t);
            ThreadExplained(sys, Abstract(sys, init, s), s'.cells, Ticket(t, s'.threads[t].next), s'.threads[t])
  {
    ThreadFacts(sys, init, s, t);
    AcquireEffect(s, t, p);
    TopMoves(sys, sys.programs[t], Abstract(sys, init, s), s.cells, TryAcquire(s, t).cells,
             Ticket(t, s.threads[t].next), s.threads[t], Entered);
  }

  lemma AcquireKeeps<S>(sys: System<S>, init: seq<Cell<S>>, s: State<S>, t: nat)
    requires Inv(sys, init, s) && t < |s.threads|
    requires s.threads[t].stack != [] && Top(s.threads[t].stack).pc.Acquiring?
    requires var p := Top(s.threads[t].stack).pipe; p < |s.locks| && !s.locks[p]
    ensures Inv(sys, init, TryAcquire(s, t))
  {
    var s' := TryAcquire(s, t);
    assert Step(sys, s, t) == s';
    StepShaped(sys, s, t);
    AcquireLocks(sys, s, t);
    forall u | 0 <= u < |s'.threads|
      ensures ThreadExplained(sys, Abstract(sys, init, s), s'.cells, Ticket(u, s'.threads[u].next), s'.threads[u])
      ensures Done(s'.threads[u]) == Done(s.threads[u])
    {
      AcquireExplains(sys, init, s, t, u);
    }
  }

  /** What every other thread holds it still holds. */
  lemma UnlockOwn<S>(sys: System<S>, s: State<S>, t: nat, u: nat)
    requires Acyclic(sys) && t < |s.threads| && u < |s.threads| && |s.locks| == |s.holders|
    requires Completed(s.threads[t]) && Top(s.threads[t].stack).pipe < |s.locks|
    requires forall i, j :: 0 <= i < j < |s.threads[t].stack| ==> s.threads[t].stack[i].pipe != s.threads[t].stack[j].pipe
    requires HoldsOwn(s, t) && HoldsOwn(s, u)
    ensures HoldsOwn(Unlock(s, t), u)
  {
  }

  lemma UnlockHolder<S>(s: State<S>, t: nat, x: nat)
    requires t < |s.threads| && |s.locks| == |s.holders| && x < |s.holders|
    requires Completed(s.threads[t]) && Top(s.threads[t].stack).pipe < |s.locks|
    requires HolderHolds(s, x)
    ensures HolderHolds(Unlock(s, t), x)
  {
    var s' := Unlock(s, t);
    if x != Top(s.threads[t].stack).pipe && s.holders[x].Some? {
      var u := s.holders[x].value;
      var i :| 0 <= i < Holding(s.threads[u]) && s.threads[u].stack[i].pipe == x;
      assert 0 <= i < Holding(s'.threads[u]) && s'.threads[u].stack[i].pipe == x;
    }
  }

  lemma UnlockLocks<S>(sys: System<S>, s: State<S>, t: nat)
    requires Acyclic(sys) && Shaped(sys, s) && LocksKept(s) && t < |s.threads|
    requires Completed(s.threads[t])
    requires var p := Top(s.threads[t].stack).pipe; p < |s.locks|
    ensures LocksKept(Unlock(s, t))
  {
    var s' := Unlock(s, t);
    assert ThreadShaped(sys, sys.programs[t], s.threads[t]) && HoldsOwn(s, t);
    StackDistinct(sys, sys.programs[t], s.threads[t]);
    forall u | 0 <= u < |s'.threads|
      ensures HoldsOwn(s', u)
    {
      assert HoldsOwn(s, u);
      UnlockOwn(sys, s, t, u);
    }
    forall x | 0 <= x < |s'.holders|
      ensures HolderHolds(s', x)
    {
      assert HolderHolds(s, x);
      UnlockHolder(s, t, x);
    }
  }

  lemma UnlockExplains<S>(sys: System<S>, abst: seq<Cell<S>>, s: State<S>, t: nat, tk: Ticket)
    requires t < |s.threads| && Completed(s.threads[t]) && ThreadExplained(sys, abst, s.cells, tk, s.threads[t])
    requires Top(s.threads[t].stack).pipe < |s.locks| == |s.holders|
    ensures var th' := Unlock(s, t).threads[t];
            forall tk' :: ThreadExplained(sys, abst, s.cells, tk', th')
  {
    var th := s.threads[t];
    var th' := Unlock(s, t).threads[t];
    assert forall i :: 0 <= i < |th'.stack| ==> th'.stack[i].pipe == th.stack[i].pipe;
  }

  lemma UnlockEffect<S>(s: State<S>, s': State<S>, t: nat)
    requires t < |s.threads| && Completed(s.threads[t])
    requires Top(s.threads[t].stack).pipe < |s.locks| == |s.holders|
    requires s' == Unlock(s, t)
    ensures s'.cells == s.cells && s'.order == s.order && |s'.threads| == |s.threads| && |s'.locks| == |s.locks|
    ensures forall u :: 0 <= u < |s.threads| && u != t ==> s'.threads[u] == s.threads[u]
    ensures Done(s'.threads[t]) == Done(s.threads[t])
    ensures forall x :: 0 <= x < |s.locks| && x != Top(s.threads[t].stack).pipe ==> s'.locks[x] == s.locks[x]
  {
  }

  lemma UnlockKeeps<S>(sys: System<S>, init: seq<Cell<S>>, s: State<S>, s': State<S>, t: nat)
    requires Inv(sys, init, s) && t < |s.threads|
    requires Completed(s.threads[t])
    requires Top(s.threads[t].stack).pipe < |s.locks|
    requires s' == Unlock(s, t) == Step(sys, s, t)
    ensures Inv(sys, init, s')
  {
    var abst := Abstract(sys, init, s);
    StepShaped(sys, s, t);
    UnlockLocks(sys, s, t);
    UnlockEffect(s, s', t);
    assert ThreadExplained(sys, abst, s.cells, Ticket(t, s.threads[t].next), s.threads[t]);
    UnlockExplains(sys, abst, s, t, Ticket(t, s.threads[t].next));
    assert ProgramOrder(s');
    forall u | 0 <= u < |s'.threads|
      ensures ThreadExplained(sys, abst, s'.cells, Ticket(u, s'.threads[u].next), s'.threads[u])
    {
      assert u != t ==> ThreadExplained(sys, abst, s.cells, Ticket(u, s.threads[u].next), s.threads[u]);
    }
  }

  /** The top frame of thread `t` holds its lock and is explained. */
  lemma TopFacts<S>(sys: System<S>, init: seq<Cell<S>>, s: State<S>, t: nat)
    requires Inv(sys, init, s) && t < |s.threads| && s.threads[t].stack != []
    ensures var th := s.threads[t];
            var top := Top(th.stack);
            var abst := Abstract(sys, init, s);
            && ThreadShaped(sys, sys.programs[t], th)
            && top.pipe < |sys.pipes|
            && ThreadExplained(sys, abst, s.cells, Ticket(t, th.next), th)
            && (!top.pc.Acquiring? ==> s.holders[top.pipe] == Some(t))
            && (!Completed(th) ==> FrameExplained(sys, abst[top.pipe], s.cells[top.pipe], Ticket(t, th.next), top))
  {
    var th := s.threads[t];
    assert ThreadShaped(sys, sys.programs[t], th) && HoldsOwn(s, t);
    assert ThreadExplained(sys, Abstract(sys, init, s), s.cells, Ticket(t, th.next), th);
  }

  /** What a step at a stage or at the sink leaves alone, and what it does when it ends the emit. */
  ghost predicate StageEffect<S>(sys: System<S>, s: State<S>, s': State<S>, t: nat, p: nat, i: nat, msg: View) {
    && t < |s.threads| && s.threads[t].stack != [] && |s.cells| == |s'.cells| == |sys.pipes|
    && p < |sys.pipes| && i <= |sys.pipes[p].stages|
    && SameHold(s, s', t)
    && s'.threads[t].next == s.threads[t].next
    && (forall x :: 0 <= x < |s.cells| && x != p ==> s'.cells[x] == s.cells[x])
    && (if Completed(s'.threads[t]) then
          && s'.threads[t] == s.threads[t].(stack := SetTop(s.threads[t].stack, Releasing))
          && s'.order == s.order + [Ticket(t, s.threads[t].next)]
          && FromStage(sys.pipes[p], i, s.cells[p], msg) == Leave(s'.cells[p], None)
        else s'.order == s.order)
  }

  lemma StageStepEffect<S>(sys: System<S>, s: State<S>, t: nat, top: Frame)
    requires Shaped(sys, s) && t < |s.threads| && ThreadShaped(sys, sys.programs[t], s.threads[t])
    requires s.threads[t].stack != [] && top == Top(s.threads[t].stack) && top.pc.AtStage?
    requires top.pc.i < |sys.pipes[top.pipe].stages|
    ensures StageEffect(sys, s, RunNext(sys, s, t, top.pipe, top.pc.i, top.pc.msg), t, top.pipe, top.pc.i, top.pc.msg)
  {
  }

  lemma SinkStepEffect<S>(sys: System<S>, s: State<S>, t: nat, top: Frame)
    requires Shaped(sys, s) && t < |s.threads| && ThreadShaped(sys, sys.programs[t], s.threads[t])
    requires s.threads[t].stack != [] && top == Top(s.threads[t].stack) && top.pc.AtStage?
    requires top.pc.i == |sys.pipes[top.pipe].stages|
    ensures StageEffect(sys, s, RunNext(sys, s, t, top.pipe, top.pc.i, top.pc.msg), t, top.pipe, top.pc.i, top.pc.msg)
  {
  }

  lemma RunStageEffect<S>(sys: System<S>, s: State<S>, t: nat)
    requires Shaped(sys, s) && t < |s.threads| && ThreadShaped(sys, sys.programs[t], s.threads[t])
    requires s.threads[t].stack != [] && Top(s.threads[t].stack).pc.AtStage?
    ensures var top := Top(s.threads[t].stack);
            StageEffect(sys, s, Step(sys, s, t), t, top.pipe, top.pc.i, top.pc.msg)
  {
    var top := Top(s.threads[t].stack);
    assert Step(sys, s, t) == RunNext(sys, s, t, top.pipe, top.pc.i, top.pc.msg);
    if top.pc.i < |sys.pipes[top.pipe].stages| {
      StageStepEffect(sys, s, t, top);
    } else {
      SinkStepEffect(sys, s, t, top);
    }
  }

  lemma RunStageExplains<S>(sys: System<S>, abst: seq<Cell<S>>, s: State<S>, t: nat)
    requires Acyclic(sys) && Shaped(sys, s) && t < |s.threads|
    requires s.threads[t].stack != [] && Top(s.threads[t].stack).pc.AtStage?
    requires ThreadShaped(sys, sys.programs[t], s.threads[t])
    requires ThreadExplained(sys, abst, s.cells, Ticket(t, s.threads[t].next), s.threads[t])
    requires !Completed(Step(sys, s, t).threads[t])
    ensures var s' := Step(sys, s, t);
            ThreadExplained(sys, abst, s'.cells, Ticket(t, s'.threads[t].next), s'.threads[t])
  {
    var s' := Step(sys, s, t);
    var th := s.threads[t];
    var top := Top(th.stack);
    var tk := Ticket(t, th.next);
    assert FrameExplained(sys, abst[top.pipe], s.cells[top.pipe], tk, top);
    Finishes(sys, abst[top.pipe], s.cells[top.pipe], tk, top);
    if top.pc.i < |sys.pipes[top.pipe].stages| {
      TopMoves(sys, sys.programs[t], abst, s.cells, s'.cells, tk, th, Top(s'.threads[t].stack).pc);
    } else {
      TopMoves(sys, sys.programs[t], abst, s.cells, s'.cells, tk, th, InTarget);
      TopPushes(sys, sys.programs[t], abst, s'.cells, tk, th, Top(s'.threads[t].stack));
    }
  }

  lemma RunStageKeeps<S>(sys: System<S>, init: seq<Cell<S>>, s: State<S>, s': State<S>, t: nat, top: Frame)
    requires Inv(sys, init, s) && t < |s.threads| && Shaped(sys, s')
    requires s.threads[t].stack != [] && top == Top(s.threads[t].stack) && top.pc.AtStage?
    requires StageEffect(sys, s, s', t, top.pipe, top.pc.i, top.pc.msg)
    requires !Completed(s'.threads[t]) ==>
               ThreadExplained(sys, Abstract(sys, init, s), s'.cells, Ticket(t, s'.threads[t].next), s'.threads[t])
    ensures Inv(sys, init, s')
  {
    TopFacts(sys, init, s, t);
    if Completed(s'.threads[t]) {
      Finishes(sys, Abstract(sys, init, s)[top.pipe], s.cells[top.pipe], Ticket(t, s.threads[t].next), top);
      Completes(sys, init, s, s', t, top.pipe);
    } else {
      Advances(sys, init, s, s', t, top.pipe);
    }
  }

  /** A message that does not fit ends the visit where it entered. */
  lemma TooLongVisits<S>(sys: System<S>, was: Cell<S>, now: Cell<S>, tk: Ticket, f: Frame)
    requires f.pipe < |sys.pipes| && f.pc.Entered? && FrameExplained(sys, was, now, tk, f) && !Fits(sys.cfg, f.view)
    ensures Visit(sys, f.pipe, was, tk, f.view) == Leave(now, None)
  {
  }

  lemma CompleteEffect<S>(s: State<S>, t: nat)
    requires t < |s.threads| && s.threads[t].stack != [] && Top(s.threads[t].stack).pc.Entered?
    ensures var s' := Complete(s, t);
            && SameHold(s, s', t) && s'.cells == s.cells
            && s'.threads[t] == s.threads[t].(stack := SetTop(s.threads[t].stack, Releasing))
            && s'.order == s.order + [Ticket(t, s.threads[t].next)]
  {
  }

  lemma TooLongKeeps<S>(sys: System<S>, init: seq<Cell<S>>, s: State<S>, t: nat, top: Frame)
    requires Inv(sys, init, s) && t < |s.threads| && s.threads[t].stack != []
    requires top == Top(s.threads[t].stack) && top.pc.Entered? && !Fits(sys.cfg, top.view)
    requires Shaped(sys, Complete(s, t))
    ensures Inv(sys, init, Complete(s, t))
  {
    TopFacts(sys, init, s, t);
    TooLongVisits(sys, Abstract(sys, init, s)[top.pipe], s.cells[top.pipe], Ticket(t, s.threads[t].next), top);
    CompleteEffect(s, t);
    Completes(sys, init, s, Complete(s, t), t, top.pipe);
  }

  lemma CopiedEffect<S>(s: State<S>, t: nat, msg: View)
    requires t < |s.threads| && s.threads[t].stack != [] && Top(s.threads[t].stack).pc.Entered?
    ensures var s' := WithPc(s, t, AtStage(0, msg));
            && SameHold(s, s', t) && s'.cells == s.cells && s'.order == s.order
            && s'.threads[t] == s.threads[t].(stack := SetTop(s.threads[t].stack, AtStage(0, msg)))
            && Done(s'.threads[t]) == Done(s.threads[t])
  {
  }

  lemma CopiedKeeps<S>(sys: System<S>, init: seq<Cell<S>>, s: State<S>, t: nat, top: Frame)
    requires Inv(sys, init, s) && t < |s.threads| && s.threads[t].stack != []
    requires top == Top(s.threads[t].stack) && top.pc.Entered? && Fits(sys.cfg, top.view)
    requires Shaped(sys, WithPc(s, t, AtStage(0, top.view)))
    ensures Inv(sys, init, WithPc(s, t, AtStage(0, top.view)))
  {
    TopFacts(sys, init, s, t);
    CopiedEffect(s, t, top.view);
    TopMoves(sys, sys.programs[t], Abstract(sys, init, s), s.cells, s.cells, Ticket(t, s.threads[t].next),
             s.threads[t], AtStage(0, top.view));
    Advances(sys, init, s, WithPc(s, t, AtStage(0, top.view)), t, top.pipe);
  }

  lemma BeginKeeps<S>(sys: System<S>, init: seq<Cell<S>>, s: State<S>, t: nat)
    requires Inv(sys, init, s) && t < |s.threads| && s.threads[t].stack == []
    ensures Inv(sys, init, Step(sys, s, t))
  {
    StepShaped(sys, s, t);
    if s.threads[t].next < |sys.programs[t]| {
      LocksStay(s, Step(sys, s, t), t);
    }
  }

  /** Every step of every thread keeps the invariant. */
  lemma StepKeeps<S>(sys: System<S>, init: seq<Cell<S>>, s: State<S>, t: nat)
    requires Inv(sys, init, s) && t < |s.threads|
    ensures Inv(sys, init, Step(sys, s, t))
  {
    var th := s.threads[t];
    assert ThreadShaped(sys, sys.programs[t], th);
    if th.stack == [] {
      BeginKeeps(sys, init, s, t);
    } else {
      var top := Top(th.stack);
      match top.pc
      case Acquiring =>
        if !s.locks[top.pipe] {
          AcquireKeeps(sys, init, s, t);
        }
      case Entered =>
        StepShaped(sys, s, t);
        if Fits(sys.cfg, top.view) {
          CopiedKeeps(sys, init, s, t, top);
        } else {
          TooLongKeeps(sys, init, s, t, top);
        }
      case AtStage(_, _) =>
        StepShaped(sys, s, t);
        TopFacts(sys, init, s, t);
        RunStageEffect(sys, s, t);
        if !Completed(Step(sys, s, t).threads[t]) {
          RunStageExplains(sys, Abstract(sys, init, s), s, t);
        }
        RunStageKeeps(sys, init, s, Step(sys, s, t), t, top);
      case InTarget =>
      case Releasing => UnlockKeeps(sys, init, s, Step(sys, s, t), t);
    }
  }

  lemma InitialInv<S>(sys: System<S>, mems: seq<S>)
    requires Acyclic(sys) && ProgramsValid(sys) && |mems| == |sys.pipes|
    ensures Inv(sys, InitialCells(mems), Initial(sys, mems))
  {
  }

  /** A schedule names threads that exist. */
  predicate ScheduleFor<S>(sys: System<S>, schedule: seq<nat>) {
    forall k :: 0 <= k < |schedule| ==> schedule[k] < |sys.programs|
  }

  lemma {:induction false} ExecKeeps<S>(sys: System<S>, init: seq<Cell<S>>, s: State<S>, schedule: seq<nat>)
    requires Inv(sys, init, s) && ScheduleFor(sys, schedule)
    ensures Inv(sys, init, Exec(sys, s, schedule))
    decreases |schedule|
  {
    if schedule != [] {
      var n := |schedule| - 1;
      ExecKeeps(sys, init, s, schedule[..n]);
      StepKeeps(sys, init, Exec(sys, s, schedule[..n]), schedule[n]);
    }
  }

  // ----- what the order says about each pipeline

  /** `process_message` run on the messages of a log, one after the other. */
  function Replay<S>(sys: System<S>, p: nat, cell: Cell<S>, log: seq<Entry>): Cell<S>
    requires p < |sys.pipes|
    decreases |log|
  {
    if log == [] then cell
    else
      var last := log[|log| - 1];
      Visit(sys, p, Replay(sys, p, cell, log[..|log| - 1]), last.ticket, last.view).cell
  }

  /** One emit leaves a pipeline as it is or visits it once. */
  lemma {:induction false} EmitVisitsOnce<S>(sys: System<S>, cells: seq<Cell<S>>, tk: Ticket, p: nat, view: View, x: nat)
    requires Acyclic(sys) && |cells| == |sys.pipes| && p < |sys.pipes| && x < |sys.pipes|
    ensures var r := SeqEmit(sys, cells, tk, p, view);
            && (r[x] == cells[x] || exists v :: r[x] == Visit(sys, x, cells[x], tk, v).cell)
            && (x != p && Hops(sys, x) >= Hops(sys, p) ==> r[x] == cells[x])
            && (x == p ==> r[x] == Visit(sys, p, cells[p], tk, view).cell)
    decreases Hops(sys, p)
  {
    var l := Visit(sys, p, cells[p], tk, view);
    if l.next.Some? {
      ForwardIsCloser(sys, p);
      EmitVisitsOnce(sys, cells[p := l.cell], tk, l.next.value.pipe, l.next.value.view, x);
    }
  }

  /** The tickets of a log. */
  function TicketsOf(log: seq<Entry>): seq<Ticket> {
    seq(|log|, i requires 0 <= i < |log| => log[i].ticket)
  }

  /** `a` is `b` with some elements left out. */
  predicate Within(a: seq<Ticket>, b: seq<Ticket>) {
    if a == [] then true
    else if b == [] then false
    else Within(a, b[..|b| - 1])
         || (a[|a| - 1] == b[|b| - 1] && Within(a[..|a| - 1], b[..|b| - 1]))
  }

  lemma VisitReplays<S>(sys: System<S>, x: nat, first: Cell<S>, before: Cell<S>, tk: Ticket, v: View)
    requires x < |sys.pipes| && before == Replay(sys, x, first, before.log)
    ensures var after := Visit(sys, x, before, tk, v).cell;
            && after == Replay(sys, x, first, after.log)
            && TicketsOf(after.log) == TicketsOf(before.log) + [tk]
  {
    var after := Visit(sys, x, before, tk, v).cell;
    assert after.log == before.log + [Entry(tk, v)];
    assert after.log[..|after.log| - 1] == before.log;
  }

  lemma WithinGrows(a: seq<Ticket>, b: seq<Ticket>, tk: Ticket)
    requires Within(a, b)
    ensures Within(a, b + [tk]) && Within(a + [tk], b + [tk])
  {
    assert (b + [tk])[..|b|] == b && (a + [tk])[..|a|] == a;
  }

  /** In a sequential run every pipeline is `process_message` run over its own log, and its log is in
      the order of the run. */
  lemma {:induction false} RunReplaysLogs<S>(sys: System<S>, mems: seq<S>, order: seq<Ticket>, x: nat)
    requires Acyclic(sys) && |mems| == |sys.pipes| && Tickets(sys, order) && x < |sys.pipes|
    ensures var cell := SeqRun(sys, InitialCells(mems), order)[x];
            && cell == Replay(sys, x, Cell(mems[x], []), cell.log)
            && Within(TicketsOf(cell.log), order)
    decreases |order|
  {
    if order != [] {
      var n := |order| - 1;
      RunReplaysLogs(sys, mems, order[..n], x);
      var before := SeqRun(sys, InitialCells(mems), order[..n]);
      var tk := order[n];
      assert ValidTicket(sys, order[n]);
      var job := sys.programs[tk.thread][tk.job];
      EmitVisitsOnce(sys, before, tk, job.pipe, job.view, x);
      WithinGrows(TicketsOf(before[x].log), order[..n], tk);
      assert order == order[..n] + [tk];
      var after := SeqRun(sys, InitialCells(mems), order)[x];
      if after != before[x] {
        var v :| after == Visit(sys, x, before[x], tk, v).cell;
        VisitReplays(sys, x, Cell(mems[x], []), before[x], tk, v);
      }
    }
  }

  // ----- the main results

  /** Whatever the schedule, the state is that of the emits in `order` run whole and alone, plus the
      partial progress of each lock holder; every thread's emits are in `order` exactly once each and
      in program order; and a lock is held by at most one thread, by one frame that needs it. */
  lemma Linearizable<S>(sys: System<S>, mems: seq<S>, schedule: seq<nat>)
    requires Acyclic(sys) && ProgramsValid(sys) && |mems| == |sys.pipes| && ScheduleFor(sys, schedule)
    ensures var s := Exec(sys, Initial(sys, mems), schedule);
            && Tickets(sys, s.order)
            && LocksKept(s)
            && ProgramOrder(s)
            && Explained(sys, SeqRun(sys, InitialCells(mems), s.order), s)
  {
    InitialInv(sys, mems);
    ExecKeeps(sys, InitialCells(mems), Initial(sys, mems), schedule);
  }

  /** Pipeline `p` is exactly as far as thread `t` has come with frame `i`, from what `abst` says of it. */
  ghost predicate HeldBy<S>(sys: System<S>, abst: seq<Cell<S>>, s: State<S>, p: nat, t: nat, i: nat) {
    && p < |s.holders| && s.holders[p] == Some(t) && t < |s.threads|
    && |abst| == |s.cells| == |sys.pipes| && p < |sys.pipes|
    && var th := s.threads[t];
    && i < |th.stack| && th.stack[i].pipe == p && !th.stack[i].pc.Acquiring?
    && if Completed(th) then s.cells[p] == abst[p]
       else FrameExplained(sys, abst[p], s.cells[p], Ticket(t, th.next), th.stack[i])
  }

  /** The thread that holds a taken lock, and the frame it holds it with. */
  lemma WhoHolds<S>(sys: System<S>, init: seq<Cell<S>>, s: State<S>, p: nat) returns (t: nat, i: nat)
    requires Inv(sys, init, s) && p < |s.locks| && s.locks[p]
    ensures t < |s.threads| && s.holders[p] == Some(t)
    ensures i < Holding(s.threads[t]) && s.threads[t].stack[i].pipe == p
    ensures ThreadShaped(sys, sys.programs[t], s.threads[t])
  {
    assert HolderHolds(s, p);
    t := s.holders[p].value;
    i :| 0 <= i < Holding(s.threads[t]) && s.threads[t].stack[i].pipe == p;
  }

  lemma HolderIsMidway<S>(sys: System<S>, init: seq<Cell<S>>, s: State<S>, p: nat) returns (t: nat, i: nat)
    requires Inv(sys, init, s) && p < |sys.pipes| && s.locks[p]
    ensures HeldBy(sys, Abstract(sys, init, s), s, p, t, i)
  {
    t, i := WhoHolds(sys, init, s, p);
    ThreadFacts(sys, init, s, t);
  }

  /** A pipeline that is held is exactly as far as its holder has come: from what the sequential run left
      there, the holder has entered, or has run the first stages on its message, or waits in the sink with
      its own part done; once its emit is complete the pipeline is as the sequential run says. */
  lemma HeldPipelineIsMidway<S>(sys: System<S>, mems: seq<S>, schedule: seq<nat>, p: nat)
    requires Acyclic(sys) && ProgramsValid(sys) && |mems| == |sys.pipes| && ScheduleFor(sys, schedule)
    requires p < |sys.pipes| && Exec(sys, Initial(sys, mems), schedule).locks[p]
    ensures var s := Exec(sys, Initial(sys, mems), schedule);
            Tickets(sys, s.order) && exists t, i :: HeldBy(sys, SeqRun(sys, InitialCells(mems), s.order), s, p, t, i)
  {
    InitialInv(sys, mems);
    ExecKeeps(sys, InitialCells(mems), Initial(sys, mems), schedule);
    var t, i := HolderIsMidway(sys, InitialCells(mems), Exec(sys, Initial(sys, mems), schedule), p);
  }

  /** A pipeline that nobody holds is `process_message` run over its messages in the order in which
      its lock was acquired, and that order is the one in `order`. */
  lemma FreePipelineReplaysLog<S>(sys: System<S>, mems: seq<S>, schedule: seq<nat>, p: nat)
    requires Acyclic(sys) && ProgramsValid(sys) && |mems| == |sys.pipes| && ScheduleFor(sys, schedule)
    requires p < |sys.pipes| && !Exec(sys, Initial(sys, mems), schedule).locks[p]
    ensures var s := Exec(sys, Initial(sys, mems), schedule);
            && s.cells[p] == Replay(sys, p, Cell(mems[p], []), s.cells[p].log)
            && Within(TicketsOf(s.cells[p].log), s.order)
  {
    Linearizable(sys, mems, schedule);
    var s := Exec(sys, Initial(sys, mems), schedule);
    RunReplaysLogs(sys, mems, s.order, p);
  }

  predicate Finished<S>(sys: System<S>, s: State<S>)
    requires |s.threads| == |sys.programs|
  {
    forall t :: 0 <= t < |s.threads| ==> s.threads[t] == Thread(|sys.programs[t]|, [])
  }

  lemma FinishedFrom<S>(sys: System<S>, init: seq<Cell<S>>, s: State<S>)
    requires Inv(sys, init, s) && Finished(sys, s)
    ensures s.cells == Abstract(sys, init, s)
    ensures forall p :: 0 <= p < |s.locks| ==> !s.locks[p]
    ensures forall t :: 0 <= t < |sys.programs| ==> Mine(s.order, t) == Upto(|sys.programs[t]|)
  {
    forall p | 0 <= p < |s.locks|
      ensures !s.locks[p]
    {
      assert HolderHolds(s, p);
    }
    forall t | 0 <= t < |sys.programs|
      ensures Mine(s.order, t) == Upto(|sys.programs[t]|)
    {
      assert Mine(s.order, t) == Upto(Done(s.threads[t]));
    }
  }

  /** Once all threads are through, all pipelines are as after the sequential run of all emits, each
      exactly once, in an order that keeps every program's order. */
  lemma FinishedIsSequential<S>(sys: System<S>, mems: seq<S>, schedule: seq<nat>)
    requires Acyclic(sys) && ProgramsValid(sys) && |mems| == |sys.pipes| && ScheduleFor(sys, schedule)
    requires Finished(sys, Exec(sys, Initial(sys, mems), schedule))
    ensures var s := Exec(sys, Initial(sys, mems), schedule);
            && Tickets(sys, s.order)
            && s.cells == SeqRun(sys, InitialCells(mems), s.order)
            && (forall p :: 0 <= p < |s.locks| ==> !s.locks[p])
            && (forall t :: 0 <= t < |sys.programs| ==> Mine(s.order, t) == Upto(|sys.programs[t]|))
  {
    InitialInv(sys, mems);
    ExecKeeps(sys, InitialCells(mems), Initial(sys, mems), schedule);
    FinishedFrom(sys, InitialCells(mems), Exec(sys, Initial(sys, mems), schedule));
  }

  // ----- real time

  lemma StepExtendsOrder<S>(sys: System<S>, s: State<S>, t: nat)
    requires Shaped(sys, s) && t < |s.threads|
    ensures s.order <= Step(sys, s, t).order
  {
  }

  lemma {:induction false} ExecExtendsOrder<S>(sys: System<S>, s: State<S>, schedule: seq<nat>)
    requires Acyclic(sys) && ProgramsValid(sys) && Shaped(sys, s) && ScheduleFor(sys, schedule)
    ensures s.order <= Exec(sys, s, schedule).order
    decreases |schedule|
  {
    if schedule != [] {
      var n := |schedule| - 1;
      ExecExtendsOrder(sys, s, schedule[..n]);
      StepExtendsOrder(sys, Exec(sys, s, schedule[..n]), schedule[n]);
    }
  }

  /** The emit has returned to the thread's program. */
  predicate Returned<S>(s: State<S>, tk: Ticket) {
    tk.thread < |s.threads| && tk.job < s.threads[tk.thread].next
  }

  /** The thread has not called this emit yet. */
  predicate NotCalled<S>(s: State<S>, tk: Ticket) {
    tk.thread < |s.threads| &&
    var th := s.threads[tk.thread];
    tk.job > th.next || (tk.job == th.next && th.stack == [])
  }

  lemma {:induction false} InOrderIffMine(order: seq<Ticket>, tk: Ticket)
    ensures tk in order <==> tk.job in Mine(order, tk.thread)
  {
    if order != [] {
      InOrderIffMine(order[..|order| - 1], tk);
      assert order == order[..|order| - 1] + [order[|order| - 1]];
    }
  }

  lemma OrderTellsProgress<S>(s: State<S>, a: Ticket, b: Ticket)
    requires ProgramOrder(s) && Returned(s, a) && NotCalled(s, b)
    ensures a in s.order && b !in s.order
  {
    InOrderIffMine(s.order, a);
    InOrderIffMine(s.order, b);
    assert Mine(s.order, a.thread) == Upto(Done(s.threads[a.thread]));
    assert Mine(s.order, b.thread) == Upto(Done(s.threads[b.thread]));
    assert Upto(Done(s.threads[a.thread]))[a.job] == a.job;
  }

  lemma RealTimeFrom<S>(sys: System<S>, init: seq<Cell<S>>, s: State<S>, further: seq<nat>, a: Ticket, b: Ticket)
    requires Inv(sys, init, s) && ScheduleFor(sys, further) && Returned(s, a) && NotCalled(s, b)
    ensures s.order <= Exec(sys, s, further).order && a in s.order && b !in s.order
  {
    ExecExtendsOrder(sys, s, further);
    OrderTellsProgress(s, a, b);
  }

  /** An emit that returned before another was called comes before it, however the run goes on. */
  lemma RealTimeOrder<S>(sys: System<S>, mems: seq<S>, schedule: seq<nat>, further: seq<nat>, a: Ticket, b: Ticket)
    requires Acyclic(sys) && ProgramsValid(sys) && |mems| == |sys.pipes|
    requires ScheduleFor(sys, schedule) && ScheduleFor(sys, further)
    requires var s := Exec(sys, Initial(sys, mems), schedule); Returned(s, a) && NotCalled(s, b)
    ensures var s := Exec(sys, Initial(sys, mems), schedule);
            var later := Exec(sys, s, further);
            s.order <= later.order && a in s.order && b !in s.order
  {
    InitialInv(sys, mems);
    ExecKeeps(sys, InitialCells(mems), Initial(sys, mems), schedule);
    RealTimeFrom(sys, InitialCells(mems), Exec(sys, Initial(sys, mems), schedule), further, a, b);
  }
}
