/** Deadlock freedom of wired pipelines: in an acyclic wiring some unfinished thread can always do
    more than spin, and every such step uses up a finite amount of work. */
module Progress {
  import opened Message
  import opened Wiring
  import opened Threads
  import opened Linearization
  import opened Linearizability

  predicate Unfinished<S>(sys: System<S>, s: State<S>, t: nat)
    requires |s.threads| == |sys.programs|
  {
    t < |s.threads| && (s.threads[t].stack != [] || s.threads[t].next < |sys.programs[t]|)
  }

  /** The thread's next step is one more failing exchange on a lock that is taken. */
  predicate Spins<S>(s: State<S>, t: nat)
    requires t < |s.threads|
  {
    var stack := s.threads[t].stack;
    stack != [] && Top(stack).pc.Acquiring? && Top(stack).pipe < |s.locks| && s.locks[Top(stack).pipe]
  }

  predicate Moves<S>(sys: System<S>, s: State<S>, t: nat)
    requires |s.threads| == |sys.programs|
  {
    Unfinished(sys, s, t) && !Spins(s, t)
  }

  /** Follow the holders: whoever holds the lock that a thread waits for waits, if at all, for the lock
      of a pipeline further down the wiring. */
  lemma {:induction false} FindMover<S>(sys: System<S>, init: seq<Cell<S>>, s: State<S>, t: nat) returns (u: nat)
    requires Inv(sys, init, s) && Unfinished(sys, s, t)
    requires s.threads[t].stack != [] ==> Top(s.threads[t].stack).pipe < |sys.pipes|
    ensures Moves(sys, s, u)
    decreases if s.threads[t].stack != [] then Hops(sys, Top(s.threads[t].stack).pipe) else 0
  {
    if !Spins(s, t) {
      return t;
    }
    var i;
    u, i := WhoHolds(sys, init, s, Top(s.threads[t].stack).pipe);
    if Spins(s, u) {
      StackGetsCloser(sys, sys.programs[u], s.threads[u], i, |s.threads[u].stack| - 1);
      u := FindMover(sys, init, s, u);
    }
  }

  lemma SomeoneMoves<S>(sys: System<S>, init: seq<Cell<S>>, s: State<S>)
    requires Inv(sys, init, s)
    ensures Finished(sys, s) || exists u :: Moves(sys, s, u)
  {
    if !Finished(sys, s) {
      var t :| 0 <= t < |s.threads| && s.threads[t] != Thread(|sys.programs[t]|, []);
      assert ThreadShaped(sys, sys.programs[t], s.threads[t]);
      var u := FindMover(sys, init, s, t);
    }
  }

  /** No reachable state is deadlocked. */
  lemma NoDeadlock<S>(sys: System<S>, mems: seq<S>, schedule: seq<nat>)
    requires Acyclic(sys) && ProgramsValid(sys) && |mems| == |sys.pipes| && ScheduleFor(sys, schedule)
    ensures var s := Exec(sys, Initial(sys, mems), schedule);
            Finished(sys, s) || exists u :: Moves(sys, s, u)
  {
    InitialInv(sys, mems);
    ExecKeeps(sys, InitialCells(mems), Initial(sys, mems), schedule);
    SomeoneMoves(sys, InitialCells(mems), Exec(sys, Initial(sys, mems), schedule));
  }

  // ----- remaining work

  /** Steps that an emit into `p` still needs at most, from the attempt to lock on. */
  ghost function EmitWork<S>(sys: System<S>, p: nat): nat
    requires Acyclic(sys) && p < |sys.pipes|
    decreases Hops(sys, p), 1
  {
    |sys.pipes[p].stages| + 4 + ForwardWork(sys, p)
  }

  ghost function ForwardWork<S>(sys: System<S>, p: nat): nat
    requires Acyclic(sys) && p < |sys.pipes|
    decreases Hops(sys, p), 0
  {
    if sys.pipes[p].sink.Forward? then
      ForwardIsCloser(sys, p);
      EmitWork(sys, sys.pipes[p].sink.target)
    else 0
  }

  ghost function FrameWork<S>(sys: System<S>, f: Frame): nat
    requires Acyclic(sys)
  {
    if f.pipe >= |sys.pipes| then 0
    else
      match f.pc
      case Acquiring => EmitWork(sys, f.pipe)
      case Entered => EmitWork(sys, f.pipe) - 1
      case AtStage(i, _) =>
        (if i <= |sys.pipes[f.pipe].stages| then |sys.pipes[f.pipe].stages| - i else 0) + 2 + ForwardWork(sys, f.pipe)
      case InTarget => 1
      case Releasing => 1
  }

  ghost function StackWork<S>(sys: System<S>, stack: seq<Frame>): nat
    requires Acyclic(sys)
  {
    if stack == [] then 0
    else StackWork(sys, stack[..|stack| - 1]) + FrameWork(sys, stack[|stack| - 1])
  }

  ghost function PendingWork<S>(sys: System<S>, program: seq<Job>, from: nat): nat
    requires Acyclic(sys)
    decreases |program| - from
  {
    if from >= |program| then 0
    else
      (if program[from].pipe < |sys.pipes| then 1 + EmitWork(sys, program[from].pipe) else 0)
      + PendingWork(sys, program, from + 1)
  }

  ghost function ThreadWork<S>(sys: System<S>, program: seq<Job>, th: Thread): nat
    requires Acyclic(sys)
  {
    StackWork(sys, th.stack) + PendingWork(sys, program, if th.stack == [] then th.next else th.next + 1)
  }

  ghost function WorkUpTo<S>(sys: System<S>, threads: seq<Thread>, n: nat): nat
    requires Acyclic(sys) && n <= |threads| == |sys.programs|
  {
    if n == 0 then 0 else WorkUpTo(sys, threads, n - 1) + ThreadWork(sys, sys.programs[n - 1], threads[n - 1])
  }

  /** The work that all threads still have before them. */
  ghost function Work<S>(sys: System<S>, s: State<S>): nat
    requires Acyclic(sys) && |s.threads| == |sys.programs|
  {
    WorkUpTo(sys, s.threads, |s.threads|)
  }

  lemma SetTopWork<S>(sys: System<S>, stack: seq<Frame>, pc: Pc)
    requires Acyclic(sys) && stack != []
    ensures StackWork(sys, SetTop(stack, pc)) - FrameWork(sys, Top(stack).(pc := pc))
         == StackWork(sys, stack) - FrameWork(sys, Top(stack))
  {
    assert SetTop(stack, pc)[..|stack| - 1] == stack[..|stack| - 1];
  }

  lemma PushWork<S>(sys: System<S>, stack: seq<Frame>, f: Frame)
    requires Acyclic(sys)
    ensures StackWork(sys, stack + [f]) == StackWork(sys, stack) + FrameWork(sys, f)
  {
    assert (stack + [f])[..|stack|] == stack;
  }

  lemma {:induction false} OneThreadsWork<S>(sys: System<S>, threads: seq<Thread>, t: nat, th: Thread, n: nat)
    requires Acyclic(sys) && t < |threads| == |sys.programs| && n <= |threads|
    ensures WorkUpTo(sys, threads[t := th], n)
         == WorkUpTo(sys, threads, n)
            + if t < n then ThreadWork(sys, sys.programs[t], th) - ThreadWork(sys, sys.programs[t], threads[t]) else 0
  {
    if n > 0 {
      OneThreadsWork(sys, threads, t, th, n - 1);
    }
  }

  lemma TopUsesWork<S>(sys: System<S>, program: seq<Job>, th: Thread, pc: Pc)
    requires Acyclic(sys) && th.stack != []
    requires FrameWork(sys, Top(th.stack).(pc := pc)) < FrameWork(sys, Top(th.stack))
    ensures ThreadWork(sys, program, th.(stack := SetTop(th.stack, pc))) < ThreadWork(sys, program, th)
  {
    SetTopWork(sys, th.stack, pc);
  }

  lemma ForwardUsesWork<S>(sys: System<S>, program: seq<Job>, th: Thread, view: View)
    requires Acyclic(sys) && th.stack != []
    requires var f := Top(th.stack); f.pipe < |sys.pipes| && f.pc.AtStage? && sys.pipes[f.pipe].sink.Forward?
    ensures var q := sys.pipes[Top(th.stack).pipe].sink.target;
            var pushed := th.(stack := SetTop(th.stack, InTarget) + [Frame(q, view, Acquiring)]);
            ThreadWork(sys, program, pushed) < ThreadWork(sys, program, th)
  {
    var q := sys.pipes[Top(th.stack).pipe].sink.target;
    SetTopWork(sys, th.stack, InTarget);
    PushWork(sys, SetTop(th.stack, InTarget), Frame(q, view, Acquiring));
  }

  lemma StageUsesWork<S>(sys: System<S>, s: State<S>, t: nat)
    requires Acyclic(sys) && Shaped(sys, s) && t < |s.threads|
    requires s.threads[t].stack != [] && Top(s.threads[t].stack).pc.AtStage?
    ensures ThreadWork(sys, sys.programs[t], Step(sys, s, t).threads[t])
          < ThreadWork(sys, sys.programs[t], s.threads[t])
  {
    var th := s.threads[t];
    assert ThreadShaped(sys, sys.programs[t], th);
    var top := Top(th.stack);
    var shape := sys.pipes[top.pipe];
    var mem := s.cells[top.pipe].mem;
    TopUsesWork(sys, sys.programs[t], th, Releasing);
    if top.pc.i < |shape.stages| {
      TopUsesWork(sys, sys.programs[t], th, AtStage(top.pc.i + 1, shape.stages[top.pc.i](mem, top.pc.msg).msg));
    } else if shape.sink.Forward? {
      ForwardUsesWork(sys, sys.programs[t], th, shape.sink.remap(mem, top.pc.msg).view);
    }
  }

  lemma UnlockUsesWork<S>(sys: System<S>, s: State<S>, t: nat)
    requires Acyclic(sys) && Shaped(sys, s) && t < |s.threads| && Completed(s.threads[t])
    ensures ThreadWork(sys, sys.programs[t], Step(sys, s, t).threads[t])
          < ThreadWork(sys, sys.programs[t], s.threads[t])
  {
    var th := s.threads[t];
    assert ThreadShaped(sys, sys.programs[t], th);
    var below := th.stack[..|th.stack| - 1];
    if below != [] {
      SetTopWork(sys, below, Releasing);
    }
  }

  lemma ThreadUsesWork<S>(sys: System<S>, s: State<S>, t: nat)
    requires Acyclic(sys) && ProgramsValid(sys) && Shaped(sys, s) && Moves(sys, s, t)
    ensures ThreadWork(sys, sys.programs[t], Step(sys, s, t).threads[t])
          < ThreadWork(sys, sys.programs[t], s.threads[t])
  {
    var th := s.threads[t];
    assert ThreadShaped(sys, sys.programs[t], th);
    if th.stack == [] {
      var job := sys.programs[t][th.next];
      PushWork(sys, [], Frame(job.pipe, job.view, Acquiring));
      assert [] + [Frame(job.pipe, job.view, Acquiring)] == Step(sys, s, t).threads[t].stack;
    } else {
      var top := Top(th.stack);
      match top.pc
      case Acquiring => TopUsesWork(sys, sys.programs[t], th, Entered);
      case Entered =>
        TopUsesWork(sys, sys.programs[t], th, AtStage(0, top.view));
        TopUsesWork(sys, sys.programs[t], th, Releasing);
      case AtStage(_, _) => StageUsesWork(sys, s, t);
      case InTarget =>
      case Releasing => UnlockUsesWork(sys, s, t);
    }
  }

  /** A step is a failing exchange, which changes nothing, or uses up work. */
  lemma StepUsesWork<S>(sys: System<S>, s: State<S>, t: nat)
    requires Acyclic(sys) && ProgramsValid(sys) && Shaped(sys, s) && t < |s.threads|
    ensures Shaped(sys, Step(sys, s, t))
    ensures Moves(sys, s, t) ==> Work(sys, Step(sys, s, t)) < Work(sys, s)
    ensures !Moves(sys, s, t) ==> Step(sys, s, t) == s
  {
    StepReshapes(sys, s, t);
    if Moves(sys, s, t) {
      ThreadUsesWork(sys, s, t);
      OneThreadsWork(sys, s.threads, t, Step(sys, s, t).threads[t], |s.threads|);
    } else {
      assert ThreadShaped(sys, sys.programs[t], s.threads[t]);
    }
  }

  /** How many steps of a schedule do more than spin. */
  ghost function MovesIn<S>(sys: System<S>, s: State<S>, schedule: seq<nat>): nat
    requires Acyclic(sys) && ProgramsValid(sys) && Shaped(sys, s) && ScheduleFor(sys, schedule)
    decreases |schedule|
  {
    if schedule == [] then 0
    else
      var n := |schedule| - 1;
      MovesIn(sys, s, schedule[..n]) + if Moves(sys, Exec(sys, s, schedule[..n]), schedule[n]) then 1 else 0
  }

  /** No schedule, however long, contains more steps that do something than there is work. */
  lemma {:induction false} MovesAreBounded<S>(sys: System<S>, s: State<S>, schedule: seq<nat>)
    requires Acyclic(sys) && ProgramsValid(sys) && Shaped(sys, s) && ScheduleFor(sys, schedule)
    ensures MovesIn(sys, s, schedule) + Work(sys, Exec(sys, s, schedule)) <= Work(sys, s)
    decreases |schedule|
  {
    if schedule != [] {
      var n := |schedule| - 1;
      MovesAreBounded(sys, s, schedule[..n]);
      StepUsesWork(sys, Exec(sys, s, schedule[..n]), schedule[n]);
    }
  }

  lemma OneMoreStep<S>(sys: System<S>, s: State<S>, schedule: seq<nat>, u: nat)
    requires Acyclic(sys) && ProgramsValid(sys) && Shaped(sys, s) && ScheduleFor(sys, schedule) && u < |sys.programs|
    ensures ScheduleFor(sys, schedule + [u])
    ensures Exec(sys, s, schedule + [u]) == Step(sys, Exec(sys, s, schedule), u)
  {
    assert (schedule + [u])[..|schedule + [u]| - 1] == schedule;
  }

  lemma {:induction false} FinishAfter<S>(sys: System<S>, init: seq<Cell<S>>, s: State<S>, schedule: seq<nat>)
      returns (whole: seq<nat>)
    requires Inv(sys, init, s) && ScheduleFor(sys, schedule)
    ensures schedule <= whole && ScheduleFor(sys, whole) && Finished(sys, Exec(sys, s, whole))
    decreases Work(sys, Exec(sys, s, schedule))
  {
    var now := Exec(sys, s, schedule);
    ExecKeeps(sys, init, s, schedule);
    SomeoneMoves(sys, init, now);
    if Finished(sys, now) {
      return schedule;
    }
    var u :| Moves(sys, now, u);
    OneMoreStep(sys, s, schedule, u);
    StepUsesWork(sys, now, u);
    whole := FinishAfter(sys, init, s, schedule + [u]);
  }

  /** Every run can be continued until all emits of all threads are done. */
  lemma EveryRunCanFinish<S>(sys: System<S>, mems: seq<S>, schedule: seq<nat>)
    requires Acyclic(sys) && ProgramsValid(sys) && |mems| == |sys.pipes| && ScheduleFor(sys, schedule)
    ensures exists whole :: schedule <= whole && ScheduleFor(sys, whole)
                            && Finished(sys, Exec(sys, Initial(sys, mems), whole))
  {
    InitialInv(sys, mems);
    var whole := FinishAfter(sys, InitialCells(mems), Initial(sys, mems), schedule);
  }
}
