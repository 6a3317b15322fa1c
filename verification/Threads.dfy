/** spinlock.hpp and `emit` in pipeline.hpp as atomic steps of any number of threads, interleaved in
    any order.  A thread is a stack of unfinished emits: a sink that forwards starts the next emit
    while the lock of its own pipeline stays held. */
module Threads {
  import opened Core
  import opened Message
  import opened Wiring

  /** Where an unfinished emit is. */
  datatype Pc =
    | Acquiring                      // spinning on the exchange of the lock
    | Entered                        // holds the lock, about to copy the message
    | AtStage(i: nat, msg: View)     // about to run stage i, or the sink after the last stage
    | InTarget                       // its sink waits for the emit it made
    | Releasing                      // about to unlock and return

  datatype Frame = Frame(pipe: nat, view: View, pc: Pc)

  /** `next` counts the finished emits of the thread's program. */
  datatype Thread = Thread(next: nat, stack: seq<Frame>)

  /** The locks and captured states are the program's; `holders` and `order` only record history:
      who holds each lock, and the emits in the order in which their processing was complete. */
  datatype State<S> = State(
    locks: seq<bool>, cells: seq<Cell<S>>, threads: seq<Thread>,
    holders: seq<Option<nat>>, order: seq<Ticket>)

  function Top(stack: seq<Frame>): Frame
    requires stack != []
  {
    stack[|stack| - 1]
  }

  function SetTop(stack: seq<Frame>, pc: Pc): seq<Frame>
    requires stack != []
  {
    stack[|stack| - 1 := Top(stack).(pc := pc)]
  }

  /** Each emit but the last waits in its sink for the one above it; the first one is the emit the
      thread's program asks for. */
  predicate ThreadShaped<S>(sys: System<S>, program: seq<Job>, th: Thread) {
    && th.next <= |program|
    && (forall i :: 0 <= i < |th.stack| ==>
         && th.stack[i].pipe < |sys.pipes|
         && (th.stack[i].pc.AtStage? ==> th.stack[i].pc.i <= |sys.pipes[th.stack[i].pipe].stages|))
    && (forall i :: 0 <= i < |th.stack| - 1 ==>
         && th.stack[i].pc.InTarget?
         && sys.pipes[th.stack[i].pipe].sink.Forward?
         && sys.pipes[th.stack[i].pipe].sink.target == th.stack[i + 1].pipe)
    && (th.stack != [] ==>
         && !Top(th.stack).pc.InTarget?
         && th.next < |program|
         && th.stack[0].pipe == program[th.next].pipe && th.stack[0].view == program[th.next].view)
  }

  predicate Shaped<S>(sys: System<S>, s: State<S>) {
    && |s.locks| == |s.cells| == |s.holders| == |sys.pipes|
    && |s.threads| == |sys.programs|
    && (forall t :: 0 <= t < |s.threads| ==> ThreadShaped(sys, sys.programs[t], s.threads[t]))
  }

  function WithThread<S>(s: State<S>, t: nat, th: Thread): State<S>
    requires t < |s.threads|
  {
    s.(threads := s.threads[t := th])
  }

  function WithPc<S>(s: State<S>, t: nat, pc: Pc): State<S>
    requires t < |s.threads| && s.threads[t].stack != []
  {
    WithThread(s, t, s.threads[t].(stack := SetTop(s.threads[t].stack, pc)))
  }

  function WithMem<S>(s: State<S>, p: nat, mem: S): State<S>
    requires p < |s.cells|
  {
    s.(cells := s.cells[p := s.cells[p].(mem := mem)])
  }

  /** The processing of the thread's current emit is complete, in this pipeline and in all before it. */
  function Complete<S>(s: State<S>, t: nat): State<S>
    requires t < |s.threads| && s.threads[t].stack != []
  {
    WithPc(s, t, Releasing).(order := s.order + [Ticket(t, s.threads[t].next)])
  }

  /** `exchange(true)`: takes the lock if it was free, and changes nothing if it was not. */
  function TryAcquire<S>(s: State<S>, t: nat): State<S>
    requires t < |s.threads| && s.threads[t].stack != []
    requires var p := Top(s.threads[t].stack).pipe; p < |s.locks| && p < |s.cells| && p < |s.holders|
  {
    var th := s.threads[t];
    var top := Top(th.stack);
    if s.locks[top.pipe] then s
    else
      WithPc(s.(locks := s.locks[top.pipe := true],
                holders := s.holders[top.pipe := Some(t)],
                cells := s.cells[top.pipe := Enter(s.cells[top.pipe], Ticket(t, th.next), top.view)]),
             t, Entered)
  }

  /** One stage, or the sink once all stages have run. */
  function RunNext<S>(sys: System<S>, s: State<S>, t: nat, p: nat, i: nat, msg: View): State<S>
    requires t < |s.threads| && s.threads[t].stack != []
    requires p < |s.cells| && p < |sys.pipes| && i <= |sys.pipes[p].stages|
  {
    var shape := sys.pipes[p];
    var mem := s.cells[p].mem;
    if i < |shape.stages| then
      var o := shape.stages[i](mem, msg);
      if o.keep then WithPc(WithMem(s, p, o.mem), t, AtStage(i + 1, o.msg))
      else Complete(WithMem(s, p, o.mem), t)
    else
      match shape.sink
      case NoSink => Complete(s, t)
      case Local(absorb) => Complete(WithMem(s, p, absorb(mem, msg)), t)
      case Forward(q, remap) =>
        var r := remap(mem, msg);
        var th := s.threads[t];
        WithThread(WithMem(s, p, r.mem), t,
                   th.(stack := SetTop(th.stack, InTarget) + [Frame(q, r.view, Acquiring)]))
  }

  /** Unlock, and return to the sink that made this emit or to the program. */
  function Unlock<S>(s: State<S>, t: nat): State<S>
    requires t < |s.threads| && s.threads[t].stack != []
    requires var p := Top(s.threads[t].stack).pipe; p < |s.locks| && p < |s.holders|
  {
    var th := s.threads[t];
    var p := Top(th.stack).pipe;
    var below := th.stack[..|th.stack| - 1];
    var after := if below == [] then Thread(th.next + 1, []) else th.(stack := SetTop(below, Releasing));
    WithThread(s.(locks := s.locks[p := false], holders := s.holders[p := None]), t, after)
  }

  /** The next atomic step of thread `t`. */
  function Step<S>(sys: System<S>, s: State<S>, t: nat): State<S>
    requires Shaped(sys, s) && t < |s.threads|
  {
    var th := s.threads[t];
    if th.stack == [] then
      if th.next == |sys.programs[t]| then s
      else
        var job := sys.programs[t][th.next];
        WithThread(s, t, th.(stack := [Frame(job.pipe, job.view, Acquiring)]))
    else
      var top := Top(th.stack);
      assert ThreadShaped(sys, sys.programs[t], th);
      match top.pc
      case Acquiring => TryAcquire(s, t)
      case Entered =>
        if Fits(sys.cfg, top.view) then WithPc(s, t, AtStage(0, top.view)) else Complete(s, t)
      case AtStage(i, msg) => RunNext(sys, s, t, top.pipe, i, msg)
      case InTarget => s
      case Releasing => Unlock(s, t)
  }

  /** Programs emit into pipelines that exist. */
  predicate ProgramsValid<S>(sys: System<S>) {
    forall t, k :: 0 <= t < |sys.programs| && 0 <= k < |sys.programs[t]| ==> sys.programs[t][k].pipe < |sys.pipes|
  }

  /** The lock is free, nothing has been emitted; `mems` is what the callables captured. */
  function Initial<S>(sys: System<S>, mems: seq<S>): State<S>
    requires |mems| == |sys.pipes|
  {
    State(seq(|mems|, _ => false),
          InitialCells(mems),
          seq(|sys.programs|, _ => Thread(0, [])),
          seq(|mems|, _ => None),
          [])
  }

  function InitialCells<S>(mems: seq<S>): seq<Cell<S>> {
    seq(|mems|, p requires 0 <= p < |mems| => Cell(mems[p], []))
  }

  lemma SetTopShaped<S>(sys: System<S>, program: seq<Job>, th: Thread, pc: Pc)
    requires ThreadShaped(sys, program, th) && th.stack != [] && !pc.InTarget?
    requires pc.AtStage? ==> pc.i <= |sys.pipes[Top(th.stack).pipe].stages|
    ensures ThreadShaped(sys, program, th.(stack := SetTop(th.stack, pc)))
  {
  }

  lemma PushShaped<S>(sys: System<S>, program: seq<Job>, th: Thread, view: View)
    requires Acyclic(sys) && ThreadShaped(sys, program, th) && th.stack != []
    requires sys.pipes[Top(th.stack).pipe].sink.Forward?
    ensures ThreadShaped(sys, program, th.(stack := SetTop(th.stack, InTarget)
                           + [Frame(sys.pipes[Top(th.stack).pipe].sink.target, view, Acquiring)]))
  {
  }

  lemma PopShaped<S>(sys: System<S>, program: seq<Job>, th: Thread)
    requires ThreadShaped(sys, program, th) && th.stack != []
    ensures var below := th.stack[..|th.stack| - 1];
            ThreadShaped(sys, program,
                         if below == [] then Thread(th.next + 1, []) else th.(stack := SetTop(below, Releasing)))
  {
  }

  /** `after` differs from `s` in the shape of thread `t` only, and that shape is in order. */
  predicate Reshaped<S>(sys: System<S>, s: State<S>, after: State<S>, t: nat)
    requires Shaped(sys, s) && t < |s.threads|
  {
    && |after.locks| == |s.locks| && |after.cells| == |s.cells| && |after.holders| == |s.holders|
    && |after.threads| == |s.threads|
    && after.threads == s.threads[t := after.threads[t]]
    && ThreadShaped(sys, sys.programs[t], after.threads[t])
  }

  lemma RunNextShaped<S>(sys: System<S>, s: State<S>, t: nat)
    requires Acyclic(sys) && Shaped(sys, s) && t < |s.threads|
    requires s.threads[t].stack != [] && Top(s.threads[t].stack).pc.AtStage?
    ensures Reshaped(sys, s, Step(sys, s, t), t)
  {
    var th := s.threads[t];
    var program := sys.programs[t];
    assert ThreadShaped(sys, program, th);
    var top := Top(th.stack);
    var shape := sys.pipes[top.pipe];
    var mem := s.cells[top.pipe].mem;
    SetTopShaped(sys, program, th, Releasing);
    if top.pc.i < |shape.stages| {
      SetTopShaped(sys, program, th, AtStage(top.pc.i + 1, shape.stages[top.pc.i](mem, top.pc.msg).msg));
    } else if shape.sink.Forward? {
      PushShaped(sys, program, th, shape.sink.remap(mem, top.pc.msg).view);
    }
  }

  lemma StepReshapes<S>(sys: System<S>, s: State<S>, t: nat)
    requires Acyclic(sys) && ProgramsValid(sys) && Shaped(sys, s) && t < |s.threads|
    ensures Reshaped(sys, s, Step(sys, s, t), t)
  {
    var th := s.threads[t];
    var program := sys.programs[t];
    assert ThreadShaped(sys, program, th);
    if th.stack != [] {
      var top := Top(th.stack);
      if top.pc.AtStage? {
        RunNextShaped(sys, s, t);
      } else if top.pc.Releasing? {
        PopShaped(sys, program, th);
      } else {
        SetTopShaped(sys, program, th, Entered);
        SetTopShaped(sys, program, th, Releasing);
        SetTopShaped(sys, program, th, AtStage(0, top.view));
      }
    }
  }

  lemma StepShaped<S>(sys: System<S>, s: State<S>, t: nat)
    requires Acyclic(sys) && ProgramsValid(sys) && Shaped(sys, s) && t < |s.threads|
    ensures Shaped(sys, Step(sys, s, t))
  {
    StepReshapes(sys, s, t);
  }

  /** The state after the steps of a schedule: which thread moves is chosen freely every time. */
  function Exec<S>(sys: System<S>, s: State<S>, schedule: seq<nat>): (r: State<S>)
    requires Acyclic(sys) && ProgramsValid(sys) && Shaped(sys, s)
    requires forall k :: 0 <= k < |schedule| ==> schedule[k] < |s.threads|
    ensures Shaped(sys, r) && |r.threads| == |s.threads|
    decreases |schedule|
  {
    if schedule == [] then s
    else
      var before := Exec(sys, s, schedule[..|schedule| - 1]);
      StepShaped(sys, before, schedule[|schedule| - 1]);
      Step(sys, before, schedule[|schedule| - 1])
  }
}
