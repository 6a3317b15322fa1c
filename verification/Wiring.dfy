/** connect_to.hpp: pipelines whose sinks emit into other pipelines, and what one emit does to all
    of them when nothing else runs. */
module Wiring {
  import opened Core
  import opened Message
  import opened Processing

  /** What a forwarding sink emits, and the captured state it leaves behind. */
  datatype Forwarded<S> = Forwarded(mem: S, view: View)

  type Remap<!S> = (S, View) -> Forwarded<S>

  datatype Sink<!S> =
    | NoSink
    | Local(absorb: SinkFn<S>)
    | Forward(target: nat, remap: Remap<S>)

  /** `pipe | connect_to(target)`. */
  function ConnectTo<S>(target: nat): Sink<S> {
    Forward(target, (mem, v) => Forwarded(mem, v))
  }

  /** `pipe | connect_to(target, prefix)`. */
  function ConnectToPrefix<S>(target: nat, prefix: string): Sink<S> {
    Forward(target, (mem, v: View) => Forwarded(mem, v.(topic := prefix + v.topic)))
  }

  datatype Renamed<S> = Renamed(mem: S, topic: string)

  /** `with_remap`: an empty new topic means that the message is forwarded as it is. */
  function WithRemap<S>(target: nat, remap: (S, string) -> Renamed<S>): Sink<S> {
    Forward(target, (mem, v: View) =>
      var r := remap(mem, v.topic);
      Forwarded(r.mem, if r.topic != "" then v.(topic := r.topic) else v))
  }

  /** What the three kinds of connection forward, and the captured state they leave, for every remap
      callable and every message: the plain one forwards the message as it is, the prefixing one changes
      the topic alone, and a remap that returns an empty topic forwards the message as it is. */
  lemma WhatIsForwarded<S(!new)>(target: nat, prefix: string, remap: (S, string) -> Renamed<S>, mem: S, v: View)
    ensures var plain: Sink<S> := ConnectTo(target);
            plain.Forward? && plain.target == target && plain.remap(mem, v) == Forwarded(mem, v)
    ensures var prefixing: Sink<S> := ConnectToPrefix(target, prefix);
            && prefixing.Forward? && prefixing.target == target
            && prefixing.remap(mem, v) == Forwarded(mem, View(prefix + v.topic, v.payload, v.qos))
    ensures var remapping := WithRemap(target, remap);
            var r := remap(mem, v.topic);
            && remapping.Forward? && remapping.target == target
            && remapping.remap(mem, v) == Forwarded(r.mem, if r.topic == "" then v else View(r.topic, v.payload, v.qos))
  {
  }

  datatype Shape<!S> = Shape(stages: seq<Stage<S>>, sink: Sink<S>)

  /** One call of `emit` on a pipeline from outside. */
  datatype Job = Job(pipe: nat, view: View)

  /** Pipelines of one Config, and what each thread is going to emit. */
  datatype System<!S> = System(cfg: Config, pipes: seq<Shape<S>>, programs: seq<seq<Job>>)

  // ----- acyclic wiring

  /** The pipeline reached from `p` after `k` forwards. */
  function Follow<S>(sys: System<S>, p: nat, k: nat): Option<nat>
    decreases k
  {
    if p >= |sys.pipes| then None
    else if k == 0 then Some(p)
    else if sys.pipes[p].sink.Forward? then Follow(sys, sys.pipes[p].sink.target, k - 1)
    else None
  }

  /** Sinks forward to pipelines that exist, and no pipeline reaches itself. */
  ghost predicate Acyclic<S>(sys: System<S>) {
    && (forall p :: 0 <= p < |sys.pipes| && sys.pipes[p].sink.Forward? ==> sys.pipes[p].sink.target < |sys.pipes|)
    && (forall p: nat, k: nat :: p < |sys.pipes| && 1 <= k ==> Follow(sys, p, k) != Some(p))
  }

  lemma {:induction false} FollowAdds<S>(sys: System<S>, p: nat, j: nat, k: nat)
    requires Follow(sys, p, j).Some?
    ensures Follow(sys, p, j + k) == Follow(sys, Follow(sys, p, j).value, k)
    decreases j
  {
    if j > 0 {
      FollowAdds(sys, sys.pipes[p].sink.target, j - 1, k);
    }
  }

  lemma {:induction false} FollowBefore<S>(sys: System<S>, p: nat, j: nat, k: nat)
    requires j <= k && Follow(sys, p, k).Some?
    ensures Follow(sys, p, j).Some? && Follow(sys, p, j).value < |sys.pipes|
    decreases j
  {
    if j > 0 {
      FollowBefore(sys, sys.pipes[p].sink.target, j - 1, k - 1);
    }
  }

  /** Different numbers below `n` cannot be more than `n`. */
  lemma {:induction false} Pigeonhole(s: seq<nat>, n: nat)
    requires forall i :: 0 <= i < |s| ==> s[i] < n
    requires forall i, j :: 0 <= i < j < |s| ==> s[i] != s[j]
    ensures |s| <= n
    decreases n
  {
    assert s != [] ==> s[0] < n;
    if n > 0 {
      if i :| 0 <= i < |s| && s[i] == n - 1 {
        Pigeonhole(s[..i] + s[i + 1..], n - 1);
      } else if s != [] {
        Pigeonhole(s, n - 1);
      }
    }
  }

  /** In an acyclic wiring every way comes to its end. */
  lemma WayEnds<S>(sys: System<S>, p: nat)
    requires Acyclic(sys) && p < |sys.pipes|
    ensures Follow(sys, p, |sys.pipes|).None?
  {
    var n := |sys.pipes|;
    if Follow(sys, p, n).Some? {
      forall k: nat | k <= n
        ensures Follow(sys, p, k).Some? && Follow(sys, p, k).value < n
      {
        FollowBefore(sys, p, k, n);
      }
      var way := seq(n + 1, k requires 0 <= k <= n => Follow(sys, p, k).value);
      forall i, j | 0 <= i < j <= n
        ensures way[i] != way[j]
      {
        FollowAdds(sys, p, i, j - i);
      }
      Pigeonhole(way, n);
    }
  }

  ghost function EndOfWay<S>(sys: System<S>, p: nat, k: nat): (r: nat)
    requires p < |sys.pipes| && Follow(sys, p, k).None?
    ensures 1 <= r <= k && Follow(sys, p, r).None? && Follow(sys, p, r - 1).Some?
    decreases k
  {
    if Follow(sys, p, k - 1).None? then EndOfWay(sys, p, k - 1) else k
  }

  /** The number of pipelines a message can still pass through from `p` on. */
  ghost function Hops<S>(sys: System<S>, p: nat): nat
    requires Acyclic(sys) && p < |sys.pipes|
  {
    WayEnds(sys, p);
    EndOfWay(sys, p, |sys.pipes|)
  }

  lemma ForwardIsCloser<S>(sys: System<S>, p: nat)
    requires Acyclic(sys) && p < |sys.pipes| && sys.pipes[p].sink.Forward?
    ensures sys.pipes[p].sink.target < |sys.pipes|
    ensures Hops(sys, sys.pipes[p].sink.target) < Hops(sys, p)
  {
    var q := sys.pipes[p].sink.target;
    var h, g := Hops(sys, p), Hops(sys, q);
    assert Follow(sys, p, h) == Follow(sys, q, h - 1);
    if g >= h {
      FollowBefore(sys, q, h - 1, g - 1);
    }
  }

  // ----- one emit, alone

  /** Which emit call of which thread. */
  datatype Ticket = Ticket(thread: nat, job: nat)

  datatype Entry = Entry(ticket: Ticket, view: View)

  /** What the lock of a pipeline guards: the captured state of its callables.  The log records who
      acquired the lock, in order, and with which message. */
  datatype Cell<S> = Cell(mem: S, log: seq<Entry>)

  /** A pipeline after its own part of an emit, and the emit its sink makes, if any. */
  datatype Leave<S> = Leave(cell: Cell<S>, next: Option<Job>)

  function FromSink<S>(shape: Shape<S>, cell: Cell<S>, msg: View): Leave<S> {
    match shape.sink
    case NoSink => Leave(cell, None)
    case Local(absorb) => Leave(cell.(mem := absorb(cell.mem, msg)), None)
    case Forward(target, remap) =>
      var r := remap(cell.mem, msg);
      Leave(cell.(mem := r.mem), Some(Job(target, r.view)))
  }

  function FromStage<S>(shape: Shape<S>, i: nat, cell: Cell<S>, msg: View): (l: Leave<S>)
    requires i <= |shape.stages|
    ensures l.next.Some? ==> shape.sink.Forward? && l.next.value.pipe == shape.sink.target
    ensures l.cell.log == cell.log
  {
    var o := RunStages(shape.stages, i, cell.mem, msg);
    if o.out.Some? then FromSink(shape, cell.(mem := o.mem), o.out.value)
    else Leave(cell.(mem := o.mem), None)
  }

  /** `process_message` on the message a lock holder brought. */
  function FromEntry<S>(cfg: Config, shape: Shape<S>, cell: Cell<S>, view: View): (l: Leave<S>)
    ensures l.next.Some? ==> shape.sink.Forward? && l.next.value.pipe == shape.sink.target
    ensures l.cell.log == cell.log
  {
    if Fits(cfg, view) then FromStage(shape, 0, cell, view) else Leave(cell, None)
  }

  function Enter<S>(cell: Cell<S>, tk: Ticket, view: View): Cell<S> {
    cell.(log := cell.log + [Entry(tk, view)])
  }

  function Visit<S>(sys: System<S>, p: nat, cell: Cell<S>, tk: Ticket, view: View): (l: Leave<S>)
    requires p < |sys.pipes|
    ensures l.next.Some? ==> sys.pipes[p].sink.Forward? && l.next.value.pipe == sys.pipes[p].sink.target
    ensures l.cell.log == cell.log + [Entry(tk, view)]
  {
    FromEntry(sys.cfg, sys.pipes[p], Enter(cell, tk, view), view)
  }

  /** What a visit does, stage by stage: it is logged; a message that does not fit changes nothing; one
      that passes all stages goes to the sink as the last stage left it, in the state that it left; one
      that a stage drops goes nowhere. */
  lemma VisitPasses<S(!new)>(sys: System<S>, p: nat, cell: Cell<S>, tk: Ticket, view: View,
                             k: nat, mems: seq<S>, msgs: seq<View>)
    requires p < |sys.pipes| && Passed(sys.pipes[p].stages, k, mems, msgs) && mems[0] == cell.mem && msgs[0] == view
    ensures var shape := sys.pipes[p];
            var l := Visit(sys, p, cell, tk, view);
            && l.cell.log == cell.log + [Entry(tk, view)]
            && if |view.topic| > sys.cfg.maxTopicLen || |view.payload| > sys.cfg.maxPayloadLen then
                 l.cell.mem == cell.mem && l.next == None
               else if k < |shape.stages| then
                 !shape.stages[k](mems[k], msgs[k]).keep ==>
                   l.cell.mem == shape.stages[k](mems[k], msgs[k]).mem && l.next == None
               else
                 match shape.sink
                 case NoSink => l.cell.mem == mems[k] && l.next == None
                 case Local(absorb) => l.cell.mem == absorb(mems[k], msgs[k]) && l.next == None
                 case Forward(q, remap) =>
                   l.cell.mem == remap(mems[k], msgs[k]).mem && l.next == Some(Job(q, remap(mems[k], msgs[k]).view))
  {
    PassedRunFirst(sys.pipes[p].stages, k, mems, msgs, k);
    FirstThenRest(sys.pipes[p].stages, k, cell.mem, view);
  }

  /** A whole emit with no other thread about: this pipeline, then the one its sink emits into. */
  ghost function SeqEmit<S>(sys: System<S>, cells: seq<Cell<S>>, tk: Ticket, p: nat, view: View): (r: seq<Cell<S>>)
    requires Acyclic(sys) && |cells| == |sys.pipes| && p < |sys.pipes|
    ensures |r| == |cells|
    decreases Hops(sys, p)
  {
    var l := Visit(sys, p, cells[p], tk, view);
    var after := cells[p := l.cell];
    if l.next.None? then after
    else
      ForwardIsCloser(sys, p);
      SeqEmit(sys, after, tk, l.next.value.pipe, l.next.value.view)
  }

  predicate ValidTicket<S>(sys: System<S>, tk: Ticket) {
    && tk.thread < |sys.programs| && tk.job < |sys.programs[tk.thread]|
    && sys.programs[tk.thread][tk.job].pipe < |sys.pipes|
  }

  /** Emits one after the other, in the given order. */
  ghost function SeqRun<S>(sys: System<S>, cells: seq<Cell<S>>, order: seq<Ticket>): (r: seq<Cell<S>>)
    requires Acyclic(sys) && |cells| == |sys.pipes|
    requires forall k :: 0 <= k < |order| ==> ValidTicket(sys, order[k])
    ensures |r| == |cells|
    decreases |order|
  {
    if order == [] then cells
    else
      var last := order[|order| - 1];
      assert ValidTicket(sys, order[|order| - 1]);
      var job := sys.programs[last.thread][last.job];
      SeqEmit(sys, SeqRun(sys, cells, order[..|order| - 1]), last, job.pipe, job.view)
  }
}
