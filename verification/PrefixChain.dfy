/** connect_to.hpp, `pipe | connect_to(target, prefix)`: what comes out at the end of a chain. */
module PrefixChain {
  import opened Core
  import opened Message
  import opened Processing
  import opened Wiring

  /** Pipeline `way[i]` prepends `prefixes[i]` and emits into `way[i + 1]`; the last one has the sink. */
  ghost predicate Chain<S(!new)>(sys: System<S>, way: seq<nat>, prefixes: seq<string>) {
    && |way| == |prefixes| + 1
    && (forall i :: 0 <= i < |way| ==> way[i] < |sys.pipes|)
    && (forall i, k :: 0 <= i < |way| && 0 <= k < |sys.pipes[way[i]].stages| ==>
         PassesThrough(sys.cfg, sys.pipes[way[i]].stages[k]))
    && (forall i :: 0 <= i < |prefixes| ==> sys.pipes[way[i]].sink == ConnectToPrefix(way[i + 1], prefixes[i]))
    && sys.pipes[way[|prefixes|]].sink.Local?
  }

  /** The prefixes from number `i` on, the last one first. */
  function Joined(prefixes: seq<string>, i: nat): string
    requires i <= |prefixes|
    decreases |prefixes| - i
  {
    if i == |prefixes| then "" else Joined(prefixes, i + 1) + prefixes[i]
  }

  function TotalLength(prefixes: seq<string>, i: nat): nat
    requires i <= |prefixes|
    decreases |prefixes| - i
  {
    if i == |prefixes| then 0 else |prefixes[i]| + TotalLength(prefixes, i + 1)
  }

  lemma {:induction false} JoinedLength(prefixes: seq<string>, i: nat)
    requires i <= |prefixes|
    ensures |Joined(prefixes, i)| == TotalLength(prefixes, i)
    decreases |prefixes| - i
  {
    if i < |prefixes| {
      JoinedLength(prefixes, i + 1);
    }
  }

  /** No pipeline before the end of the chain is its last one. */
  lemma {:induction false} EndIsCloser<S(!new)>(sys: System<S>, way: seq<nat>, prefixes: seq<string>, i: nat)
    requires Acyclic(sys) && Chain(sys, way, prefixes) && i < |prefixes|
    ensures Hops(sys, way[|prefixes|]) < Hops(sys, way[i])
    decreases |prefixes| - i
  {
    assert sys.pipes[way[i]].sink == ConnectToPrefix(way[i + 1], prefixes[i]);
    ForwardIsCloser(sys, way[i]);
    if i + 1 < |prefixes| {
      EndIsCloser(sys, way, prefixes, i + 1);
    }
  }

  /** What the last sink's pipeline is after it processed `v`. */
  function SinkSaw<S>(shape: Shape<S>, mem: S, v: View): S
    requires shape.sink.Local?
  {
    shape.sink.absorb(RunStages(shape.stages, 0, mem, v).mem, v)
  }

  /** The message reaches the end of the rest of the chain. */
  predicate Reaches(cfg: Config, prefixes: seq<string>, i: nat, v: View)
    requires i <= |prefixes|
  {
    |v.topic| + TotalLength(prefixes, i) <= cfg.maxTopicLen && |v.payload| <= cfg.maxPayloadLen
  }

  lemma {:induction false} FromHere<S(!new)>(sys: System<S>, cells: seq<Cell<S>>, tk: Ticket, way: seq<nat>,
                                             prefixes: seq<string>, i: nat, v: View)
    requires Acyclic(sys) && |cells| == |sys.pipes| && Chain(sys, way, prefixes) && i <= |prefixes|
    ensures var end := way[|prefixes|];
            SeqEmit(sys, cells, tk, way[i], v)[end].mem
            == if Reaches(sys.cfg, prefixes, i, v)
               then SinkSaw(sys.pipes[end], cells[end].mem, v.(topic := Joined(prefixes, i) + v.topic))
               else cells[end].mem
    decreases |prefixes| - i
  {
    var p := way[i];
    if Fits(sys.cfg, v) {
      StagesPass(sys.cfg, sys.pipes[p].stages, 0, cells[p].mem, v);
      if i == |prefixes| {
        assert v.(topic := "" + v.topic) == v;
      } else {
        EndIsCloser(sys, way, prefixes, i);
        var l := Visit(sys, p, cells[p], tk, v);
        var w := v.(topic := prefixes[i] + v.topic);
        assert l.next == Some(Job(way[i + 1], w));
        FromHere(sys, cells[p := l.cell], tk, way, prefixes, i + 1, w);
        assert Joined(prefixes, i) + v.topic == Joined(prefixes, i + 1) + w.topic;
      }
    }
  }

  /** The last sink sees the message with all prefixes, the last pipeline's first, and with payload
      and QoS as they were, exactly when the whole topic and the payload fit; otherwise nothing that
      the callables of the last pipeline captured changes. */
  lemma ChainDelivers<S(!new)>(sys: System<S>, cells: seq<Cell<S>>, tk: Ticket, way: seq<nat>,
                               prefixes: seq<string>, v: View)
    requires Acyclic(sys) && |cells| == |sys.pipes| && Chain(sys, way, prefixes)
    ensures var end := way[|prefixes|];
            var whole := View(Joined(prefixes, 0) + v.topic, v.payload, v.qos);
            SeqEmit(sys, cells, tk, way[0], v)[end].mem
            == if Fits(sys.cfg, whole) then SinkSaw(sys.pipes[end], cells[end].mem, whole) else cells[end].mem
  {
    FromHere(sys, cells, tk, way, prefixes, 0, v);
    JoinedLength(prefixes, 0);
  }

  /** `with_remap` with a callable that prepends forwards what the prefix connection forwards, and an
      empty prefix forwards what the plain connection does. */
  lemma ConnectionsAgree<S(!new)>(target: nat, prefix: string, mem: S, v: View)
    ensures WithRemap<S>(target, (m, topic) => Renamed(m, prefix + topic)).remap(mem, v)
         == ConnectToPrefix<S>(target, prefix).remap(mem, v)
    ensures ConnectToPrefix<S>(target, "").remap(mem, v) == ConnectTo<S>(target).remap(mem, v)
  {
    assert "" + v.topic == v.topic;
  }
}
