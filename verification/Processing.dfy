/** The meaning of `process_message`: the stages in order over an owned copy, then the sink.

    Stages and sink are callables with captured state.  All state captured by the callables of one
    pipeline is one value of type S, read and written by whichever callable is running. */
module Processing {
  import opened Core
  import opened Message

  /** One stage call: the captured state and message it leaves behind, and whether to go on. */
  datatype StageOut<S> = StageOut(mem: S, msg: View, keep: bool)

  type Stage<!S> = (S, View) -> StageOut<S>

  type SinkFn<!S> = (S, View) -> S

  /** A stage receives a `basic_message&`, so whatever it leaves there fits the buffers. */
  ghost predicate StageFits<S(!new)>(cfg: Config, stage: Stage<S>) {
    forall mem: S, m: View :: Fits(cfg, m) ==> Fits(cfg, stage(mem, m).msg)
  }

  /** The captured state afterwards, and the message the sink is to see, if any. */
  datatype Outcome<S> = Outcome(mem: S, out: Option<View>)

  function RunStages<S>(stages: seq<Stage<S>>, i: nat, mem: S, msg: View): Outcome<S>
    requires i <= |stages|
    decreases |stages| - i
  {
    if i == |stages| then Outcome(mem, Some(msg))
    else
      var o := stages[i](mem, msg);
      if o.keep then RunStages(stages, i + 1, o.mem, o.msg) else Outcome(o.mem, None)
  }

  /** The first `i` stages, run forward: the state and message they leave, or no message once one of
      them has dropped it. */
  function RunFirst<S>(stages: seq<Stage<S>>, i: nat, mem: S, msg: View): Outcome<S>
    requires i <= |stages|
  {
    if i == 0 then Outcome(mem, Some(msg))
    else
      var before := RunFirst(stages, i - 1, mem, msg);
      if before.out.None? then before
      else
        var o := stages[i - 1](before.mem, before.out.value);
        Outcome(o.mem, if o.keep then Some(o.msg) else None)
  }

  /** Going on from where the first `i` stages came is running them all. */
  lemma {:induction false} FirstThenRest<S>(stages: seq<Stage<S>>, i: nat, mem: S, msg: View)
    requires i <= |stages|
    ensures var half := RunFirst(stages, i, mem, msg);
            RunStages(stages, 0, mem, msg)
            == if half.out.Some? then RunStages(stages, i, half.mem, half.out.value) else half
  {
    if i > 0 {
      FirstThenRest(stages, i - 1, mem, msg);
    }
  }

  function Process<S>(cfg: Config, stages: seq<Stage<S>>, sink: Option<SinkFn<S>>, mem: S, v: View): Outcome<S> {
    if !Fits(cfg, v) then Outcome(mem, None)
    else
      var o := RunStages(stages, 0, mem, v);
      match (sink, o.out)
      case (Some(f), Some(m)) => Outcome(f(o.mem, m), Some(m))
      case _ => Outcome(o.mem, None)
  }

  datatype Batch<S> = Batch(mem: S, delivered: seq<View>)

  /** What a sequence of messages does, one after the other. */
  function ProcessAll<S>(cfg: Config, stages: seq<Stage<S>>, sink: Option<SinkFn<S>>, mem: S, vs: seq<View>): Batch<S> {
    if vs == [] then Batch(mem, [])
    else
      var o := Process(cfg, stages, sink, mem, vs[0]);
      var rest := ProcessAll(cfg, stages, sink, o.mem, vs[1..]);
      Batch(rest.mem, (if o.out.Some? then [o.out.value] else []) + rest.delivered)
  }

  lemma {:induction false} ProcessAllAppend<S>(cfg: Config, stages: seq<Stage<S>>, sink: Option<SinkFn<S>>, mem: S,
                                               a: seq<View>, b: seq<View>)
    ensures var first := ProcessAll(cfg, stages, sink, mem, a);
            var second := ProcessAll(cfg, stages, sink, first.mem, b);
            ProcessAll(cfg, stages, sink, mem, a + b) == Batch(second.mem, first.delivered + second.delivered)
  {
    if a == [] {
      assert a + b == b;
    } else {
      assert (a + b)[0] == a[0] && (a + b)[1..] == a[1..] + b;
      var o := Process(cfg, stages, sink, mem, a[0]);
      ProcessAllAppend(cfg, stages, sink, o.mem, a[1..], b);
      var x := if o.out.Some? then [o.out.value] else [];
      var rest := ProcessAll(cfg, stages, sink, o.mem, a[1..]);
      var y, z := rest.delivered, ProcessAll(cfg, stages, sink, rest.mem, b).delivered;
      assert x + (y + z) == (x + y) + z;
    }
  }

  // ----- what happens to one message, stage by stage

  /** The first `n` stages one after the other: each is given the state and the message that the one
      before it left, and lets the message go on. */
  ghost predicate Passed<S(!new)>(stages: seq<Stage<S>>, n: nat, mems: seq<S>, msgs: seq<View>) {
    && n <= |stages| && |mems| == |msgs| == n + 1
    && forall i :: 0 <= i < n ==> stages[i](mems[i], msgs[i]) == StageOut(mems[i + 1], msgs[i + 1], true)
  }

  lemma {:induction false} PassedRunFirst<S(!new)>(stages: seq<Stage<S>>, n: nat, mems: seq<S>, msgs: seq<View>, i: nat)
    requires Passed(stages, n, mems, msgs) && i <= n
    ensures RunFirst(stages, i, mems[0], msgs[0]) == Outcome(mems[i], Some(msgs[i]))
  {
    if i > 0 {
      PassedRunFirst(stages, n, mems, msgs, i - 1);
    }
  }

  /** Every message passes some stages, to the last one or to one that drops it. */
  lemma {:induction false} Passage<S(!new)>(stages: seq<Stage<S>>, n: nat, mem: S, v: View)
      returns (k: nat, mems: seq<S>, msgs: seq<View>)
    requires n <= |stages|
    ensures Passed(stages, k, mems, msgs) && k <= n && mems[0] == mem && msgs[0] == v
    ensures k == n || !stages[k](mems[k], msgs[k]).keep
  {
    if n == 0 {
      k, mems, msgs := 0, [mem], [v];
    } else {
      k, mems, msgs := Passage(stages, n - 1, mem, v);
      if k == n - 1 && stages[k](mems[k], msgs[k]).keep {
        var o := stages[k](mems[k], msgs[k]);
        k, mems, msgs := n, mems + [o.mem], msgs + [o.msg];
      }
    }
  }

  /** What a message does to the captured state and to what the sink has seen: nothing if it does not
      fit; if it passes all stages, the sink is given what the last one left, in the state that it left;
      if a stage drops it, that stage's state stays and the sink sees nothing. */
  ghost predicate Traced<S(!new)>(cfg: Config, stages: seq<Stage<S>>, sink: Option<SinkFn<S>>, v: View,
                                  mem: S, seen: seq<View>, mem': S, seen': seq<View>) {
    && (|v.topic| > cfg.maxTopicLen || |v.payload| > cfg.maxPayloadLen ==> mem' == mem && seen' == seen)
    && (|v.topic| <= cfg.maxTopicLen && |v.payload| <= cfg.maxPayloadLen ==>
         forall k: nat, mems: seq<S>, msgs: seq<View> ::
           Passed(stages, k, mems, msgs) && mems[0] == mem && msgs[0] == v ==>
             && (k == |stages| && sink.Some? ==> mem' == sink.value(mems[k], msgs[k]) && seen' == seen + [msgs[k]])
             && (k == |stages| && sink.None? ==> mem' == mems[k] && seen' == seen)
             && (k < |stages| && !stages[k](mems[k], msgs[k]).keep ==>
                  mem' == stages[k](mems[k], msgs[k]).mem && seen' == seen))
  }

  /** The message a sink sees, if any, after those it has seen. */
  function Seen<S>(seen: seq<View>, o: Outcome<S>): seq<View> {
    seen + if o.out.Some? then [o.out.value] else []
  }

  lemma ProcessPasses<S(!new)>(cfg: Config, stages: seq<Stage<S>>, sink: Option<SinkFn<S>>, mem: S, v: View,
                               k: nat, mems: seq<S>, msgs: seq<View>)
    requires Fits(cfg, v) && Passed(stages, k, mems, msgs) && mems[0] == mem && msgs[0] == v
    ensures var o := Process(cfg, stages, sink, mem, v);
            && (k == |stages| && sink.Some? ==> o == Outcome(sink.value(mems[k], msgs[k]), Some(msgs[k])))
            && (k == |stages| && sink.None? ==> o == Outcome(mems[k], None))
            && (k < |stages| && !stages[k](mems[k], msgs[k]).keep ==> o == Outcome(stages[k](mems[k], msgs[k]).mem, None))
  {
    PassedRunFirst(stages, k, mems, msgs, k);
    FirstThenRest(stages, k, mem, v);
  }

  lemma ProcessTraced<S(!new)>(cfg: Config, stages: seq<Stage<S>>, sink: Option<SinkFn<S>>, mem: S, v: View, seen: seq<View>)
    ensures var o := Process(cfg, stages, sink, mem, v);
            Traced(cfg, stages, sink, v, mem, seen, o.mem, Seen(seen, o))
  {
    if Fits(cfg, v) {
      forall k: nat, mems: seq<S>, msgs: seq<View> | Passed(stages, k, mems, msgs) && mems[0] == mem && msgs[0] == v
        ensures var o := Process(cfg, stages, sink, mem, v);
                && (k == |stages| && sink.Some? ==>
                     o.mem == sink.value(mems[k], msgs[k]) && Seen(seen, o) == seen + [msgs[k]])
                && (k == |stages| && sink.None? ==> o.mem == mems[k] && Seen(seen, o) == seen)
                && (k < |stages| && !stages[k](mems[k], msgs[k]).keep ==>
                     o.mem == stages[k](mems[k], msgs[k]).mem && Seen(seen, o) == seen)
      {
        ProcessPasses(cfg, stages, sink, mem, v, k, mems, msgs);
      }
    }
  }

  /** One message after the other, each from the state that the one before it left. */
  ghost predicate AllTraced<S(!new)>(cfg: Config, stages: seq<Stage<S>>, sink: Option<SinkFn<S>>, vs: seq<View>,
                                     mems: seq<S>, seen: seq<seq<View>>) {
    && |mems| == |seen| == |vs| + 1
    && forall k :: 0 <= k < |vs| ==> Traced(cfg, stages, sink, vs[k], mems[k], seen[k], mems[k + 1], seen[k + 1])
  }

  lemma OneMoreTraced<S(!new)>(cfg: Config, stages: seq<Stage<S>>, sink: Option<SinkFn<S>>, vs: seq<View>,
                               mems: seq<S>, seen: seq<seq<View>>, v: View, mem: S, now: seq<View>)
    requires AllTraced(cfg, stages, sink, vs, mems, seen)
    requires Traced(cfg, stages, sink, v, mems[|vs|], seen[|vs|], mem, now)
    ensures AllTraced(cfg, stages, sink, vs + [v], mems + [mem], seen + [now])
  {
    var vs', mems', seen' := vs + [v], mems + [mem], seen + [now];
    forall k | 0 <= k < |vs'|
      ensures Traced(cfg, stages, sink, vs'[k], mems'[k], seen'[k], mems'[k + 1], seen'[k + 1])
    {
      if k < |vs| {
        assert Traced(cfg, stages, sink, vs[k], mems[k], seen[k], mems[k + 1], seen[k + 1]);
        assert vs'[k] == vs[k] && mems'[k] == mems[k] && seen'[k] == seen[k];
        assert mems'[k + 1] == mems[k + 1] && seen'[k + 1] == seen[k + 1];
      }
    }
  }

  lemma OneMoreProcessed<S>(cfg: Config, stages: seq<Stage<S>>, sink: Option<SinkFn<S>>, mem: S, vs: seq<View>, v: View)
    ensures var before := ProcessAll(cfg, stages, sink, mem, vs);
            var o := Process(cfg, stages, sink, before.mem, v);
            ProcessAll(cfg, stages, sink, mem, vs + [v]) == Batch(o.mem, Seen(before.delivered, o))
  {
    ProcessAllAppend(cfg, stages, sink, mem, vs, [v]);
    assert [v][1..] == [];
  }

  /** A batch is its messages one after the other. */
  lemma {:induction false} BatchTraced<S(!new)>(cfg: Config, stages: seq<Stage<S>>, sink: Option<SinkFn<S>>, mem: S,
                                                vs: seq<View>)
      returns (mems: seq<S>, seen: seq<seq<View>>)
    ensures AllTraced(cfg, stages, sink, vs, mems, seen) && mems[0] == mem && seen[0] == []
    ensures ProcessAll(cfg, stages, sink, mem, vs) == Batch(mems[|vs|], seen[|vs|])
    decreases |vs|
  {
    if vs == [] {
      return [mem], [[]];
    }
    var n := |vs| - 1;
    var before, was := BatchTraced(cfg, stages, sink, mem, vs[..n]);
    var o := Process(cfg, stages, sink, before[n], vs[n]);
    ProcessTraced(cfg, stages, sink, before[n], vs[n], was[n]);
    OneMoreTraced(cfg, stages, sink, vs[..n], before, was, vs[n], o.mem, Seen(was[n], o));
    OneMoreProcessed(cfg, stages, sink, mem, vs[..n], vs[n]);
    assert vs == vs[..n] + [vs[n]];
    mems, seen := before + [o.mem], was + [Seen(was[n], o)];
  }

  // ----- stages that let everything pass

  /** A stage that lets every message pass as it is; it may keep books in its own state. */
  ghost predicate PassesThrough<S(!new)>(cfg: Config, stage: Stage<S>) {
    forall mem: S, m: View :: Fits(cfg, m) ==> stage(mem, m).keep && stage(mem, m).msg == m
  }

  lemma {:induction false} StagesPass<S(!new)>(cfg: Config, stages: seq<Stage<S>>, i: nat, mem: S, msg: View)
    requires i <= |stages| && Fits(cfg, msg)
    requires forall k :: 0 <= k < |stages| ==> PassesThrough(cfg, stages[k])
    ensures RunStages(stages, i, mem, msg).out == Some(msg)
    decreases |stages| - i
  {
    if i < |stages| {
      assert PassesThrough(cfg, stages[i]);
      StagesPass(cfg, stages, i + 1, stages[i](mem, msg).mem, msg);
    }
  }

  /** The messages that fit the buffers. */
  function Fitting(cfg: Config, vs: seq<View>): seq<View> {
    if vs == [] then []
    else
      (if |vs[0].topic| <= cfg.maxTopicLen && |vs[0].payload| <= cfg.maxPayloadLen then [vs[0]] else [])
      + Fitting(cfg, vs[1..])
  }

  /** Through such stages the sink is given exactly the messages that fit, in order and unchanged. */
  lemma {:induction false} PassThroughDelivers<S(!new)>(cfg: Config, stages: seq<Stage<S>>, sink: SinkFn<S>, mem: S,
                                                        vs: seq<View>)
    requires forall k :: 0 <= k < |stages| ==> PassesThrough(cfg, stages[k])
    ensures ProcessAll(cfg, stages, Some(sink), mem, vs).delivered == Fitting(cfg, vs)
    decreases |vs|
  {
    if vs != [] {
      if Fits(cfg, vs[0]) {
        StagesPass(cfg, stages, 0, mem, vs[0]);
      }
      PassThroughDelivers(cfg, stages, sink, Process(cfg, stages, Some(sink), mem, vs[0]).mem, vs[1..]);
    }
  }

  /** The stages of a message that fits never produce one that does not. */
  lemma {:induction false} StagesKeepFit<S(!new)>(cfg: Config, stages: seq<Stage<S>>, i: nat, mem: S, msg: View)
    requires i <= |stages| && Fits(cfg, msg)
    requires forall k :: 0 <= k < |stages| ==> StageFits(cfg, stages[k])
    ensures var o := RunStages(stages, i, mem, msg);
            o.out.Some? ==> Fits(cfg, o.out.value)
    decreases |stages| - i
  {
    if i < |stages| {
      var o := stages[i](mem, msg);
      assert StageFits(cfg, stages[i]);
      StagesKeepFit(cfg, stages, i + 1, o.mem, o.msg);
    }
  }

  /** Every message a sink sees fits the buffers of the pipeline's Config. */
  lemma {:induction false} DeliveredFit<S(!new)>(cfg: Config, stages: seq<Stage<S>>, sink: Option<SinkFn<S>>, mem: S,
                                                 vs: seq<View>)
    requires forall k :: 0 <= k < |stages| ==> StageFits(cfg, stages[k])
    ensures forall m :: m in ProcessAll(cfg, stages, sink, mem, vs).delivered ==> Fits(cfg, m)
  {
    if vs != [] {
      if Fits(cfg, vs[0]) {
        StagesKeepFit(cfg, stages, 0, mem, vs[0]);
      }
      DeliveredFit(cfg, stages, sink, Process(cfg, stages, sink, mem, vs[0]).mem, vs[1..]);
    }
  }
}
