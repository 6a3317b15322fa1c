/** pipeline.hpp: `basic_pipeline` with one thread at work. */
module Pipeline {
  import opened Core
  import opened Message
  import opened Processing
  import opened Uri
  import opened OwnedUri
  import opened Spinlock
  import opened Source
  import opened Rounds
  import opened RunOrder
  import L = Lifecycle
  import B = Builder

  function Values<T>(s: seq<Option<T>>): seq<T>
    requires forall i :: 0 <= i < |s| ==> s[i].Some?
  {
    seq(|s|, i requires 0 <= i < |s| => s[i].value)
  }

  /** The captured state and the sink's messages after some messages were emitted one after the other. */
  ghost predicate Emitted<S>(cfg: Config, stages: seq<Stage<S>>, sink: Option<SinkFn<S>>, vs: seq<View>,
                       mem: S, delivered: seq<View>, mem': S, delivered': seq<View>) {
    var all := ProcessAll(cfg, stages, sink, mem, vs);
    mem' == all.mem && delivered' == delivered + all.delivered
  }

  lemma EmittedJoin<S>(cfg: Config, stages: seq<Stage<S>>, sink: Option<SinkFn<S>>, a: seq<View>, b: seq<View>,
                       m0: S, d0: seq<View>, m1: S, d1: seq<View>, m2: S, d2: seq<View>)
    requires Emitted(cfg, stages, sink, a, m0, d0, m1, d1) && Emitted(cfg, stages, sink, b, m1, d1, m2, d2)
    ensures Emitted(cfg, stages, sink, a + b, m0, d0, m2, d2)
  {
    ProcessAllAppend(cfg, stages, sink, m0, a, b);
  }

  lemma EmittedNothing<S>(cfg: Config, stages: seq<Stage<S>>, sink: Option<SinkFn<S>>, mem: S, delivered: seq<View>)
    ensures Emitted(cfg, stages, sink, [], mem, delivered, mem, delivered)
  {
  }

  class BasicPipeline<S(!new)> {
    const cfg: Config
    const source: BusSource
    var uri: BasicUri
    const configOps: array<nat>
    var configCount: nat
    const stages: array<Option<Stage<S>>>
    var stageCount: nat
    var sink: Option<SinkFn<S>>
    const subscriptions: array<L.Subscription>
    var subCount: nat
    var running: bool
    const stageLock: SpinLock
    var pendingError: ErrorCode

    /** The state captured by the stages and the sink, and the messages the sink has seen. */
    var mem: S
    ghost var delivered: seq<View>

    ghost predicate Valid()
      reads `uri, `configCount, `stageCount, `subCount, uri, configOps, stages, subscriptions
    {
      && uri.Valid()
      && configOps.Length == cfg.maxConfigOps && configCount <= configOps.Length
      && stages.Length == cfg.maxStages && stageCount <= stages.Length
      && subscriptions.Length == cfg.maxSubscriptions && subCount <= subscriptions.Length
      && (forall i :: subCount <= i < subscriptions.Length ==> subscriptions[i] == L.Subscription("", 0))
      && (forall i :: 0 <= i < stageCount ==> stages[i].Some? && StageFits(cfg, stages[i].value))
    }

    ghost function Stages(): (r: seq<Stage<S>>)
      requires Valid()
      reads `uri, `configCount, `stageCount, `subCount, uri, configOps, stages, subscriptions
      ensures |r| == stageCount && forall i :: 0 <= i < stageCount ==> r[i] == stages[i].value
    {
      Values(stages[..stageCount])
    }

    ghost function Built(): B.Built<S>
      requires Valid()
      reads `uri, `configCount, `stageCount, `subCount, `sink, `pendingError, uri, configOps, stages, subscriptions
    {
      B.Built(uri.Contents(), configOps[..configCount], Stages(), sink, subscriptions[..subCount], pendingError)
    }

    constructor (cfg: Config, source: BusSource, mem: S)
      ensures Valid() && this.cfg == cfg && this.source == source && this.mem == mem
      ensures fresh(configOps) && fresh(stages) && fresh(subscriptions) && fresh(stageLock) && fresh(uri)
      ensures Built() == B.Fresh() && delivered == [] && !running && !stageLock.locked
    {
      this.cfg, this.source, this.mem := cfg, source, mem;
      uri := new BasicUri();
      configOps := new nat[cfg.maxConfigOps](_ => 0);
      stages := new Option<Stage<S>>[cfg.maxStages](_ => None);
      subscriptions := new L.Subscription[cfg.maxSubscriptions](_ => L.Subscription("", 0));
      configCount, stageCount, subCount := 0, 0, 0;
      sink, running, pendingError, delivered := None, false, NoError, [];
      stageLock := new SpinLock();
    }

    /** The constructor that takes a URI as well. */
    static method WithUri(cfg: Config, source: BusSource, text: string, mem: S) returns (p: BasicPipeline<S>)
      ensures fresh(p) && fresh({p.configOps, p.stages, p.subscriptions, p.stageLock, p.uri})
      ensures p.Valid() && p.cfg == cfg && p.source == source && p.mem == mem
      ensures p.Built() == B.Build(cfg, B.Fresh(), B.SetUri(text))
      ensures p.pendingError == if |text| > cfg.maxUriLen then InvalidUri else NoError
      ensures |text| <= cfg.maxUriLen ==> p.uri.Contents() == ParsedText(cfg.parser, text)
      ensures p.delivered == [] && !p.running && !p.stageLock.locked
    {
      p := new BasicPipeline(cfg, source, mem);
      p.ConnectUri(text);
    }

    // ----- builder

    method Subscribe(topic: string, qos: int)
      requires Valid()
      modifies this`subCount, this`pendingError, subscriptions
      ensures Valid() && Built() == B.Build(cfg, old(Built()), B.AddSubscription(L.Subscription(topic, qos)))
      ensures old(subCount) == cfg.maxSubscriptions ==>
                subCount == old(subCount) && pendingError == CapacityExceeded && subscriptions[..] == old(subscriptions[..])
      ensures old(subCount) < cfg.maxSubscriptions ==>
                && subCount == old(subCount) + 1
                && subscriptions[..old(subCount)] == old(subscriptions[..subCount])
                && if |topic| <= cfg.maxTopicLen then
                     subscriptions[old(subCount)] == L.Subscription(topic, qos) && pendingError == old(pendingError)
                   else
                     subscriptions[old(subCount)] == L.Subscription("", 0) && pendingError == BufferOverflow
    {
      if subCount < subscriptions.Length {
        var slot := subCount;
        subCount := subCount + 1;
        if |topic| > cfg.maxTopicLen {
          pendingError := BufferOverflow;
          return;
        }
        subscriptions[slot] := L.Subscription(topic, qos);
      } else {
        pendingError := CapacityExceeded;
      }
    }

    method Configure(op: nat)
      requires Valid()
      modifies this`configCount, this`pendingError, configOps
      ensures Valid() && Built() == B.Build(cfg, old(Built()), B.AddConfigOp(op))
      ensures if old(configCount) < cfg.maxConfigOps then
                configOps[..configCount] == old(configOps[..configCount]) + [op] && pendingError == old(pendingError)
              else
                configOps[..configCount] == old(configOps[..configCount]) && pendingError == CapacityExceeded
    {
      if configCount < configOps.Length {
        configOps[configCount] := op;
        configCount := configCount + 1;
      } else {
        pendingError := CapacityExceeded;
      }
    }

    method AddStage(f: Stage<S>)
      requires Valid() && StageFits(cfg, f)
      modifies this`stageCount, this`pendingError, stages
      ensures Valid() && Built() == B.Build(cfg, old(Built()), B.AddStage(f))
      ensures if old(stageCount) < cfg.maxStages then
                Stages() == old(Stages()) + [f] && pendingError == old(pendingError)
              else
                Stages() == old(Stages()) && pendingError == CapacityExceeded
    {
      if stageCount < stages.Length {
        stages[stageCount] := Some(f);
        stageCount := stageCount + 1;
      } else {
        pendingError := CapacityExceeded;
      }
    }

    method SetSink(f: SinkFn<S>)
      requires Valid()
      modifies this`sink
      ensures Valid() && Built() == B.Build(cfg, old(Built()), B.SetSink(f)) && sink == Some(f)
    {
      sink := Some(f);
    }

    method ConnectUri(text: string)
      requires Valid()
      modifies this`uri, this`pendingError
      ensures Valid() && fresh(uri) && Built() == B.Build(cfg, old(Built()), B.SetUri(text))
      ensures |text| <= cfg.maxUriLen ==>
                uri.Contents() == ParsedText(cfg.parser, text) && pendingError == old(pendingError)
      ensures |text| > cfg.maxUriLen ==>
                uri.Contents() == UriText("", "", "", "", "", "", "", "") && pendingError == InvalidUri
    {
      uri := BasicUri.ParseOrDefault(cfg, text);
      if uri.truncated {
        pendingError := InvalidUri;
      }
    }

    method Check() returns (r: Result)
      requires Valid()
      ensures r == if pendingError == NoError then Ok else Err(pendingError)
    {
      if pendingError != NoError {
        return Err(pendingError);
      }
      return Ok;
    }

    // ----- processing

    /** A stage works on the owned message in place. */
    method CallStage(f: Stage<S>, owned: BasicMessage) returns (keep: bool)
      requires owned.Valid() && owned.cfg == cfg && StageFits(cfg, f)
      modifies this`mem, owned, owned.topicBuf, owned.payloadBuf
      ensures owned.Valid() && StageOut(mem, owned.AsView(), keep) == f(old(mem), old(owned.AsView()))
    {
      var o := f(mem, owned.AsView());
      mem := o.mem;
      var written := owned.FromView(o.msg);
      keep := o.keep;
    }

    method ProcessMessage(msg: View)
      requires Valid()
      modifies this`mem, this`delivered
      ensures Valid() && Built() == old(Built())
      ensures var o := Process(cfg, Stages(), sink, old(mem), msg); mem == o.mem && delivered == Seen(old(delivered), o)
      ensures Traced(cfg, Stages(), sink, msg, old(mem), old(delivered), mem, delivered)
    {
      ProcessTraced(cfg, Stages(), sink, mem, msg, delivered);
      var owned := new BasicMessage(cfg);
      var copied := owned.FromView(msg);
      if copied.Err? {
        return;
      }
      ghost var fs := Stages();
      var i := 0;
      while i < stageCount
        invariant i <= stageCount && delivered == old(delivered)
        invariant owned.Valid() && fresh(owned) && fresh(owned.topicBuf) && fresh(owned.payloadBuf) && owned.cfg == cfg
        invariant RunStages(fs, 0, old(mem), msg) == RunStages(fs, i, mem, owned.AsView())
      {
        assert stages[i].value == fs[i];
        var keep := CallStage(stages[i].value, owned);
        if !keep {
          return;
        }
        i := i + 1;
      }
      if sink.Some? {
        mem := sink.value(mem, owned.AsView());
        delivered := delivered + [owned.AsView()];
      }
    }

    method Emit(msg: View)
      requires Valid() && !stageLock.locked
      modifies this`mem, this`delivered, stageLock
      ensures Valid() && !stageLock.locked && Built() == old(Built())
      ensures var o := Process(cfg, Stages(), sink, old(mem), msg); mem == o.mem && delivered == Seen(old(delivered), o)
      ensures Traced(cfg, Stages(), sink, msg, old(mem), old(delivered), mem, delivered)
    {
      stageLock.Lock();
      ProcessMessage(msg);
      stageLock.Unlock();
    }

    // ----- running

    /** `stop()` from the thread that runs; from other threads it is the `stopped` of the source's
        model, and in StopRace. */
    method Stop()
      requires Valid()
      modifies this`running
      ensures Valid() && !running && Built() == old(Built())
    {
      running := false;
    }

    /** The callback emits every message of a poll, in order. */
    method EmitAll(messages: seq<View>)
      requires Valid() && !stageLock.locked
      modifies this`mem, this`delivered, stageLock
      ensures Valid() && !stageLock.locked && Built() == old(Built())
      ensures Emitted(cfg, Stages(), sink, messages, old(mem), old(delivered), mem, delivered)
    {
      var i := 0;
      while i < |messages|
        invariant i <= |messages|
        invariant Valid() && !stageLock.locked && Built() == old(Built())
        invariant Emitted(cfg, Stages(), sink, messages[..i], old(mem), old(delivered), mem, delivered)
      {
        ghost var m, d := mem, delivered;
        Emit(messages[i]);
        EmittedJoin(cfg, Stages(), sink, messages[..i], [messages[i]], old(mem), old(delivered), m, d, mem, delivered);
        assert messages[..i + 1] == messages[..i] + [messages[i]];
        i := i + 1;
      }
      assert messages[..i] == messages;
    }

    /** The loop's condition: a load of the running flag, then the question to the source. */
    method GoesOn() returns (go: bool, ghost asked: seq<L.Event>)
      requires Valid() && running
      modifies this`running, source
      ensures Valid() && Built() == old(Built())
      ensures source.trace == old(source.trace) + asked && L.AllAnswered(source.model, old(source.trace), asked)
      ensures if go then running && asked == ASKED else L.Rounds(asked) && |asked| < 3
    {
      running := source.LoadRunning();
      asked := [L.LoadRunning(running)];
      assert old(source.trace) + [] == old(source.trace);
      go := running;
      if running {
        ghost var loaded := source.trace;
        go := source.IsConnected();
        assert loaded + [] == loaded;
        L.AnsweredJoin(source.model, old(source.trace), asked, [L.IsConnected(go)]);
        asked := asked + [L.IsConnected(go)];
      }
    }

    /** One poll, once the loop goes on, and the emits of what it hands over. */
    method PollRound(ghost start: seq<L.Event>, ghost done: seq<L.Event>, ghost left: nat,
                     ghost mem0: S, ghost delivered0: seq<View>)
      returns (ghost next: seq<L.Event>, ghost rest: nat)
      requires Valid() && !stageLock.locked && SoFar(source.model, start, done, left)
      requires source.trace == start + done + ASKED && L.AllAnswered(source.model, start + done, ASKED)
      requires Emitted(cfg, Stages(), sink, Polled(done), mem0, delivered0, mem, delivered)
      modifies this`mem, this`delivered, source, stageLock
      ensures Valid() && !stageLock.locked && Built() == old(Built())
      ensures rest < left && SoFar(source.model, start, next, rest) && source.trace == start + next
      ensures Emitted(cfg, Stages(), sink, Polled(next), mem0, delivered0, mem, delivered)
    {
      var messages := source.Poll();
      ghost var m, d := mem, delivered;
      EmitAll(messages);
      EmittedJoin(cfg, Stages(), sink, Polled(done), messages, mem0, delivered0, m, d, mem, delivered);
      RoundDone(source.model, start, done, left, messages);
      RoundPolled(done, messages);
      Regroup(start, done, ASKED, [L.Poll(messages)]);
      next, rest := done + (ASKED + [L.Poll(messages)]), left - 1;
    }

    method EventLoop(ghost polls: nat) returns (ghost loop: seq<L.Event>)
      requires Valid() && running && !stageLock.locked
      requires L.Returns(source.model, source.trace + [L.SetCallback], polls)
      modifies this`running, this`mem, this`delivered, source, stageLock
      ensures Valid() && !stageLock.locked && Built() == old(Built())
      ensures source.trace == old(source.trace) + loop && L.AllAnswered(source.model, old(source.trace), loop)
      ensures L.Loop(loop)
      ensures Emitted(cfg, Stages(), sink, Polled(loop), old(mem), old(delivered), mem, delivered)
    {
      ghost var start := source.trace + [L.SetCallback];
      source.SetMessageCallback();
      ghost var done: seq<L.Event>, left: nat := [], polls;
      ghost var asked;
      var go;
      assert start + done == start;
      go, asked := GoesOn();
      while go
        invariant Valid() && !stageLock.locked && Built() == old(Built())
        invariant source.trace == start + done + asked && L.AllAnswered(source.model, start + done, asked)
        invariant SoFar(source.model, start, done, left)
        invariant if go then running && asked == ASKED else L.Rounds(asked) && |asked| < 3
        invariant Emitted(cfg, Stages(), sink, Polled(done), old(mem), old(delivered), mem, delivered)
        decreases if go then left + 1 else 0
      {
        done, left := PollRound(start, done, left, old(mem), old(delivered));
        go, asked := GoesOn();
      }
      LoopAnswered(source.model, old(source.trace), done, asked);
      LoopDone(done, asked);
      LoopPolled(done, asked);
      Regroup(old(source.trace), [L.SetCallback], done, asked);
      loop := [L.SetCallback] + (done + asked);
    }

    /** The part of `run()` that applies the configuration callables; a failure disconnects. */
    method ApplyConfigOps(ghost start: seq<L.Event>, ghost plan: L.Plan, ghost before: seq<L.Event>)
      returns (r: Result, ghost added: seq<L.Event>)
      requires Valid() && plan == Built().RunPlan() && plan.pending == NoError
      requires SetupDone(source.model, start, plan, 1, before) && source.trace == start + before
      modifies source
      ensures source.trace == start + added
      ensures if r.Ok? then SetupDone(source.model, start, plan, 1 + configCount, added)
              else Ended(source.model, start, plan, added, r)
    {
      added, r := before, Ok;
      var i := 0;
      while i < configCount
        invariant i <= configCount && r.Ok?
        invariant SetupDone(source.model, start, plan, 1 + i, added) && source.trace == start + added
      {
        r := source.Configure(configOps[i]);
        assert L.SetupCall(plan, 1 + i, r) == L.Configure(configOps[i], r);
        if r.Err? {
          var d := source.Disconnect();
          added := SetupBroken(source.model, start, plan, 1 + i, added, r, d);
          return;
        }
        added := SetupGoesOn(source.model, start, plan, 1 + i, added);
        i := i + 1;
      }
    }

    /** The part of `run()` that subscribes; a failure disconnects. */
    method ApplySubscriptions(ghost start: seq<L.Event>, ghost plan: L.Plan, ghost before: seq<L.Event>)
      returns (r: Result, ghost added: seq<L.Event>)
      requires Valid() && plan == Built().RunPlan() && plan.pending == NoError
      requires SetupDone(source.model, start, plan, 1 + configCount, before) && source.trace == start + before
      modifies source
      ensures source.trace == start + added
      ensures if r.Ok? then SetupDone(source.model, start, plan, 1 + configCount + subCount, added)
              else Ended(source.model, start, plan, added, r)
    {
      added, r := before, Ok;
      var i := 0;
      while i < subCount
        invariant i <= subCount && r.Ok?
        invariant SetupDone(source.model, start, plan, 1 + configCount + i, added) && source.trace == start + added
      {
        r := source.Subscribe(subscriptions[i]);
        assert L.SetupCall(plan, 1 + configCount + i, r) == L.Subscribe(subscriptions[i], r);
        if r.Err? {
          var d := source.Disconnect();
          added := SetupBroken(source.model, start, plan, 1 + configCount + i, added, r, d);
          return;
        }
        added := SetupGoesOn(source.model, start, plan, 1 + configCount + i, added);
        i := i + 1;
      }
    }

    /** The calls of `run()` before the loop. */
    method SetUpSource() returns (r: Result, ghost added: seq<L.Event>)
      requires Valid() && pendingError == NoError
      modifies source
      ensures source.trace == old(source.trace) + added
      ensures var plan := Built().RunPlan();
              if r.Ok? then SetupDone(source.model, old(source.trace), plan, |L.Setup(plan)|, added)
              else Ended(source.model, old(source.trace), plan, added, r)
    {
      ghost var start, plan := source.trace, Built().RunPlan();
      r := source.Connect(uri.Contents());
      if r.Err? {
        added := ConnectBroken(source.model, start, plan, r);
        return;
      }
      added := SetupBegins(source.model, start, plan);
      r, added := ApplyConfigOps(start, plan, added);
      if r.Ok? {
        r, added := ApplySubscriptions(start, plan, added);
      }
    }

    /** The part of `run()` after a setup that succeeded. */
    method Serve(ghost polls: nat, ghost start: seq<L.Event>, ghost before: seq<L.Event>)
      returns (ghost loop: seq<L.Event>, ghost d: Result)
      requires Valid() && !stageLock.locked && source.trace == start + before
      requires L.Returns(source.model, source.trace + [L.SetCallback], polls)
      modifies this`running, this`mem, this`delivered, source, stageLock
      ensures Valid() && !stageLock.locked && Built() == old(Built()) && !running
      ensures source.trace == start + before + loop + [L.Disconnect(d)]
      ensures L.Loop(loop) && L.AllAnswered(source.model, start + before, loop)
      ensures L.Answers(source.model, start + before + loop, L.Disconnect(d))
      ensures Emitted(cfg, Stages(), sink, Polled(loop), old(mem), old(delivered), mem, delivered)
    {
      running := true;
      loop := EventLoop(polls);
      running := false;
      d := source.Disconnect();
    }

    /** `run()`: `polls` bounds the polls after which the loop ends, for runs that return at all.
        `added` are the calls it made; which ones these are is RunMade, and no others are possible by
        Lifecycle.RunIsDetermined. */
    method Run(ghost polls: nat) returns (r: Result, ghost added: seq<L.Event>)
      requires Valid() && !stageLock.locked
      requires L.RunReturns(source.model, source.trace, Built().RunPlan(), polls)
      modifies this`running, this`mem, this`delivered, source, stageLock
      ensures Valid() && !stageLock.locked && Built() == old(Built())
      ensures source.trace == old(source.trace) + added && L.AllAnswered(source.model, old(source.trace), added)
      ensures L.RunMade(Built().RunPlan(), added, r)
      ensures InOrder(uri.Contents(), configOps[..configCount], subscriptions[..subCount], added, r)
      ensures running == (old(running) && r.Err?)
      ensures Emitted(cfg, Stages(), sink, Polled(added), old(mem), old(delivered), mem, delivered)
    {
      ghost var start, plan := source.trace, Built().RunPlan();
      EmittedNothing(cfg, Stages(), sink, mem, delivered);
      if pendingError != NoError {
        added := Refused(source.model, start, plan);
        r := Err(pendingError);
      } else {
        r, added := SetUpSource();
        if r.Ok? {
          SetupReturns(source.model, start, plan, added, polls);
          ghost var loop, d := Serve(polls, start, added);
          added := RunDone(source.model, start, plan, added, loop, d);
        }
      }
      SetupInOrder(plan, added, r);
    }
  }
}
