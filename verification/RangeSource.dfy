/** adapt.hpp: a source that replays a range, and what a pipeline over it delivers. */
module RangeSource {
  import opened Core
  import opened Message
  import opened Processing
  import opened Uri
  import opened Lifecycle
  import opened Rounds
  import P = Pipeline

  /** Where the iterator stands and what the flags are. */
  datatype Standing = Standing(current: nat, connected: bool, callback: bool)

  /** What one call changes: connect starts at the beginning, a poll runs to the end. */
  function After(n: nat, s: Standing, e: Event): Standing {
    match e
    case Connect(_, _) => s.(current := 0, connected := true)
    case SetCallback => s.(callback := true)
    case Poll(_) => s.(current := n, connected := false)
    case Disconnect(_) => s.(connected := false)
    case _ => s
  }

  function Standings(n: nat, trace: seq<Event>): (s: Standing)
    ensures s.current <= n
  {
    if trace == [] then Standing(0, false, false)
    else After(n, Standings(n, trace[..|trace| - 1]), trace[|trace| - 1])
  }

  /** The range as a source: connect, subscribe and disconnect succeed, and so do the configuration
      callables, which leave the source alone; nobody else stops the run. */
  function RangeModel(items: seq<View>): SourceModel {
    SourceModel(
      (_, _) => Ok,
      (_, _) => Ok,
      (_, _) => Ok,
      trace => Standings(|items|, trace).connected,
      trace => Rest(items, Standings(|items|, trace)),
      _ => Ok,
      _ => false)
  }

  function Rest(items: seq<View>, s: Standing): seq<View>
    requires s.current <= |items|
  {
    if s.callback then items[s.current..] else []
  }

  class RangeSource {
    const items: seq<View>
    var current: nat
    var connected: bool
    var callback: bool
    ghost var trace: seq<Event>

    ghost predicate Valid()
      reads this
    {
      Standing(current, connected, callback) == Standings(|items|, trace)
    }

    constructor (items: seq<View>)
      ensures Valid() && this.items == items && trace == []
    {
      this.items := items;
      current, connected, callback, trace := 0, false, false, [];
    }

    method Connect(uri: UriText) returns (r: Result)
      requires Valid()
      modifies this
      ensures Valid() && trace == old(trace) + [Event.Connect(uri, r)]
      ensures Answers(RangeModel(items), old(trace), Event.Connect(uri, r))
    {
      current, connected := 0, true;
      r := Ok;
      trace := trace + [Event.Connect(uri, r)];
    }

    method Subscribe(sub: Subscription) returns (r: Result)
      requires Valid()
      modifies this
      ensures Valid() && trace == old(trace) + [Event.Subscribe(sub, r)]
      ensures Answers(RangeModel(items), old(trace), Event.Subscribe(sub, r))
    {
      r := Ok;
      trace := trace + [Event.Subscribe(sub, r)];
    }

    method SetMessageCallback()
      requires Valid()
      modifies this
      ensures Valid() && trace == old(trace) + [SetCallback]
    {
      callback := true;
      trace := trace + [SetCallback];
    }

    method IsConnected() returns (b: bool)
      requires Valid()
      modifies this`trace
      ensures Valid() && trace == old(trace) + [Event.IsConnected(b)]
      ensures Answers(RangeModel(items), old(trace), Event.IsConnected(b))
    {
      b := connected;
      trace := trace + [Event.IsConnected(b)];
    }

    /** The loop of `poll`: every item that is left goes to the callback, in order. */
    method HandOver() returns (messages: seq<View>)
      requires current <= |items|
      modifies `current
      ensures current == |items|
      ensures messages == if callback then items[old(current)..] else []
    {
      messages := [];
      ghost var from := current;
      while current != |items|
        invariant from <= current <= |items|
        invariant messages == if callback then items[from..current] else []
        decreases |items| - current
      {
        assert items[from..current + 1] == items[from..current] + [items[current]];
        if callback {
          messages := messages + [items[current]];
        }
        current := current + 1;
      }
    }

    method Poll() returns (messages: seq<View>)
      requires Valid()
      modifies this
      ensures Valid() && trace == old(trace) + [Event.Poll(messages)]
      ensures Answers(RangeModel(items), old(trace), Event.Poll(messages))
    {
      messages := HandOver();
      connected := false;
      Stands(|items|, trace, Event.Poll(messages));
      trace := trace + [Event.Poll(messages)];
    }

    method Disconnect() returns (r: Result)
      requires Valid()
      modifies this
      ensures Valid() && trace == old(trace) + [Event.Disconnect(r)]
      ensures Answers(RangeModel(items), old(trace), Event.Disconnect(r))
    {
      connected := false;
      r := Ok;
      trace := trace + [Event.Disconnect(r)];
    }
  }

  // ----- a whole run

  lemma Stands(n: nat, trace: seq<Event>, e: Event)
    ensures Standings(n, trace + [e]) == After(n, Standings(n, trace), e)
  {
    assert (trace + [e])[..|trace|] == trace;
  }

  /** After connect and whatever setup calls follow it the iterator is at the beginning. */
  lemma {:induction false} StandsAtBeginning(n: nat, before: seq<Event>, plan: Plan, k: nat)
    requires 1 <= k <= |Setup(plan)|
    ensures var s := Standings(n, before + Setup(plan)[..k]); s.current == 0 && s.connected
  {
    var calls := Setup(plan)[..k];
    assert before + calls == (before + Setup(plan)[..k - 1]) + [calls[k - 1]];
    Stands(n, before + Setup(plan)[..k - 1], calls[k - 1]);
    if k > 1 {
      StandsAtBeginning(n, before, plan, k - 1);
    }
  }

  /** The loop of a run over a range: one poll that hands over everything, then the end. */
  function RangeLoop(items: seq<View>): seq<Event> {
    [SetCallback, LoadRunning(true), IsConnected(true), Poll(items), LoadRunning(true), IsConnected(false)]
  }

  /** The calls of a run over a range. */
  function RangeCalls(plan: Plan, items: seq<View>): seq<Event> {
    Setup(plan) + RangeLoop(items) + [Disconnect(Ok)]
  }

  lemma SetupSucceeds(items: seq<View>, before: seq<Event>, plan: Plan)
    ensures AllAnswered(RangeModel(items), before, Setup(plan))
  {
  }

  /** Where the iterator stands while the loop runs. */
  lemma LoopStandings(items: seq<View>, start: seq<Event>)
    requires var s := Standings(|items|, start); s.current == 0 && s.connected
    ensures var ready := start + [SetCallback] + [LoadRunning(true)];
            var again := ready + [IsConnected(true)] + [Poll(items)] + [LoadRunning(true)];
            && Standings(|items|, ready) == Standing(0, true, true)
            && Standings(|items|, ready + [IsConnected(true)]) == Standing(0, true, true)
            && Standings(|items|, again) == Standing(|items|, false, true)
  {
    var n := |items|;
    var ready := start + [SetCallback] + [LoadRunning(true)];
    Stands(n, start, SetCallback);
    Stands(n, start + [SetCallback], LoadRunning(true));
    Stands(n, ready, IsConnected(true));
    Stands(n, ready + [IsConnected(true)], Poll(items));
    Stands(n, ready + [IsConnected(true)] + [Poll(items)], LoadRunning(true));
  }

  /** Six events in a row. */
  lemma SixAnswered(m: SourceModel, start: seq<Event>, a: Event, b: Event, c: Event, d: Event, e: Event, f: Event)
    requires Answers(m, start, a) && Answers(m, start + [a], b) && Answers(m, start + [a] + [b], c)
    requires Answers(m, start + [a] + [b] + [c], d) && Answers(m, start + [a] + [b] + [c] + [d], e)
    requires Answers(m, start + [a] + [b] + [c] + [d] + [e], f)
    ensures AllAnswered(m, start, [a, b, c, d, e, f])
  {
    assert start + [] == start && [] + [a] == [a];
    OneMore(m, start, [], a);
    OneMore(m, start, [a], b);
    OneMore(m, start, [a] + [b], c);
    OneMore(m, start, [a] + [b] + [c], d);
    OneMore(m, start, [a] + [b] + [c] + [d], e);
    OneMore(m, start, [a] + [b] + [c] + [d] + [e], f);
    assert [a] + [b] + [c] + [d] + [e] + [f] == [a, b, c, d, e, f];
  }

  lemma SaysRunning(items: seq<View>, trace: seq<Event>)
    ensures Answers(RangeModel(items), trace, LoadRunning(true))
  {
  }

  lemma SaysConnected(items: seq<View>, trace: seq<Event>, b: bool)
    requires Standings(|items|, trace).connected == b
    ensures Answers(RangeModel(items), trace, IsConnected(b))
  {
  }

  /** A poll at the beginning, with the callback set, hands over the whole range. */
  lemma PollsAll(items: seq<View>, trace: seq<Event>)
    requires Standings(|items|, trace) == Standing(0, true, true)
    ensures Answers(RangeModel(items), trace, Poll(items))
  {
    assert items[0..] == items;
  }

  lemma LoopAnswers(items: seq<View>, start: seq<Event>)
    requires var s := Standings(|items|, start); s.current == 0 && s.connected
    ensures AllAnswered(RangeModel(items), start, RangeLoop(items))
  {
    LoopStandings(items, start);
    var ready := start + [SetCallback] + [LoadRunning(true)];
    var polled := ready + [IsConnected(true)] + [Poll(items)];
    SaysRunning(items, start + [SetCallback]);
    SaysConnected(items, ready, true);
    PollsAll(items, ready + [IsConnected(true)]);
    SaysRunning(items, polled);
    SaysConnected(items, polled + [LoadRunning(true)], false);
    SixAnswered(RangeModel(items), start,
                SetCallback, LoadRunning(true), IsConnected(true), Poll(items), LoadRunning(true), IsConnected(false));
  }

  lemma LoopReturns(items: seq<View>, start: seq<Event>)
    requires var s := Standings(|items|, start); s.current == 0 && s.connected
    ensures Returns(RangeModel(items), start + [SetCallback], 1)
  {
    LoopStandings(items, start);
    var polled := start + [SetCallback] + [LoadRunning(true)] + [IsConnected(true)] + [Poll(items)];
    assert Returns(RangeModel(items), polled, 0);
  }

  /** Every run over a range returns, after one poll. */
  lemma RangeReturns(items: seq<View>, before: seq<Event>, plan: Plan)
    ensures RunReturns(RangeModel(items), before, plan, 1)
  {
    StandsAtBeginning(|items|, before, plan, |Setup(plan)|);
    assert Setup(plan)[..|Setup(plan)|] == Setup(plan);
    LoopReturns(items, before + Setup(plan));
  }

  lemma RangeCallsAnswered(items: seq<View>, before: seq<Event>, plan: Plan)
    ensures AllAnswered(RangeModel(items), before, RangeCalls(plan, items))
  {
    SetupSucceeds(items, before, plan);
    StandsAtBeginning(|items|, before, plan, |Setup(plan)|);
    assert Setup(plan)[..|Setup(plan)|] == Setup(plan);
    LoopAnswers(items, before + Setup(plan));
    AnsweredJoin(RangeModel(items), before, Setup(plan), RangeLoop(items));
    OneMore(RangeModel(items), before, Setup(plan) + RangeLoop(items), Disconnect(Ok));
  }

  lemma RangeLoops(items: seq<View>)
    ensures Loop(RangeLoop(items)) && Polled(RangeLoop(items)) == items
  {
    RoundDoneOnce(items);
    assert RangeLoop(items) == [SetCallback] + ((ASKED + [Poll(items)]) + [LoadRunning(true), IsConnected(false)]);
    LoopDone(ASKED + [Poll(items)], [LoadRunning(true), IsConnected(false)]);
    LoopPolled(ASKED + [Poll(items)], [LoadRunning(true), IsConnected(false)]);
    RoundPolled([], items);
    assert [] + (ASKED + [Poll(items)]) == ASKED + [Poll(items)];
  }

  lemma RoundDoneOnce(items: seq<View>)
    ensures FullRounds(ASKED + [Poll(items)])
  {
    var round := ASKED + [Poll(items)];
    assert round[0] == ASKED[0] && round[1] == ASKED[1] && round[3..] == [];
  }

  /** Whatever the source was used for before, a run over a range succeeds, makes the same calls every
      time with exactly one poll among them, and that poll hands over the whole range. */
  lemma RangeRun(items: seq<View>, before: seq<Event>, plan: Plan, added: seq<Event>, r: Result)
    requires plan.pending == NoError && RunMade(plan, added, r) && AllAnswered(RangeModel(items), before, added)
    ensures r == Ok && added == RangeCalls(plan, items) && Polled(added) == items
  {
    RangeCallsAnswered(items, before, plan);
    RangeLoops(items);
    ServedRun(plan, RangeLoop(items), Ok);
    RunIsDetermined(RangeModel(items), before, plan, added, r, RangeCalls(plan, items), Ok);
    ServedPolled(plan, RangeLoop(items), Ok);
  }

  /** The end-to-end result: the sink receives, in order, what the stages make of the messages of the
      range, and a second run delivers the whole range again. */
  method RunTwice<T(!new)>(p: P.BasicPipeline<T>, items: seq<View>) returns (r1: Result, r2: Result)
    requires p.Valid() && !p.stageLock.locked && p.pendingError == NoError && p.source.model == RangeModel(items)
    modifies p`running, p`mem, p`delivered, p.source, p.stageLock
    ensures r1 == r2 == Ok && !p.running
    ensures p.Valid() && p.Built() == old(p.Built())
    ensures var plan := p.Built().RunPlan();
            p.source.trace == old(p.source.trace) + RangeCalls(plan, items) + RangeCalls(plan, items)
    ensures var first := ProcessAll(p.cfg, p.Stages(), p.sink, old(p.mem), items);
            var second := ProcessAll(p.cfg, p.Stages(), p.sink, first.mem, items);
            p.mem == second.mem && p.delivered == old(p.delivered) + first.delivered + second.delivered
    ensures p.sink.Some? && (forall k :: 0 <= k < p.stageCount ==> PassesThrough(p.cfg, p.Stages()[k])) ==>
              p.delivered == old(p.delivered) + Fitting(p.cfg, items) + Fitting(p.cfg, items)
  {
    if p.sink.Some? && forall k :: 0 <= k < p.stageCount ==> PassesThrough(p.cfg, p.Stages()[k]) {
      PassThroughDelivers(p.cfg, p.Stages(), p.sink.value, p.mem, items);
      var first := ProcessAll(p.cfg, p.Stages(), p.sink, p.mem, items);
      PassThroughDelivers(p.cfg, p.Stages(), p.sink.value, first.mem, items);
    }
    ghost var plan := p.Built().RunPlan();
    ghost var added;
    RangeReturns(items, p.source.trace, plan);
    r1, added := p.Run(1);
    RangeRun(items, old(p.source.trace), plan, added, r1);
    ghost var between := p.source.trace;
    RangeReturns(items, between, plan);
    r2, added := p.Run(1);
    RangeRun(items, between, plan, added, r2);
  }
}
