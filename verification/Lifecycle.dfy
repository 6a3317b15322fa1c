/** The calls that one `run()` of pipeline.hpp makes on its source, for every source. */
module Lifecycle {
  import opened Core
  import opened Message
  import opened Uri

  datatype Subscription = Subscription(topic: string, qos: int)

  /** What a run does, one call or flag load after the other, with what came back.  A configuration
      callable is a number that tells it from the others. */
  datatype Event =
    | Connect(uri: UriText, r: Result)
    | Configure(op: nat, r: Result)
    | Subscribe(sub: Subscription, r: Result)
    | SetCallback
    | LoadRunning(running: bool)
    | IsConnected(connected: bool)
    | Poll(messages: seq<View>)          // the messages handed to the callback during the call
    | Disconnect(r: Result)

  /** The result of a call that can end a run. */
  function ResultOf(e: Event): Result {
    match e
    case Connect(_, r) => r
    case Configure(_, r) => r
    case Subscribe(_, r) => r
    case _ => Ok
  }

  /** An arbitrary source, as what it answers after everything that was called on it before.
      `stopped` is the environment: whether somebody has called `stop()` since `running_` was set. */
  datatype SourceModel = SourceModel(
    connect: (seq<Event>, UriText) -> Result,
    configure: (seq<Event>, nat) -> Result,
    subscribe: (seq<Event>, Subscription) -> Result,
    connected: seq<Event> -> bool,
    poll: seq<Event> -> seq<View>,
    disconnect: seq<Event> -> Result,
    stopped: seq<Event> -> bool)

  /** The event is what the source answers after `before`. */
  predicate Answers(m: SourceModel, before: seq<Event>, e: Event) {
    match e
    case Connect(uri, r) => r == m.connect(before, uri)
    case Configure(op, r) => r == m.configure(before, op)
    case Subscribe(sub, r) => r == m.subscribe(before, sub)
    case SetCallback => true
    case LoadRunning(b) => b == !m.stopped(before)
    case IsConnected(b) => b == m.connected(before)
    case Poll(vs) => vs == m.poll(before)
    case Disconnect(r) => r == m.disconnect(before)
  }

  /** Every event of `added`, which follow `before`, is what the source answers. */
  predicate AllAnswered(m: SourceModel, before: seq<Event>, added: seq<Event>) {
    forall k :: 0 <= k < |added| ==> Answers(m, before + added[..k], added[k])
  }

  lemma AnsweredJoin(m: SourceModel, before: seq<Event>, x: seq<Event>, y: seq<Event>)
    requires AllAnswered(m, before, x) && AllAnswered(m, before + x, y)
    ensures AllAnswered(m, before, x + y)
  {
    forall k | 0 <= k < |x + y|
      ensures Answers(m, before + (x + y)[..k], (x + y)[k])
    {
      if k < |x| {
        assert (x + y)[..k] == x[..k];
      } else {
        assert before + (x + y)[..k] == before + x + y[..k - |x|];
      }
    }
  }

  /** What the builder calls left for a run. */
  datatype Plan = Plan(uri: UriText, ops: seq<nat>, subs: seq<Subscription>, pending: ErrorCode)

  /** The calls before the loop when all of them succeed. */
  function Setup(p: Plan): (s: seq<Event>)
    ensures |s| == 1 + |p.ops| + |p.subs|
  {
    seq(1 + |p.ops| + |p.subs|, i requires 0 <= i < 1 + |p.ops| + |p.subs| => SetupCall(p, i, Ok))
  }

  /** Connect first, then the configuration callables, then the subscriptions. */
  function SetupCall(p: Plan, i: nat, r: Result): (e: Event)
    requires i < 1 + |p.ops| + |p.subs|
    ensures ResultOf(e) == r && (e.Connect? <==> i == 0) && !e.Disconnect? && !e.Poll? && !e.SetCallback?
  {
    if i == 0 then Connect(p.uri, r)
    else if i <= |p.ops| then Configure(p.ops[i - 1], r)
    else Subscribe(p.subs[i - 1 - |p.ops|], r)
  }

  /** Rounds of the event loop: it goes on while the flag is set and the source is connected. */
  predicate Rounds(loop: seq<Event>) {
    if |loop| >= 3 then
      loop[0] == LoadRunning(true) && loop[1] == IsConnected(true) && loop[2].Poll? && Rounds(loop[3..])
    else
      loop == [LoadRunning(false)] || loop == [LoadRunning(true), IsConnected(false)]
  }

  /** `event_loop`. */
  predicate Loop(loop: seq<Event>) {
    loop != [] && loop[0] == SetCallback && Rounds(loop[1..])
  }

  // ----- the three ways a run can go

  predicate RunRefused(p: Plan, added: seq<Event>, r: Result) {
    p.pending != NoError && added == [] && r == Err(p.pending)
  }

  /** Call number `k` failed: it ended the setup, and a connection already made was taken down. */
  predicate RunFailed(p: Plan, added: seq<Event>, r: Result, k: nat) {
    && p.pending == NoError && r.Err?
    && k < |Setup(p)|
    && |added| == k + (if k == 0 then 1 else 2)
    && added[..k] == Setup(p)[..k]
    && added[k] == SetupCall(p, k, r)
    && (k > 0 ==> added[k + 1].Disconnect?)
  }

  predicate RunServed(p: Plan, added: seq<Event>, r: Result) {
    var n := |Setup(p)|;
    && p.pending == NoError && r == Ok
    && |added| > n
    && added[..n] == Setup(p)
    && Loop(added[n..|added| - 1])
    && added[|added| - 1].Disconnect?
  }

  /** The calls of a run and its result. */
  ghost predicate RunMade(p: Plan, added: seq<Event>, r: Result) {
    || RunRefused(p, added, r)
    || (exists k: nat :: RunFailed(p, added, r, k))
    || RunServed(p, added, r)
  }

  // ----- what every run keeps

  /** The first failure among the calls other than disconnect. */
  function FirstFailure(added: seq<Event>): Result {
    if added == [] then Ok
    else if ResultOf(added[0]).Err? then ResultOf(added[0])
    else FirstFailure(added[1..])
  }

  lemma {:induction false} FirstFailureSkips(a: seq<Event>, b: seq<Event>)
    requires forall e :: e in a ==> ResultOf(e).Ok?
    ensures FirstFailure(a + b) == FirstFailure(b)
  {
    if a == [] {
      assert a + b == b;
    } else {
      assert (a + b)[1..] == a[1..] + b;
      FirstFailureSkips(a[1..], b);
    }
  }

  lemma {:induction false} RoundsAreQuiet(loop: seq<Event>, e: Event)
    requires Rounds(loop) && e in loop
    ensures e.LoadRunning? || e.IsConnected? || e.Poll?
    decreases |loop|
  {
    if |loop| >= 3 {
      assert loop == loop[..3] + loop[3..];
      if e in loop[3..] {
        RoundsAreQuiet(loop[3..], e);
      }
    }
  }

  /** The events of a run that went through, number by number. */
  lemma ServedCalls(p: Plan, added: seq<Event>, r: Result, i: nat)
    requires RunServed(p, added, r) && i < |added|
    ensures i < |Setup(p)| ==> added[i] == SetupCall(p, i, Ok)
    ensures i == |Setup(p)| ==> added[i] == SetCallback
    ensures |Setup(p)| < i < |added| - 1 ==> added[i].LoadRunning? || added[i].IsConnected? || added[i].Poll?
  {
    var n := |Setup(p)|;
    var loop := added[n..|added| - 1];
    if i < n {
      assert added[..n][i] == Setup(p)[i];
    } else if i < |added| - 1 {
      assert loop[i - n] == added[i];
      if i > n {
        assert loop[1..][i - n - 1] == added[i];
        RoundsAreQuiet(loop[1..], added[i]);
      }
    }
  }

  /** The result of a run is the first failure of its calls; what disconnect returns is not reported. */
  lemma ResultIsFirstFailure(p: Plan, added: seq<Event>, r: Result)
    requires RunMade(p, added, r) && p.pending == NoError
    ensures r == FirstFailure(added)
  {
    if RunServed(p, added, r) {
      forall e | e in added
        ensures ResultOf(e).Ok?
      {
        var i :| 0 <= i < |added| && added[i] == e;
        ServedCalls(p, added, r, i);
      }
      FirstFailureSkips(added, []);
      assert added + [] == added;
    } else {
      var k: nat :| RunFailed(p, added, r, k);
      assert added == added[..k] + added[k..];
      forall e | e in added[..k]
        ensures ResultOf(e).Ok?
      {
        var i :| 0 <= i < k && added[..k][i] == e;
        assert e == SetupCall(p, i, Ok);
      }
      FirstFailureSkips(added[..k], added[k..]);
    }
  }

  predicate Connects(added: seq<Event>) {
    added != [] && added[0].Connect? && added[0].r == Ok
  }

  /** Disconnect is called last and nowhere else if connect succeeded, and never if it did not. */
  lemma DisconnectOnceAndLast(p: Plan, added: seq<Event>, r: Result, i: nat)
    requires RunMade(p, added, r) && i < |added|
    ensures added[i].Disconnect? <==> Connects(added) && i == |added| - 1
  {
    if RunServed(p, added, r) {
      ServedCalls(p, added, r, 0);
      ServedCalls(p, added, r, i);
    } else if !RunRefused(p, added, r) {
      var k: nat :| RunFailed(p, added, r, k);
      if k > 0 {
        assert added[..k][0] == SetupCall(p, 0, Ok);
      }
      if i < k {
        assert added[..k][i] == SetupCall(p, i, Ok);
      }
    }
  }

  /** The calls before the loop come in the order of the plan, and nothing is polled and no callback
      set unless all of them were made and succeeded. */
  lemma PollsNeedTheWholeSetup(p: Plan, added: seq<Event>, r: Result, i: nat)
    requires RunMade(p, added, r) && i < |added|
    ensures added[i].Poll? || added[i].SetCallback? ==>
              r == Ok && i >= |Setup(p)| && added[..|Setup(p)|] == Setup(p)
  {
    if RunServed(p, added, r) {
      ServedCalls(p, added, r, i);
    } else if !RunRefused(p, added, r) {
      var k: nat :| RunFailed(p, added, r, k);
      if i < k {
        assert added[..k][i] == SetupCall(p, i, Ok);
      }
    }
  }

  /** A pending error keeps the run from making any call. */
  lemma PendingErrorMakesNoCall(p: Plan, added: seq<Event>, r: Result)
    requires RunMade(p, added, r)
    ensures added == [] <==> p.pending != NoError
    ensures p.pending != NoError ==> r == Err(p.pending)
  {
  }

  // ----- when a run returns

  /** The loop after `before` ends after at most `n` polls. */
  predicate Returns(m: SourceModel, before: seq<Event>, n: nat)
    decreases n
  {
    if m.stopped(before) then true
    else
      var asked := before + [LoadRunning(true)];
      if !m.connected(asked) then true
      else
        var polled := asked + [IsConnected(true)];
        n > 0 && Returns(m, polled + [Poll(m.poll(polled))], n - 1)
  }

  /** A run on a source with this history returns after at most `n` polls. */
  predicate RunReturns(m: SourceModel, before: seq<Event>, p: Plan, n: nat) {
    p.pending == NoError && AllAnswered(m, before, Setup(p)) ==> Returns(m, before + Setup(p) + [SetCallback], n)
  }

  // ----- a run is determined by the source

  lemma AnsweredSplit(m: SourceModel, before: seq<Event>, x: seq<Event>, y: seq<Event>)
    requires AllAnswered(m, before, x + y)
    ensures AllAnswered(m, before, x) && AllAnswered(m, before + x, y)
  {
    forall k | 0 <= k < |x|
      ensures Answers(m, before + x[..k], x[k])
    {
      assert (x + y)[..k] == x[..k] && (x + y)[k] == x[k];
    }
    forall k | 0 <= k < |y|
      ensures Answers(m, before + x + y[..k], y[k])
    {
      assert before + (x + y)[..|x| + k] == before + x + y[..k] && (x + y)[|x| + k] == y[k];
    }
  }

  /** After the same events the same call gets the same answer. */
  lemma SameAnswer(m: SourceModel, before: seq<Event>, a: seq<Event>, b: seq<Event>, i: nat)
    requires AllAnswered(m, before, a) && AllAnswered(m, before, b)
    requires i < |a| && i < |b| && a[..i] == b[..i]
    ensures Answers(m, before + a[..i], a[i]) && Answers(m, before + a[..i], b[i])
  {
    assert before + a[..i] == before + b[..i];
  }

  lemma {:induction false} SameRounds(m: SourceModel, before: seq<Event>, a: seq<Event>, b: seq<Event>)
    requires Rounds(a) && Rounds(b) && AllAnswered(m, before, a) && AllAnswered(m, before, b)
    ensures a == b
    decreases |a|
  {
    SameAnswer(m, before, a, b, 0);
    if |a| > 1 && |b| > 1 {
      assert a[..1] == b[..1];
      SameAnswer(m, before, a, b, 1);
      if |a| >= 3 && |b| >= 3 {
        assert a[..2] == b[..2];
        SameAnswer(m, before, a, b, 2);
        assert a[..3] == b[..3] && a == a[..3] + a[3..] && b == b[..3] + b[3..];
        AnsweredSplit(m, before, a[..3], a[3..]);
        AnsweredSplit(m, before, b[..3], b[3..]);
        SameRounds(m, before + a[..3], a[3..], b[3..]);
      }
    }
  }

  lemma ServedShape(p: Plan, a: seq<Event>, r: Result) returns (rounds: seq<Event>, end: Event)
    requires RunServed(p, a, r)
    ensures a == Setup(p) + [SetCallback] + (rounds + [end]) && Rounds(rounds) && end.Disconnect?
  {
    var n := |Setup(p)|;
    var loop := a[n..|a| - 1];
    rounds, end := loop[1..], a[|a| - 1];
    assert a == a[..n] + (loop + [end]) && loop == [SetCallback] + rounds;
  }

  lemma SameServed(m: SourceModel, before: seq<Event>, p: Plan, a: seq<Event>, ra: Result, b: seq<Event>, rb: Result)
    requires RunServed(p, a, ra) && RunServed(p, b, rb) && AllAnswered(m, before, a) && AllAnswered(m, before, b)
    ensures a == b && ra == rb
  {
    var head := Setup(p) + [SetCallback];
    var x, endX := ServedShape(p, a, ra);
    var y, endY := ServedShape(p, b, rb);
    AnsweredSplit(m, before, head, x + [endX]);
    AnsweredSplit(m, before, head, y + [endY]);
    AnsweredSplit(m, before + head, x, [endX]);
    AnsweredSplit(m, before + head, y, [endY]);
    SameRounds(m, before + head, x, y);
    SameAnswer(m, before + head + x, [endX], [endY], 0);
  }

  /** How far the setup came. */
  ghost predicate SetupReached(p: Plan, a: seq<Event>, r: Result, k: nat) {
    if k < |Setup(p)| then RunFailed(p, a, r, k) else k == |Setup(p)| && RunServed(p, a, r)
  }

  lemma HowFar(p: Plan, a: seq<Event>, r: Result) returns (k: nat)
    requires RunMade(p, a, r) && p.pending == NoError
    ensures SetupReached(p, a, r, k)
  {
    if RunServed(p, a, r) {
      k := |Setup(p)|;
    } else {
      k :| RunFailed(p, a, r, k);
    }
  }

  lemma SameReach(m: SourceModel, before: seq<Event>, p: Plan,
                  a: seq<Event>, ra: Result, j: nat, b: seq<Event>, rb: Result, k: nat)
    requires SetupReached(p, a, ra, j) && SetupReached(p, b, rb, k)
    requires AllAnswered(m, before, a) && AllAnswered(m, before, b)
    ensures j >= k
  {
    if j < k {
      assert a[..j] == Setup(p)[..j];
      assert b[..j] == b[..k][..j] == Setup(p)[..j];
      assert b[..k][j] == Setup(p)[j];
      SameAnswer(m, before, a, b, j);
    }
  }

  lemma SameFailed(m: SourceModel, before: seq<Event>, p: Plan, a: seq<Event>, ra: Result, b: seq<Event>, rb: Result, k: nat)
    requires RunFailed(p, a, ra, k) && RunFailed(p, b, rb, k) && AllAnswered(m, before, a) && AllAnswered(m, before, b)
    ensures a == b && ra == rb
  {
    SameAnswer(m, before, a, b, k);
    assert a[..k + 1] == a[..k] + [a[k]] && b[..k + 1] == b[..k] + [b[k]];
    if k == 0 {
      assert a == a[..k + 1] && b == b[..k + 1];
    } else {
      SameAnswer(m, before, a, b, k + 1);
      assert a == a[..k + 1] + [a[k + 1]] && b == b[..k + 1] + [b[k + 1]];
    }
  }

  /** For one source and one history there is one way a run can go. */
  lemma RunIsDetermined(m: SourceModel, before: seq<Event>, p: Plan, a: seq<Event>, ra: Result, b: seq<Event>, rb: Result)
    requires RunMade(p, a, ra) && RunMade(p, b, rb) && AllAnswered(m, before, a) && AllAnswered(m, before, b)
    ensures a == b && ra == rb
  {
    if p.pending == NoError {
      var j := HowFar(p, a, ra);
      var k := HowFar(p, b, rb);
      SameReach(m, before, p, a, ra, j, b, rb, k);
      SameReach(m, before, p, b, rb, k, a, ra, j);
      if j < |Setup(p)| {
        SameFailed(m, before, p, a, ra, b, rb, j);
      } else {
        SameServed(m, before, p, a, ra, b, rb);
      }
    }
  }
}
