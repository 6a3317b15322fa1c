/** The order of the calls of a run, read off the calls themselves. */
module RunOrder {
  import opened Core
  import opened Uri
  import opened Lifecycle

  /** The configuration callables that were applied, in order. */
  function OpsOf(events: seq<Event>): seq<nat> {
    if events == [] then []
    else
      var e := events[|events| - 1];
      OpsOf(events[..|events| - 1]) + if e.Configure? then [e.op] else []
  }

  /** The subscriptions that were made, in order. */
  function SubsOf(events: seq<Event>): seq<Subscription> {
    if events == [] then []
    else
      var e := events[|events| - 1];
      SubsOf(events[..|events| - 1]) + if e.Subscribe? then [e.sub] else []
  }

  lemma {:induction false} QuietTail(calls: seq<Event>, tail: seq<Event>)
    requires forall e :: e in tail ==> !e.Configure? && !e.Subscribe?
    ensures OpsOf(calls + tail) == OpsOf(calls) && SubsOf(calls + tail) == SubsOf(calls)
    decreases |tail|
  {
    if tail == [] {
      assert calls + tail == calls;
    } else {
      var n := |tail| - 1;
      QuietTail(calls, tail[..n]);
      assert (calls + tail)[..|calls| + n] == calls + tail[..n] && (calls + tail)[|calls| + n] == tail[n];
      assert tail[n] in tail;
    }
  }

  /** The setup calls of a run, with whatever came back. */
  predicate Calls(p: Plan, calls: seq<Event>) {
    && |calls| <= 1 + |p.ops| + |p.subs|
    && forall i :: 0 <= i < |calls| ==> calls[i] == SetupCall(p, i, ResultOf(calls[i]))
  }

  function Min(a: nat, b: nat): nat {
    if a < b then a else b
  }

  lemma OneFurther<T>(s: seq<T>, x: seq<T>)
    requires x <= s && |x| < |s|
    ensures x + [s[|x|]] <= s
  {
  }

  lemma WholePrefix<T>(s: seq<T>, x: seq<T>)
    requires x <= s && |x| == |s|
    ensures x == s
  {
  }

  lemma {:induction false} OpsInOrder(p: Plan, calls: seq<Event>)
    requires Calls(p, calls)
    ensures OpsOf(calls) <= p.ops
    ensures |OpsOf(calls)| == if calls == [] then 0 else Min(|calls| - 1, |p.ops|)
  {
    if calls != [] {
      var n := |calls| - 1;
      OpsInOrder(p, calls[..n]);
      assert calls[n] == SetupCall(p, n, ResultOf(calls[n]));
      if 0 < n <= |p.ops| {
        OneFurther(p.ops, OpsOf(calls[..n]));
      }
    }
  }

  lemma {:induction false} SubsInOrder(p: Plan, calls: seq<Event>)
    requires Calls(p, calls)
    ensures SubsOf(calls) <= p.subs
    ensures |SubsOf(calls)| == if |calls| <= 1 + |p.ops| then 0 else |calls| - 1 - |p.ops|
  {
    if calls != [] {
      var n := |calls| - 1;
      SubsInOrder(p, calls[..n]);
      assert calls[n] == SetupCall(p, n, ResultOf(calls[n]));
      if n > |p.ops| {
        OneFurther(p.subs, SubsOf(calls[..n]));
      }
    }
  }

  /** A run is its setup calls, as far as it came, and then nothing more of the kind. */
  lemma SetupPart(p: Plan, added: seq<Event>, r: Result) returns (n: nat)
    requires RunMade(p, added, r) && p.pending == NoError
    ensures 1 <= n <= |added| && Calls(p, added[..n])
    ensures r == Ok ==> n == 1 + |p.ops| + |p.subs|
    ensures forall i :: n <= i < |added| ==> !added[i].Connect? && !added[i].Configure? && !added[i].Subscribe?
  {
    if RunServed(p, added, r) {
      n := |Setup(p)|;
      forall i: nat | i < |added|
        ensures i < n ==> added[i] == SetupCall(p, i, Ok)
        ensures i >= n ==> !added[i].Connect? && !added[i].Configure? && !added[i].Subscribe?
      {
        ServedCalls(p, added, r, i);
      }
    } else {
      var k: nat :| RunFailed(p, added, r, k);
      n := k + 1;
      forall i | 0 <= i < k
        ensures added[i] == SetupCall(p, i, Ok)
      {
        SetupSucceeded(p, added, r, k, i);
      }
    }
  }

  lemma ConnectComesFirst(p: Plan, added: seq<Event>, r: Result)
    requires RunMade(p, added, r)
    ensures added != [] ==> added[0].Connect? && added[0].uri == p.uri
    ensures forall i :: 0 < i < |added| ==> !added[i].Connect?
  {
    if p.pending == NoError {
      var n := SetupPart(p, added, r);
      forall i: nat | i < n
        ensures added[i] == SetupCall(p, i, ResultOf(added[i]))
      {
        assert added[..n][i] == added[i];
      }
    }
  }

  lemma SubscribesAfterOps(p: Plan, added: seq<Event>, r: Result, i: nat)
    requires RunMade(p, added, r) && i < |added|
    ensures added[i].Subscribe? ==> OpsOf(added[..i]) == p.ops
  {
    if p.pending == NoError && added[i].Subscribe? {
      var n := SetupPart(p, added, r);
      assert added[..n][i] == SetupCall(p, i, ResultOf(added[i]));
      assert added[..i] == added[..n][..i];
      OpsInOrder(p, added[..i]);
      WholePrefix(p.ops, OpsOf(added[..i]));
    }
  }

  lemma SplitAt(s: seq<Event>, n: nat)
    requires n <= |s|
    ensures s == s[..n] + s[n..] && |s[..n]| == n
    ensures forall e :: e in s[n..] ==> exists i :: n <= i < |s| && s[i] == e
  {
  }

  lemma PrefixesCalled(p: Plan, added: seq<Event>, r: Result)
    requires RunMade(p, added, r)
    ensures OpsOf(added) <= p.ops && SubsOf(added) <= p.subs
    ensures r == Ok ==> OpsOf(added) == p.ops && SubsOf(added) == p.subs
  {
    if p.pending == NoError {
      var n := SetupPart(p, added, r);
      SplitAt(added, n);
      OpsInOrder(p, added[..n]);
      SubsInOrder(p, added[..n]);
      QuietTail(added[..n], added[n..]);
      if r == Ok {
        WholePrefix(p.ops, OpsOf(added[..n]));
        WholePrefix(p.subs, SubsOf(added[..n]));
      }
    }
  }

  /** The first call is connect, with the URI; the configuration callables applied are the first ones, in
      order; the subscriptions made are the first ones, in order, and none is made before all callables
      were applied; and when the run succeeded nothing is left out. */
  predicate InOrder(uri: UriText, ops: seq<nat>, subs: seq<Subscription>, added: seq<Event>, r: Result) {
    && (added != [] ==> added[0].Connect? && added[0].uri == uri)
    && (forall i :: 0 < i < |added| ==> !added[i].Connect?)
    && OpsOf(added) <= ops && SubsOf(added) <= subs
    && (r == Ok ==> OpsOf(added) == ops && SubsOf(added) == subs)
    && (forall i :: 0 <= i < |added| && added[i].Subscribe? ==> OpsOf(added[..i]) == ops)
  }

  lemma SetupInOrder(p: Plan, added: seq<Event>, r: Result)
    requires RunMade(p, added, r)
    ensures InOrder(p.uri, p.ops, p.subs, added, r)
  {
    ConnectComesFirst(p, added, r);
    PrefixesCalled(p, added, r);
    forall i | 0 <= i < |added|
      ensures added[i].Subscribe? ==> OpsOf(added[..i]) == p.ops
    {
      SubscribesAfterOps(p, added, r, i);
    }
  }

  predicate Fails(e: Event) {
    (e.Connect? && e.r.Err?) || (e.Configure? && e.r.Err?) || (e.Subscribe? && e.r.Err?)
  }

  /** A call of the setup that fails is the last one before disconnect, which follows unless it was
      connect that failed, and its error is the result. */
  lemma FailureEndsTheRun(p: Plan, added: seq<Event>, r: Result, i: nat)
    requires RunMade(p, added, r) && i < |added|
    ensures Fails(added[i]) ==>
              && ResultOf(added[i]) == r
              && |added| == (if i == 0 then 1 else i + 2)
              && (i > 0 ==> added[i + 1].Disconnect?)
  {
    if RunServed(p, added, r) {
      ServedCalls(p, added, r, i);
    } else if !RunRefused(p, added, r) {
      var k: nat :| RunFailed(p, added, r, k);
      if i < k {
        SetupSucceeded(p, added, r, k, i);
      }
    }
  }

  /** The calls before the one that failed succeeded. */
  lemma SetupSucceeded(p: Plan, added: seq<Event>, r: Result, k: nat, i: nat)
    requires RunFailed(p, added, r, k) && i < k
    ensures added[i] == SetupCall(p, i, Ok)
  {
    assert added[..k][i] == Setup(p)[..k][i];
  }

  // ----- the loop

  /** What may come after an event of the loop. */
  predicate NextInLoop(e: Event, next: Event) {
    match e
    case SetCallback => next.LoadRunning?
    case LoadRunning(b) => if b then next.IsConnected? else next.Disconnect?
    case IsConnected(b) => if b then next.Poll? else next.Disconnect?
    case Poll(_) => next.LoadRunning?
    case _ => true
  }

  lemma {:induction false} RoundsInOrder(loop: seq<Event>, d: Result, i: nat)
    requires Rounds(loop) && i < |loop|
    ensures loop[0].LoadRunning?
    ensures var all := loop + [Disconnect(d)]; NextInLoop(all[i], all[i + 1])
    ensures loop[i].IsConnected? ==> i > 0 && loop[i - 1] == LoadRunning(true)
    ensures loop[i].Poll? ==> i > 1 && loop[i - 1] == IsConnected(true) && loop[i - 2] == LoadRunning(true)
    decreases |loop|
  {
    if |loop| >= 3 {
      var rest := loop[3..];
      assert Rounds(rest) && rest != [];
      RoundsInOrder(rest, d, 0);
      if i >= 3 {
        RoundsInOrder(rest, d, i - 3);
      }
    }
  }

  lemma ServedLoopInOrder(p: Plan, added: seq<Event>, r: Result, i: nat)
    requires RunServed(p, added, r) && i < |added| - 1
    ensures NextInLoop(added[i], added[i + 1])
    ensures added[i].IsConnected? ==> i > 0 && added[i - 1] == LoadRunning(true)
    ensures added[i].Poll? ==> i > 1 && added[i - 1] == IsConnected(true) && added[i - 2] == LoadRunning(true)
  {
    var rounds, end := ServedShape(p, added, r);
    var n := |Setup(p)| + 1;
    ServedCalls(p, added, r, i);
    var all := rounds + [Disconnect(end.r)];
    assert added[n - 1] == SetCallback && forall j :: n <= j < |added| ==> added[j] == all[j - n];
    RoundsInOrder(rounds, end.r, 0);
    if i >= n {
      RoundsInOrder(rounds, end.r, i - n);
    }
  }

  /** In every run the callback is set before the loop starts; the flag is loaded before the source is
      asked, and the source is polled only when both have just said yes, and always then; after a poll the
      flag is loaded again; and the first no is followed by disconnect. */
  lemma LoopInOrder(p: Plan, added: seq<Event>, r: Result, i: nat)
    requires RunMade(p, added, r) && i < |added| - 1
    ensures NextInLoop(added[i], added[i + 1])
    ensures added[i].IsConnected? ==> i > 0 && added[i - 1] == LoadRunning(true)
    ensures added[i].Poll? ==> i > 1 && added[i - 1] == IsConnected(true) && added[i - 2] == LoadRunning(true)
  {
    if RunServed(p, added, r) {
      ServedLoopInOrder(p, added, r, i);
    } else if !RunRefused(p, added, r) {
      var k: nat :| RunFailed(p, added, r, k);
      if i < k {
        SetupSucceeded(p, added, r, k, i);
      }
    }
  }
}
