/** The rounds of the event loop as they add up, and the messages they hand over. */
module Rounds {
  import opened Core
  import opened Message
  import opened Lifecycle

  function Handed(e: Event): seq<View> {
    if e.Poll? then e.messages else []
  }

  /** The messages that the polls among some events handed over. */
  function Polled(events: seq<Event>): seq<View> {
    if events == [] then []
    else Polled(events[..|events| - 1]) + Handed(events[|events| - 1])
  }

  /** Rounds of the event loop that all ended with a poll. */
  predicate FullRounds(loop: seq<Event>) {
    if loop == [] then true
    else
      && |loop| >= 3
      && loop[0] == LoadRunning(true) && loop[1] == IsConnected(true) && loop[2].Poll?
      && FullRounds(loop[3..])
  }

  lemma {:induction false} RoundsGoOn(done: seq<Event>, next: seq<Event>)
    requires FullRounds(done)
    ensures FullRounds(next) ==> FullRounds(done + next)
    ensures Rounds(next) ==> Rounds(done + next)
  {
    if done == [] {
      assert done + next == next;
    } else {
      RoundsGoOn(done[3..], next);
      assert (done + next)[3..] == done[3..] + next;
    }
  }

  lemma {:induction false} PolledJoin(a: seq<Event>, b: seq<Event>)
    ensures Polled(a + b) == Polled(a) + Polled(b)
  {
    if b == [] {
      assert a + b == a;
    } else {
      var n := |b| - 1;
      PolledJoin(a, b[..n]);
      var x, y, z := Polled(a), Polled(b[..n]), Handed(b[n]);
      assert (x + y) + z == x + (y + z);
      assert (a + b)[..|a| + n] == a + b[..n] && (a + b)[|a| + n] == b[n];
    }
  }

  const ASKED: seq<Event> := [LoadRunning(true), IsConnected(true)]

  /** A round that polls uses up one of the polls after which the loop is known to end. */
  lemma RoundPolls(m: SourceModel, before: seq<Event>, messages: seq<View>, left: nat)
    requires AllAnswered(m, before, ASKED) && Answers(m, before + ASKED, Poll(messages))
    requires Returns(m, before, left)
    ensures AllAnswered(m, before, ASKED + [Poll(messages)])
    ensures left > 0 && Returns(m, before + (ASKED + [Poll(messages)]), left - 1)
  {
    assert ASKED[..0] == [] && ASKED[..1] == [LoadRunning(true)];
    assert before + ASKED[..0] == before;
    assert Answers(m, before + ASKED[..0], ASKED[0]) && Answers(m, before + ASKED[..1], ASKED[1]);
    assert before + [LoadRunning(true)] + [IsConnected(true)] == before + ASKED;
    assert before + ASKED + [Poll(messages)] == before + (ASKED + [Poll(messages)]);
    assert before + ASKED + [] == before + ASKED;
    AnsweredJoin(m, before, ASKED, [Poll(messages)]);
  }

  /** The rounds that are done, and how many polls are left at most. */
  predicate SoFar(m: SourceModel, start: seq<Event>, done: seq<Event>, left: nat) {
    FullRounds(done) && AllAnswered(m, start, done) && Returns(m, start + done, left)
  }

  lemma RoundDone(m: SourceModel, start: seq<Event>, done: seq<Event>, left: nat, messages: seq<View>)
    requires SoFar(m, start, done, left)
    requires AllAnswered(m, start + done, ASKED) && Answers(m, start + done + ASKED, Poll(messages))
    ensures left > 0 && SoFar(m, start, done + (ASKED + [Poll(messages)]), left - 1)
  {
    var round := ASKED + [Poll(messages)];
    RoundPolls(m, start + done, messages, left);
    AnsweredJoin(m, start, done, round);
    assert FullRounds(round) by {
      assert round[0] == ASKED[0] && round[1] == ASKED[1] && round[3..] == [];
    }
    RoundsGoOn(done, round);
    assert start + (done + round) == start + done + round;
  }

  lemma RoundPolled(done: seq<Event>, messages: seq<View>)
    ensures Polled(done + (ASKED + [Poll(messages)])) == Polled(done) + messages
  {
    PolledJoin(done, ASKED + [Poll(messages)]);
    PolledJoin(ASKED, [Poll(messages)]);
    PolledOne(Poll(messages));
    RoundsEndPollsNothing(ASKED);
    assert [] + messages == messages;
  }

  /** Concatenation is associative. */
  lemma Regroup<T>(a: seq<T>, b: seq<T>, c: seq<T>, d: seq<T>)
    ensures a + (b + (c + d)) == a + b + c + d
  {
  }

  lemma PolledOne(e: Event)
    ensures Polled([e]) == Handed(e)
  {
    assert [e][..0] == [];
  }

  lemma RoundsEndPollsNothing(asked: seq<Event>)
    requires asked == ASKED || (Rounds(asked) && |asked| < 3)
    ensures Polled(asked) == []
  {
    PolledOne(asked[0]);
    if |asked| == 1 {
      assert asked == [asked[0]];
    } else {
      assert asked == [asked[0]] + [asked[1]];
      PolledJoin([asked[0]], [asked[1]]);
      PolledOne(asked[1]);
    }
  }

  lemma LoopAnswered(m: SourceModel, before: seq<Event>, done: seq<Event>, asked: seq<Event>)
    requires AllAnswered(m, before + [SetCallback], done)
    requires AllAnswered(m, before + [SetCallback] + done, asked)
    ensures AllAnswered(m, before, [SetCallback] + (done + asked))
  {
    AnsweredJoin(m, before + [SetCallback], done, asked);
    AnsweredJoin(m, before, [SetCallback], done + asked);
  }

  lemma LoopDone(done: seq<Event>, asked: seq<Event>)
    requires FullRounds(done) && Rounds(asked)
    ensures Loop([SetCallback] + (done + asked))
  {
    RoundsGoOn(done, asked);
    assert ([SetCallback] + (done + asked))[1..] == done + asked;
  }

  lemma LoopPolled(done: seq<Event>, asked: seq<Event>)
    requires Rounds(asked) && |asked| < 3
    ensures Polled([SetCallback] + (done + asked)) == Polled(done)
  {
    PolledJoin([SetCallback], done + asked);
    PolledOne(SetCallback);
    PolledJoin(done, asked);
    RoundsEndPollsNothing(asked);
  }

  // ----- the run as it adds up

  /** The first `k` calls of the setup were made and all succeeded. */
  predicate SetupDone(m: SourceModel, start: seq<Event>, p: Plan, k: nat, added: seq<Event>) {
    && k <= |Setup(p)| && added == Setup(p)[..k]
    && AllAnswered(m, start, added)
  }

  /** The run is over before the loop. */
  ghost predicate Ended(m: SourceModel, start: seq<Event>, p: Plan, all: seq<Event>, r: Result) {
    RunMade(p, all, r) && AllAnswered(m, start, all) && Polled(all) == []
  }

  lemma OneMore(m: SourceModel, start: seq<Event>, added: seq<Event>, e: Event)
    requires AllAnswered(m, start, added) && Answers(m, start + added, e)
    ensures AllAnswered(m, start, added + [e])
    ensures start + (added + [e]) == start + added + [e]
  {
    assert start + added + [] == start + added;
    AnsweredJoin(m, start, added, [e]);
  }

  lemma Refused(m: SourceModel, start: seq<Event>, p: Plan) returns (all: seq<Event>)
    requires p.pending != NoError
    ensures Ended(m, start, p, all, Err(p.pending)) && start + all == start
  {
    all := [];
  }

  lemma SetupBegins(m: SourceModel, start: seq<Event>, p: Plan) returns (next: seq<Event>)
    requires Answers(m, start, Connect(p.uri, Ok))
    ensures SetupDone(m, start, p, 1, next) && start + next == start + [Connect(p.uri, Ok)]
  {
    assert start + [] == start;
    next := SetupGoesOn(m, start, p, 0, []);
  }

  lemma ConnectBroken(m: SourceModel, start: seq<Event>, p: Plan, r: Result) returns (all: seq<Event>)
    requires p.pending == NoError && r.Err? && Answers(m, start, Connect(p.uri, r))
    ensures Ended(m, start, p, all, r)
    ensures start + all == start + [Connect(p.uri, r)]
  {
    all := [Connect(p.uri, r)];
    assert start + [] == start;
    assert RunFailed(p, all, r, 0);
    PolledOne(Connect(p.uri, r));
  }

  lemma SetupGoesOn(m: SourceModel, start: seq<Event>, p: Plan, k: nat, added: seq<Event>) returns (next: seq<Event>)
    requires SetupDone(m, start, p, k, added) && k < |Setup(p)| && Answers(m, start + added, SetupCall(p, k, Ok))
    ensures SetupDone(m, start, p, k + 1, next) && start + next == start + added + [SetupCall(p, k, Ok)]
  {
    next := added + [SetupCall(p, k, Ok)];
    OneMore(m, start, added, SetupCall(p, k, Ok));
  }

  lemma SetupPollsNothing(p: Plan, k: nat)
    requires k <= |Setup(p)|
    ensures Polled(Setup(p)[..k]) == []
  {
    if k > 0 {
      SetupPollsNothing(p, k - 1);
      assert Setup(p)[..k][..k - 1] == Setup(p)[..k - 1];
    }
  }

  lemma SetupBroken(m: SourceModel, start: seq<Event>, p: Plan, k: nat, added: seq<Event>, r: Result, d: Result)
      returns (all: seq<Event>)
    requires p.pending == NoError && SetupDone(m, start, p, k, added) && 0 < k < |Setup(p)| && r.Err?
    requires Answers(m, start + added, SetupCall(p, k, r))
    requires Answers(m, start + added + [SetupCall(p, k, r)], Disconnect(d))
    ensures Ended(m, start, p, all, r)
    ensures start + all == start + added + [SetupCall(p, k, r)] + [Disconnect(d)]
  {
    var failed := added + [SetupCall(p, k, r)];
    all := failed + [Disconnect(d)];
    OneMore(m, start, added, SetupCall(p, k, r));
    OneMore(m, start, failed, Disconnect(d));
    assert RunFailed(p, all, r, k);
    SetupPollsNothing(p, k);
    PolledJoin(added, [SetupCall(p, k, r)]);
    PolledJoin(failed, [Disconnect(d)]);
    PolledOne(SetupCall(p, k, r));
    PolledOne(Disconnect(d));
  }

  lemma SetupReturns(m: SourceModel, start: seq<Event>, p: Plan, added: seq<Event>, polls: nat)
    requires p.pending == NoError && SetupDone(m, start, p, |Setup(p)|, added) && RunReturns(m, start, p, polls)
    ensures Returns(m, start + added + [SetCallback], polls)
  {
    assert added == Setup(p);
  }

  lemma ServedRun(p: Plan, loop: seq<Event>, d: Result)
    requires p.pending == NoError && Loop(loop)
    ensures RunServed(p, Setup(p) + loop + [Disconnect(d)], Ok)
  {
    var all := Setup(p) + loop + [Disconnect(d)];
    var n := |Setup(p)|;
    assert all[..n] == Setup(p);
    assert all[n..|all| - 1] == loop;
  }

  lemma ServedPolled(p: Plan, loop: seq<Event>, d: Result)
    ensures Polled(Setup(p) + loop + [Disconnect(d)]) == Polled(loop)
  {
    PolledJoin(Setup(p) + loop, [Disconnect(d)]);
    PolledJoin(Setup(p), loop);
    SetupPollsNothing(p, |Setup(p)|);
    assert Setup(p)[..|Setup(p)|] == Setup(p);
    PolledOne(Disconnect(d));
    var x := Polled(loop);
    assert [] + x == x && x + [] == x;
  }

  lemma RunDone(m: SourceModel, start: seq<Event>, p: Plan, added: seq<Event>, loop: seq<Event>, d: Result)
      returns (all: seq<Event>)
    requires p.pending == NoError && SetupDone(m, start, p, |Setup(p)|, added)
    requires Loop(loop) && AllAnswered(m, start + added, loop) && Answers(m, start + added + loop, Disconnect(d))
    ensures RunMade(p, all, Ok) && AllAnswered(m, start, all) && Polled(all) == Polled(loop)
    ensures start + all == start + added + loop + [Disconnect(d)]
  {
    all := added + loop + [Disconnect(d)];
    assert added == Setup(p);
    AnsweredJoin(m, start, added, loop);
    assert start + (added + loop) == start + added + loop;
    OneMore(m, start, added + loop, Disconnect(d));
    ServedRun(p, loop, d);
    ServedPolled(p, loop, d);
  }
}
