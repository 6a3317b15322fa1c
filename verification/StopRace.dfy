/** pipeline.hpp: `stop()` called by other threads while one thread is inside `run()`, from the
    store that sets the running flag on. */
module StopRace {

  /** Where the running thread is. */
  datatype Pc =
    | Storing           // about to set the flag
    | SettingCallback
    | Loading           // about to load the flag
    | Asking            // about to ask whether the source is connected
    | Calling           // about to begin a poll
    | Polling           // inside a poll
    | Leaving           // the loop is over, about to clear the flag
    | Disconnecting
    | Returned

  /** `polls` counts the polls that have begun, `disconnects` the calls of disconnect. */
  datatype State = State(pc: Pc, running: bool, polls: nat, disconnects: nat)

  /** One step of the running thread, with what the source would answer if it is asked, or one call
      of `stop()` by any other thread. */
  datatype Action = Run(connected: bool) | Stop

  const START := State(Storing, false, 0, 0)

  function Step(s: State, a: Action): State {
    match a
    case Stop => s.(running := false)
    case Run(connected) =>
      match s.pc
      case Storing => s.(pc := SettingCallback, running := true)
      case SettingCallback => s.(pc := Loading)
      case Loading => s.(pc := if s.running then Asking else Leaving)
      case Asking => s.(pc := if connected then Calling else Leaving)
      case Calling => s.(pc := Polling, polls := s.polls + 1)
      case Polling => s.(pc := Loading)
      case Leaving => s.(pc := Disconnecting, running := false)
      case Disconnecting => s.(pc := Returned, disconnects := s.disconnects + 1)
      case Returned => s
  }

  function Exec(s: State, acts: seq<Action>): State
    decreases |acts|
  {
    if acts == [] then s else Exec(Step(s, acts[0]), acts[1..])
  }

  /** Steps of the running thread among some actions. */
  function Runs(acts: seq<Action>): nat {
    if acts == [] then 0 else (if acts[0].Run? then 1 else 0) + Runs(acts[1..])
  }

  /** Polls that can still begin once the flag is cleared: one, if the thread has already seen the
      flag set and has not begun the poll. */
  function MayBegin(pc: Pc): nat {
    if pc.Asking? || pc.Calling? then 1 else 0
  }

  /** Steps of the running thread until it returns, at most, once the flag is cleared. */
  function Remaining(pc: Pc): nat {
    match pc
    case Storing => 5
    case SettingCallback => 4
    case Loading => 3
    case Asking => 6
    case Calling => 5
    case Polling => 4
    case Leaving => 2
    case Disconnecting => 1
    case Returned => 0
  }

  /** In every reachable state disconnect was called once if the run is over and not at all before. */
  predicate Sound(s: State) {
    && s.disconnects == (if s.pc.Returned? then 1 else 0)
    && (s.pc.Returned? || s.pc.Disconnecting? ==> !s.running)
  }

  lemma {:induction false} AlwaysSound(s: State, acts: seq<Action>)
    requires Sound(s)
    ensures Sound(Exec(s, acts))
    decreases |acts|
  {
    if acts != [] {
      AlwaysSound(Step(s, acts[0]), acts[1..]);
    }
  }

  lemma {:induction false} StopIsFinal(s: State, acts: seq<Action>)
    requires !s.running && !s.pc.Storing?
    ensures var e := Exec(s, acts);
            && !e.running && !e.pc.Storing?
            && e.polls + MayBegin(e.pc) <= s.polls + MayBegin(s.pc)
            && (Remaining(e.pc) + Runs(acts) <= Remaining(s.pc) || e.pc.Returned?)
    decreases |acts|
  {
    if acts != [] {
      StopIsFinal(Step(s, acts[0]), acts[1..]);
    }
  }

  /** A stop that comes after the flag was set, whatever happened before and whatever happens then:
      at most one more poll begins, and none unless the thread was between the load that saw the flag
      and the poll; after six more of its steps the thread has returned, with the flag cleared and
      with exactly one disconnect. */
  lemma StopTakesEffect(before: seq<Action>, after: seq<Action>)
    requires !Exec(START, before).pc.Storing?
    ensures var s := Exec(START, before);
            var e := Exec(Step(s, Stop), after);
            && s.polls <= e.polls <= s.polls + MayBegin(s.pc)
            && !e.running
            && (Runs(after) >= 6 ==> e.pc.Returned?)
            && (e.pc.Returned? ==> e.disconnects == 1)
  {
    var s := Exec(START, before);
    StopIsFinal(Step(s, Stop), after);
    AlwaysSound(START, before);
    AlwaysSound(Step(s, Stop), after);
    PollsGrow(Step(s, Stop), after);
  }

  /** A source that is not connected ends the loop: no poll begins after it has said so, and after two
      more steps the thread has returned, with the flag cleared and exactly one disconnect, whether it is
      stopped in between or not. */
  lemma NotConnectedEndsTheRun(before: seq<Action>, after: seq<Action>)
    requires Exec(START, before).pc.Asking?
    ensures var s := Exec(START, before);
            var e := Exec(Step(s, Run(false)), after);
            && e.polls == s.polls
            && (Runs(after) >= 2 ==> e.pc.Returned? && e.disconnects == 1 && !e.running)
  {
    var s := Exec(START, before);
    LeavingIsFinal(Step(s, Run(false)), after);
    AlwaysSound(START, before);
    AlwaysSound(Step(s, Run(false)), after);
  }

  lemma {:induction false} LeavingIsFinal(s: State, acts: seq<Action>)
    requires s.pc.Leaving? || s.pc.Disconnecting? || s.pc.Returned?
    ensures var e := Exec(s, acts);
            && (e.pc.Leaving? || e.pc.Disconnecting? || e.pc.Returned?)
            && e.polls == s.polls
            && (Remaining(e.pc) + Runs(acts) <= Remaining(s.pc) || e.pc.Returned?)
    decreases |acts|
  {
    if acts != [] {
      LeavingIsFinal(Step(s, acts[0]), acts[1..]);
    }
  }

  /** As long as nobody stops it and the source is connected, the thread goes on polling. */
  lemma ConnectedRunsOn(n: nat)
    ensures var s := Exec(START, [Run(true), Run(true)] + Polls(n)); s.polls == n && s.running && s.pc.Loading?
  {
    var s := Exec(START, [Run(true), Run(true)]);
    ExecJoin(START, [Run(true), Run(true)], Polls(n));
    PollsRun(s, n);
  }

  lemma {:induction false} PollsGrow(s: State, acts: seq<Action>)
    ensures s.polls <= Exec(s, acts).polls
    decreases |acts|
  {
    if acts != [] {
      PollsGrow(Step(s, acts[0]), acts[1..]);
    }
  }

  /** The bound is met: a thread that has seen the flag set and a source that is connected. */
  lemma OneMorePollCanBegin()
    ensures var before := [Run(true), Run(true), Run(true)];
            var after := [Run(true), Run(true)];
            Exec(START, before).pc.Asking? && Exec(Step(Exec(START, before), Stop), after).polls
                                              == Exec(START, before).polls + 1
  {
    var before, after := [Run(true), Run(true), Run(true)], [Run(true), Run(true)];
    assert before[1..] == [Run(true), Run(true)] && before[1..][1..] == [Run(true)] && before[1..][1..][1..] == [];
    assert after[1..] == [Run(true)] && after[1..][1..] == [];
  }

  /** A run of `n` polls by a thread that is about to load the flag, with the flag set. */
  function Polls(n: nat): seq<Action> {
    if n == 0 then [] else [Run(true), Run(true), Run(true), Run(true)] + Polls(n - 1)
  }

  lemma {:induction false} ExecJoin(s: State, a: seq<Action>, b: seq<Action>)
    ensures Exec(s, a + b) == Exec(Exec(s, a), b)
    decreases |a|
  {
    if a == [] {
      assert a + b == b;
    } else {
      ExecJoin(Step(s, a[0]), a[1..], b);
      assert (a + b)[1..] == a[1..] + b;
    }
  }

  lemma FourSteps(s: State)
    requires s.pc.Loading? && s.running
    ensures Exec(s, [Run(true), Run(true), Run(true), Run(true)]) == s.(polls := s.polls + 1)
  {
    ExecJoin(s, [Run(true), Run(true)], [Run(true), Run(true)]);
    assert [Run(true), Run(true)] + [Run(true), Run(true)] == [Run(true), Run(true), Run(true), Run(true)];
  }

  lemma {:induction false} PollsRun(s: State, n: nat)
    requires s.pc.Loading? && s.running
    ensures Exec(s, Polls(n)) == s.(polls := s.polls + n)
    decreases n
  {
    if n > 0 {
      var all := Polls(n);
      var one := Exec(s, all[..4]);
      assert all[..4] == [Run(true), Run(true), Run(true), Run(true)] && all[4..] == Polls(n - 1);
      ExecJoin(s, all[..4], all[4..]);
      assert all == all[..4] + all[4..];
      FourSteps(s);
      PollsRun(one, n - 1);
    }
  }

  /** A stop that comes before the flag is set is overwritten: any number of polls can follow. */
  lemma EarlyStopIsLost(n: nat)
    ensures exists after :: Exec(Step(START, Stop), after).polls == n
  {
    var s := Exec(Step(START, Stop), [Run(true), Run(true)]);
    ExecJoin(Step(START, Stop), [Run(true), Run(true)], Polls(n));
    PollsRun(s, n);
  }
}
