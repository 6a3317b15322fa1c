/** The builder calls of pipeline.hpp on values: bounded lists and a sticky error. */
module Builder {
  import opened Core
  import opened Processing
  import opened Uri
  import opened OwnedUri
  import opened Lifecycle

  datatype BuildOp<!S> =
    | AddSubscription(sub: Subscription)
    | AddConfigOp(op: nat)
    | AddStage(stage: Stage<S>)
    | SetSink(sink: SinkFn<S>)
    | SetUri(text: string)

  /** What a pipeline has been told so far. */
  datatype Built<!S> = Built(
    uri: UriText, ops: seq<nat>, stages: seq<Stage<S>>, sink: Option<SinkFn<S>>,
    subs: seq<Subscription>, pending: ErrorCode)
  {
    function RunPlan(): Plan {
      Plan(uri, ops, subs, pending)
    }
  }

  /** A slot whose topic is too long stays as it was initialized. */
  function Stored(cfg: Config, sub: Subscription): Subscription {
    if |sub.topic| <= cfg.maxTopicLen then sub else Subscription("", 0)
  }

  function Build<S>(cfg: Config, b: Built<S>, op: BuildOp<S>): Built<S> {
    match op
    case AddSubscription(sub) =>
      if |b.subs| >= cfg.maxSubscriptions then b.(pending := CapacityExceeded)
      else if |sub.topic| <= cfg.maxTopicLen then b.(subs := b.subs + [sub])
      else b.(subs := b.subs + [Subscription("", 0)], pending := BufferOverflow)
    case AddConfigOp(f) =>
      if |b.ops| < cfg.maxConfigOps then b.(ops := b.ops + [f]) else b.(pending := CapacityExceeded)
    case AddStage(f) =>
      if |b.stages| < cfg.maxStages then b.(stages := b.stages + [f]) else b.(pending := CapacityExceeded)
    case SetSink(f) => b.(sink := Some(f))
    case SetUri(text) =>
      var told := b.(uri := OwnedText(cfg, text));
      if |text| > cfg.maxUriLen then told.(pending := InvalidUri) else told
  }

  /** A pipeline just made from a source alone. */
  function Fresh<S>(): Built<S> {
    Built(NO_TEXT, [], [], None, [], NoError)
  }

  function BuildAll<S>(cfg: Config, history: seq<BuildOp<S>>): Built<S> {
    if history == [] then Fresh()
    else Build(cfg, BuildAll(cfg, history[..|history| - 1]), history[|history| - 1])
  }

  // ----- the same, read off the history

  function SubsIn<S>(history: seq<BuildOp<S>>): seq<Subscription> {
    if history == [] then []
    else
      var rest := SubsIn(history[..|history| - 1]);
      match history[|history| - 1]
      case AddSubscription(sub) => rest + [sub]
      case _ => rest
  }

  function OpsIn<S>(history: seq<BuildOp<S>>): seq<nat> {
    if history == [] then []
    else
      var rest := OpsIn(history[..|history| - 1]);
      match history[|history| - 1]
      case AddConfigOp(op) => rest + [op]
      case _ => rest
  }

  function StagesIn<S>(history: seq<BuildOp<S>>): seq<Stage<S>> {
    if history == [] then []
    else
      var rest := StagesIn(history[..|history| - 1]);
      match history[|history| - 1]
      case AddStage(stage) => rest + [stage]
      case _ => rest
  }

  function LastSink<S>(history: seq<BuildOp<S>>): Option<SinkFn<S>> {
    if history == [] then None
    else
      match history[|history| - 1]
      case SetSink(f) => Some(f)
      case _ => LastSink(history[..|history| - 1])
  }

  function LastUri<S>(cfg: Config, history: seq<BuildOp<S>>): UriText {
    if history == [] then NO_TEXT
    else
      match history[|history| - 1]
      case SetUri(text) => OwnedText(cfg, text)
      case _ => LastUri(cfg, history[..|history| - 1])
  }

  /** Why a call after those of `before` is rejected, `NoError` if it is not: the earlier calls of
      its kind have used up the slots, or the text it brings is too long. */
  function RejectionAfter<S>(cfg: Config, before: seq<BuildOp<S>>, op: BuildOp<S>): ErrorCode {
    match op
    case AddSubscription(sub) =>
      if |SubsIn(before)| >= cfg.maxSubscriptions then CapacityExceeded
      else if |sub.topic| > cfg.maxTopicLen then BufferOverflow
      else NoError
    case AddConfigOp(_) => if |OpsIn(before)| >= cfg.maxConfigOps then CapacityExceeded else NoError
    case AddStage(_) => if |StagesIn(before)| >= cfg.maxStages then CapacityExceeded else NoError
    case SetSink(_) => NoError
    case SetUri(text) => if |text| > cfg.maxUriLen then InvalidUri else NoError
  }

  function Rejection<S>(cfg: Config, history: seq<BuildOp<S>>, k: nat): ErrorCode
    requires k < |history|
  {
    RejectionAfter(cfg, history[..k], history[k])
  }

  predicate AllAccepted<S>(cfg: Config, history: seq<BuildOp<S>>) {
    forall k :: 0 <= k < |history| ==> Rejection(cfg, history, k) == NoError
  }

  /** Call number `k` is the last one that was rejected. */
  predicate LastRejected<S>(cfg: Config, history: seq<BuildOp<S>>, k: nat) {
    && k < |history| && Rejection(cfg, history, k) != NoError
    && forall j :: k < j < |history| ==> Rejection(cfg, history, j) == NoError
  }

  function StoredAll(cfg: Config, subs: seq<Subscription>): seq<Subscription> {
    seq(|subs|, i requires 0 <= i < |subs| => Stored(cfg, subs[i]))
  }

  lemma TakeSnoc<T>(s: seq<T>, x: T, n: nat)
    ensures Take(s + [x], n) == if |s| < n then Take(s, n) + [x] else Take(s, n)
  {
  }

  /** Each list holds the first calls of its kind, as many as there are slots; a subscription with a
      topic that is too long uses a slot up.  The sink and the URI are the last ones set. */
  lemma {:induction false} HoldsFirstCalls<S>(cfg: Config, history: seq<BuildOp<S>>)
    ensures var b := BuildAll(cfg, history);
            && b.stages == Take(StagesIn(history), cfg.maxStages)
            && b.ops == Take(OpsIn(history), cfg.maxConfigOps)
            && b.subs == StoredAll(cfg, Take(SubsIn(history), cfg.maxSubscriptions))
            && b.sink == LastSink(history)
            && b.uri == LastUri(cfg, history)
  {
    if history != [] {
      var before := history[..|history| - 1];
      HoldsFirstCalls(cfg, before);
      match history[|history| - 1]
      case AddSubscription(sub) => TakeSnoc(SubsIn(before), sub, cfg.maxSubscriptions);
      case AddConfigOp(op) => TakeSnoc(OpsIn(before), op, cfg.maxConfigOps);
      case AddStage(stage) => TakeSnoc(StagesIn(before), stage, cfg.maxStages);
      case _ =>
    }
  }

  /** The lists are full exactly when there were as many calls of their kind as slots. */
  lemma FullIffEnoughCalls<S>(cfg: Config, history: seq<BuildOp<S>>)
    ensures var b := BuildAll(cfg, history);
            && (|b.stages| >= cfg.maxStages <==> |StagesIn(history)| >= cfg.maxStages)
            && (|b.ops| >= cfg.maxConfigOps <==> |OpsIn(history)| >= cfg.maxConfigOps)
            && (|b.subs| >= cfg.maxSubscriptions <==> |SubsIn(history)| >= cfg.maxSubscriptions)
  {
    HoldsFirstCalls(cfg, history);
  }

  lemma CallReports<S>(cfg: Config, before: seq<BuildOp<S>>, op: BuildOp<S>)
    ensures var e := RejectionAfter(cfg, before, op);
            var b := BuildAll(cfg, before);
            Build(cfg, b, op).pending == if e != NoError then e else b.pending
  {
    FullIffEnoughCalls(cfg, before);
  }

  /** The last call decides what is reported, and leaves the earlier error if it was accepted. */
  lemma LastCallReports<S>(cfg: Config, history: seq<BuildOp<S>>)
    requires history != []
    ensures var n := |history| - 1;
            var e := Rejection(cfg, history, n);
            BuildAll(cfg, history).pending == if e != NoError then e else BuildAll(cfg, history[..n]).pending
  {
    CallReports(cfg, history[..|history| - 1], history[|history| - 1]);
  }

  lemma RejectionOfPrefix<S>(cfg: Config, history: seq<BuildOp<S>>, n: nat, k: nat)
    requires k < n <= |history|
    ensures Rejection(cfg, history[..n], k) == Rejection(cfg, history, k)
  {
    assert history[..n][..k] == history[..k];
  }

  /** `check()` succeeds if and only if no call was ever rejected. */
  lemma {:induction false} CheckSucceedsIffAllAccepted<S>(cfg: Config, history: seq<BuildOp<S>>)
    ensures BuildAll(cfg, history).pending == NoError <==> AllAccepted(cfg, history)
  {
    if history != [] {
      var n := |history| - 1;
      CheckSucceedsIffAllAccepted(cfg, history[..n]);
      LastCallReports(cfg, history);
      AcceptedSoFar(cfg, history);
    }
  }

  lemma AcceptedSoFar<S>(cfg: Config, history: seq<BuildOp<S>>)
    requires history != []
    ensures var n := |history| - 1;
            AllAccepted(cfg, history) <==> AllAccepted(cfg, history[..n]) && Rejection(cfg, history, n) == NoError
  {
    var n := |history| - 1;
    forall k: nat | k < n
      ensures Rejection(cfg, history[..n], k) == Rejection(cfg, history, k)
    {
      RejectionOfPrefix(cfg, history, n, k);
    }
  }

  /** Otherwise it reports the last rejected call's error. */
  lemma {:induction false} CheckReportsLastRejection<S>(cfg: Config, history: seq<BuildOp<S>>, k: nat)
    requires LastRejected(cfg, history, k)
    ensures BuildAll(cfg, history).pending == Rejection(cfg, history, k)
    decreases |history|
  {
    var n := |history| - 1;
    LastCallReports(cfg, history);
    if k < n {
      forall j: nat | j < n
        ensures Rejection(cfg, history[..n], j) == Rejection(cfg, history, j)
      {
        RejectionOfPrefix(cfg, history, n, j);
      }
      CheckReportsLastRejection(cfg, history[..n], k);
    }
  }

  /** When nothing was rejected the lists are the history itself. */
  lemma {:induction false} AcceptedHistoryIsStored<S>(cfg: Config, history: seq<BuildOp<S>>)
    requires AllAccepted(cfg, history)
    ensures var b := BuildAll(cfg, history);
            b.stages == StagesIn(history) && b.ops == OpsIn(history) && b.subs == SubsIn(history)
  {
    if history != [] {
      var n := |history| - 1;
      AcceptedSoFar(cfg, history);
      AcceptedHistoryIsStored(cfg, history[..n]);
      FullIffEnoughCalls(cfg, history[..n]);
    }
  }

  /** Once reported, an error is never taken back, whatever is called after it. */
  lemma {:induction false} ErrorStays<S>(cfg: Config, history: seq<BuildOp<S>>, further: seq<BuildOp<S>>)
    requires BuildAll(cfg, history).pending != NoError
    ensures BuildAll(cfg, history + further).pending != NoError
    decreases |further|
  {
    if further == [] {
      assert history + further == history;
    } else {
      var n := |further| - 1;
      ErrorStays(cfg, history, further[..n]);
      assert (history + further)[..|history + further| - 1] == history + further[..n];
    }
  }
}
