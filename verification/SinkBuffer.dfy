/** as_range.hpp: a bounded buffer of owned messages that a sink can push into. */
module SinkBuffer {
  import opened Core
  import opened Message
  import opened Processing

  datatype BufferOp = Push(mv: View) | Clear

  function Capacity(cfg: Config): nat {
    cfg.maxStages * 2
  }

  /** One operation, on the stored messages. */
  function Apply(cfg: Config, held: seq<View>, op: BufferOp): seq<View> {
    match op
    case Push(mv) => if |held| < Capacity(cfg) && Fits(cfg, mv) then held + [mv] else held
    case Clear => []
  }

  function Replay(cfg: Config, ops: seq<BufferOp>): seq<View> {
    if ops == [] then [] else Apply(cfg, Replay(cfg, ops[..|ops| - 1]), ops[|ops| - 1])
  }

  /** The fitting messages pushed since the last clear, without any bound. */
  function Accepted(cfg: Config, ops: seq<BufferOp>): seq<View> {
    if ops == [] then []
    else
      var before := Accepted(cfg, ops[..|ops| - 1]);
      match ops[|ops| - 1]
      case Push(mv) => if Fits(cfg, mv) then before + [mv] else before
      case Clear => []
  }

  /** Any history leaves the first `max_messages` accepted messages since the last clear, in order. */
  lemma {:induction false} HoldsFirstAccepted(cfg: Config, ops: seq<BufferOp>)
    ensures Replay(cfg, ops) == Take(Accepted(cfg, ops), Capacity(cfg))
  {
    if ops != [] {
      HoldsFirstAccepted(cfg, ops[..|ops| - 1]);
    }
  }

  function Pushes(vs: seq<View>): seq<BufferOp> {
    seq(|vs|, i requires 0 <= i < |vs| => Push(vs[i]))
  }

  lemma {:induction false} AllFittingAccepted(cfg: Config, vs: seq<View>)
    requires forall m :: m in vs ==> Fits(cfg, m)
    ensures Accepted(cfg, Pushes(vs)) == vs
  {
    if vs != [] {
      var init := vs[..|vs| - 1];
      AllFittingAccepted(cfg, init);
      assert Pushes(vs)[..|vs| - 1] == Pushes(init);
      assert vs == init + [vs[|vs| - 1]];
    }
  }

  /** Fed by a pipeline of the same Config nothing is refused for its size: only a full buffer
      loses messages, and it keeps the earliest ones the pipeline delivered. */
  lemma PipelineFeedsBuffer<S(!new)>(cfg: Config, stages: seq<Stage<S>>, sink: Option<SinkFn<S>>, mem: S, vs: seq<View>)
    requires forall k :: 0 <= k < |stages| ==> StageFits(cfg, stages[k])
    ensures var sent := ProcessAll(cfg, stages, sink, mem, vs).delivered;
            Replay(cfg, Pushes(sent)) == Take(sent, Capacity(cfg))
  {
    var sent := ProcessAll(cfg, stages, sink, mem, vs).delivered;
    DeliveredFit(cfg, stages, sink, mem, vs);
    AllFittingAccepted(cfg, sent);
    HoldsFirstAccepted(cfg, Pushes(sent));
  }

  /** The array embeds its messages by value, so a slot is the value of its message. */
  class Buffer {
    const cfg: Config
    const messages: array<View>
    var count: nat

    ghost predicate Valid()
      reads this, messages
    {
      && messages.Length == Capacity(cfg)
      && count <= messages.Length
      && forall i :: 0 <= i < messages.Length ==> Fits(cfg, messages[i])
    }

    function Contents(): seq<View>
      requires Valid()
      reads this, messages
    {
      messages[..count]
    }

    constructor (cfg: Config)
      ensures Valid() && fresh(messages) && this.cfg == cfg && messages.Length == cfg.maxStages * 2
      ensures Contents() == []
    {
      this.cfg := cfg;
      count := 0;
      messages := new View[Capacity(cfg)](_ => View("", [], 0));
    }

    method Push(mv: View)
      requires Valid()
      modifies this, messages
      ensures Valid()
      ensures Contents() == Apply(cfg, old(Contents()), BufferOp.Push(mv))
      ensures var taken := old(count) < cfg.maxStages * 2
                           && |mv.topic| <= cfg.maxTopicLen && |mv.payload| <= cfg.maxPayloadLen;
              Contents() == old(Contents()) + if taken then [mv] else []
    {
      if count < messages.Length {
        if Fits(cfg, mv) {
          messages[count] := mv;
          count := count + 1;
        }
      }
    }

    method Clear()
      requires Valid()
      modifies this
      ensures Valid()
      ensures Contents() == Apply(cfg, old(Contents()), BufferOp.Clear) == []
    {
      count := 0;
    }

    /** `operator[]`; it does not check the index, so the caller must stay below `size()`. */
    method At(i: nat) returns (v: View)
      requires Valid() && i < count
      ensures v == Contents()[i]
    {
      v := messages[i];
    }
  }
}
