/** message.hpp: a borrowed message, and the fixed-capacity message that owns its bytes. */
module Message {
  import opened Core

  type Qos = q: nat | q < 256

  /** message_view: what is passed to `emit` and to sinks. */
  datatype View = View(topic: string, payload: seq<bv8>, qos: Qos)

  /** The message is small enough for the buffers of a `basic_message<Config>`. */
  predicate Fits(cfg: Config, v: View) {
    |v.topic| <= cfg.maxTopicLen && |v.payload| <= cfg.maxPayloadLen
  }

  class BasicMessage {
    const cfg: Config
    const topicBuf: array<char>
    var topicLen: nat
    const payloadBuf: array<bv8>
    var payloadLen: nat
    var qos: Qos

    ghost predicate Valid()
      reads this
    {
      && topicBuf.Length == cfg.maxTopicLen + 1
      && payloadBuf.Length == cfg.maxPayloadLen
      && topicLen <= cfg.maxTopicLen
      && payloadLen <= cfg.maxPayloadLen
      && topicBuf as object != payloadBuf as object
    }

    constructor (cfg: Config)
      ensures Valid() && this.cfg == cfg
      ensures fresh(topicBuf) && fresh(payloadBuf)
      ensures AsView() == View("", [], 0)
    {
      this.cfg := cfg;
      topicBuf := new char[cfg.maxTopicLen + 1](_ => '\0');
      payloadBuf := new bv8[cfg.maxPayloadLen](_ => 0);
      topicLen, payloadLen, qos := 0, 0, 0;
    }

    function AsView(): (v: View)
      requires Valid()
      reads this, topicBuf, payloadBuf
      ensures Fits(cfg, v)
    {
      View(topicBuf[..topicLen], payloadBuf[..payloadLen], qos)
    }

    /** All or nothing: a message that does not fit leaves the object exactly as it was. */
    method FromView(mv: View) returns (r: Result)
      requires Valid()
      modifies this, topicBuf, payloadBuf
      ensures Valid()
      ensures r == if |mv.topic| <= cfg.maxTopicLen && |mv.payload| <= cfg.maxPayloadLen then Ok else Err(BufferOverflow)
      ensures AsView() == if r.Ok? then mv else old(AsView())
    {
      if |mv.topic| > cfg.maxTopicLen || |mv.payload| > cfg.maxPayloadLen {
        return Err(BufferOverflow);
      }
      topicLen := |mv.topic|;
      forall i | 0 <= i < topicLen {
        topicBuf[i] := mv.topic[i];
      }
      topicBuf[topicLen] := '\0';
      payloadLen := |mv.payload|;
      forall i | 0 <= i < payloadLen {
        payloadBuf[i] := mv.payload[i];
      }
      qos := mv.qos;
      assert topicBuf[..topicLen] == mv.topic;
      assert payloadBuf[..payloadLen] == mv.payload;
      return Ok;
    }
  }
}
