/** An arbitrary source: an object that does what a SourceModel says and records what was called. */
module Source {
  import opened Core
  import opened Message
  import opened Uri
  import L = Lifecycle

  class BusSource {
    const model: L.SourceModel
    var trace: seq<L.Event>

    constructor (model: L.SourceModel)
      ensures this.model == model && trace == []
    {
      this.model := model;
      trace := [];
    }

    method Connect(uri: UriText) returns (r: Result)
      modifies this
      ensures trace == old(trace) + [L.Connect(uri, r)] && L.Answers(model, old(trace), L.Connect(uri, r))
    {
      r := model.connect(trace, uri);
      trace := trace + [L.Connect(uri, r)];
    }

    method Configure(op: nat) returns (r: Result)
      modifies this
      ensures trace == old(trace) + [L.Configure(op, r)] && L.Answers(model, old(trace), L.Configure(op, r))
    {
      r := model.configure(trace, op);
      trace := trace + [L.Configure(op, r)];
    }

    method Subscribe(sub: L.Subscription) returns (r: Result)
      modifies this
      ensures trace == old(trace) + [L.Subscribe(sub, r)] && L.Answers(model, old(trace), L.Subscribe(sub, r))
    {
      r := model.subscribe(trace, sub);
      trace := trace + [L.Subscribe(sub, r)];
    }

    method SetMessageCallback()
      modifies this
      ensures trace == old(trace) + [L.SetCallback]
    {
      trace := trace + [L.SetCallback];
    }

    method IsConnected() returns (b: bool)
      modifies this
      ensures trace == old(trace) + [L.IsConnected(b)] && L.Answers(model, old(trace), L.IsConnected(b))
    {
      b := model.connected(trace);
      trace := trace + [L.IsConnected(b)];
    }

    /** The messages for the callback, in the order in which the source hands them over. */
    method Poll() returns (messages: seq<View>)
      modifies this
      ensures trace == old(trace) + [L.Poll(messages)] && L.Answers(model, old(trace), L.Poll(messages))
    {
      messages := model.poll(trace);
      trace := trace + [L.Poll(messages)];
    }

    method Disconnect() returns (r: Result)
      modifies this
      ensures trace == old(trace) + [L.Disconnect(r)] && L.Answers(model, old(trace), L.Disconnect(r))
    {
      r := model.disconnect(trace);
      trace := trace + [L.Disconnect(r)];
    }

    /** The loop looks at the running flag, which it had set; it finds it cleared exactly when
        somebody has called `stop()` by now. */
    method LoadRunning() returns (b: bool)
      modifies this
      ensures trace == old(trace) + [L.LoadRunning(b)] && L.Answers(model, old(trace), L.LoadRunning(b))
    {
      b := !model.stopped(trace);
      trace := trace + [L.LoadRunning(b)];
    }
  }
}
