/**
 The decorators of package `mediate`: fixed retries with cancellation
 forwarding, and the reliable (fully buffered) response body.

 A decorator holds its inner transport. `http.DefaultTransport`, which
 `FixedRetries` falls back to when given nil, is an explicit parameter
 here.
 */
module Mediate {
  import opened Http
  import opened Transport
  import Retry

  /** The `fixedRetries` struct. */
  datatype FixedRetry = FixedRetry(transport: Scripted, retriesAllowed: int)

  /** `FixedRetries(count, transport)`: a nil transport is replaced by the
      default one; the count is stored as given, even when it is not
      positive. */
  function FixedRetries(count: int, transport: Option<Scripted>, default: Scripted): (d: FixedRetry)
    ensures d.retriesAllowed == count
    ensures transport.Some? ==> d.transport == transport.value
    ensures transport.None? ==> d.transport == default
  {
    match transport
    case Some(tr) => FixedRetry(tr, count)
    case None => FixedRetry(default, count)
  }

  /** `fixedRetries.RoundTrip`: at most `retriesAllowed` calls, each with a
      fresh clone of the caller's request; the first response is returned;
      on exhaustion no response and the last attempt's error. */
  method RetryRoundTrip(d: FixedRetry, w: World, req: Ref) returns (w': World, reply: Reply)
    requires Valid(w.heap) && req in w.heap.requests
    ensures Retry.RetryContract(d.transport, d.retriesAllowed, w, req, w', reply)
  {
    w', reply := Retry.RoundTrip(d.transport, d.retriesAllowed, w, req);
  }

  /** `fixedRetries.CancelRequest`: passes the same request on to the inner
      transport exactly when that transport is a canceler; otherwise
      nothing happens. No round trip is made either way. */
  function RetryCancelRequest(d: FixedRetry, w: World, req: Ref): (w': World)
    ensures w'.heap == w.heap && w'.sent == w.sent
    ensures d.transport.canCancel ==> w'.cancelled == w.cancelled + [req]
    ensures !d.transport.canCancel ==> w' == w
    ensures |w'.cancelled| == |w.cancelled| + 1 <==> d.transport.canCancel
  {
    if d.transport.canCancel then Cancel(d.transport, w, req) else w
  }

  /** The `reliableBody` struct; unlike `FixedRetries`, `ReliableBody` keeps
      a nil transport as nil. */
  datatype Reliable = Reliable(transport: Option<Scripted>)

  function ReliableBody(transport: Option<Scripted>): (d: Reliable)
    ensures d.transport == transport
  {
    Reliable(transport)
  }

  /** `reliableBody.RoundTrip`: delegate the caller's request itself (no
      clone), then drain the response body and close the original body.
      An inner error is returned as is and no body is touched; a read error
      is returned with no response; otherwise the inner response object is
      returned with only its `Body` replaced by a new in-memory body holding
      exactly the drained bytes. The heap is described relative to the one
      the inner call left behind (`Transport.Call`). */
  function ReliableRoundTrip(d: Reliable, w: World, req: Ref): (r: (World, Reply))
    requires d.transport.Some?
    requires Valid(w.heap) && Serves(d.transport.value, w.heap)
    ensures Valid(r.0.heap)
    ensures r.0.sent == w.sent + [req] && r.0.cancelled == w.cancelled
    ensures r.0.heap.requests == w.heap.requests
    ensures var (w1, o) := Call(d.transport.value, w, req);
            o.Err? ==> r.0 == w1 && r.1 == Reply(None, Some(o.err))
    ensures var (w1, o) := Call(d.transport.value, w, req);
            o.Ok? ==>
              var h := w1.heap;
              var b := h.responses[o.resp].body;
              var drained := ReadAll(h.streams[b]);
              && b in r.0.heap.streams
              && r.0.heap.streams[b] == Close(drained.1)
              && (forall s :: s in h.streams && s != b ==> s in r.0.heap.streams && r.0.heap.streams[s] == h.streams[s])
              && (drained.0.ReadFailed? ==>
                    && r.1 == Reply(None, Some(drained.0.err))
                    && r.0.heap.responses == h.responses
                    && r.0.heap.streams.Keys == h.streams.Keys)
              && (drained.0.Read? ==>
                    && r.1 == Reply(Some(o.resp), None)
                    && o.resp in r.0.heap.responses
                    && var nb := r.0.heap.responses[o.resp].body;
                       && nb !in h.streams
                       && r.0.heap.streams.Keys == h.streams.Keys + {nb}
                       && r.0.heap.responses == h.responses[o.resp := h.responses[o.resp].(body := nb)]
                       && r.0.heap.streams[nb] == Stream(Bytes(drained.0.data), false))
  {
    var (w1, o) := Call(d.transport.value, w, req);
    match o
    case Err(e) => (w1, Reply(None, Some(e)))
    case Ok(resp) =>
      var h := w1.heap;
      var b := h.responses[resp].body;
      var (got, drained) := ReadAll(h.streams[b]);
      // `defer resp.Body.Close()` closes the original body on both paths
      var h1 := h.(streams := h.streams[b := Close(drained)]);
      match got
      case ReadFailed(_, e) => (w1.(heap := h1), Reply(None, Some(e)))
      case Read(data) =>
        var a := AllocStream(h1, Stream(Bytes(data), false));
        var h2 := a.heap.(responses := a.heap.responses[resp := h.responses[resp].(body := a.ref)]);
        (w1.(heap := h2), Reply(Some(resp), None))
  }

  /** On success the buffered body, read to the end, yields exactly the
      bytes the original body yielded. */
  lemma ReliableBodyReadsBack(d: Reliable, w: World, req: Ref)
    requires d.transport.Some?
    requires Valid(w.heap) && Serves(d.transport.value, w.heap)
    ensures var (w', reply) := ReliableRoundTrip(d, w, req);
            reply.resp.Some? ==>
              var (w1, o) := Call(d.transport.value, w, req);
              && o.Ok? && reply.resp.value == o.resp
              && var b := w1.heap.responses[o.resp].body;
                 ReadAll(w'.heap.streams[w'.heap.responses[o.resp].body]).0 == ReadAll(w1.heap.streams[b]).0
  {
  }

  /** Exactly one of a response and an error comes back, and the response
      comes back exactly when the inner call succeeded and its body could
      be read to the end. */
  lemma ReliableBodyReplyExclusive(d: Reliable, w: World, req: Ref)
    requires d.transport.Some?
    requires Valid(w.heap) && Serves(d.transport.value, w.heap)
    ensures var (_, reply) := ReliableRoundTrip(d, w, req);
            && reply.resp.Some? != reply.err.Some?
            && (reply.resp.Some? <==>
                  var (w1, o) := Call(d.transport.value, w, req);
                  o.Ok? && ReadAll(w1.heap.streams[w1.heap.responses[o.resp].body]).0.Read?)
  {
  }

  /** The reliable-body test: with a body that fails to read the call
      returns an error; with an empty body that reads cleanly it returns
      none. */
  lemma ReliableBodyTestScenario(w: World, req: Ref, resp: Ref, pipe: Error)
    requires Valid(w.heap) && resp in w.heap.responses
    ensures var d := ReliableBody(Some(Scripted([], Ok(resp), false, false)));
            var b := w.heap.responses[resp].body;
            var failing := w.(heap := w.heap.(streams := w.heap.streams[b := Stream(Broken([], pipe), false)]));
            var empty := w.(heap := w.heap.(streams := w.heap.streams[b := Stream(Bytes([]), false)]));
            ReliableRoundTrip(d, failing, req).1.err.Some? && ReliableRoundTrip(d, empty, req).1.err.None?
  {
  }
}
