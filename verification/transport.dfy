/**
 The inner `http.RoundTripper` a decorator wraps, modelled by its answers.

 A real transport does network I/O; here it is a script: the i-th call it
 receives (counting from 0 over the whole life of the world) is answered by
 `script[i]`, and every call after the script by `rest`. The world keeps the
 transport's call log: the request handed to each call, in order (its length
 is the call counter), and the requests passed to its `CancelRequest`.

 A real net/http transport closes the body of the request it is given;
 `closesBody` says whether the scripted one does.
 */
module Transport {
  import opened Http

  /** One answer of `RoundTrip`: a response, or an error and no response. */
  datatype Outcome = Ok(resp: Ref) | Err(err: Error)

  /** The `(resp, err)` pair a `RoundTrip` returns; `None` stands for nil. */
  datatype Reply = Reply(resp: Option<Ref>, err: Option<Error>)

  /** A scripted transport. `canCancel` says whether it implements the
      optional `canceler` interface; `closesBody` whether each call closes
      the body of the request it received. */
  datatype Scripted = Scripted(script: seq<Outcome>, rest: Outcome, canCancel: bool, closesBody: bool)

  datatype World = World(heap: Heap, sent: seq<Ref>, cancelled: seq<Ref>)

  /** The answer to call number `i`. */
  function Answer(t: Scripted, i: nat): (o: Outcome)
    ensures o in t.script || o == t.rest
    ensures i < |t.script| ==> o == t.script[i]
    ensures |t.script| <= i ==> o == t.rest
  {
    if i < |t.script| then t.script[i] else t.rest
  }

  predicate Provides(o: Outcome, h: Heap)
  {
    o.Ok? ==> o.resp in h.responses
  }

  /** Every response the transport can answer with exists in `h`. */
  predicate Serves(t: Scripted, h: Heap)
  {
    (forall o :: o in t.script ==> Provides(o, h)) && Provides(t.rest, h)
  }

  /** One call of the inner `RoundTrip` with the request at `req`: it is
      logged, answered according to how many calls came before, and, for a
      transport that closes request bodies, the request's body is closed.
      Nothing else in the heap changes. */
  function Call(t: Scripted, w: World, req: Ref): (r: (World, Outcome))
    requires Valid(w.heap)
    ensures Valid(r.0.heap)
    ensures r.0.sent == w.sent + [req] && r.0.cancelled == w.cancelled
    ensures !t.closesBody ==> r.0.heap == w.heap
    ensures t.closesBody ==> r.0.heap == CloseBodyOf(w.heap, req)
    ensures r.1 == Answer(t, |w.sent|)
  {
    var h := if t.closesBody then CloseBodyOf(w.heap, req) else w.heap;
    (w.(heap := h, sent := w.sent + [req]), Answer(t, |w.sent|))
  }

  /** The inner transport's own `CancelRequest`; only a canceler has one. */
  function Cancel(t: Scripted, w: World, req: Ref): (w': World)
    requires t.canCancel
    ensures w'.cancelled == w.cancelled + [req]
    ensures w'.heap == w.heap && w'.sent == w.sent
  {
    w.(cancelled := w.cancelled + [req])
  }
}
