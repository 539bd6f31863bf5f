/**
 Package `httpattempts`: a second copy of the fixed-retry decorator. Its
 loop is the same as in package `mediate` (module Retry); it differs in
 that `FixedRetries` stores a nil transport as nil, and it has no
 `CancelRequest`.
 */
module HttpAttempts {
  import opened Http
  import opened Transport
  import Retry

  /** The `fixedRetries` struct; `None` stands for a nil `underlying`. */
  datatype FixedRetry = FixedRetry(underlying: Option<Scripted>, retriesAllowed: int)

  /** `FixedRetries(count, transport)`: both are stored exactly as given. */
  function FixedRetries(count: int, transport: Option<Scripted>): (d: FixedRetry)
    ensures d.underlying == transport && d.retriesAllowed == count
  {
    FixedRetry(transport, count)
  }

  /** `fixedRetries.RoundTrip`. Calling through a nil `underlying` would
      panic, so a nil transport is only allowed when the loop never runs. */
  method RoundTrip(d: FixedRetry, w: World, req: Ref) returns (w': World, reply: Reply)
    requires d.underlying.Some? || d.retriesAllowed <= 0
    requires Valid(w.heap) && req in w.heap.requests
    ensures d.underlying.Some? ==> Retry.RetryContract(d.underlying.value, d.retriesAllowed, w, req, w', reply)
    ensures d.underlying.None? ==> w' == w && reply == Reply(None, None)
  {
    match d.underlying
    case None =>
      w', reply := w, Reply(None, None);
    case Some(t) =>
      w', reply := Retry.RoundTrip(t, d.retriesAllowed, w, req);
  }
}
