# mediate: HTTP RoundTripper decorators, modelled and proved in Dafny

The Go packages `mediate` (mediate.go) and `httpattempts` (attempts.go)
wrap an inner `http.RoundTripper` with extra behaviour:

- **fixed retries.** The request is re-sent up to `retriesAllowed` times, each
  time as a fresh shallow clone. The first response wins.
- **cancellation forwarding.** `CancelRequest` is passed on to the inner
  transport when that transport implements the `canceler` interface.
- **reliable body.** The response body is drained into memory, the original
  body is closed, and an in-memory body replaces it.

The model works on values:

- **`Http`.** Requests, responses and bodies live in a functional heap
  (`Heap`: address → object, plus an allocation point `next`). So Go's
  pointers, shallow copies and aliased body handles are explicit. A body is
  a `Stream`: what it yields when read to the end (`Bytes` or `Broken`), and
  a `closed` flag. `CloneRequest` and `CloneResponse` allocate a new object
  equal to the original.
- **`Transport`.** The inner transport is a script, `Scripted(script, rest,
  canCancel, closesBody)`. Call *i* (counted over the life of the `World`) gets
  `script[i]`, and every call after the script gets `rest`. The `World`
  records every request the inner `RoundTrip` received. The length of that
  log is the mock's `Calls` counter. The `World` also records every request
  passed to the inner `CancelRequest`. A net/http transport closes the body
  of the request it is sent. With `closesBody` set, the scripted transport
  does the same, and `Call` closes the body of the request it received.
- **`Retry`.** The retry loop, written once because mediate.go and
  attempts.go contain the same loop:
  - `Loop` / `Run` is the loop as intended.
  - `LoopAsWritten` / `RunAsWritten` is the loop as the Go text has it (see
    Findings).
  - `RoundTrip` is the loop as a method. It is proved equal to `Run`.
  - `RetryContract` says declaratively what a round trip promises: the call
    count, the response returned, the error returned, and that every call got
    a fresh clone. The only other change it allows is that a transport which
    closes request bodies may close the caller's body. `LoopMeetsContract` proves the state machine meets it for
    every script, budget and call history.
  - The clones share the caller's body. So with a transport that closes
    request bodies, every retry sends a body that the first attempt already
    closed (`RetrySendsClosedBody`).
- **`Mediate`.** mediate.go's constructors, `fixedRetries.RoundTrip`,
  `fixedRetries.CancelRequest` and `reliableBody.RoundTrip`.
- **`HttpAttempts`.** attempts.go's constructor and `RoundTrip`.

attempts.go's `cloneRequest` (attempts.go:13-18) is the same text as
mediate.go's. `Http.CloneRequest` models both.

Facts of the code that the model keeps:

- `FixedRetries` accepts a count of 0 or less. `RoundTrip` then makes no
  call and returns `(nil, nil)`. No error is reported.
- Only mediate.go's `FixedRetries` replaces a nil transport with
  `http.DefaultTransport`. attempts.go's `FixedRetries` and `ReliableBody`
  store nil. A nil inner transport that is then called would panic, so
  `HttpAttempts.RoundTrip` and `Mediate.ReliableRoundTrip` require a
  transport (attempts.go only when its loop runs at all).
- Only mediate.go's `fixedRetries` has `CancelRequest`. `reliableBody` and
  attempts.go's `fixedRetries` do not forward cancellation.
- The new body is a single-pass `bytes.Reader` behind `NopCloser`. The model
  promises that reading it to the end yields the drained bytes once. It does
  not promise a second read.
- The comment above `cloneRequest` says bodies should be deep copied. The
  code copies the struct shallowly, so the clone shares the body handle.
  `Http.CloneAliasesBody` states that sharing.

## Model

| member | source | states |
|---|---|---|
| Http.CloneRequest | mediate.go:15-20 | a new request object at an address no object used; its fields equal the original's; the body handle is shared; the original and everything else in the heap are unchanged |
| Http.CloneResponse | mediate.go:23-28 | the same shallow copy for a response: new address, equal fields, shared body, nothing else changed |
| Http.CloneAliasesBody | mediate.go:12-19 | closing the body through a clone closes the original request's body too, because the handle is aliased and not copied |
| Transport.Call | mediate_test.go:18-24 | one inner round trip logs the request it received (one more call) and answers according to how many calls came before. A transport that closes request bodies closes the received request's body, and nothing else in the heap changes |
| Transport.Cancel | mediate.go:30-32 | a canceler's `CancelRequest` records the request it was given and does not touch the heap or the round-trip log |
| Retry.Attempt | mediate.go:58-59 | one attempt makes exactly one more inner call, which gets the scripted answer for its call number; the caller's request is still in the heap (freshness of the clone is stated by `Retry.AttemptClones`) |
| Retry.AttemptClones | mediate.go:58-59 | an attempt adds one fresh copy of the caller's request and sends it. It changes no existing request or response. No body changes, except that a transport which closes request bodies closes the caller's, which the clone shares |
| Retry.LoopClones | mediate.go:57-59 | whatever the script, the loop sends only fresh, pairwise-distinct clones of the caller's request, never the caller's object. It changes no existing request or response. No body changes, except that a transport which closes request bodies may close the caller's shared one. It makes at most as many calls as iterations remain |
| Retry.LoopSucceeds | mediate.go:57-62 | if the first success is j calls away and within the budget, exactly j+1 calls are made and that response is returned with a nil error |
| Retry.LoopExhausts | mediate.go:56-64 | if every remaining call fails, all of them are made, no response is returned, and the error is the one from the last call |
| Retry.LoopAsWrittenDiffers | mediate.go:56-64 | the loop as written makes the same calls, leaves the same world and returns the same response as the intended loop; its error is nil after a success and the initial `lastError` after exhaustion |
| Retry.FirstSuccessExists | mediate.go:57-62 | if not every call in the budget fails, there is a first call that succeeds |
| Retry.LoopMeetsContract | mediate.go:56-64 | the loop from iteration 0 with no remembered error meets `RetryContract`: no calls and (nil, nil) when the budget is at most 0; exactly k calls and the k-th response with no error when call k is the first success; exactly N calls, no response and the N-th error when all N fail; never more calls than the budget; only fresh clones sent |
| Retry.Run | mediate.go:55-65 | the intended `fixedRetries.RoundTrip` meets `RetryContract` for every script, budget and call history |
| Retry.RunAsWritten | mediate.go:55-65 | `fixedRetries.RoundTrip` as written never returns a non-nil error. Its calls, world and response are those of `Run` |
| Retry.RetrySendsClosedBody | mediate.go:12-19 | with a transport that closes request bodies, a first attempt that fails closes the caller's own body. The second attempt then sends a clone, not the caller's object, whose body is that same closed body. The body is still closed when the round trip ends |
| Retry.RunKeepsBodies | mediate.go:55-65 | behind a transport that does not close request bodies, a round trip leaves every body exactly as it was: the decorator itself never reads or closes the caller's body |
| Retry.RunReplyExclusive | mediate.go:55-65 | with a budget of at least one, the intended round trip returns exactly one of a response and an error |
| Retry.ExhaustionErrorLost | attempts.go:32-40 | when all N ≥ 1 attempts fail, the code as written returns (nil, nil); the intended loop returns no response and the last attempt's error |
| Retry.TestScenario | mediate_test.go:75-94 | budget 3 and a mock that answers the first call and fails afterwards: the first round trip makes 1 call and returns the response; the second makes 4 calls in all and returns the mock's error |
| Retry.TestScenarioAsWritten | mediate_test.go:86-93 | the same test against the code as written: the second round trip makes 4 calls in all but returns (nil, nil), so neither the not-nil assertion nor the error-equality assertion can hold |
| Retry.RoundTrip | mediate.go:55-65 | the loop method (counter `retry`, accumulator `lastError`) computes exactly `Run` and therefore meets `RetryContract` |
| Mediate.FixedRetries | mediate.go:41-46 | the count is stored unchanged; a given transport is stored; a nil transport is replaced by the default transport |
| Mediate.RetryRoundTrip | mediate.go:55-65 | mediate's `fixedRetries.RoundTrip` meets `RetryContract` for its stored transport and count |
| Mediate.RetryCancelRequest | mediate.go:48-53 | the same request is forwarded to the inner `CancelRequest` exactly when the inner transport is a canceler; otherwise the world is unchanged; no round trip is made |
| Mediate.ReliableBody | mediate.go:80-82 | the transport is stored as given, with no default substitution |
| Mediate.ReliableRoundTrip | mediate.go:84-97 | one inner call with the caller's own request. An inner error is returned unchanged with no response, and the world is the one the inner call left. If the body then fails to read, that read error is returned with no response. Otherwise the inner response object is returned with only `Body` replaced by a new body holding exactly the drained bytes. The original body is drained and closed on both read paths. Every other body is unchanged, and the only body added is the new one |
| Mediate.ReliableBodyReadsBack | mediate.go:89-96 | on success, the returned response is the inner one, and reading its new body to the end yields exactly what the original body yielded |
| Mediate.ReliableBodyReplyExclusive | mediate.go:84-97 | exactly one of a response and an error is returned; a response comes back exactly when the inner call succeeded and its body read cleanly |
| Mediate.ReliableBodyTestScenario | mediate_test.go:58-73 | a body that fails to read makes the call return an error; an empty body that reads cleanly makes it return none |
| HttpAttempts.FixedRetries | attempts.go:27-29 | count and transport are stored exactly as given, nil included |
| HttpAttempts.RoundTrip | attempts.go:31-41 | with a transport, meets `RetryContract` (the same loop as mediate.go's); with a nil transport and a budget of at most 0, it makes no call and returns (nil, nil) |

## Findings

| source | as written | input that shows it | evidently intended | confidence | as-written member | corrected member |
|---|---|---|---|---|---|---|
| mediate.go:59 | `resp, lastError :=` declares a new `lastError` inside the loop. It shadows the one at line 56, which is never assigned, so line 64 returns `(nil, nil)` after every attempt failed | `FixedRetries(3, mock)` where the mock fails every call, as in mediate_test.go:86-93: 3 calls, then `(nil, nil)`, so both `assert.NotNil(t, err)` at mediate_test.go:91 and the error-equality check at mediate_test.go:92 fail | return no response and the last attempt's error | not executed | Retry.TestScenarioAsWritten | Retry.TestScenario |
| attempts.go:35 | the same shadowing: the `lastError` at line 32 is never assigned, so line 40 returns `(nil, nil)` on exhaustion | any budget N ≥ 1 with all N inner calls failing | return no response and the last attempt's error | not executed | Retry.ExhaustionErrorLost | Retry.Run |

The rest of the model uses the intended loop. `Mediate.RetryRoundTrip` and
`HttpAttempts.RoundTrip` both call `Retry.RoundTrip`, which is proved equal
to `Run`. `Retry.RunAsWritten` is the code as written. Its contract says that it
differs from `Run` only in the error, and that its error is always nil.

## Left out

- `RateLimit`: it is called by mediate_test.go:96-116, but it is not part of this model. Its behaviour is wall-clock timing and concurrent admission.
- The timing assertions of mediate_test.go:111-115: floating point and clocks.
- Real networking. `http.DefaultTransport`, sockets and TLS are replaced by the scripted inner transport. The default transport is an explicit parameter of `Mediate.FixedRetries`.
- Library internals. `ioutil.ReadAll`, `bytes.NewReader` and `ioutil.NopCloser` are not modelled in detail:
  - A body is modelled only by what it yields when read to the end.
  - The new body's `Close` being a no-op is not modelled, because nothing here closes it.
- `http.Request` and `http.Response` have more fields than the model keeps (Proto, Form, GetBody, TLS, ctx, …). The shallow copy copies all of them the same way.
- `Header` is a Go map, so the shallow copy shares it as well. It is modelled as a value, because no decorator writes a header.
- Decorator chains. Every decorator here wraps a scripted transport, not another decorator.
- Concurrency. The decorators are sequential, and concurrent callers are not modelled.
- The clash between package names `mediate` and `httpattempts` in one directory. The two files are separate modules here.
- Mediate.RetryRoundTrip: states the intended exhaustion error, not the nil that mediate.go:64 returns (see Findings).
- HttpAttempts.RoundTrip: states the intended exhaustion error, not the nil that attempts.go:40 returns (see Findings). A nil transport with a positive budget panics in Go and is excluded by its precondition.
- An inner transport that answers `(nil, nil)` cannot be expressed: `Outcome` is a response or an error. net/http treats such an answer as a broken `RoundTripper`. With it, the retry loop would return `(nil, nil)` at mediate.go:61, and `reliableBody` would dereference a nil response at mediate.go:89.
- Mediate.ReliableRoundTrip: requires a transport. `ReliableBody` stores a nil transport as given, and calling `RoundTrip` through it panics in Go.
- Reading a body that an earlier attempt closed is not modelled as failing. `Retry.RetrySendsClosedBody` shows that such a closed body is sent. What the inner transport then does with it is left to the transport.
