/**
 The fixed-retry loop shared by `fixedRetries.RoundTrip` in mediate.go and
 in attempts.go (the two loops are the same code).

 The loop runs `retry` from 0 while `retry < n`; each attempt clones the
 caller's request and hands the clone to the inner transport. The first
 response ends the loop; when the budget is spent the loop returns no
 response and the error it remembered.

 `Loop` is the loop as intended: every failed attempt's error is kept, so
 exhaustion reports the last attempt's error. `LoopAsWritten` is the loop as
 the Go text has it: `resp, lastError := ...` declares a new `lastError`
 inside the body, the outer one is never assigned, and exhaustion reports
 nil. `RoundTrip` is the loop as a method, proved equal to `Loop`.
 */
module Retry {
  import opened Http
  import opened Transport

  /** Attempt i (0-based) of a calls-from-`from` window fails. */
  predicate FailsThrough(t: Scripted, from: nat, k: nat)
  {
    forall i :: from <= i < from + k ==> Answer(t, i).Err?
  }

  /** Call `from + j` is the first one from `from` on that succeeds. */
  predicate FirstSuccessAt(t: Scripted, from: nat, j: nat)
  {
    Answer(t, from + j).Ok? && FailsThrough(t, from, j)
  }

  /** `c` is a request object that did not exist in `w` and now holds a
      copy of the caller's request. */
  predicate FreshClone(w: World, w': World, c: Ref, req: Ref)
    requires req in w.heap.requests
  {
    c !in w.heap.requests && c in w'.heap.requests && w'.heap.requests[c] == w.heap.requests[req]
  }

  /** All the decorator did to the world between `w` and `w'`: it allocated
      new requests, each a copy of `req`, and sent them, each once, to the
      inner transport. Existing objects, responses and the cancel log are
      untouched. No body changes, except that a transport which closes
      request bodies may have closed the caller's, which the clones share;
      the decorator itself never touches it. */
  predicate ClonesOnly(t: Scripted, w: World, w': World, req: Ref)
    requires req in w.heap.requests
  {
    && Valid(w'.heap)
    && |w.sent| <= |w'.sent| && w'.sent[..|w.sent|] == w.sent
    && w'.cancelled == w.cancelled
    && w'.heap.responses == w.heap.responses
    && OnlyBodyClosed(w.heap, w'.heap, if t.closesBody then w.heap.requests[req].body else None)
    && (forall r :: r in w.heap.requests ==> r in w'.heap.requests && w'.heap.requests[r] == w.heap.requests[r])
    && (forall i :: |w.sent| <= i < |w'.sent| ==> FreshClone(w, w', w'.sent[i], req))
    && (forall i, j :: |w.sent| <= i < j < |w'.sent| ==> w'.sent[i] != w'.sent[j])
  }

  /** What one outer `RoundTrip` with budget `n` promises, given that the
      inner transport had already been called `|w.sent|` times. */
  predicate RetryContract(t: Scripted, n: int, w: World, req: Ref, w': World, reply: Reply)
    requires req in w.heap.requests
  {
    && ClonesOnly(t, w, w', req)
    && |w'.sent| - |w.sent| <= (if n <= 0 then 0 else n)
    && (n <= 0 ==> w' == w && reply == Reply(None, None))
    && (forall j :: 0 <= j < n && FirstSuccessAt(t, |w.sent|, j) ==>
          |w'.sent| == |w.sent| + j + 1 && reply == Reply(Some(Answer(t, |w.sent| + j).resp), None))
    && (1 <= n && FailsThrough(t, |w.sent|, n) ==>
          |w'.sent| == |w.sent| + n && reply == Reply(None, Some(Answer(t, |w.sent| + n - 1).err)))
  }

  /** One attempt: `nreq := cloneRequest(req)` and the inner call with it. */
  function Attempt(t: Scripted, w: World, req: Ref): (r: (World, Outcome))
    requires Valid(w.heap) && req in w.heap.requests
    ensures Valid(r.0.heap) && req in r.0.heap.requests
    ensures |r.0.sent| == |w.sent| + 1
    ensures r.1 == Answer(t, |w.sent|)
  {
    var c := CloneRequest(w.heap, req);
    Call(t, w.(heap := c.heap), c.ref)
  }

  /** An attempt sends one fresh clone of the caller's request, and at most
      closes the body that clone shares with the caller's request. */
  lemma AttemptClones(t: Scripted, w: World, req: Ref)
    requires Valid(w.heap) && req in w.heap.requests
    ensures ClonesOnly(t, w, Attempt(t, w, req).0, req)
  {
  }

  /** The loop from iteration `retry` on, with `lastError` as remembered. */
  function Loop(t: Scripted, w: World, req: Ref, retry: int, n: int, lastError: Option<Error>): (World, Reply)
    requires Valid(w.heap) && req in w.heap.requests
    decreases n - retry
  {
    if retry >= n then (w, Reply(None, lastError))
    else
      var (w1, o) := Attempt(t, w, req);
      if o.Ok? then (w1, Reply(Some(o.resp), None))
      else Loop(t, w1, req, retry + 1, n, Some(o.err))
  }

  /** The loop as written: a failed attempt's error lands in a variable
      local to the body, so the `lastError` returned is the initial one. */
  function LoopAsWritten(t: Scripted, w: World, req: Ref, retry: int, n: int, lastError: Option<Error>): (World, Reply)
    requires Valid(w.heap) && req in w.heap.requests
    decreases n - retry
  {
    if retry >= n then (w, Reply(None, lastError))
    else
      var (w1, o) := Attempt(t, w, req);
      if o.Ok? then (w1, Reply(Some(o.resp), None))
      else LoopAsWritten(t, w1, req, retry + 1, n, lastError)
  }

  /** `RoundTrip` with budget `n`, as intended: `var lastError error`, then
      the loop from iteration 0. It meets `RetryContract`. */
  function Run(t: Scripted, n: int, w: World, req: Ref): (r: (World, Reply))
    requires Valid(w.heap) && req in w.heap.requests
    ensures RetryContract(t, n, w, req, r.0, r.1)
  {
    LoopMeetsContract(t, n, w, req);
    Loop(t, w, req, 0, n, None)
  }

  /** `RoundTrip` with budget `n`, as written. It never reports an error:
      its calls, world and response are those of the intended `Run`, and
      its error is always nil. */
  function RunAsWritten(t: Scripted, n: int, w: World, req: Ref): (r: (World, Reply))
    requires Valid(w.heap) && req in w.heap.requests
    ensures r.1.err.None?
    ensures r.0 == Run(t, n, w, req).0 && r.1.resp == Run(t, n, w, req).1.resp
  {
    LoopAsWrittenDiffers(t, w, req, 0, n, None, None);
    LoopAsWritten(t, w, req, 0, n, None)
  }

  /** `ClonesOnly` composes: an attempt followed by more attempts still only
      sent fresh clones. */
  lemma ClonesOnlyTrans(t: Scripted, w: World, w1: World, w2: World, req: Ref)
    requires req in w.heap.requests && req in w1.heap.requests
    requires ClonesOnly(t, w, w1, req) && ClonesOnly(t, w1, w2, req)
    ensures ClonesOnly(t, w, w2, req)
  {
  }

  lemma ClonesOnlyRefl(t: Scripted, w: World, req: Ref)
    requires Valid(w.heap) && req in w.heap.requests
    ensures ClonesOnly(t, w, w, req)
  {
  }

  /** Whatever the script, the loop only sends fresh clones of the caller's
      request, and never more than the iterations it has left. */
  lemma {:induction false} LoopClones(t: Scripted, w: World, req: Ref, retry: int, n: int, e: Option<Error>)
    requires Valid(w.heap) && req in w.heap.requests
    ensures var (w', _) := Loop(t, w, req, retry, n, e);
            ClonesOnly(t, w, w', req) && |w'.sent| - |w.sent| <= (if n <= retry then 0 else n - retry)
    decreases n - retry
  {
    if retry >= n {
      ClonesOnlyRefl(t, w, req);
    } else {
      var (w1, o) := Attempt(t, w, req);
      AttemptClones(t, w, req);
      if o.Err? {
        LoopClones(t, w1, req, retry + 1, n, Some(o.err));
        ClonesOnlyTrans(t, w, w1, Loop(t, w1, req, retry + 1, n, Some(o.err)).0, req);
      }
    }
  }

  /** If the first success from here on is `j` calls away and within the
      remaining budget, exactly `j + 1` calls are made and that response is
      returned with no error. */
  lemma {:induction false} LoopSucceeds(t: Scripted, w: World, req: Ref, retry: int, n: int, e: Option<Error>, j: nat)
    requires Valid(w.heap) && req in w.heap.requests
    requires retry + j < n && FirstSuccessAt(t, |w.sent|, j)
    ensures var (w', reply) := Loop(t, w, req, retry, n, e);
            |w'.sent| == |w.sent| + j + 1 && reply == Reply(Some(Answer(t, |w.sent| + j).resp), None)
    decreases j
  {
    var (w1, o) := Attempt(t, w, req);
    if j > 0 {
      assert Answer(t, |w.sent|).Err?;
      assert FirstSuccessAt(t, |w1.sent|, j - 1) by {
        assert |w1.sent| + (j - 1) == |w.sent| + j;
      }
      LoopSucceeds(t, w1, req, retry + 1, n, Some(o.err), j - 1);
    }
  }

  /** If every remaining call fails, all `n - retry` of them are made, no
      response is returned, and the error is that of the last call. */
  lemma {:induction false} LoopExhausts(t: Scripted, w: World, req: Ref, retry: int, n: int, e: Option<Error>)
    requires Valid(w.heap) && req in w.heap.requests
    requires retry < n && FailsThrough(t, |w.sent|, n - retry)
    ensures var (w', reply) := Loop(t, w, req, retry, n, e);
            |w'.sent| == |w.sent| + (n - retry)
            && reply == Reply(None, Some(Answer(t, |w.sent| + (n - retry) - 1).err))
    decreases n - retry
  {
    var (w1, o) := Attempt(t, w, req);
    assert o.Err?;
    if retry + 1 < n {
      assert FailsThrough(t, |w1.sent|, n - (retry + 1));
      LoopExhausts(t, w1, req, retry + 1, n, Some(o.err));
    }
  }

  /** The loop as written does everything the intended loop does, except
      that it reports the initial `lastError` instead of the last
      attempt's error. */
  lemma {:induction false} LoopAsWrittenDiffers(t: Scripted, w: World, req: Ref, retry: int, n: int, e: Option<Error>, e': Option<Error>)
    requires Valid(w.heap) && req in w.heap.requests
    ensures var (wi, ri) := Loop(t, w, req, retry, n, e);
            var (wa, ra) := LoopAsWritten(t, w, req, retry, n, e');
            wa == wi && ra.resp == ri.resp && ra.err == (if ri.resp.Some? then None else e')
    decreases n - retry
  {
    if retry < n {
      var (w1, o) := Attempt(t, w, req);
      if o.Err? {
        LoopAsWrittenDiffers(t, w1, req, retry + 1, n, Some(o.err), e');
      }
    }
  }

  /** Some call in a window succeeds only if there is a first one. */
  lemma {:induction false} FirstSuccessExists(t: Scripted, from: nat, k: nat)
    requires !FailsThrough(t, from, k)
    ensures exists j :: 0 <= j < k && FirstSuccessAt(t, from, j)
    decreases k
  {
    if FailsThrough(t, from, k - 1) {
      assert Answer(t, from + (k - 1)).Ok?;
      assert FirstSuccessAt(t, from, k - 1);
    } else {
      FirstSuccessExists(t, from, k - 1);
      var j :| 0 <= j < k - 1 && FirstSuccessAt(t, from, j);
      assert FirstSuccessAt(t, from, j);
    }
  }

  /** The loop from iteration 0, with no error remembered, meets
      `RetryContract` for every script, budget and call history. */
  lemma LoopMeetsContract(t: Scripted, n: int, w: World, req: Ref)
    requires Valid(w.heap) && req in w.heap.requests
    ensures var (w', reply) := Loop(t, w, req, 0, n, None); RetryContract(t, n, w, req, w', reply)
  {
    var (w', reply) := Loop(t, w, req, 0, n, None);
    LoopClones(t, w, req, 0, n, None);
    forall j | 0 <= j < n && FirstSuccessAt(t, |w.sent|, j)
      ensures |w'.sent| == |w.sent| + j + 1 && reply == Reply(Some(Answer(t, |w.sent| + j).resp), None)
    {
      LoopSucceeds(t, w, req, 0, n, None, j);
    }
    if 1 <= n && FailsThrough(t, |w.sent|, n) {
      LoopExhausts(t, w, req, 0, n, None);
    }
  }

  /** With a budget of at least one, the intended `RoundTrip` returns
      exactly one of a response and an error. */
  lemma RunReplyExclusive(t: Scripted, n: int, w: World, req: Ref)
    requires Valid(w.heap) && req in w.heap.requests && 1 <= n
    ensures var reply := Run(t, n, w, req).1; reply.resp.Some? != reply.err.Some?
  {
    if !FailsThrough(t, |w.sent|, n) {
      FirstSuccessExists(t, |w.sent|, n);
    }
  }

  /** The decorator never touches the caller's body itself: behind a
      transport that does not close request bodies, no body changes. */
  lemma RunKeepsBodies(t: Scripted, n: int, w: World, req: Ref)
    requires Valid(w.heap) && req in w.heap.requests && !t.closesBody
    ensures Run(t, n, w, req).0.heap.streams == w.heap.streams
  {
  }

  /** When every attempt fails, the loop as written returns `(nil, nil)`,
      while the intended one returns the last attempt's error. */
  lemma ExhaustionErrorLost(t: Scripted, n: int, w: World, req: Ref)
    requires Valid(w.heap) && req in w.heap.requests
    requires 1 <= n && FailsThrough(t, |w.sent|, n)
    ensures RunAsWritten(t, n, w, req).1 == Reply(None, None)
    ensures Run(t, n, w, req).1 == Reply(None, Some(Answer(t, |w.sent| + n - 1).err))
  {
  }

  /** The retry test: a mock that answers the first call and fails every
      later one, behind a budget of 3. The first round trip makes one call
      and returns the response; the second makes three more (four in all)
      and returns no response and, as intended, the mock's error. */
  lemma TestScenario(w0: World, req1: Ref, req2: Ref, resp: Ref, e: Error)
    requires Valid(w0.heap) && req1 in w0.heap.requests && req2 in w0.heap.requests && w0.sent == []
    ensures var t := Scripted([Ok(resp)], Err(e), false, false);
            var (w1, r1) := Run(t, 3, w0, req1);
            && |w1.sent| == 1 && r1 == Reply(Some(resp), None)
            && req2 in w1.heap.requests
            && var (w2, r2) := Run(t, 3, w1, req2);
               |w2.sent| == 4 && r2 == Reply(None, Some(e))
  {
    var t := Scripted([Ok(resp)], Err(e), false, false);
    var (w1, r1) := Run(t, 3, w0, req1);
    assert FirstSuccessAt(t, 0, 0);
    assert |w1.sent| == 1 && r1 == Reply(Some(resp), None);
    var (w2, r2) := Run(t, 3, w1, req2);
    assert FailsThrough(t, 1, 3);
    assert |w2.sent| == 4 && r2 == Reply(None, Some(e));
  }

  /** The same test against the loop as written: the second round trip
      returns `(nil, nil)`, so the test's check that the mock's error comes
      back fails. */
  lemma TestScenarioAsWritten(w0: World, req1: Ref, req2: Ref, resp: Ref, e: Error)
    requires Valid(w0.heap) && req1 in w0.heap.requests && req2 in w0.heap.requests && w0.sent == []
    ensures var t := Scripted([Ok(resp)], Err(e), false, false);
            var (w1, r1) := RunAsWritten(t, 3, w0, req1);
            && r1 == Reply(Some(resp), None)
            && req2 in w1.heap.requests
            && var (w2, r2) := RunAsWritten(t, 3, w1, req2);
               |w2.sent| == 4 && r2 == Reply(None, None)
  {
    var t := Scripted([Ok(resp)], Err(e), false, false);
    TestScenario(w0, req1, req2, resp, e);
  }

  /** The clones are shallow, so with an inner transport that closes the
      body of the request it is given, as a net/http transport does, the
      first failed attempt closes the caller's own body, and the retry that
      follows sends a clone carrying that same, already closed, body. It
      stays closed after the round trip. */
  lemma RetrySendsClosedBody(t: Scripted, n: int, w: World, req: Ref)
    requires Valid(w.heap) && req in w.heap.requests
    requires t.closesBody && w.heap.requests[req].body.Some?
    requires 2 <= n && Answer(t, |w.sent|).Err?
    ensures var b := w.heap.requests[req].body.value;
            var w1 := Attempt(t, w, req).0;
            var (w', _) := Run(t, n, w, req);
            && b in w1.heap.streams && w1.heap.streams[b].closed
            && |w.sent| + 2 <= |w'.sent|
            && w'.sent[|w.sent| + 1] != req
            && w'.sent[|w.sent| + 1] in w'.heap.requests
            && w'.heap.requests[w'.sent[|w.sent| + 1]].body == Some(b)
            && w'.heap.streams[b].closed
  {
    var b := w.heap.requests[req].body.value;
    var (w1, o) := Attempt(t, w, req);
    var (w2, o2) := Attempt(t, w1, req);
    assert Run(t, n, w, req) == Loop(t, w1, req, 1, n, Some(o.err));
    LoopClones(t, w1, req, 1, n, Some(o.err));
    if o2.Err? {
      LoopClones(t, w2, req, 2, n, Some(o2.err));
    }
  }

  /** Any world and reply equal to `Run`'s meet `RetryContract`. */
  lemma RunResultMeetsContract(t: Scripted, n: int, w: World, req: Ref, w': World, reply: Reply)
    requires Valid(w.heap) && req in w.heap.requests
    requires (w', reply) == Run(t, n, w, req)
    ensures RetryContract(t, n, w, req, w', reply)
  {
  }

  /** The retry loop as a method: `retry` counts attempts, `lastError` is
      the accumulator that each failed attempt updates. */
  method RoundTrip(t: Scripted, n: int, w: World, req: Ref) returns (w': World, reply: Reply)
    requires Valid(w.heap) && req in w.heap.requests
    ensures (w', reply) == Run(t, n, w, req)
    ensures RetryContract(t, n, w, req, w', reply)
  {
    var lastError: Option<Error> := None;
    var retry := 0;
    w' := w;
    while retry < n
      invariant Valid(w'.heap) && req in w'.heap.requests
      invariant Loop(t, w', req, retry, n, lastError) == Run(t, n, w, req)
      decreases n - retry
    {
      var nreq := CloneRequest(w'.heap, req);
      var (w1, o) := Call(t, w'.(heap := nreq.heap), nreq.ref);
      if o.Ok? {
        w', reply := w1, Reply(Some(o.resp), None);
        RunResultMeetsContract(t, n, w, req, w', reply);
        return;
      }
      lastError := Some(o.err);
      w' := w1;
      retry := retry + 1;
    }
    reply := Reply(None, lastError);
    RunResultMeetsContract(t, n, w, req, w', reply);
  }
}
