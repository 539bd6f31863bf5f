/**
 The slice of net/http that the decorators touch, as immutable values.

 Go's `*http.Request`, `*http.Response` and the `io.ReadCloser` bodies are
 pointers to mutable objects. They are modelled by a functional heap: a
 `Ref` is an address, and a `Heap` maps addresses to objects. Allocating
 takes the address `next`, which no object holds yet, so "a new object" is
 an exact, checkable statement.
 */
module Http {

  datatype Option<+T> = None | Some(value: T)

  /** An address in the heap (a Go pointer that is not nil). */
  type Ref = nat

  type Byte = bv8

  /** An opaque Go `error` value; errors are compared by identity. */
  datatype Error = Error(id: nat)

  /** `http.Header`: canonical key to the ordered list of its values. */
  type Header = map<string, seq<string>>

  /** The fields of `http.Request` that the model keeps. `verb` is the `Method` field, `body` is the
      `Body` handle, `cancel` stands for the `Cancel` channel. */
  datatype Request = Request(
    verb: string,
    url: string,
    header: Header,
    body: Option<Ref>,
    contentLength: int,
    host: string,
    cancel: Option<nat>)

  /** The fields of `http.Response` that the model keeps; `Body` is never nil
      in a response a transport hands back. */
  datatype Response = Response(
    status: int,
    header: Header,
    body: Ref,
    contentLength: int,
    request: Option<Ref>)

  /** What a body reader yields when read to the end: all of its bytes, or
      some bytes and then a read error. */
  datatype Source = Bytes(data: seq<Byte>) | Broken(prefix: seq<Byte>, err: Error)

  /** A body (`io.ReadCloser`): the bytes not yet read and whether it was closed. */
  datatype Stream = Stream(source: Source, closed: bool)

  /** The result of `ioutil.ReadAll`. */
  datatype ReadResult = Read(data: seq<Byte>) | ReadFailed(partial: seq<Byte>, err: Error)

  datatype Heap = Heap(
    requests: map<Ref, Request>,
    responses: map<Ref, Response>,
    streams: map<Ref, Stream>,
    next: Ref)

  /** Every object lies below the allocation point, and every body handle
      points at a body that exists. */
  predicate Valid(h: Heap)
  {
    && (forall r :: r in h.requests ==> r < h.next)
    && (forall r :: r in h.responses ==> r < h.next)
    && (forall r :: r in h.streams ==> r < h.next)
    && (forall r :: r in h.requests && h.requests[r].body.Some? ==> h.requests[r].body.value in h.streams)
    && (forall r :: r in h.responses ==> h.responses[r].body in h.streams)
  }

  /** An address no object of any kind occupies. */
  predicate Unused(h: Heap, a: Ref)
  {
    a !in h.requests && a !in h.responses && a !in h.streams
  }

  datatype Alloc = Alloc(heap: Heap, ref: Ref)

  /** `cloneRequest`: a new request object whose every field equals the
      original's. The copy is shallow, so the body handle is shared with
      the original rather than copied. Nothing else in the heap changes. */
  function CloneRequest(h: Heap, r: Ref): (c: Alloc)
    requires Valid(h) && r in h.requests
    ensures Valid(c.heap)
    ensures Unused(h, c.ref) && c.ref != r
    ensures c.heap.requests == h.requests[c.ref := h.requests[r]]
    ensures c.heap.requests[r] == h.requests[r]
    ensures c.heap.requests[c.ref].body == h.requests[r].body
    ensures c.heap.responses == h.responses && c.heap.streams == h.streams
    ensures c.heap.next > h.next
  {
    var a := h.next;
    Alloc(h.(requests := h.requests[a := h.requests[r]], next := a + 1), a)
  }

  /** `cloneResponse`: the same shallow copy for a response; the body
      handle is shared. */
  function CloneResponse(h: Heap, r: Ref): (c: Alloc)
    requires Valid(h) && r in h.responses
    ensures Valid(c.heap)
    ensures Unused(h, c.ref) && c.ref != r
    ensures c.heap.responses == h.responses[c.ref := h.responses[r]]
    ensures c.heap.responses[r] == h.responses[r]
    ensures c.heap.responses[c.ref].body == h.responses[r].body
    ensures c.heap.requests == h.requests && c.heap.streams == h.streams
    ensures c.heap.next > h.next
  {
    var a := h.next;
    Alloc(h.(responses := h.responses[a := h.responses[r]], next := a + 1), a)
  }

  /** A new body object, `s`, at an unused address. */
  function AllocStream(h: Heap, s: Stream): (c: Alloc)
    requires Valid(h)
    ensures Valid(c.heap)
    ensures Unused(h, c.ref)
    ensures c.heap.streams == h.streams[c.ref := s]
    ensures c.heap.requests == h.requests && c.heap.responses == h.responses
  {
    var a := h.next;
    Alloc(h.(streams := h.streams[a := s], next := a + 1), a)
  }

  /** `ioutil.ReadAll`: drain a body. Reading consumes it, so a second
      drain yields nothing new; reading does not close it. */
  function ReadAll(s: Stream): (r: (ReadResult, Stream))
    ensures r.1.closed == s.closed
    ensures s.source.Bytes? ==> r.0 == Read(s.source.data) && r.1.source == Bytes([])
    ensures s.source.Broken? ==>
              r.0 == ReadFailed(s.source.prefix, s.source.err) && r.1.source == Broken([], s.source.err)
  {
    match s.source
    case Bytes(d) => (Read(d), s.(source := Bytes([])))
    case Broken(p, e) => (ReadFailed(p, e), s.(source := Broken([], e)))
  }

  /** `Close` on a body. */
  function Close(s: Stream): (r: Stream)
    ensures r.closed && r.source == s.source
  {
    s.(closed := true)
  }

  /** Between `h` and `h'` the set of bodies is the same and no body changed,
      except that the body `b` (if any) may have been closed. */
  predicate OnlyBodyClosed(h: Heap, h': Heap, b: Option<Ref>)
  {
    && h'.streams.Keys == h.streams.Keys
    && forall s :: s in h.streams ==>
         h'.streams[s] == h.streams[s] || (b == Some(s) && h'.streams[s] == Close(h.streams[s]))
  }

  /** The heap after the body of request `req`, if it has one, is closed;
      nothing else changes. */
  function CloseBodyOf(h: Heap, req: Ref): (h': Heap)
    requires Valid(h)
    ensures Valid(h')
    ensures h'.requests == h.requests && h'.responses == h.responses && h'.next == h.next
    ensures OnlyBodyClosed(h, h', if req in h.requests then h.requests[req].body else None)
    ensures req in h.requests && h.requests[req].body.Some? ==> h'.streams[h.requests[req].body.value].closed
  {
    if req in h.requests && h.requests[req].body.Some? then
      var b := h.requests[req].body.value;
      h.(streams := h.streams[b := Close(h.streams[b])])
    else h
  }

  /** Closing a body through a shallow clone closes it for the original
      too: the clone aliases the body instead of owning a copy. */
  lemma CloneAliasesBody(h: Heap, r: Ref)
    requires Valid(h) && r in h.requests && h.requests[r].body.Some?
    ensures var c := CloneRequest(h, r);
            var b := c.heap.requests[c.ref].body.value;
            var h' := c.heap.(streams := c.heap.streams[b := Close(c.heap.streams[b])]);
            h'.streams[h'.requests[r].body.value].closed
  {
  }
}
