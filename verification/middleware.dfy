/** The HTTP combinators of app/middleware/middleware.go that carry logic of
    their own: `Chain`, which composes middleware, and the response writer
    wrapper, which remembers the status code written through it. Handlers
    are left abstract: a middleware is any map from handlers to handlers. */
module Middleware {

  /** `m1(m2(…mn(h)))`: the handler the chain of `ms` builds around `h`, the
      first-listed middleware outermost. */
  function Nest<H>(ms: seq<H -> H>, h: H): H
    decreases |ms|
  {
    if |ms| == 0 then h else ms[0](Nest(ms[1..], h))
  }

  /** `Chain(ms...)(next)`: wraps `next` from the last middleware to the first. */
  method Chain<H>(ms: seq<H -> H>, next: H) returns (r: H)
    ensures r == Nest(ms, next)
  {
    r := next;
    var i := |ms|;
    while i > 0
      invariant 0 <= i <= |ms|
      invariant r == Nest(ms[i..], next)
      decreases i
    {
      i := i - 1;
      assert ms[i..][1..] == ms[i + 1..];
      r := ms[i](r);
    }
    assert ms[0..] == ms;
  }

  /** An empty chain hands the handler through unchanged. */
  lemma NestEmpty<H>(h: H)
    ensures Nest([], h) == h
  {
  }

  /** Chaining `a ++ b` is chaining `a` around the chain of `b`. */
  lemma {:induction false} NestAppend<H>(a: seq<H -> H>, b: seq<H -> H>, h: H)
    ensures Nest(a + b, h) == Nest(a, Nest(b, h))
    decreases |a|
  {
    if |a| > 0 {
      assert (a + b)[1..] == a[1..] + b;
      NestAppend(a[1..], b, h);
    } else {
      assert a + b == b;
    }
  }

  /** With two middlewares the first listed is the outer one. */
  lemma NestTwo<H>(m1: H -> H, m2: H -> H, h: H)
    ensures Nest([m1, m2], h) == m1(m2(h))
  {
    assert [m1, m2][1..] == [m2];
    assert [m2][1..] == [];
    assert Nest([m2], h) == m2(Nest([], h));
  }

  const StatusOK: int := 200

  /** `responseWriter`: the status it reports, and the codes it has passed on
      to the wrapped writer, oldest first. */
  datatype ResponseWriter = ResponseWriter(status: int, forwarded: seq<int>)

  /** `newResponseWriter`: reports 200 until a header is written. */
  function NewResponseWriter(): (w: ResponseWriter)
    ensures w.status == 200 && w.forwarded == []
  {
    ResponseWriter(StatusOK, [])
  }

  /** `WriteHeader`: record the code and forward it. */
  function WriteHeader(w: ResponseWriter, code: int): (r: ResponseWriter)
    ensures r.status == code
    ensures r.forwarded == w.forwarded + [code]
  {
    ResponseWriter(code, w.forwarded + [code])
  }

  /** A sequence of WriteHeader calls, in order. */
  function WriteHeaders(w: ResponseWriter, codes: seq<int>): ResponseWriter
    decreases |codes|
  {
    if |codes| == 0 then w else WriteHeaders(WriteHeader(w, codes[0]), codes[1..])
  }

  /** After any sequence of WriteHeader calls on a fresh writer, every code
      was forwarded in order and the status is the last one written, or 200
      when none was. */
  lemma {:induction false} StatusIsLastWritten(w: ResponseWriter, codes: seq<int>)
    ensures WriteHeaders(w, codes).forwarded == w.forwarded + codes
    ensures WriteHeaders(w, codes).status == if |codes| == 0 then w.status else codes[|codes| - 1]
    decreases |codes|
  {
    if |codes| > 0 {
      StatusIsLastWritten(WriteHeader(w, codes[0]), codes[1..]);
      assert w.forwarded + [codes[0]] + codes[1..] == w.forwarded + codes;
    }
  }

  lemma FreshWriterStatus(codes: seq<int>)
    ensures WriteHeaders(NewResponseWriter(), codes).forwarded == codes
    ensures WriteHeaders(NewResponseWriter(), codes).status == if |codes| == 0 then 200 else codes[|codes| - 1]
  {
    StatusIsLastWritten(NewResponseWriter(), codes);
  }
}
