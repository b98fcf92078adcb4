/**
 * The sending half under the Vision stream: a TLS layer that accepts plaintext and emits it to the socket
 * in its own time, and the operations that bypass it (src/outbound/record_gate.rs:196-252).
 */
module Outgoing {
  import opened Bytes

  /** What appears on the socket: sealed plaintext, a close_notify, raw bytes, the end of the write half. */
  datatype Out = Sealed(b: byte) | CloseNotify | Raw(b: byte) | Fin

  /**
   * One answer of the layers below: not yet, an error, or done with at most `n` bytes taken; `emit` is
   * how many items the TLS layer passes on to the socket meanwhile.
   */
  datatype Answer = Wait(emit: nat) | Fail | Done(n: nat, emit: nat)

  /**
   * Items accepted by TLS but not emitted, items on the socket, whether TLS is closing, how often the TLS layer was
   * called so far (written, flushed or shut down, whatever the answer), and the answers to come.
   */
  datatype Wire = Wire(queue: seq<Out>, sent: seq<Out>, closing: bool, tlsCalls: nat, answers: seq<Answer>)

  datatype Poll = Pending | Error | Ready(n: nat)

  datatype Polled = Polled(w: Wire, r: Poll)

  function SealedOf(d: bytes): seq<Out> {
    seq(|d|, i requires 0 <= i < |d| => Sealed(d[i]))
  }

  function RawOf(d: bytes): seq<Out> {
    seq(|d|, i requires 0 <= i < |d| => Raw(d[i]))
  }

  /** The TLS layer passes on the first `k` items it holds. */
  function Emitted(w: Wire, k: nat): Wire {
    var n := Min(k, |w.queue|);
    w.(queue := w.queue[n..], sent := w.sent + w.queue[..n])
  }

  function Rest(w: Wire): Wire {
    if w.answers == [] then w else w.(answers := w.answers[1..])
  }

  /** The same for an operation of the TLS layer. */
  function Called(w: Wire): Wire {
    Rest(w).(tlsCalls := w.tlsCalls + 1)
  }

  function Next(w: Wire): Answer {
    if w.answers == [] then Wait(0) else w.answers[0]
  }

  function TlsWrite(w: Wire, d: bytes): (p: Polled)
    ensures p.r.Ready? ==> p.r.n <= |d|
  {
    match Next(w)
    case Wait(emit) => Polled(Emitted(Called(w), emit), Pending)
    case Fail => Polled(Called(w), Error)
    case Done(n, emit) =>
      var k := Min(n, |d|);
      Polled(Emitted(Called(w).(queue := w.queue + SealedOf(d[..k])), emit), Ready(k))
  }

  function TlsFlush(w: Wire): Polled {
    match Next(w)
    case Wait(emit) => Polled(Emitted(Called(w), emit), Pending)
    case Fail => Polled(Called(w), Error)
    case Done(_, _) => Polled(Called(w).(queue := [], sent := w.sent + w.queue), Ready(0))
  }

  /** Closing through TLS queues one close_notify, flushes, and ends the socket's write half. */
  function TlsShutdown(w: Wire): Polled {
    var c := if w.closing then Called(w) else Called(w).(queue := w.queue + [CloseNotify], closing := true);
    match Next(w)
    case Wait(emit) => Polled(Emitted(c, emit), Pending)
    case Fail => Polled(c, Error)
    case Done(_, _) => Polled(c.(queue := [], sent := c.sent + c.queue + [Fin]), Ready(0))
  }

  function RawWrite(w: Wire, d: bytes): (p: Polled)
    ensures p.r.Ready? ==> p.r.n <= |d|
  {
    match Next(w)
    case Wait(_) => Polled(Rest(w), Pending)
    case Fail => Polled(Rest(w), Error)
    case Done(n, _) =>
      var k := Min(n, |d|);
      Polled(Rest(w).(sent := w.sent + RawOf(d[..k])), Ready(k))
  }

  function RawFlush(w: Wire): Polled {
    match Next(w)
    case Wait(_) => Polled(Rest(w), Pending)
    case Fail => Polled(Rest(w), Error)
    case Done(_, _) => Polled(Rest(w), Ready(0))
  }

  function RawShutdown(w: Wire): Polled {
    match Next(w)
    case Wait(_) => Polled(Rest(w), Pending)
    case Fail => Polled(Rest(w), Error)
    case Done(_, _) => Polled(Rest(w).(sent := w.sent + [Fin]), Ready(0))
  }

  // ---------------------------------------------------------------------------
  // Reading the socket's output
  // ---------------------------------------------------------------------------

  /** The plaintext that passed through TLS, in order. */
  function Plaintext(items: seq<Out>): bytes {
    if items == [] then []
    else (if items[0].Sealed? then [items[0].b] else []) + Plaintext(items[1..])
  }

  /** The bytes that bypassed TLS, in order. */
  function Bypassed(items: seq<Out>): bytes {
    if items == [] then []
    else (if items[0].Raw? then [items[0].b] else []) + Bypassed(items[1..])
  }

  lemma {:induction false} PlaintextAppend(a: seq<Out>, b: seq<Out>)
    ensures Plaintext(a + b) == Plaintext(a) + Plaintext(b)
    ensures Bypassed(a + b) == Bypassed(a) + Bypassed(b)
  {
    if a == [] {
      assert a + b == b;
    } else {
      DropShort(a, b, 1);
      PlaintextAppend(a[1..], b);
      Assoc(if a[0].Sealed? then [a[0].b] else [], Plaintext(a[1..]), Plaintext(b));
      Assoc(if a[0].Raw? then [a[0].b] else [], Bypassed(a[1..]), Bypassed(b));
    }
  }

  lemma {:induction false} SealedPlaintext(d: bytes)
    ensures Plaintext(SealedOf(d)) == d && Bypassed(SealedOf(d)) == []
  {
    if d != [] {
      assert SealedOf(d)[1..] == SealedOf(d[1..]);
      SealedPlaintext(d[1..]);
    }
  }

  lemma {:induction false} RawPlaintext(d: bytes)
    ensures Plaintext(RawOf(d)) == [] && Bypassed(RawOf(d)) == d
  {
    if d != [] {
      assert RawOf(d)[1..] == RawOf(d[1..]);
      RawPlaintext(d[1..]);
    }
  }

  /** No item bypassed TLS. */
  ghost predicate NoRaw(items: seq<Out>) {
    forall i :: 0 <= i < |items| ==> !items[i].Raw?
  }

  /** Every item bypassed TLS. */
  ghost predicate OnlyRaw(items: seq<Out>) {
    forall i :: 0 <= i < |items| ==> items[i].Raw? || items[i].Fin?
  }

  /** Emitting moves items along without changing their order. */
  lemma EmitKeeps(w: Wire, k: nat)
    ensures var w' := Emitted(w, k); w'.sent + w'.queue == w.sent + w.queue
  {
    var n := Min(k, |w.queue|);
    Assoc(w.sent, w.queue[..n], w.queue[n..]);
    assert w.queue[..n] + w.queue[n..] == w.queue;
  }
}
