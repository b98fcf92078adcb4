/** The record gate under the TLS layer (src/outbound/record_gate.rs). */
module RecordGate {
  import opened Bytes

  const FILL_CHUNK := 16 * 1024

  // ---------------------------------------------------------------------------
  // The socket
  // ---------------------------------------------------------------------------

  /** What the operating system answers to one poll for reading; Give says how much it has at most. */
  datatype Answer = Wait | Fail | Give(n: nat)

  /** The bytes still to arrive and the answers still to come; when those run out it waits for ever. */
  datatype Sock = Sock(unread: bytes, answers: seq<Answer>)

  /** No data in a Ready is the end of the stream, or no room in the caller's buffer. */
  datatype Poll = Pending | Error | Ready(data: bytes)

  datatype SockPolled = SockPolled(s: Sock, r: Poll)

  function DataOf(r: Poll): bytes {
    if r.Ready? then r.data else []
  }

  function SockRead(s: Sock, cap: nat): (p: SockPolled)
    ensures DataOf(p.r) + p.s.unread == s.unread && |DataOf(p.r)| <= cap
    ensures cap > 0 && p.r == Ready([]) ==> s.unread == []
    ensures s.answers != [] ==> p.s.answers == s.answers[1..]
    ensures s.answers == [] ==> p == SockPolled(s, Pending)
  {
    if s.answers == [] then SockPolled(s, Pending)
    else
      var rest := s.answers[1..];
      match s.answers[0]
      case Wait => SockPolled(Sock(s.unread, rest), Pending)
      case Fail => SockPolled(Sock(s.unread, rest), Error)
      case Give(n) =>
        var k := Min(Max(n, 1), Min(cap, |s.unread|));
        SockPolled(Sock(s.unread[k..], rest), Ready(s.unread[..k]))
  }

  class Socket {
    var unread: bytes
    var answers: seq<Answer>

    constructor (wire: bytes, script: seq<Answer>)
      ensures State() == Sock(wire, script)
    {
      unread, answers := wire, script;
    }

    function State(): Sock
      reads this
    {
      Sock(unread, answers)
    }

    method PollRead(cap: nat) returns (r: Poll)
      modifies this
      ensures SockPolled(State(), r) == SockRead(old(State()), cap)
    {
      var p := SockRead(State(), cap);
      unread, answers, r := p.s.unread, p.s.answers, p.r;
    }
  }

  // ---------------------------------------------------------------------------
  // The gate
  // ---------------------------------------------------------------------------

  datatype Gate = Gate(buf: bytes, gating: bool, remaining: nat, open: bool)

  const FRESH_GATE := Gate([], false, 0, true)

  datatype Polled = Polled(g: Gate, s: Sock, r: Poll)

  /** Everything the gate has not handed up yet. */
  function Unseen(g: Gate, s: Sock): bytes {
    g.buf + s.unread
  }

  /** One refill of `buf` from the socket. */
  function Filled(g: Gate, s: Sock): (p: Polled)
    ensures Unseen(p.g, p.s) == Unseen(g, s)
    ensures p.g == g.(buf := p.g.buf) && (p.r == Ready([]) ==> s.unread == [])
    ensures p.g.buf == g.buf + DataOf(p.r)
    ensures s.answers != [] ==> |p.s.answers| < |s.answers|
    ensures s.answers == [] ==> p.r.Pending?
  {
    var p := SockRead(s, FILL_CHUNK);
    Assoc(g.buf, DataOf(p.r), p.s.unread);
    Polled(g.(buf := g.buf + DataOf(p.r)), p.s, p.r)
  }

  /** Handing up at most `limit` bytes from the front of `buf`; the whole of it when `limit` is None. */
  function HandedOver(g: Gate, cap: nat, limit: Option<nat>): (d: bytes)
    ensures |d| <= |g.buf| && d == g.buf[..|d|] && |d| <= cap
    ensures limit.Some? ==> |d| <= limit.value
  {
    var n := Min(|g.buf|, cap);
    g.buf[..if limit.Some? then Min(limit.value, n) else n]
  }

  /** Handing up bytes of the current record. */
  function FromRecord(g: Gate, s: Sock, cap: nat): (p: Polled)
    ensures p.r.Ready? && p.r.data + Unseen(p.g, p.s) == Unseen(g, s)
    ensures p.g.gating == g.gating
  {
    var d := HandedOver(g, cap, Some(g.remaining));
    Assoc(d, g.buf[|d|..], s.unread);
    Polled(g.(buf := g.buf[|d|..], remaining := g.remaining - |d|), s, Ready(d))
  }

  /** Inside a record: from the buffer, or from one refill of it. */
  function InRecord(g: Gate, s: Sock, cap: nat): (p: Polled)
    ensures DataOf(p.r) + Unseen(p.g, p.s) == Unseen(g, s)
    ensures p.g.gating == g.gating
  {
    if g.buf != [] then FromRecord(g, s, cap)
    else
      var p := Filled(g, s);
      if p.r.Ready? && p.r.data != [] then FromRecord(p.g, p.s, cap)
      else
        NilLeft(Unseen(p.g, p.s));
        p
  }

  /** Without gating: what is still buffered first, then the socket. */
  function Transparent(g: Gate, s: Sock, cap: nat): (p: Polled)
    ensures DataOf(p.r) + Unseen(p.g, p.s) == Unseen(g, s)
    ensures p.g.gating == g.gating
  {
    if g.buf != [] then
      var d := HandedOver(g, cap, None);
      Assoc(d, g.buf[|d|..], s.unread);
      Polled(g.(buf := g.buf[|d|..]), s, Ready(d))
    else
      var p := SockRead(s, cap);
      NilLeft(s.unread);
      NilLeft(p.s.unread);
      Polled(g, p.s, p.r)
  }

  /** What a read hands up, in transparent mode and in gating mode. */
  function GateRead(g: Gate, s: Sock, cap: nat): (p: Polled)
    ensures DataOf(p.r) + Unseen(p.g, p.s) == Unseen(g, s)
    ensures p.g.gating == g.gating
    decreases |s.answers|, if g.remaining > 0 then 0 else 1
  {
    if !g.gating then Transparent(g, s, cap)
    else if g.remaining > 0 then InRecord(g, s, cap)
    else if !g.open then
      NilLeft(Unseen(g, s));
      Polled(g, s, Pending)
    else if |g.buf| < TLS_RECORD_HEADER_LEN then
      var p := Filled(g, s);
      if p.r.Ready? && p.r.data != [] then GateRead(p.g, p.s, cap)
      else
        NilLeft(Unseen(p.g, p.s));
        p
    else
      InRecord(g.(remaining := TLS_RECORD_HEADER_LEN + U16(g.buf[3], g.buf[4]), open := false), s, cap)
  }

  /** Gating on, with the first record already released. */
  function Starting(g: Gate): Gate {
    g.(gating := true, open := true)
  }

  class RecordGate {
    const sock: Socket
    var buf: bytes
    var gating: bool
    var recordRemaining: nat
    var gateOpen: bool

    constructor (inner: Socket)
      ensures sock == inner && State() == FRESH_GATE
    {
      sock := inner;
      buf, gating, recordRemaining, gateOpen := [], false, 0, true;
    }

    function State(): Gate
      reads this
    {
      Gate(buf, gating, recordRemaining, gateOpen)
    }

    method StartGating()
      modifies this
      ensures State() == Starting(old(State()))
    {
      gating, gateOpen := true, true;
    }

    method StopGating()
      modifies this
      ensures State() == old(State()).(gating := false, remaining := 0)
    {
      gating, recordRemaining := false, 0;
    }

    method Open()
      modifies this
      ensures State() == old(State()).(open := true)
    {
      gateOpen := true;
    }

    method TakeBuffered() returns (taken: bytes)
      modifies this
      ensures taken == old(buf) && State() == old(State()).(buf := [])
    {
      taken := buf;
      buf := [];
    }

    method PollFill() returns (r: Poll)
      modifies this, sock
      ensures Polled(State(), sock.State(), r) == Filled(old(State()), old(sock.State()))
    {
      r := sock.PollRead(FILL_CHUNK);
      if r.Ready? {
        buf := buf + r.data;
      } else {
        assert buf + [] == buf;
      }
    }

    method HandOver(cap: nat, limit: Option<nat>) returns (d: bytes)
      modifies this
      ensures d == HandedOver(old(State()), cap, limit)
      ensures State() == old(State()).(buf := old(buf)[|d|..])
    {
      var n := Min(|buf|, cap);
      if limit.Some? {
        n := Min(limit.value, n);
      }
      d := buf[..n];
      buf := buf[n..];
    }

    method PollRead(cap: nat) returns (r: Poll)
      modifies this, sock
      ensures Polled(State(), sock.State(), r) == GateRead(old(State()), old(sock.State()), cap)
    {
      hide SockRead, HandedOver, Filled, InRecord, Transparent;
      if !gating {
        r := PassThrough(cap);
        return;
      }
      while true
        invariant gating
        invariant GateRead(State(), sock.State(), cap) == GateRead(old(State()), old(sock.State()), cap)
        decreases |sock.answers|, if recordRemaining > 0 then 0 else 1
      {
        if recordRemaining > 0 {
          r := ReadRecord(cap);
          return;
        }
        if !gateOpen {
          return Pending;
        }
        if |buf| < TLS_RECORD_HEADER_LEN {
          r := PollFill();
          if !r.Ready? || r.data == [] {
            return;
          }
        } else {
          var len := U16(buf[3], buf[4]);
          recordRemaining := TLS_RECORD_HEADER_LEN + len;
          gateOpen := false;
        }
      }
    }

    /** Without gating: the buffer first, then the socket. */
    method PassThrough(cap: nat) returns (r: Poll)
      modifies this, sock
      ensures Polled(State(), sock.State(), r) == Transparent(old(State()), old(sock.State()), cap)
    {
      hide SockRead, HandedOver;
      if buf != [] {
        var d := HandOver(cap, None);
        return Ready(d);
      }
      r := sock.PollRead(cap);
    }

    /** Inside a record: at most its remaining bytes, after a refill if the buffer is empty. */
    method ReadRecord(cap: nat) returns (r: Poll)
      modifies this, sock
      ensures Polled(State(), sock.State(), r) == InRecord(old(State()), old(sock.State()), cap)
    {
      hide SockRead, HandedOver, Filled;
      if buf == [] {
        r := PollFill();
        if !r.Ready? || r.data == [] {
          return;
        }
      }
      var d := HandOver(cap, Some(recordRemaining));
      recordRemaining := recordRemaining - |d|;
      r := Ready(d);
    }
  }
}
