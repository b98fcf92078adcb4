/** The stream object (src/outbound/vision.rs:365-616) and the TLS stream it wraps. */
module VisionStream {
  import opened Bytes
  import opened Framing
  import RH = ResponseHeader
  import opened Sniffer
  import opened Decoding
  import opened Padding
  import G = RecordGate
  import opened TlsReading
  import D = Downlink
  import U = Uplink
  import O = Outgoing

  /** The TLS layer over the gate, with the operations that bypass it. Its own work is an assumption. */
  class TlsStream {
    const gate: G.RecordGate
    const cipher: Cipher
    var incoming: TlsIn
    var outgoing: O.Wire

    constructor (gate: G.RecordGate, cipher: Cipher, incoming: TlsIn, outgoing: O.Wire)
      ensures this.gate == gate && this.cipher == cipher
      ensures this.incoming == incoming && this.outgoing == outgoing
    {
      this.gate, this.cipher, this.incoming, this.outgoing := gate, cipher, incoming, outgoing;
    }

    function Polled(r: G.Poll): TlsPolled
      reads this, gate, gate.sock
    {
      TlsPolled(incoming, gate.State(), gate.sock.State(), r)
    }

    method PollRead(cap: nat) returns (r: G.Poll)
      modifies this`incoming, gate, gate.sock
      ensures Polled(r) == TlsRead(cipher, old(incoming), old(gate.State()), old(gate.sock.State()), cap)
    {
      while incoming.plain == []
        invariant TlsRead(cipher, incoming, gate.State(), gate.sock.State(), cap)
               == TlsRead(cipher, old(incoming), old(gate.State()), old(gate.sock.State()), cap)
        decreases |G.Unseen(gate.State(), gate.sock.State())|
      {
        hide G.GateRead, Absorb;
        r := gate.PollRead(Ask(incoming));
        if G.DataOf(r) == [] {
          incoming := Received(incoming, []);
          return;
        }
        var a := Absorb(cipher, Received(incoming, r.data));
        incoming := a.t;
        if !a.ok {
          return G.Error;
        }
      }
      var n := Min(cap, |incoming.plain|);
      r := G.Ready(incoming.plain[..n]);
      incoming := incoming.(plain := incoming.plain[n..]);
    }

    method OpenRecordGate()
      modifies gate
      ensures gate.State() == old(gate.State()).(open := true)
    {
      gate.Open();
    }

    method StopRecordGate()
      modifies gate
      ensures gate.State() == old(gate.State()).(gating := false, remaining := 0)
    {
      gate.StopGating();
    }

    method TakeBufferedRaw() returns (taken: bytes)
      modifies gate
      ensures taken == old(gate.buf) && gate.State() == old(gate.State()).(buf := [])
    {
      taken := gate.TakeBuffered();
    }

    method PollReadDirect(cap: nat) returns (r: G.Poll)
      modifies gate.sock
      ensures G.SockPolled(gate.sock.State(), r) == G.SockRead(old(gate.sock.State()), cap)
    {
      r := gate.sock.PollRead(cap);
    }

    method PollWrite(d: bytes) returns (r: O.Poll)
      modifies this`outgoing
      ensures O.Polled(outgoing, r) == O.TlsWrite(old(outgoing), d)
    {
      var p := O.TlsWrite(outgoing, d);
      outgoing, r := p.w, p.r;
    }

    method PollFlush() returns (r: O.Poll)
      modifies this`outgoing
      ensures O.Polled(outgoing, r) == O.TlsFlush(old(outgoing))
    {
      var p := O.TlsFlush(outgoing);
      outgoing, r := p.w, p.r;
    }

    method PollShutdown() returns (r: O.Poll)
      modifies this`outgoing
      ensures O.Polled(outgoing, r) == O.TlsShutdown(old(outgoing))
    {
      var p := O.TlsShutdown(outgoing);
      outgoing, r := p.w, p.r;
    }

    method PollWriteDirect(d: bytes) returns (r: O.Poll)
      modifies this`outgoing
      ensures O.Polled(outgoing, r) == O.RawWrite(old(outgoing), d)
    {
      var p := O.RawWrite(outgoing, d);
      outgoing, r := p.w, p.r;
    }

    method PollFlushDirect() returns (r: O.Poll)
      modifies this`outgoing
      ensures O.Polled(outgoing, r) == O.RawFlush(old(outgoing))
    {
      var p := O.RawFlush(outgoing);
      outgoing, r := p.w, p.r;
    }

    method PollShutdownDirect() returns (r: O.Poll)
      modifies this`outgoing
      ensures O.Polled(outgoing, r) == O.RawShutdown(old(outgoing))
    {
      var p := O.RawShutdown(outgoing);
      outgoing, r := p.w, p.r;
    }
  }

  class VisionStream {
    const inner: TlsStream
    const traffic: TrafficState
    const padder: Padder
    const unpadder: Unpadder
    const responseHeader: RH.Header
    var uplinkRaw: bool
    var writePending: bytes
    var readRaw: bytes
    var readOut: bytes

    /** A stream of frames alone, whose response header has been dealt with elsewhere. */
    constructor (inner: TlsStream, uuid: Uuid)
      ensures this.inner == inner && fresh(traffic) && fresh(padder) && fresh(unpadder) && fresh(responseHeader)
      ensures Up() == U.Up(FRESH_TRAFFIC, Pad(true, false, Some(uuid)), false, [], inner.outgoing)
      ensures Down() == D.Down(FRESH_TRAFFIC, Decoder(true, FRESH, []), [],
                               inner.incoming, inner.gate.State(), inner.gate.sock.State())
    {
      this.inner := inner;
      traffic := new TrafficState();
      padder := new Padder(uuid);
      unpadder := new Unpadder();
      responseHeader := new RH.Header.AlreadyConsumed();
      uplinkRaw, writePending, readRaw, readOut := false, [], [], [];
    }

    /** The client's outbound stream: the response header is still to come. */
    constructor Client(inner: TlsStream, uuid: Uuid)
      ensures this.inner == inner && fresh(traffic) && fresh(padder) && fresh(unpadder) && fresh(responseHeader)
      ensures Up() == U.Up(FRESH_TRAFFIC, Pad(true, false, Some(uuid)), false, [], inner.outgoing)
      ensures Down() == D.Down(FRESH_TRAFFIC, CLIENT, [], inner.incoming, inner.gate.State(), inner.gate.sock.State())
    {
      this.inner := inner;
      traffic := new TrafficState();
      padder := new Padder(uuid);
      unpadder := new Unpadder();
      responseHeader := new RH.Header();
      uplinkRaw, writePending, readRaw, readOut := false, [], [], [];
    }

    /** What the write path sees. */
    function Up(): U.Up
      reads this, inner, traffic, padder
    {
      U.Up(traffic.State(), padder.State(), uplinkRaw, writePending, inner.outgoing)
    }

    /** What the read path sees. */
    function Down(): D.Down
      reads this, inner, inner.gate, inner.gate.sock, traffic, unpadder, responseHeader
    {
      D.Down(traffic.State(), Decoder(responseHeader.done, unpadder.State(), readRaw), readOut,
             inner.incoming, inner.gate.State(), inner.gate.sock.State())
    }

    // -------------------------------------------------------------------------
    // Writing
    // -------------------------------------------------------------------------

    method PollDrain() returns (r: O.Poll)
      modifies this`writePending, inner`outgoing
      ensures U.UpPolled(Up(), r) == U.Drained(old(Up()))
    {
      while writePending != []
        invariant Up() == old(Up()).(pending := writePending, w := inner.outgoing)
        invariant U.Drained(Up()) == U.Drained(old(Up()))
        decreases |writePending|
      {
        hide O.TlsWrite;
        r := inner.PollWrite(writePending);
        if !r.Ready? {
          return;
        }
        if r.n == 0 {
          return O.Error;
        }
        writePending := writePending[r.n..];
      }
      return O.Ready(0);
    }

    method PollSettle() returns (r: O.Poll)
      modifies this`writePending, this`uplinkRaw, inner`outgoing
      ensures U.UpPolled(Up(), r) == U.Settled(old(Up()))
    {
      hide O.TlsFlush, U.Drained;
      r := PollDrain();
      if !r.Ready? {
        return;
      }
      if padder.direct && !uplinkRaw {
        r := inner.PollFlush();
        if !r.Ready? {
          return;
        }
        uplinkRaw := true;
        return;
      }
      return O.Ready(0);
    }

    method PollWrite(buf: bytes, draws: seq<nat>) returns (r: O.Poll)
      modifies this`writePending, this`uplinkRaw, inner`outgoing, traffic, padder
      ensures U.UpPolled(Up(), r) == U.Writing(old(Up()), buf, draws)
    {
      hide U.Settled, O.TlsWrite, O.RawWrite, Padded, PlanWire, Filtered;
      r := PollSettle();
      if !r.Ready? {
        return;
      }
      if !padder.padding {
        traffic.Filter(buf);
        if uplinkRaw {
          r := inner.PollWriteDirect(buf);
        } else {
          r := inner.PollWrite(buf);
        }
        return;
      }
      writePending := padder.PadInto(buf, traffic, writePending, draws);
      var settled := PollSettle();
      if settled.Error? {
        return settled;
      }
      return O.Ready(|buf|);
    }

    method PollFlush() returns (r: O.Poll)
      modifies this`writePending, this`uplinkRaw, inner`outgoing
      ensures U.UpPolled(Up(), r) == U.Flushing(old(Up()))
    {
      hide U.Settled, O.TlsFlush, O.RawFlush;
      r := PollSettle();
      if !r.Ready? {
        return;
      }
      if uplinkRaw {
        r := inner.PollFlushDirect();
      } else {
        r := inner.PollFlush();
      }
    }

    method PollShutdown() returns (r: O.Poll)
      modifies this`writePending, this`uplinkRaw, inner`outgoing
      ensures U.UpPolled(Up(), r) == U.ShuttingDown(old(Up()))
    {
      hide U.Settled, O.TlsShutdown, O.RawShutdown;
      r := PollSettle();
      if !r.Ready? {
        return;
      }
      if uplinkRaw {
        r := inner.PollShutdownDirect();
      } else {
        r := inner.PollShutdown();
      }
    }

    /** The header and the first frame in one write, then a flush, waiting for each to complete. */
    method WriteFirst(header: bytes, payload: bytes, draws: seq<nat>) returns (r: O.Poll)
      modifies inner`outgoing, traffic, padder
      ensures U.UpPolled(Up(), r) == U.FirstWritten(old(Up()), header, payload, draws)
    {
      hide Padded, PlanWire, Filtered, U.AllWritten, U.AllFlushed, WireOf;
      var frame: bytes;
      if payload == [] {
        frame := padder.Camouflage(if draws == [] then 0 else draws[0]);
        CamouflageWire(old(Up()), draws);
      } else {
        frame := padder.PadInto(payload, traffic, [], draws);
        NilLeft(PlanWire(Padded(old(padder.State()), traffic.State(), payload), draws));
      }
      r := WriteAll(header + frame);
      if !r.Ready? {
        return;
      }
      r := FlushAll();
    }

    method WriteAll(d: bytes) returns (r: O.Poll)
      modifies inner`outgoing
      ensures O.Polled(inner.outgoing, r) == U.AllWritten(old(inner.outgoing), d)
    {
      var rest := d;
      while rest != []
        invariant U.AllWritten(inner.outgoing, rest) == U.AllWritten(old(inner.outgoing), d)
        decreases |rest| + |inner.outgoing.answers|
      {
        if inner.outgoing.answers == [] {
          return O.Pending;
        }
        r := inner.PollWrite(rest);
        if r.Error? || r == O.Ready(0) {
          return O.Error;
        }
        if r.Ready? {
          rest := rest[r.n..];
        }
      }
      return O.Ready(0);
    }

    method FlushAll() returns (r: O.Poll)
      modifies inner`outgoing
      ensures O.Polled(inner.outgoing, r) == U.AllFlushed(old(inner.outgoing))
    {
      while true
        invariant U.AllFlushed(inner.outgoing) == U.AllFlushed(old(inner.outgoing))
        decreases |inner.outgoing.answers|
      {
        if inner.outgoing.answers == [] {
          return O.Pending;
        }
        r := inner.PollFlush();
        if !r.Pending? {
          return;
        }
      }
    }

    // -------------------------------------------------------------------------
    // Reading
    // -------------------------------------------------------------------------

    method PollRead(cap: nat) returns (r: G.Poll)
      modifies this`readRaw, this`readOut, inner`incoming, inner.gate, inner.gate.sock, traffic, unpadder, responseHeader
      ensures D.DownPolled(Down(), r) == D.Reading(inner.cipher, old(Down()), cap)
    {
      while true
        invariant D.Reading(inner.cipher, Down(), cap) == D.Reading(inner.cipher, old(Down()), cap)
        decreases |G.Unseen(inner.gate.State(), inner.gate.sock.State())|, |inner.incoming.plain|
      {
        hide TlsRead, G.SockRead, Filtered, Decode, D.Reading;
        D.ReadEnds(inner.cipher, Down(), cap);
        if readOut != [] {
          var n := Min(|readOut|, cap);
          r := G.Ready(readOut[..n]);
          readOut := readOut[n..];
          return;
        }
        if unpadder.direct {
          r := inner.PollReadDirect(cap);
          return;
        }
        if unpadder.done && readRaw == [] {
          r := inner.PollRead(cap);
          if r.Ready? {
            traffic.Filter(r.data);
          }
          return;
        }
        var again;
        again, r := ReadRecord(cap);
        if !again {
          return;
        }
      }
    }

    /** The rest of the read loop's body: one more plaintext chunk, decoded. */
    method ReadRecord(cap: nat) returns (again: bool, r: G.Poll)
      requires readOut == [] && !unpadder.direct && !(unpadder.done && readRaw == [])
      modifies this`readRaw, this`readOut, inner`incoming, inner.gate, inner.gate.sock, traffic, unpadder, responseHeader
      ensures again ==>
                && D.Reading(inner.cipher, Down(), cap) == D.Reading(inner.cipher, old(Down()), cap)
                && var before := |G.Unseen(old(inner.gate.State()), old(inner.gate.sock.State()))|;
                   var after := |G.Unseen(inner.gate.State(), inner.gate.sock.State())|;
                   after < before || (after == before && |inner.incoming.plain| < |old(inner.incoming.plain)|)
      ensures !again ==> D.DownPolled(Down(), r) == D.Reading(inner.cipher, old(Down()), cap)
    {
      hide TlsRead, G.SockRead, Filtered, Decode, D.Digested, D.Reading;
      D.ReadRound(inner.cipher, Down(), cap);
      inner.OpenRecordGate();
      r := inner.PollRead(D.READ_CHUNK);
      if G.DataOf(r) == [] {
        return false, r;
      }
      again := Digest(r.data);
      if !again {
        r := G.Error;
      }
    }

    /** The second half of the read loop: strip, deframe, sniff, and switch if padding has just ended. */
    method Digest(data: bytes) returns (ok: bool)
      requires readOut == []
      modifies this`readRaw, this`readOut, inner.gate, traffic, unpadder, responseHeader
      ensures var x := Decode(old(Down()).dec, data);
              && ok == x.status.Good?
              && Down() == if ok then D.Digested(old(Down()), x) else old(Down()).(dec := x.d, out := x.out)
    {
      hide Filtered, Unpadding;
      readRaw := readRaw + data;
      var rest, ready;
      rest, ready, ok := responseHeader.Feed(readRaw);
      readRaw := rest;
      if !ok || !ready {
        return;
      }
      var wasDone, wasDirect := unpadder.done, unpadder.direct;
      readRaw, readOut, ok := unpadder.Unpad(readRaw, []);
      NilLeft(Unpadding(old(unpadder.State()), rest).out);
      if !ok {
        return;
      }
      if readOut != [] {
        traffic.Filter(readOut);
      }
      SwitchOver(wasDone, wasDirect);
    }

    /** After End the gate is stopped; after Direct what lies below TLS is taken over as the start of the raw stream. */
    method SwitchOver(wasDone: bool, wasDirect: bool)
      modifies this`readOut, inner.gate
      ensures Down()
           == if !wasDone && unpadder.done && !unpadder.direct then
                old(Down()).(g := old(inner.gate.State()).(gating := false, remaining := 0))
              else if !wasDirect && unpadder.direct then
                old(Down()).(out := old(readOut) + old(inner.gate.buf), g := old(inner.gate.State()).(buf := []))
              else old(Down())
    {
      if !wasDone && unpadder.done && !unpadder.direct {
        inner.StopRecordGate();
      }
      if !wasDirect && unpadder.direct {
        var leftover := inner.TakeBufferedRaw();
        readOut := readOut + leftover;
      }
    }
  }

  lemma CamouflageWire(u: U.Up, draws: seq<nat>)
    ensures PlanWire(U.FirstPlan(u, []), draws)
         == WireOf(Frame(u.p.uuid, CMD_PADDING_CONTINUE, CAMOUFLAGE, true), if draws == [] then 0 else draws[0])
  {
    hide WireOf;
    var f := Frame(u.p.uuid, CMD_PADDING_CONTINUE, CAMOUFLAGE, true);
    var w := WireOf(f, Draw(draws));
    assert [f][1..] == [];
    assert FramesWire([f], draws) == w + [] == w;
    assert w + [] == w;
  }
}
