/**
 * The receiving half of the TLS layer, as far as the stream above it can tell: it collects bytes from the
 * record gate, turns each complete record into plaintext, and asks for more only while it holds none.
 */
module TlsReading {
  import opened Bytes
  import opened RecordGate
  import opened GateRuns

  /** The most plaintext one record carries, and the stream's read size while padding lasts. */
  const MAX_PLAINTEXT := 16 * 1024

  /** Opening record number k; None when it does not authenticate. */
  type Cipher = (nat, bytes) -> Option<bytes>

  function OpenRecord(c: Cipher, k: nat, record: bytes): (p: Option<bytes>)
    ensures p.Some? ==> |p.value| <= MAX_PLAINTEXT
  {
    match c(k, record)
    case Some(p) => if |p| <= MAX_PLAINTEXT then Some(p) else None
    case None => None
  }

  predicate WholeRecord(stream: bytes) {
    TLS_RECORD_HEADER_LEN <= |stream| && RecordLen(stream) <= |stream|
  }

  /** Undelivered plaintext, an incomplete record, records opened so far, and how much each read will ask for. */
  datatype TlsIn = TlsIn(plain: bytes, partial: bytes, seqno: nat, asks: seq<nat>)

  datatype Absorbed = Absorbed(t: TlsIn, ok: bool)

  /** Opening every complete record at hand. */
  function Absorb(c: Cipher, t: TlsIn): (a: Absorbed)
    ensures a.ok ==> !WholeRecord(a.t.partial)
    ensures a.t.asks == t.asks
    decreases |t.partial|
  {
    if !WholeRecord(t.partial) then Absorbed(t, true)
    else
      var n := RecordLen(t.partial);
      match OpenRecord(c, t.seqno, t.partial[..n])
      case None => Absorbed(t, false)
      case Some(p) => Absorb(c, TlsIn(t.plain + p, t.partial[n..], t.seqno + 1, t.asks))
  }

  function Ask(t: TlsIn): (n: nat)
    ensures n > 0
  {
    if t.asks == [] then 4096 else Max(t.asks[0], 1)
  }

  /** The layer after it received `d`. */
  function Received(t: TlsIn, d: bytes): TlsIn {
    t.(partial := t.partial + d, asks := if t.asks == [] then [] else t.asks[1..])
  }

  datatype TlsPolled = TlsPolled(t: TlsIn, g: Gate, s: Sock, r: Poll)

  function TlsRead(c: Cipher, t: TlsIn, g: Gate, s: Sock, cap: nat): (p: TlsPolled)
    ensures |Unseen(p.g, p.s)| <= |Unseen(g, s)|
    ensures DataOf(p.r) != [] ==>
              |Unseen(p.g, p.s)| < |Unseen(g, s)| || (Unseen(p.g, p.s) == Unseen(g, s) && |p.t.plain| < |t.plain|)
    ensures p.g.gating == g.gating
    decreases |Unseen(g, s)|
  {
    if t.plain != [] then
      var n := Min(cap, |t.plain|);
      TlsPolled(t.(plain := t.plain[n..]), g, s, Ready(t.plain[..n]))
    else
      var p := GateRead(g, s, Ask(t));
      if DataOf(p.r) == [] then TlsPolled(Received(t, []), p.g, p.s, p.r)
      else
        var a := Absorb(c, Received(t, p.r.data));
        if a.ok then TlsRead(c, a.t, p.g, p.s, cap) else TlsPolled(a.t, p.g, p.s, Error)
  }
}
