/**
 * What the read path does to one chunk of plaintext: strip the response header once, then deframe
 * (src/outbound/vision.rs:581-595). Decoding does not depend on how the plaintext is chunked.
 */
module Decoding {
  import opened Bytes
  import opened Framing
  import opened ResponseHeader

  datatype Status = Good | BadHeader | BadFrame

  /** The read path's decoding state: header flag, deframer, and bytes too few to decode yet. */
  datatype Decoder = Decoder(headerDone: bool, u: Deframe, raw: bytes)

  datatype Decoded = Decoded(d: Decoder, out: bytes, status: Status)

  const CLIENT := Decoder(false, FRESH, [])

  function Deframed(r: Unpadded): Decoded {
    Decoded(Decoder(true, r.u, r.rest), r.out, if r.ok then Good else BadFrame)
  }

  function Decode(d: Decoder, chunk: bytes): Decoded {
    var f := Feeding(d.headerDone, d.raw + chunk);
    if !f.ok then Decoded(Decoder(false, d.u, f.rest), [], BadHeader)
    else if !f.done then Decoded(Decoder(false, d.u, f.rest), [], Good)
    else Deframed(Unpadding(d.u, f.rest))
  }

  /** What is done before the response header is complete: wait, unless its version is wrong. */
  lemma HeaderFirst(d: Decoder, chunk: bytes)
    ensures var buf := d.raw + chunk;
            Decode(d, chunk).status == BadHeader <==> !d.headerDone && |buf| >= 2 && buf[0] != 0
    ensures Decode(d, chunk).status == BadHeader ==>
              Decode(d, chunk) == Decoded(Decoder(false, d.u, d.raw + chunk), [], BadHeader)
    ensures var buf := d.raw + chunk;
            !d.headerDone && (|buf| < 2 || (buf[0] == 0 && |buf| < 2 + buf[1] as nat)) ==>
              Decode(d, chunk) == Decoded(Decoder(false, d.u, buf), [], Good)
  {
  }

  function Prepend(out: bytes, r: Decoded): Decoded {
    r.(out := out + r.out)
  }

  /** Going on with `b` after `r`; after an error nothing more is looked at. */
  function Continue(r: Decoded, b: bytes): Decoded {
    if r.status.Good? then Prepend(r.out, Decode(r.d, b)) else r.(d := r.d.(raw := r.d.raw + b))
  }

  /** Feeding the chunks one after the other, up to the first error. */
  function DecodeAll(d: Decoder, chunks: seq<bytes>): Decoded
    decreases |chunks|
  {
    if chunks == [] then Decode(d, [])
    else
      var r := Decode(d, chunks[0]);
      if r.status.Good? then Prepend(r.out, DecodeAll(r.d, chunks[1..])) else Continue(r, Concat(chunks[1..]))
  }

  lemma DecodeSplit(d: Decoder, a: bytes, b: bytes)
    ensures Decode(d, a + b) == Continue(Decode(d, a), b)
  {
    var x := d.raw + a;
    assert d.raw + (a + b) == x + b by { Assoc(d.raw, a, b); }
    FeedSplit(d.headerDone, x, b);
    var f := Feeding(d.headerDone, x);
    if f.ok && f.done {
      UnpadSplit(d.u, f.rest, b);
      AfterHeader(Unpadding(d.u, f.rest), b);
    } else if f.ok {
      NoOutput(Decode(Decoder(false, d.u, f.rest), b));
    }
  }

  lemma AfterHeader(r: Unpadded, b: bytes)
    ensures Continue(Deframed(r), b) == Deframed(Resume(r, b))
  {
  }

  lemma NoOutput(r: Decoded)
    ensures Prepend([], r) == r
  {
    assert [] + r.out == r.out;
  }

  /** Nothing more can be decoded without more input. */
  ghost predicate Stuck(d: Decoder) {
    && Decode(d, []) == Decoded(d, [], Good)
    && (d.u.direct ==> d.u.done)
    && (d.u.done ==> d.headerDone && d.raw == [])
  }

  lemma ClientStuck()
    ensures Stuck(CLIENT)
  {
  }

  lemma PastHeaderStuck()
    ensures Stuck(Decoder(true, FRESH, []))
  {
  }

  /** `done` implies that no input is left over. */
  lemma DecodeStuck(d: Decoder, chunk: bytes)
    requires Stuck(d)
    requires Decode(d, chunk).status.Good?
    ensures Stuck(Decode(d, chunk).d)
  {
    var x := d.raw + chunk;
    var f := Feeding(d.headerDone, x);
    var r := Decode(d, chunk);
    assert r.d.raw + [] == r.d.raw;
    if f.done {
      UnpadStuck(d.u, f.rest);
      DirectDone(d.u, f.rest);
    }
  }

  lemma {:induction false} DirectDone(u: Deframe, buf: bytes)
    requires u.direct ==> u.done
    ensures Unpadding(u, buf).ok ==> (Unpadding(u, buf).u.direct ==> Unpadding(u, buf).u.done)
    decreases |buf|
  {
    if !u.done && WholeFrame(u, buf) {
      match Obey(u.direct, HeaderOf(u, buf)[0]) {
        case None =>
        case Some(v) => DirectDone(v, FrameRest(u, buf));
      }
    }
  }

  /** Once padding has ended, bytes pass through unchanged. */
  lemma PassThrough(d: Decoder, chunk: bytes)
    requires Stuck(d) && d.u.done
    ensures Decode(d, chunk) == Decoded(d, chunk, Good)
  {
    assert [] + chunk == chunk;
  }

  /**
   * Incremental decoding is one-shot decoding: the same output, state, left-over bytes and error
   * under every split into chunks.
   */
  lemma {:induction false} ChunkingIrrelevant(d: Decoder, chunks: seq<bytes>)
    requires Stuck(d)
    ensures DecodeAll(d, chunks) == Decode(d, Concat(chunks))
    decreases |chunks|
  {
    if chunks != [] {
      var r := Decode(d, chunks[0]);
      DecodeSplit(d, chunks[0], Concat(chunks[1..]));
      if r.status.Good? {
        DecodeStuck(d, chunks[0]);
        ChunkingIrrelevant(r.d, chunks[1..]);
      }
    }
  }

  /** Any two ways to cut the same bytes decode alike. */
  lemma AnyTwoChunkings(a: seq<bytes>, b: seq<bytes>)
    requires Concat(a) == Concat(b)
    ensures DecodeAll(CLIENT, a) == DecodeAll(CLIENT, b)
  {
    ClientStuck();
    ChunkingIrrelevant(CLIENT, a);
    ChunkingIrrelevant(CLIENT, b);
  }
}
