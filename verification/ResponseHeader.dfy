/** Lazy removal of the VLESS response header (src/outbound/vless.rs). */
module ResponseHeader {
  import opened Bytes

  const VERSION: byte := 0x00

  /** What one call leaves: the flag, the unread bytes, and whether the version was acceptable. */
  datatype Fed = Fed(done: bool, rest: bytes, ok: bool)

  predicate WholeHeader(buf: bytes) {
    2 <= |buf| && 2 + buf[1] <= |buf|
  }

  function Feeding(done: bool, buf: bytes): Fed {
    if done || |buf| < 2 then Fed(done, buf, true)
    else if buf[0] != VERSION then Fed(false, buf, false)
    else if !WholeHeader(buf) then Fed(false, buf, true)
    else Fed(true, buf[2 + buf[1]..], true)
  }

  class Header {
    var done: bool

    constructor ()
      ensures !done
    {
      done := false;
    }

    constructor AlreadyConsumed()
      ensures done
    {
      done := true;
    }

    /** `ready` is the Boolean of the source's Ok; `ok` is false for its Err. */
    method Feed(buf: bytes) returns (rest: bytes, ready: bool, ok: bool)
      modifies this
      ensures Fed(done, rest, ok) == Feeding(old(done), buf)
      ensures ready == (ok && done)
    {
      if done {
        return buf, true, true;
      }
      if |buf| < 2 {
        return buf, false, true;
      }
      if buf[0] != VERSION {
        return buf, false, false;
      }
      var addonLen: nat := buf[1];
      if |buf| < 2 + addonLen {
        return buf, false, true;
      }
      done := true;
      return buf[2 + addonLen..], true, true;
    }
  }

  /** A well-formed response header: version, addon length, addons. */
  function Response(addons: bytes): (h: bytes)
    requires |addons| < 256
  {
    [VERSION, |addons|] + addons
  }

  lemma FeedResponse(addons: bytes, tail: bytes)
    requires |addons| < 256
    ensures Feeding(false, Response(addons) + tail) == Fed(true, tail, true)
  {
    var h := Response(addons);
    assert (h + tail)[1] == |addons|;
    Cut(h, tail);
  }

  /** Feeding more bytes later is the same as feeding them together. */
  lemma FeedSplit(done: bool, a: bytes, b: bytes)
    ensures var first := Feeding(done, a);
            Feeding(done, a + b) ==
            if first.ok && !first.done then Feeding(false, first.rest + b) else first.(rest := first.rest + b)
  {
    if !done && WholeHeader(a) && a[0] == VERSION {
      DropShort(a, b, 2 + a[1] as nat);
    }
  }

  /** The header is refused exactly when its first byte is not zero, once two bytes are there. */
  lemma RefusedIff(buf: bytes)
    ensures !Feeding(false, buf).ok <==> |buf| >= 2 && buf[0] != 0
    ensures Feeding(false, buf).done <==> |buf| >= 2 && buf[0] == 0 && |buf| >= 2 + buf[1] as nat
  {
  }
}
