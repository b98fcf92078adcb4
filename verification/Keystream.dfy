/** The counter keystream that makes both ClientHello passes draw the same bytes (src/outbound/reality.rs). */
module Keystream {
  import opened Bytes

  const BLOCK_LEN := 32
  const COUNTER_RANGE := 0x1_0000_0000_0000_0000

  type Block = b: bytes | |b| == BLOCK_LEN witness seq(BLOCK_LEN, _ => 0)

  /** `width` little-endian bytes. */
  function LeBytes(n: nat, width: nat): (s: bytes)
    ensures |s| == width
    decreases width
  {
    if width == 0 then [] else [n % 256] + LeBytes(n / 256, width - 1)
  }

  function BlockAt(hash: bytes -> Block, seed: Block, counter: nat): Block {
    hash(seed + LeBytes(counter, 8))
  }

  /** The counter is 64 bits wide and wraps. */
  function Wrapped(n: nat): nat {
    n % COUNTER_RANGE
  }

  lemma NextWrapped(n: nat)
    ensures Wrapped(Wrapped(n) + 1) == Wrapped(n + 1)
  {
  }

  /** Byte `i` of the keystream. */
  function StreamByte(hash: bytes -> Block, seed: Block, i: nat): byte {
    BlockAt(hash, seed, Wrapped(i / BLOCK_LEN))[i % BLOCK_LEN]
  }

  /** `n` consecutive bytes of the keystream from position `pos`. */
  function Slice(hash: bytes -> Block, seed: Block, pos: nat, n: nat): (s: bytes)
    ensures |s| == n
  {
    seq<byte>(n, k requires 0 <= k => StreamByte(hash, seed, pos + k))
  }

  lemma SliceSplit(hash: bytes -> Block, seed: Block, pos: nat, a: nat, b: nat)
    ensures Slice(hash, seed, pos, a + b) == Slice(hash, seed, pos, a) + Slice(hash, seed, pos + a, b)
  {
    hide StreamByte;
  }

  lemma InBlock(index: nat, k: nat)
    requires k < BLOCK_LEN
    ensures (BLOCK_LEN * index + k) / BLOCK_LEN == index && (BLOCK_LEN * index + k) % BLOCK_LEN == k
  {
  }

  lemma WholeBlock(hash: bytes -> Block, seed: Block, index: nat)
    ensures Slice(hash, seed, BLOCK_LEN * index, BLOCK_LEN) == BlockAt(hash, seed, Wrapped(index))
  {
    hide Wrapped, BlockAt;
    var s := Slice(hash, seed, BLOCK_LEN * index, BLOCK_LEN);
    forall k: nat | k < BLOCK_LEN
      ensures s[k] == BlockAt(hash, seed, Wrapped(index))[k]
    {
      InBlock(index, k);
    }
  }

  class SeedStream {
    const hash: bytes -> Block
    const seed: Block
    var counter: nat
    var buf: bytes
    /** Keystream bytes handed out so far. */
    ghost var pos: nat

    ghost predicate Valid()
      reads this
    {
      && |buf| <= BLOCK_LEN
      && buf == Slice(hash, seed, pos, |buf|)
      && (pos + |buf|) % BLOCK_LEN == 0
      && counter == Wrapped((pos + |buf|) / BLOCK_LEN)
    }

    constructor (hash: bytes -> Block, seed: Block)
      ensures Valid() && pos == 0 && this.hash == hash && this.seed == seed
    {
      this.hash := hash;
      this.seed := seed;
      counter := 0;
      buf := [];
      pos := 0;
    }

    method Refill()
      requires Valid() && buf == []
      modifies this
      ensures Valid() && pos == old(pos) && |buf| == BLOCK_LEN
    {
      hide Wrapped, BlockAt, Slice, LeBytes;
      ghost var index := pos / BLOCK_LEN;
      assert pos == BLOCK_LEN * index;
      WholeBlock(hash, seed, index);
      buf := buf + BlockAt(hash, seed, counter);
      counter := Wrapped(counter + 1);
      NilLeft(BlockAt(hash, seed, Wrapped(index)));
      NextWrapped(index);
      assert (pos + BLOCK_LEN) / BLOCK_LEN == index + 1;
    }

    /** Hands out the next bytes of the keystream, whatever the sizes of the earlier fills. */
    method Fill(out: array<byte>)
      requires Valid()
      modifies this, out
      ensures Valid() && pos == old(pos) + out.Length
      ensures out[..] == Slice(hash, seed, old(pos), out.Length)
    {
      hide StreamByte, Wrapped, BlockAt, LeBytes, Slice;
      var done := 0;
      assert out[..0] == Slice(hash, seed, pos, 0);
      while done < out.Length
        invariant 0 <= done <= out.Length
        invariant Valid() && pos == old(pos) + done
        invariant out[..done] == Slice(hash, seed, old(pos), done)
      {
        if buf == [] {
          Refill();
        }
        var n := Min(out.Length - done, |buf|);
        ghost var before := out[..done];
        forall k | 0 <= k < n {
          out[done + k] := buf[k];
        }
        assert out[..done + n] == before + buf[..n];
        SliceSplit(hash, seed, pos, n, |buf| - n);
        SliceSplit(hash, seed, old(pos), done, n);
        assert buf[..n] == Slice(hash, seed, pos, n) && buf[n..] == Slice(hash, seed, pos + n, |buf| - n);
        buf := buf[n..];
        pos := pos + n;
        done := done + n;
      }
      assert out[..] == out[..done];
    }
  }

  /** Bytes read as a number, least significant first. */
  function FromLe(s: bytes): nat {
    if s == [] then 0 else s[0] as nat + 256 * FromLe(s[1..])
  }

  lemma {:induction false} LeBytesOf(le: bytes)
    ensures LeBytes(FromLe(le), |le|) == le
    decreases |le|
  {
    if le != [] {
      LeBytesOf(le[1..]);
      assert FromLe(le) / 256 == FromLe(le[1..]) && FromLe(le) % 256 == le[0] as nat;
    }
  }

  /** Block `index` of the keystream is the hash of the seed and the eight little-endian bytes of the wrapped index. */
  lemma BlockHashes(hash: bytes -> Block, seed: Block, index: nat, le: bytes)
    requires |le| == 8 && FromLe(le) == index % 0x1_0000_0000_0000_0000
    ensures Slice(hash, seed, 32 * index, 32) == hash(seed + le)
  {
    hide Slice, LeBytes, FromLe;
    WholeBlock(hash, seed, index);
    LeBytesOf(le);
  }
}
