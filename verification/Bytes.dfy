/** Options, bytes, big-endian 16-bit fields and the few facts about sequences the rest needs. */
module Bytes {

  datatype Option<+T> = None | Some(value: T)

  type byte = x: int | 0 <= x < 256

  type bytes = seq<byte>

  /** type(1) + version(2) + length(2). */
  const TLS_RECORD_HEADER_LEN := 5

  function Min(a: int, b: int): int {
    if a <= b then a else b
  }

  function Max(a: int, b: int): int {
    if a <= b then b else a
  }

  /** The `as u16` cast: the low 16 bits. */
  function AsU16(n: nat): (r: nat)
    ensures r < 0x1_0000
    ensures n < 0x1_0000 ==> r == n
  {
    n % 0x1_0000
  }

  /** The `as u8` cast: the low 8 bits. */
  function AsU8(n: nat): (r: byte)
    ensures n < 256 ==> r == n
  {
    n % 256
  }

  function U16(hi: byte, lo: byte): (n: nat)
    ensures n < 0x1_0000
  {
    hi * 256 + lo
  }

  function Be16(n: nat): (s: bytes)
    requires n < 0x1_0000
    ensures |s| == 2 && s[0] as nat * 256 + s[1] as nat == n
  {
    [n / 256, n % 256]
  }

  function Be32(n: nat): (s: bytes)
    requires n < 0x1_0000_0000
    ensures |s| == 4 && (s[0] as nat * 256 + s[1] as nat) * 0x1_0000 + (s[2] as nat * 256 + s[3] as nat) == n
  {
    Be16(n / 0x1_0000) + Be16(n % 0x1_0000)
  }

  function Zeros(n: nat): (s: bytes)
    ensures |s| == n
  {
    seq(n, _ => 0)
  }

  function Concat<T>(parts: seq<seq<T>>): seq<T> {
    if parts == [] then [] else parts[0] + Concat(parts[1..])
  }

  lemma {:induction false} ConcatAppend<T>(a: seq<seq<T>>, b: seq<seq<T>>)
    ensures Concat(a + b) == Concat(a) + Concat(b)
  {
    if a == [] {
      assert a + b == b;
    } else {
      ConcatAppend(a[1..], b);
      DropShort(a, b, 1);
      Assoc(a[0], Concat(a[1..]), Concat(b));
    }
  }

  lemma ConcatOne<T>(p: seq<T>)
    ensures Concat([p]) == p
  {
    assert [p][1..] == [];
  }

  lemma Assoc<T>(a: seq<T>, b: seq<T>, c: seq<T>)
    ensures (a + b) + c == a + (b + c)
  {
  }

  lemma NilLeft<T>(a: seq<T>)
    ensures [] + a == a
  {
  }

  lemma DropDrop<T>(s: seq<T>, i: nat, j: nat)
    requires i + j <= |s|
    ensures s[i..][j..] == s[i + j..]
  {
  }

  /** Taking or dropping inside, at, or beyond the first part of a concatenation. */
  lemma Cut<T>(a: seq<T>, b: seq<T>)
    ensures (a + b)[..|a|] == a && (a + b)[|a|..] == b
  {
  }

  lemma DropShort<T>(a: seq<T>, b: seq<T>, n: nat)
    requires n <= |a|
    ensures (a + b)[n..] == a[n..] + b && (a + b)[..n] == a[..n]
  {
  }

  /** `pat` stands in `b` at offset `i`. */
  predicate MatchAt(b: bytes, pat: bytes, i: int) {
    0 <= i && i + |pat| <= |b| && b[i..i + |pat|] == pat
  }

  /** `pat` stands somewhere in `b`: the source's `windows(n).any(..)`. */
  predicate Contains(b: bytes, pat: bytes) {
    exists i | 0 <= i <= |b| :: MatchAt(b, pat, i)
  }
}
