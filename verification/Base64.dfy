/** The configuration's base64 decoder, RFC 4648 sections 4 and 5 (src/config.rs). Text is held as its bytes. */
module Base64 {
  import opened Bytes

  const PAD: byte := 0x3D
  const WORD := 0x1_0000_0000

  type Sextet = n: nat | n < 64

  /** The value of a symbol, in either alphabet. */
  function Val(c: byte): Option<Sextet> {
    if 0x41 <= c <= 0x5A then Some(c - 0x41)
    else if 0x61 <= c <= 0x7A then Some(c - 0x61 + 26)
    else if 0x30 <= c <= 0x39 then Some(c - 0x30 + 52)
    else if c == 0x2B || c == 0x2D then Some(62)
    else if c == 0x2F || c == 0x5F then Some(63)
    else None
  }

  /** The text without its trailing padding. */
  function Trimmed(s: bytes): (t: bytes)
    ensures t <= s
    ensures t == [] || t[|t| - 1] != PAD
    ensures forall k | |t| <= k < |s| :: s[k] == PAD
  {
    if s != [] && s[|s| - 1] == PAD then Trimmed(s[..|s| - 1]) else s
  }

  predicate Legal(s: bytes) {
    forall c | c in s :: Val(c).Some?
  }

  function Values(s: bytes): (v: seq<Sextet>)
    requires Legal(s)
    ensures |v| == |s|
  {
    seq<Sextet>(|s|, k requires 0 <= k < |s| => assert s[k] in s; Val(s[k]).value)
  }

  /** Sextets and octets as big-endian numbers. */
  function Num64(v: seq<Sextet>): nat {
    if v == [] then 0 else Num64(v[..|v| - 1]) * 64 + v[|v| - 1]
  }

  function Num256(b: bytes): nat {
    if b == [] then 0 else Num256(b[..|b| - 1]) * 256 + b[|b| - 1]
  }

  function Pow2(bits: nat): (p: nat)
    ensures p > 0
  {
    if bits == 0 then 1 else 2 * Pow2(bits - 1)
  }

  lemma Pow2s()
    ensures Pow2(0) == 1 && Pow2(2) == 4 && Pow2(4) == 16 && Pow2(6) == 64
  {
    assert Pow2(1) == 2 && Pow2(3) == 8 && Pow2(5) == 32;
  }

  lemma Num64Next(v: seq<Sextet>, x: Sextet)
    ensures Num64(v + [x]) == Num64(v) * 64 + x
  {
    assert (v + [x])[..|v|] == v;
  }

  lemma Num256Next(b: bytes, x: byte)
    ensures Num256(b + [x]) == Num256(b) * 256 + x
  {
    assert (b + [x])[..|b|] == b;
  }

  /** A number of a given length has one representation. */
  lemma {:induction false} Num256Injective(a: bytes, b: bytes)
    requires |a| == |b| && Num256(a) == Num256(b)
    ensures a == b
  {
    if a != [] {
      var n := |a| - 1;
      Num256Injective(a[..n], b[..n]);
      assert a == a[..n] + [a[n]] && b == b[..n] + [b[n]];
    }
  }

  /** The 32-bit accumulator after one more sextet: the shift drops the high bits. */
  function Shifted(buf: nat, v: Sextet): (r: nat)
    ensures r < WORD
  {
    buf * 64 % WORD + v
  }

  /** Dropping high bits never touches the bits still to be used. */
  lemma ShiftKeepsLow(buf: nat, v: Sextet)
    ensures exists high: nat :: Shifted(buf, v) == high * 4096 + (buf % 64 * 64 + v)
  {
    var high := buf / 64 % 0x10_0000;
    assert buf == buf / 64 * 64 + buf % 64;
    assert buf * 64 % WORD == high * 4096 + buf % 64 * 64;
    assert Shifted(buf, v) == high * 4096 + (buf % 64 * 64 + v);
  }

  lemma By64(q: nat, m: nat)
    requires m < 64
    ensures (q * 64 + m) % 64 == m
  {
  }

  /** One turn of the loop keeps the number read so far equal to the bytes written and the bits still held. */
  lemma TurnShort(n: nat, buf: nat, v: Sextet)
    ensures n * 64 + v == n * 64 + Shifted(buf, v) % 64
  {
    ShiftKeepsLow(buf, v);
    hide Shifted;
    var high: nat :| Shifted(buf, v) == high * 4096 + (buf % 64 * 64 + v);
    var r := buf % 64;
    assert Shifted(buf, v) == (high * 64 + r) * 64 + v;
    By64(high * 64 + r, v);
  }

  lemma By16(q: nat, m: nat)
    requires m < 16
    ensures (q * 16 + m) / 16 == q && (q * 16 + m) % 16 == m
  {
  }

  lemma By4(q: nat, m: nat)
    requires m < 4
    ensures (q * 4 + m) / 4 == q && (q * 4 + m) % 4 == m
  {
  }

  lemma By256(q: nat, m: nat)
    requires m < 256
    ensures (q * 256 + m) % 256 == m
  {
  }

  lemma Turn6(n: nat, w: nat, high: nat, r: nat, v: Sextet)
    requires r < 64 && w == high * 4096 + (r * 64 + v)
    ensures (n * 64 + r) * 64 + v == (n * 256 + w / 16 % 256) * 16 + w % 16
  {
    var q, m := r * 4 + v / 16, v % 16;
    By16(high * 256 + q, m);
    By256(high, q);
  }

  lemma Turn4(n: nat, w: nat, high: nat, r: nat, v: Sextet)
    requires r < 16 && w == high * 1024 + (r * 64 + v)
    ensures (n * 16 + r) * 64 + v == (n * 256 + w / 4 % 256) * 4 + w % 4
  {
    var q, m := r * 16 + v / 4, v % 4;
    By4(high * 256 + q, m);
    By256(high, q);
  }

  lemma Turn2(n: nat, w: nat, high: nat, r: nat, v: Sextet)
    requires r < 4 && w == high * 256 + (r * 64 + v)
    ensures (n * 4 + r) * 64 + v == n * 256 + w % 256
  {
    By256(high, r * 64 + v);
  }

  /** The low six bits of the accumulator, split where the held bits begin. */
  lemma LowBits(buf: nat) returns (r: nat)
    ensures r == buf % 64 && r < 64
    ensures r == r / 16 * 16 + buf % 16 && r == r / 4 * 4 + buf % 4
  {
    r := buf % 64;
    By16(buf / 64 * 4 + r / 16, r % 16);
    By4(buf / 64 * 16 + r / 4, r % 4);
  }

  lemma TurnLong(n: nat, buf: nat, bits: nat, v: Sextet)
    requires bits in {2, 4, 6}
    ensures var left := bits - 2;
            var octet := Shifted(buf, v) / Pow2(left) % 256;
            (n * Pow2(bits) + buf % Pow2(bits)) * 64 + v
            == (n * 256 + octet) * Pow2(left) + Shifted(buf, v) % Pow2(left)
  {
    Pow2s();
    ShiftKeepsLow(buf, v);
    hide Shifted, Pow2;
    var w := Shifted(buf, v);
    var high: nat :| w == high * 4096 + (buf % 64 * 64 + v);
    var r := LowBits(buf);
    if bits == 6 {
      Turn6(n, w, high, r, v);
    } else if bits == 4 {
      Turn4(n, w, high * 4 + r / 16, buf % 16, v);
    } else {
      Turn2(n, w, high * 16 + r / 4, buf % 4, v);
    }
  }

  /** The loop's invariant: the number read is the bytes written followed by the bits held. */
  ghost predicate Held(read: seq<Sextet>, out: bytes, buf: nat, bits: nat) {
    && bits in {0, 2, 4, 6} && bits == 6 * |read| % 8 && |out| == 6 * |read| / 8
    && Num64(read) == Num256(out) * Pow2(bits) + buf % Pow2(bits)
  }

  lemma HeldAtFirst()
    ensures Held([], [], 0, 0)
  {
  }

  lemma HeldShort(read: seq<Sextet>, out: bytes, buf: nat, v: Sextet)
    requires Held(read, out, buf, 0)
    ensures Held(read + [v], out, Shifted(buf, v), 6)
  {
    hide Num64, Num256, Shifted;
    Pow2s();
    Num64Next(read, v);
    TurnShort(Num256(out), buf, v);
  }

  lemma By8(q: nat, m: nat)
    requires m < 8
    ensures (q * 8 + m) / 8 == q && (q * 8 + m) % 8 == m
  {
  }

  lemma Lengths(n: nat)
    ensures 6 * n % 8 > 0 ==> 6 * (n + 1) % 8 == 6 * n % 8 - 2 && 6 * (n + 1) / 8 == 6 * n / 8 + 1
  {
    var q := n / 4;
    if n == 4 * q {
      assert 6 * n == 3 * q * 8 + 0;
      By8(3 * q, 0);
    } else if n == 4 * q + 1 {
      assert 6 * n == 3 * q * 8 + 6 && 6 * (n + 1) == (3 * q + 1) * 8 + 4;
      By8(3 * q, 6);
      By8(3 * q + 1, 4);
    } else if n == 4 * q + 2 {
      assert 6 * n == (3 * q + 1) * 8 + 4 && 6 * (n + 1) == (3 * q + 2) * 8 + 2;
      By8(3 * q + 1, 4);
      By8(3 * q + 2, 2);
    } else {
      assert 6 * n == (3 * q + 2) * 8 + 2 && 6 * (n + 1) == (3 * q + 3) * 8 + 0;
      By8(3 * q + 2, 2);
      By8(3 * q + 3, 0);
    }
  }

  lemma HeldLong(read: seq<Sextet>, out: bytes, buf: nat, bits: nat, v: Sextet)
    requires Held(read, out, buf, bits) && bits > 0
    ensures Held(read + [v], out + [Shifted(buf, v) / Pow2(bits - 2) % 256], Shifted(buf, v), bits - 2)
  {
    hide Num64, Num256, Shifted, Pow2;
    Lengths(|read|);
    Num64Next(read, v);
    TurnLong(Num256(out), buf, bits, v);
    Num256Next(out, Shifted(buf, v) / Pow2(bits - 2) % 256);
  }

  lemma HeldAtLast(read: seq<Sextet>, out: bytes, buf: nat, bits: nat)
    requires Held(read, out, buf, bits)
    ensures Decodes(read, out)
  {
    hide Num64, Num256;
    HeldBits(Num256(out), buf, bits);
  }

  lemma BitsHeld(read: seq<Sextet>, out: bytes, buf: nat, bits: nat)
    requires Held(read, out, buf, bits)
    ensures bits == 0 || 2 <= bits < 8
  {
  }

  /**
   * Decoding keeps every whole byte of the bit string: read as numbers, the output is the input without its last
   * (six times the length) mod 8 bits. It fails exactly when some symbol before the padding is in neither alphabet.
   */
  method Decode(s: bytes) returns (r: Option<bytes>)
    ensures r.Some? <==> Legal(Trimmed(s))
    ensures r.Some? ==> Decodes(Values(Trimmed(s)), r.value)
  {
    hide *;
    var t := Trimmed(s);
    var out: bytes := [];
    var buf: nat, bits: nat := 0, 0;
    ReadNothing(t);
    HeldAtFirst();
    for i := 0 to |t|
      invariant Legal(t[..i])
      invariant Held(Values(t[..i]), out, buf, bits)
    {
      var v := Val(t[i]);
      if v == None {
        Illegal(t, i);
        return None;
      }
      LegalNext(t, i);
      BitsHeld(Values(t[..i]), out, buf, bits);
      if bits == 0 {
        HeldShort(Values(t[..i]), out, buf, v.value);
      } else {
        HeldLong(Values(t[..i]), out, buf, bits, v.value);
      }
      buf := Shifted(buf, v.value);
      bits := bits + 6;
      if bits >= 8 {
        bits := bits - 8;
        out := out + [buf / Pow2(bits) % 256];
      }
    }
    assert t[..|t|] == t;
    HeldAtLast(Values(t), out, buf, bits);
    r := Some(out);
  }

  lemma ReadNothing(t: bytes)
    ensures Legal(t[..0]) && Values(t[..0]) == []
  {
  }

  lemma Illegal(t: bytes, i: nat)
    requires i < |t| && Val(t[i]).None?
    ensures !Legal(t)
  {
    assert t[i] in t;
  }

  lemma LegalNext(t: bytes, i: nat)
    requires i < |t| && Legal(t[..i]) && Val(t[i]).Some?
    ensures Legal(t[..i + 1]) && Values(t[..i + 1]) == Values(t[..i]) + [Val(t[i]).value]
  {
    assert t[..i + 1] == t[..i] + [t[i]];
  }

  predicate Decodes(v: seq<Sextet>, out: bytes) {
    && |out| == 6 * |v| / 8
    && Num256(out) == Num64(v) / Pow2(6 * |v| % 8)
  }

  lemma HeldBits(n: nat, buf: nat, bits: nat)
    requires bits in {0, 2, 4, 6}
    ensures (n * Pow2(bits) + buf % Pow2(bits)) / Pow2(bits) == n
  {
    Pow2s();
  }

  // ---------------------------------------------------------------------------
  // Encoding, RFC 4648
  // ---------------------------------------------------------------------------

  /** Section 4's alphabet, or section 5's when `url`. */
  function Symbol(v: Sextet, url: bool): (c: byte)
    ensures Val(c) == Some(v) && c != PAD
  {
    if v < 26 then 0x41 + v
    else if v < 52 then 0x61 + (v - 26)
    else if v < 62 then 0x30 + (v - 52)
    else if v == 62 then (if url then 0x2D else 0x2B)
    else (if url then 0x5F else 0x2F)
  }

  /** Whole groups: three octets make four sextets. */
  function Groups(b: bytes): (v: seq<Sextet>)
    requires |b| % 3 == 0
    ensures |v| * 3 == |b| * 4
  {
    if b == [] then []
    else
      var n := |b| - 3;
      Groups(b[..n]) + [b[n] / 4] + [b[n] % 4 * 16 + b[n + 1] / 16] + [b[n + 1] % 16 * 4 + b[n + 2] / 64] + [b[n + 2] % 64]
  }

  /** The last one or two octets, with zero bits added. */
  function LastGroup(b: bytes): seq<Sextet>
    requires |b| < 3
  {
    if |b| == 0 then []
    else if |b| == 1 then [b[0] / 4, b[0] % 4 * 16]
    else [b[0] / 4, b[0] % 4 * 16 + b[1] / 16, b[1] % 16 * 4]
  }

  function Sextets(b: bytes): seq<Sextet> {
    var n := |b| - |b| % 3;
    Groups(b[..n]) + LastGroup(b[n..])
  }

  function Symbols(v: seq<Sextet>, url: bool): (s: bytes)
    ensures |s| == |v| && Legal(s) && (forall k | 0 <= k < |s| :: s[k] != PAD)
  {
    seq<byte>(|v|, k requires 0 <= k < |v| => Symbol(v[k], url))
  }

  function Encode(b: bytes, url: bool, padded: bool): bytes {
    Symbols(Sextets(b), url) + if padded then seq((3 - |b| % 3) % 3, _ => PAD) else []
  }

  /** Splitting octets into sextets, as arithmetic. */
  lemma OneOctet(n: nat, x: byte)
    ensures (n * 64 + x / 4) * 64 + x % 4 * 16 == (n * 256 + x) * 16
  {
  }

  lemma TwoOctets(n: nat, x: byte, y: byte)
    ensures ((n * 64 + x / 4) * 64 + (x % 4 * 16 + y / 16)) * 64 + y % 16 * 4 == ((n * 256 + x) * 256 + y) * 4
  {
    OneOctet(n, x);
  }

  lemma ThreeOctets(n: nat, x: byte, y: byte, z: byte)
    ensures (((n * 64 + x / 4) * 64 + (x % 4 * 16 + y / 16)) * 64 + (y % 16 * 4 + z / 64)) * 64 + z % 64
         == ((n * 256 + x) * 256 + y) * 256 + z
  {
    TwoOctets(n, x, y);
  }

  lemma GroupNum(v: seq<Sextet>, b: bytes, x: byte, y: byte, z: byte)
    requires Num64(v) == Num256(b)
    ensures Num64(v + [x / 4] + [x % 4 * 16 + y / 16] + [y % 16 * 4 + z / 64] + [z % 64]) == Num256(b + [x] + [y] + [z])
  {
    hide Num64, Num256;
    Num256Next(b + [x] + [y], z);
    Num256Next(b + [x], y);
    Num256Next(b, x);
    FourNum(v, x / 4, x % 4 * 16 + y / 16, y % 16 * 4 + z / 64, z % 64);
    ThreeOctets(Num256(b), x, y, z);
  }

  lemma {:induction false} GroupsNum(b: bytes)
    requires |b| % 3 == 0
    ensures Num64(Groups(b)) == Num256(b)
  {
    if b != [] {
      hide Num64, Num256;
      var n := |b| - 3;
      GroupsNum(b[..n]);
      GroupNum(Groups(b[..n]), b[..n], b[n], b[n + 1], b[n + 2]);
      assert b == b[..n] + [b[n]] + [b[n + 1]] + [b[n + 2]];
    }
  }

  lemma FourNum(v: seq<Sextet>, a: Sextet, b: Sextet, c: Sextet, d: Sextet)
    ensures Num64(v + [a] + [b] + [c] + [d]) == (((Num64(v) * 64 + a) * 64 + b) * 64 + c) * 64 + d
  {
    hide Num64;
    Num64Next(v + [a] + [b] + [c], d);
    Num64Next(v + [a] + [b], c);
    Num64Next(v + [a], b);
    Num64Next(v, a);
  }

  lemma LastOne(v: seq<Sextet>, b: bytes, x: byte)
    requires Num64(v) == Num256(b)
    ensures Num64(v + LastGroup([x])) == Num256(b + [x]) * 16
  {
    hide Num64, Num256;
    assert v + LastGroup([x]) == v + [x / 4] + [x % 4 * 16];
    Num64Next(v + [x / 4], x % 4 * 16);
    Num64Next(v, x / 4);
    Num256Next(b, x);
    OneOctet(Num256(b), x);
  }

  lemma LastTwo(v: seq<Sextet>, b: bytes, x: byte, y: byte)
    requires Num64(v) == Num256(b)
    ensures Num64(v + LastGroup([x, y])) == Num256(b + [x, y]) * 4
  {
    hide Num64, Num256;
    var s0, s1, s2 := x / 4, x % 4 * 16 + y / 16, y % 16 * 4;
    assert v + LastGroup([x, y]) == v + [s0] + [s1] + [s2] && b + [x, y] == b + [x] + [y];
    Num64Next(v + [s0] + [s1], s2);
    Num64Next(v + [s0], s1);
    Num64Next(v, s0);
    Num256Next(b + [x], y);
    Num256Next(b, x);
    TwoOctets(Num256(b), x, y);
  }

  lemma LastNum(v: seq<Sextet>, b: bytes, last: bytes)
    requires |last| < 3 && Num64(v) == Num256(b)
    ensures Num64(v + LastGroup(last)) == Num256(b + last) * (if |last| == 0 then 1 else if |last| == 1 then 16 else 4)
  {
    hide Num64, Num256, LastGroup;
    if |last| == 0 {
      assert last == [] && LastGroup([]) == [] by { NoLastGroup(); }
      assert v + [] == v && b + last == b;
    } else if |last| == 1 {
      assert last == [last[0]];
      LastOne(v, b, last[0]);
    } else {
      assert last == [last[0], last[1]];
      LastTwo(v, b, last[0], last[1]);
    }
  }

  lemma NoLastGroup()
    ensures LastGroup([]) == []
  {
  }

  lemma SextetsDecode(b: bytes)
    ensures Decodes(Sextets(b), b)
  {
    hide Num64, Num256, Groups;
    var n := |b| - |b| % 3;
    assert b[..n] + b[n..] == b;
    GroupsNum(b[..n]);
    LastNum(Groups(b[..n]), b[..n], b[n..]);
    Pow2s();
    assert |Sextets(b)| == n / 3 * 4 + |LastGroup(b[n..])|;
  }

  lemma SymbolValues(v: seq<Sextet>, url: bool)
    ensures Values(Symbols(v, url)) == v
  {
  }

  lemma {:induction false} TrimPadding(s: bytes, pads: nat)
    requires forall k | 0 <= k < |s| :: s[k] != PAD
    ensures Trimmed(s + seq(pads, _ => PAD)) == s
    decreases pads
  {
    var p := s + seq(pads, _ => PAD);
    if pads == 0 {
      assert p == s;
    } else {
      assert p[..|p| - 1] == s + seq(pads - 1, _ => PAD);
      TrimPadding(s, pads - 1);
    }
  }

  /**
   * Round trip: for every byte string, in either alphabet, padded or not, the only output the decoder's contract
   * admits is the byte string itself.
   */
  lemma RoundTrip(b: bytes, url: bool, padded: bool)
    ensures Legal(Trimmed(Encode(b, url, padded)))
    ensures forall r | Decodes(Values(Trimmed(Encode(b, url, padded))), r) :: r == b
    ensures Decodes(Values(Trimmed(Encode(b, url, padded))), b)
  {
    hide Num64, Num256, Sextets, Trimmed;
    var s := Symbols(Sextets(b), url);
    var pads := (3 - |b| % 3) % 3;
    TrimPadding(s, pads);
    TrimPadding(s, 0);
    assert seq(0, _ => PAD) == [];
    SymbolValues(Sextets(b), url);
    SextetsDecode(b);
    forall r | Decodes(Sextets(b), r)
      ensures r == b
    {
      Num256Injective(r, b);
    }
  }
}
