/** The two-pass ClientHello: authentication data sealed against the hello that carries it (src/outbound/reality.rs). */
module Reality {
  import opened Bytes
  import opened Keystream
  import opened Scripting

  const SESSION_ID_OFFSET := 39
  const SESSION_ID_LEN := 32
  const SESSION_ID_END := SESSION_ID_OFFSET + SESSION_ID_LEN
  const RANDOM_OFFSET := 6
  const RANDOM_LEN := 32
  const HKDF_SALT_LEN := 20
  /** The letters REALITY. */
  const HKDF_INFO: bytes := [0x52, 0x45, 0x41, 0x4C, 0x49, 0x54, 0x59]
  const AUTH_PLAINTEXT_LEN := 16
  const CLIENT_VERSION: bytes := [26, 7, 28]
  const SHORT_ID_LEN := 8

  datatype Error =
    | BuildFailed
    | NotHandshakeRecord
    | TruncatedRecord
    | NotClientHello
    | HelloTooShort
    | SessionIdNotLocated
    | ZeroSharedSecret
    | ShortIdTooLong
    | SealFailed
    | SealedWrongSize
    | NotUnderScript
    | DrawNotReplaced

  datatype Result<+T> = Ok(value: T) | Err(error: Error)

  /** The library's cryptography: SHA-256, X25519, HKDF-SHA256 and AES-256-GCM. */
  datatype Crypto = Crypto(
    hash: bytes -> Block,
    x25519: (Block, Block) -> Block,
    basePoint: Block,
    hkdf: (Block, bytes, bytes) -> Block,
    seal: (Block, bytes, bytes, bytes) -> Option<bytes>,
    open: (Block, bytes, bytes, bytes) -> Option<bytes>)
  {
    function PublicKey(secret: Block): Block {
      x25519(secret, basePoint)
    }
  }

  /** Opening inverts sealing, the tag is 16 bytes long, and both ends agree on the shared secret. */
  ghost predicate Lawful(c: Crypto) {
    && (forall key, nonce, aad, plain | |plain| == AUTH_PLAINTEXT_LEN ::
          && c.seal(key, nonce, aad, plain).Some?
          && |c.seal(key, nonce, aad, plain).value| == SESSION_ID_LEN
          && c.open(key, nonce, aad, c.seal(key, nonce, aad, plain).value) == Some(plain))
    && (forall a, b :: c.x25519(a, c.PublicKey(b)) == c.x25519(b, c.PublicKey(a)))
  }

  // ---------------------------------------------------------------------------
  // The ClientHello
  // ---------------------------------------------------------------------------

  /** A handshake message long enough to hold a 32-byte session id. */
  type Hello = h: bytes | SESSION_ID_END <= |h| witness seq(SESSION_ID_END, _ => 0)

  function ClientHelloBody(records: bytes): Result<Hello> {
    if |records| < TLS_RECORD_HEADER_LEN || records[0] != 0x16 then Err(NotHandshakeRecord)
    else
      var len := U16(records[3], records[4]);
      if |records| < TLS_RECORD_HEADER_LEN + len then Err(TruncatedRecord)
      else
        var body := records[TLS_RECORD_HEADER_LEN..TLS_RECORD_HEADER_LEN + len];
        if body == [] || body[0] != 0x01 then Err(NotClientHello)
        else if |body| < SESSION_ID_END then Err(HelloTooShort)
        else Ok(body)
  }

  function SessionId(h: Hello): Block {
    h[SESSION_ID_OFFSET..SESSION_ID_END]
  }

  function Random(h: Hello): Block {
    h[RANDOM_OFFSET..RANDOM_OFFSET + RANDOM_LEN]
  }

  /** `h` with another session id. */
  function WithSessionId(h: Hello, sid: Block): (r: Hello)
    ensures |r| == |h| && SessionId(r) == sid && Random(r) == Random(h)
    ensures r[..SESSION_ID_OFFSET] == h[..SESSION_ID_OFFSET] && r[SESSION_ID_END..] == h[SESSION_ID_END..]
  {
    h[..SESSION_ID_OFFSET] + sid + h[SESSION_ID_END..]
  }

  /** The authenticated data: the hello with its session id zeroed. */
  function Aad(h: Hello): Hello {
    WithSessionId(h, Zeros(SESSION_ID_LEN))
  }

  method AadFromHello(hello: Hello) returns (aad: bytes)
    ensures aad == Aad(hello)
  {
    var a := new byte[|hello|](k requires 0 <= k < |hello| => hello[k]);
    for k := SESSION_ID_OFFSET to SESSION_ID_END
      invariant a[..SESSION_ID_OFFSET] == hello[..SESSION_ID_OFFSET]
      invariant forall j | SESSION_ID_OFFSET <= j < k :: a[j] == 0
      invariant a[SESSION_ID_END..] == hello[SESSION_ID_END..]
    {
      a[k] := 0;
    }
    aad := a[..];
    assert aad[SESSION_ID_OFFSET..SESSION_ID_END] == Zeros(SESSION_ID_LEN);
  }

  /** The circle is broken: the data the session id is sealed against does not depend on the session id. */
  lemma AadIgnoresSessionId(h: Hello, sid: Block)
    ensures Aad(WithSessionId(h, sid)) == Aad(h)
  {
  }

  /** The first draw equal to `sid`. */
  function LocateFrom(sid: bytes, calls: seq<bytes>, from: nat): (n: Option<nat>)
    requires from <= |calls|
    ensures n.Some? ==> from <= n.value < |calls| && calls[n.value] == sid
    ensures forall k | from <= k < (if n.Some? then n.value else |calls|) :: calls[k] != sid
    decreases |calls| - from
  {
    if from == |calls| then None
    else if calls[from] == sid then Some(from)
    else LocateFrom(sid, calls, from + 1)
  }

  /** The draw is found by value; that is the draw that made the session id exactly when no earlier draw equals it. */
  lemma LocatedIff(sid: bytes, calls: seq<bytes>, i: nat)
    requires i < |calls| && calls[i] == sid
    ensures LocateFrom(sid, calls, 0).Some?
    ensures LocateFrom(sid, calls, 0) == Some(i) <==> forall k | 0 <= k < i :: calls[k] != sid
  {
  }

  // ---------------------------------------------------------------------------
  // Authentication data
  // ---------------------------------------------------------------------------

  type Seconds = n: nat | n < 0x1_0000_0000

  /** version(3), reserved(1), big-endian seconds(4), short id padded with zeros(8). */
  function AuthPlaintext(shortId: bytes, secs: Seconds): (r: Result<bytes>)
    ensures r.Ok? <==> |shortId| <= SHORT_ID_LEN
    ensures r.Ok? ==> |r.value| == AUTH_PLAINTEXT_LEN
  {
    if |shortId| > SHORT_ID_LEN then Err(ShortIdTooLong)
    else Ok(CLIENT_VERSION + [0] + Be32(secs) + (shortId + Zeros(SHORT_ID_LEN - |shortId|)))
  }

  function Overwrite(s: bytes, at: nat, src: bytes): (r: bytes)
    requires at + |src| <= |s|
    ensures |r| == |s|
  {
    s[..at] + src + s[at + |src|..]
  }

  /** The source's `copy_from_slice`. */
  method CopyInto(a: array<byte>, at: nat, src: bytes)
    requires at + |src| <= a.Length
    modifies a
    ensures a[..] == Overwrite(old(a[..]), at, src)
  {
    forall k | 0 <= k < |src| {
      a[at + k] := src[k];
    }
  }

  lemma AuthLayout(be: bytes, shortId: bytes)
    requires |be| == 4 && |shortId| <= SHORT_ID_LEN
    ensures var p := Overwrite(Overwrite(Zeros(AUTH_PLAINTEXT_LEN), 0, CLIENT_VERSION)[3 := 0], 4, be);
            Overwrite(p, 8, shortId) == CLIENT_VERSION + [0] + be + (shortId + Zeros(SHORT_ID_LEN - |shortId|))
  {
    var q := Overwrite(Zeros(AUTH_PLAINTEXT_LEN), 0, CLIENT_VERSION);
    assert q[3..] == Zeros(AUTH_PLAINTEXT_LEN - 3);
    assert q[3 := 0][8..] == Zeros(SHORT_ID_LEN);
    var p := Overwrite(q[3 := 0], 4, be);
    assert p[8..] == Zeros(SHORT_ID_LEN);
    assert p[..8] == CLIENT_VERSION + [0] + be;
    assert p[8 + |shortId|..] == Zeros(SHORT_ID_LEN - |shortId|);
  }

  method BuildAuthPlaintext(shortId: bytes, secs: Seconds) returns (r: Result<bytes>)
    ensures r == AuthPlaintext(shortId, secs)
  {
    if |shortId| > SHORT_ID_LEN {
      return Err(ShortIdTooLong);
    }
    hide Overwrite, Be32;
    var p := new byte[AUTH_PLAINTEXT_LEN](_ => 0);
    assert p[..] == Zeros(AUTH_PLAINTEXT_LEN);
    CopyInto(p, 0, CLIENT_VERSION);
    ghost var versioned := p[..];
    p[3] := 0;
    assert p[..] == versioned[3 := 0];
    CopyInto(p, 4, Be32(secs));
    CopyInto(p, 8, shortId);
    AuthLayout(Be32(secs), shortId);
    r := Ok(p[..]);
  }

  /** What a server reads from the opened plaintext. */
  datatype AuthFields = AuthFields(version: bytes, reserved: byte, secs: nat, shortId: bytes)

  function ReadAuth(p: bytes): AuthFields
    requires |p| == AUTH_PLAINTEXT_LEN
  {
    AuthFields(p[..3], p[3], U16(p[4], p[5]) * 0x1_0000 + U16(p[6], p[7]), p[8..])
  }

  lemma ReadBuilt(shortId: bytes, secs: Seconds)
    requires |shortId| <= SHORT_ID_LEN
    ensures ReadAuth(AuthPlaintext(shortId, secs).value)
         == AuthFields([26, 7, 28], 0, secs, shortId + Zeros(8 - |shortId|))
  {
    var p := AuthPlaintext(shortId, secs).value;
    assert p[4..8] == Be32(secs);
    assert p[4] == Be32(secs)[0] && p[5] == Be32(secs)[1] && p[6] == Be32(secs)[2] && p[7] == Be32(secs)[3];
  }

  function AuthKey(c: Crypto, secret: Block, public: Block, random: Block): Result<Block> {
    var shared := c.x25519(secret, public);
    if shared == Zeros(BLOCK_LEN) then Err(ZeroSharedSecret)
    else Ok(c.hkdf(shared, random[..HKDF_SALT_LEN], HKDF_INFO))
  }

  function SealSessionId(c: Crypto, key: Block, nonce: bytes, aad: bytes, plain: bytes): Result<Block> {
    var out := c.seal(key, nonce, aad, plain);
    if out == None then Err(SealFailed)
    else if |out.value| != SESSION_ID_LEN then Err(SealedWrongSize)
    else Ok(out.value)
  }

  // ---------------------------------------------------------------------------
  // The two passes
  // ---------------------------------------------------------------------------

  datatype Config = Config(publicKey: Block, shortId: bytes)

  datatype Prepared =
    Prepared(seed: Block, kxSecret: Block, sessionIdCall: nat, sessionId: Block, authKey: Block, callCount: nat)

  /** Everything after the first pass's draws and records are known. */
  function Sealing(c: Crypto, cfg: Config, seed: Block, kxSecret: Block, secs: Seconds, hello: Hello, calls: seq<bytes>)
    : Result<Prepared>
  {
    var located := LocateFrom(SessionId(hello), calls, 0);
    if located == None then Err(SessionIdNotLocated)
    else
      var key := AuthKey(c, kxSecret, cfg.publicKey, Random(hello));
      if key.Err? then Err(key.error)
      else
        var plain := AuthPlaintext(cfg.shortId, secs);
        if plain.Err? then Err(plain.error)
        else
          var sid := SealSessionId(c, key.value, Random(hello)[HKDF_SALT_LEN..], Aad(hello), plain.value);
          if sid.Err? then Err(sid.error)
          else Ok(Prepared(seed, kxSecret, located.value, sid.value, key.value, |calls|))
  }

  function HelloOf(records: Option<bytes>): Result<Hello> {
    if records == None then Err(BuildFailed) else ClientHelloBody(records.value)
  }

  function Preparing(c: Crypto, cfg: Config, seed: Block, kxSecret: Block, secs: Seconds, first: Played): Result<Prepared> {
    var hello := HelloOf(first.records);
    if hello.Err? then Err(hello.error) else Sealing(c, cfg, seed, kxSecret, secs, hello.value, first.calls)
  }

  /** The two self-checks before the second pass's records may be sent. */
  function Checked(p: Prepared, second: Played): Result<Option<bytes>> {
    if |second.calls| != p.callCount || |second.calls| <= p.sessionIdCall then Err(NotUnderScript)
    else if second.calls[p.sessionIdCall] != p.sessionId then Err(DrawNotReplaced)
    else Ok(second.records)
  }

  function Substituted(p: Prepared): Option<Replace> {
    Some(Replace(p.sessionIdCall, p.sessionId))
  }

  /** Pass A: `b` is the client's hello construction; nothing is sent. */
  method Prepare(c: Crypto, cfg: Config, rng: ScriptedRandom, seed: Block, kxSecret: Block, secs: Seconds, b: Builder)
    returns (r: Result<Prepared>)
    modifies rng
    ensures rng.script == null
    ensures r == Preparing(c, cfg, seed, kxSecret, secs, Play(c.hash, seed, None, 0, [], b))
  {
    var records, calls := rng.WithScript(c.hash, seed, None, b);
    var hello := HelloOf(records);
    if hello.Err? {
      return Err(hello.error);
    }
    var located := LocateFrom(SessionId(hello.value), calls, 0);
    if located == None {
      return Err(SessionIdNotLocated);
    }
    var random := Random(hello.value);
    var key := AuthKey(c, kxSecret, cfg.publicKey, random);
    if key.Err? {
      return Err(key.error);
    }
    var nonce := random[HKDF_SALT_LEN..];
    var plain := BuildAuthPlaintext(cfg.shortId, secs);
    if plain.Err? {
      return Err(plain.error);
    }
    var aad := AadFromHello(hello.value);
    var sid := SealSessionId(c, key.value, nonce, aad, plain.value);
    if sid.Err? {
      return Err(sid.error);
    }
    r := Ok(Prepared(seed, kxSecret, located.value, sid.value, key.value, |calls|));
  }

  /** Pass B: `again` is the construction under the second script. On Ok, its records are what goes on the wire. */
  method Connect(c: Crypto, cfg: Config, rng: ScriptedRandom, seed: Block, kxSecret: Block, secs: Seconds,
                 b: Builder, again: Builder)
    returns (r: Result<Option<bytes>>)
    modifies rng
    ensures rng.script == null
    ensures var p := Preparing(c, cfg, seed, kxSecret, secs, Play(c.hash, seed, None, 0, [], b));
            r == if p.Err? then Err(p.error)
                 else Checked(p.value, Play(c.hash, seed, Substituted(p.value), 0, [], again))
  {
    var p := Prepare(c, cfg, rng, seed, kxSecret, secs, b);
    if p.Err? {
      return Err(p.error);
    }
    var records, calls := rng.WithScript(c.hash, p.value.seed, Substituted(p.value), again);
    if |calls| != p.value.callCount {
      return Err(NotUnderScript);
    }
    if calls[p.value.sessionIdCall] != p.value.sessionId {
      return Err(DrawNotReplaced);
    }
    r := Ok(records);
  }

  // ---------------------------------------------------------------------------
  // The fixed point
  // ---------------------------------------------------------------------------

  /**
   * What the TLS library must do for the two passes to agree: draw `i` is the 32-byte session id, and any other
   * value there is accepted and changes nothing of the hello but the session id.
   */
  ghost predicate Transparent(b: Builder, i: nat, draws: seq<bytes>) {
    Places(b, i, draws) && forall sid: Block :: Takes(b, i, draws, sid)
  }

  /** With these draws the construction emits a hello whose session id is draw `i`. */
  ghost predicate Places(b: Builder, i: nat, draws: seq<bytes>) {
    && i < |draws|
    && HelloOf(b.emit(draws)).Ok?
    && draws[i] == SessionId(HelloOf(b.emit(draws)).value)
  }

  ghost predicate Takes(b: Builder, i: nat, draws: seq<bytes>, sid: Block)
    requires i < |draws| && HelloOf(b.emit(draws)).Ok?
  {
    && Accepts(b, draws[i := sid])
    && HelloOf(b.emit(draws[i := sid])) == Ok(WithSessionId(HelloOf(b.emit(draws)).value, sid))
  }

  lemma Exchanged(b: Builder, i: nat, draws: seq<bytes>, sid: Block)
    requires Transparent(b, i, draws)
    ensures |draws[i]| == |sid| && Accepts(b, draws[i := sid])
    ensures HelloOf(b.emit(draws[i := sid])) == Ok(WithSessionId(HelloOf(b.emit(draws)).value, sid))
  {
    hide WithSessionId, HelloOf;
    assert Takes(b, i, draws, sid);
  }

  // The server's side is written from the format alone, offsets and all.

  /** The authentication key: the shared secret expanded with the first 20 bytes of the hello's random and "REALITY". */
  function ServerKey(c: Crypto, serverSecret: Block, clientPublic: Block, hello: bytes): Block
    requires |hello| >= 71
  {
    c.hkdf(c.x25519(serverSecret, clientPublic), hello[6..26], [0x52, 0x45, 0x41, 0x4C, 0x49, 0x54, 0x59])
  }

  /**
   * What the server makes of the hello it received: the session id opened with the last 12 bytes of the random as nonce,
   * against the hello with its session id zeroed.
   */
  function ServerOpens(c: Crypto, serverSecret: Block, clientPublic: Block, hello: bytes): Option<bytes>
    requires |hello| >= 71
  {
    c.open(ServerKey(c, serverSecret, clientPublic, hello), hello[26..38],
           hello[..39] + seq(32, _ => 0) + hello[71..], hello[39..71])
  }

  /** Where the client's fields lie for the server, in a hello with session id `sid`. */
  lemma ServerView(h: Hello, sid: Block)
    ensures var w := WithSessionId(h, sid);
            && w[6..26] == Random(h)[..HKDF_SALT_LEN] && w[26..38] == Random(h)[HKDF_SALT_LEN..]
            && w[39..71] == sid && w[..39] + seq(32, _ => 0) + w[71..] == Aad(h)
  {
    var w := WithSessionId(h, sid);
    assert w[6..26] == w[..39][6..26] == h[..39][6..26] == h[6..26];
    assert w[26..38] == w[..39][26..38] == h[..39][26..38] == h[26..38];
    assert seq(32, _ => 0) == Zeros(32);
  }

  /**
   * A hello built field by field (RFC 8446 section 4.1.2: type, length, version, random, session id) inside a handshake
   * record is what the client reads back from its own records, with that random and session id.
   */
  lemma HelloAccepted(recordVersion: bytes, length: bytes, version: bytes, random: Block, sid: Block, rest: bytes,
                      more: bytes)
    requires |recordVersion| == 2 && |length| == 3 && |version| == 2 && 71 + |rest| < 0x1_0000
    ensures var hello := [0x01] + length + version + random + [32] + sid + rest;
            && HelloOf(Some([0x16] + recordVersion + Be16(|hello|) + hello + more)) == Ok(hello)
            && Random(hello) == random && SessionId(hello) == sid
  {
    var hello: bytes := [0x01] + length + version + random + [32] + sid + rest;
    var head: bytes := [0x16] + recordVersion + Be16(|hello|);
    var records := head + hello + more;
    HelloFields(length, version, random, sid, rest);
    Assoc(head, hello, more);
    Cut(head, hello + more);
    Cut(hello, more);
    assert head[3] == Be16(|hello|)[0] && head[4] == Be16(|hello|)[1];
    assert records[3] == head[3] && records[4] == head[4] && records[0] == 0x16;
    assert records[5..5 + |hello|] == records[5..][..|hello|] == hello;
  }

  /** Why records are refused, checked in this order. */
  lemma WhyRefused(records: bytes)
    ensures var r := HelloOf(Some(records));
            && (r == Err(NotHandshakeRecord) <==> |records| < 5 || records[0] != 0x16)
            && (|records| >= 5 && records[0] == 0x16 ==>
                  var len := U16(records[3], records[4]);
                  && (r == Err(TruncatedRecord) <==> |records| < 5 + len)
                  && (|records| >= 5 + len ==>
                        && (r == Err(NotClientHello) <==> len == 0 || records[5] != 1)
                        && (r == Err(HelloTooShort) <==> 0 < len < 71 && records[5] == 1)))
  {
    if |records| >= 5 && 5 + U16(records[3], records[4]) <= |records| && U16(records[3], records[4]) > 0 {
      assert records[5..5 + U16(records[3], records[4])][0] == records[5];
    }
  }

  /** Exactly which records the client accepts as its own hello, and what it takes from them. */
  lemma HelloAcceptedIff(records: bytes)
    ensures HelloOf(Some(records)).Ok? <==>
            && |records| >= 76 && records[0] == 0x16 && records[5] == 1
            && 71 <= U16(records[3], records[4]) && 5 + U16(records[3], records[4]) <= |records|
    ensures HelloOf(Some(records)).Ok? ==>
              HelloOf(Some(records)).value == records[5..5 + U16(records[3], records[4])]
  {
    if |records| >= 5 && 5 + U16(records[3], records[4]) <= |records| && U16(records[3], records[4]) > 0 {
      assert records[5..5 + U16(records[3], records[4])][0] == records[5];
    }
  }

  lemma HelloFields(length: bytes, version: bytes, random: Block, sid: Block, rest: bytes)
    requires |length| == 3 && |version| == 2
    ensures var hello: bytes := [0x01] + length + version + random + [32] + sid + rest;
            |hello| == 71 + |rest| && hello[0] == 0x01 && hello[6..38] == random && hello[39..71] == sid
  {
    var front: bytes := [0x01] + length + version;
    var hello := front + random + [32] + sid + rest;
    assert front + random + [32] + sid == front + (random + ([32] + sid));
    assert hello[6..38] == random;
    assert hello[39..71] == sid;
  }

  /** The first pass succeeds for every usable key and short id, and for no other. */
  lemma PrepareIff(c: Crypto, cfg: Config, seed: Block, kxSecret: Block, secs: Seconds, b: Builder, i: nat)
    requires Lawful(c)
    requires Transparent(b, i, Play(c.hash, seed, None, 0, [], b).calls)
    ensures Preparing(c, cfg, seed, kxSecret, secs, Play(c.hash, seed, None, 0, [], b)).Ok? <==>
            c.x25519(kxSecret, cfg.publicKey) != Zeros(BLOCK_LEN) && |cfg.shortId| <= SHORT_ID_LEN
  {
    hide Play, Answers, HelloOf, WithSessionId;
    EmitsItsDraws(c.hash, seed, b);
    var first := Play(c.hash, seed, None, 0, [], b);
    LocatedIff(SessionId(HelloOf(first.records).value), first.calls, i);
  }

  lemma EmitsItsDraws(hash: bytes -> Block, seed: Block, b: Builder)
    ensures var first := Play(hash, seed, None, 0, [], b);
            first.records == b.emit(first.calls)
  {
    hide Scripted, Slice;
    var draws := PlayLogs(hash, seed, None, 0, [], b);
    NilLeft(draws);
  }

  /**
   * The fixed point: pass B draws what pass A drew but for the session id, its hello is pass A's with the sealed
   * session id, both have the same authenticated data, and the self-checks let it out.
   */
  lemma PassesAgree(c: Crypto, cfg: Config, seed: Block, kxSecret: Block, secs: Seconds, b: Builder, i: nat)
    requires var first := Play(c.hash, seed, None, 0, [], b);
             && Transparent(b, i, first.calls)
             && (forall k | 0 <= k < i :: first.calls[k] != first.calls[i])
             && Preparing(c, cfg, seed, kxSecret, secs, first).Ok?
    ensures var first := Play(c.hash, seed, None, 0, [], b);
            var p := Preparing(c, cfg, seed, kxSecret, secs, first).value;
            var second := Play(c.hash, seed, Substituted(p), 0, [], b);
            && HelloOf(first.records).Ok?
            && p.sessionIdCall == i
            && second.calls == first.calls[i := p.sessionId]
            && HelloOf(second.records) == Ok(WithSessionId(HelloOf(first.records).value, p.sessionId))
            && Aad(HelloOf(second.records).value) == Aad(HelloOf(first.records).value)
            && Checked(p, second) == Ok(second.records)
  {
    hide Play, Answers, HelloOf, WithSessionId, AuthPlaintext;
    var first := Play(c.hash, seed, None, 0, [], b);
    EmitsItsDraws(c.hash, seed, b);
    LocatedIff(SessionId(HelloOf(first.records).value), first.calls, i);
    var p := Preparing(c, cfg, seed, kxSecret, secs, first).value;
    Exchanged(b, i, first.calls, p.sessionId);
    Replay(c.hash, seed, b, i, p.sessionId);
    AadIgnoresSessionId(HelloOf(first.records).value, p.sessionId);
  }

  /**
   * The server recovers exactly the version, the time and the padded short id from what pass B sends, and derives the
   * key the client goes on to check its certificate with.
   */
  lemma ServerRecovers(c: Crypto, cfg: Config, serverSecret: Block, seed: Block, kxSecret: Block, secs: Seconds, b: Builder,
                       i: nat)
    requires Lawful(c) && cfg.publicKey == c.PublicKey(serverSecret)
    requires var first := Play(c.hash, seed, None, 0, [], b);
             && Transparent(b, i, first.calls)
             && (forall k | 0 <= k < i :: first.calls[k] != first.calls[i])
             && Preparing(c, cfg, seed, kxSecret, secs, first).Ok?
    ensures var p := Preparing(c, cfg, seed, kxSecret, secs, Play(c.hash, seed, None, 0, [], b)).value;
            var sent := HelloOf(Play(c.hash, seed, Substituted(p), 0, [], b).records);
            && sent.Ok?
            && |cfg.shortId| <= 8
            && ServerKey(c, serverSecret, c.PublicKey(kxSecret), sent.value) == p.authKey
            && var plain := ServerOpens(c, serverSecret, c.PublicKey(kxSecret), sent.value);
               && plain.Some? && |plain.value| == 16
               && ReadAuth(plain.value) == AuthFields([26, 7, 28], 0, secs, cfg.shortId + Zeros(8 - |cfg.shortId|))
  {
    hide Play, Answers, HelloOf, WithSessionId, AuthPlaintext, ReadAuth, Transparent;
    PassesAgree(c, cfg, seed, kxSecret, secs, b, i);
    var first := Play(c.hash, seed, None, 0, [], b);
    var p := Preparing(c, cfg, seed, kxSecret, secs, first).value;
    SealedOpens(c, cfg, serverSecret, seed, kxSecret, secs, HelloOf(first.records).value, first.calls);
    ReadBuilt(cfg.shortId, secs);
  }

  /** Opening on the server inverts sealing on the client, for the hello that carries the sealed session id. */
  lemma SealedOpens(c: Crypto, cfg: Config, serverSecret: Block, seed: Block, kxSecret: Block, secs: Seconds, hello: Hello,
                    calls: seq<bytes>)
    requires Lawful(c) && cfg.publicKey == c.PublicKey(serverSecret)
    requires Sealing(c, cfg, seed, kxSecret, secs, hello, calls).Ok?
    ensures |cfg.shortId| <= SHORT_ID_LEN
    ensures var sid := Sealing(c, cfg, seed, kxSecret, secs, hello, calls).value.sessionId;
            ServerOpens(c, serverSecret, c.PublicKey(kxSecret), WithSessionId(hello, sid))
            == Some(AuthPlaintext(cfg.shortId, secs).value)
    ensures var p := Sealing(c, cfg, seed, kxSecret, secs, hello, calls).value;
            ServerKey(c, serverSecret, c.PublicKey(kxSecret), WithSessionId(hello, p.sessionId)) == p.authKey
  {
    hide WithSessionId, LocateFrom, Random, Aad, AuthPlaintext;
    var sid := Sealing(c, cfg, seed, kxSecret, secs, hello, calls).value.sessionId;
    ServerView(hello, sid);
  }

  /**
   * Why the draws must differ: when an earlier draw equals the session id, that earlier draw is replaced instead and
   * the self-checks do not notice; as long as the construction still makes draw `i` the session id, the hello that goes
   * out carries the first pass's session id and not the sealed one.
   */
  lemma CollisionEscapes(c: Crypto, cfg: Config, seed: Block, kxSecret: Block, secs: Seconds, b: Builder, i: nat, n: nat)
    requires var first := Play(c.hash, seed, None, 0, [], b);
             && n < i && Transparent(b, i, first.calls)
             && LocateFrom(first.calls[i], first.calls, 0) == Some(n)
             && Preparing(c, cfg, seed, kxSecret, secs, first).Ok?
             && Accepts(b, first.calls[n := Preparing(c, cfg, seed, kxSecret, secs, first).value.sessionId])
    ensures var first := Play(c.hash, seed, None, 0, [], b);
            var p := Preparing(c, cfg, seed, kxSecret, secs, first).value;
            var second := Play(c.hash, seed, Substituted(p), 0, [], b);
            && p.sessionIdCall == n && Checked(p, second) == Ok(second.records)
            && i < |second.calls| && second.calls[i] == first.calls[i]
            && (Places(b, i, second.calls) ==>
                  && HelloOf(second.records).Ok?
                  && SessionId(HelloOf(second.records).value) == SessionId(HelloOf(first.records).value))
  {
    hide Play, Answers, HelloOf, WithSessionId, AuthPlaintext, Accepts, SessionId;
    var first := Play(c.hash, seed, None, 0, [], b);
    EmitsItsDraws(c.hash, seed, b);
    Replay(c.hash, seed, b, n, Preparing(c, cfg, seed, kxSecret, secs, first).value.sessionId);
  }

  /** The self-checks let the records out exactly when every draw of pass A was made again and the right one was replaced. */
  lemma SelfChecksIff(p: Prepared, second: Played)
    requires p.sessionIdCall < p.callCount
    ensures Checked(p, second).Ok? <==>
            |second.calls| == p.callCount && second.calls[p.sessionIdCall] == p.sessionId
    ensures Checked(p, second).Ok? ==> Checked(p, second).value == second.records
  {
  }

  /** A library that built its hello outside the script would be caught before anything is sent. */
  lemma LazyBuildCaught(p: Prepared, hash: bytes -> Block, again: Builder)
    requires again.Wants([]) == None && p.sessionIdCall < p.callCount
    ensures Checked(p, Play(hash, p.seed, Substituted(p), 0, [], again)) == Err(NotUnderScript)
  {
  }
}
