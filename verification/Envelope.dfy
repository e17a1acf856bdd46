/** The v2 envelope: nonce, associated data and the inner frame (internal/aes/envelope.go). */
module Envelope {
  import opened Bytes

  const TAG_LEN: nat := 16
  const KEY_LEN: nat := 32
  const NONCE_LEN: nat := 12
  const STREAM_ID_LEN: nat := 16
  const MAX_RECORD_PLAIN: nat := 4096
  const INNER_HEADER_LEN: nat := 3
  const MAX_PAYLOAD: nat := MAX_RECORD_PLAIN - INNER_HEADER_LEN

  // uint32 record counters wrap here.
  const COUNTERS: nat := 0x1_0000_0000

  const TYPE_HEARTBEAT: byte := 0x00
  const TYPE_JSON: byte := 0x01
  const TYPE_STREAM_END: byte := 0x7F

  const AAD_PREFIX: Bytes := [67, 73, 66, 50]                          // CIB2
  const REQUEST: Bytes := [82, 69, 81, 85, 69, 83, 84]                 // REQUEST

  /** The header fields every record of a stream is bound to. */
  datatype Headers = Headers(keyId: Bytes, streamId: Bytes, streamIdHex: Bytes)

  /** Everything but the counter that enters a record's nonce and associated data. */
  datatype Binding = Binding(key: Bytes, headers: Headers, direction: Bytes, route: Bytes)
  {
    // The stream id is a 16-byte array in both implementations.
    predicate Shaped() {
      |headers.streamId| == STREAM_ID_LEN
    }

    // HTTP header values and the two directions cannot carry a newline; the
    // route is a decoded URL path and may.
    predicate WellFormed() {
      && Shaped()
      && |key| == KEY_LEN
      && NL !in headers.keyId && NL !in headers.streamIdHex && NL !in direction
    }
  }

  datatype Record = Record(typ: byte, payload: Bytes)

  datatype InnerError = TooLarge | InnerShort | InnerLength

  datatype Result<+T, +E> = Success(value: T) | Failure(error: E)

  // ----- nonce --------------------------------------------------------------

  function Nonce(streamId: Bytes, counter: nat): (n: Bytes)
    requires |streamId| == STREAM_ID_LEN && counter < COUNTERS
    ensures |n| == NONCE_LEN
  {
    streamId[..8] + BigEndian(4, counter)
  }

  method DeriveNonce(streamId: array<byte>, counter: nat) returns (n: array<byte>)
    requires streamId.Length == STREAM_ID_LEN && counter < COUNTERS
    ensures fresh(n) && n[..] == Nonce(streamId[..], counter)
    ensures n.Length == 12 && (forall i | 0 <= i < 8 :: n[i] == streamId[i])
    ensures n[8] as int * 0x100_0000 + n[9] as int * 0x1_0000 + n[10] as int * 0x100 + n[11] as int == counter
  {
    n := new byte[NONCE_LEN](_ => 0);
    forall i | 0 <= i < 8 {
      n[i] := streamId[i];
    }
    PutUint32(n, 8, counter);
    assert n[..8] == streamId[..8];
    assert n[..] == n[..8] + n[8..12];
    NonceReads(streamId[..], counter);
  }

  /** The nonce byte by byte. */
  lemma NonceReads(streamId: Bytes, counter: nat)
    requires |streamId| == STREAM_ID_LEN && counter < COUNTERS
    ensures var n := Nonce(streamId, counter);
            && |n| == 12 && n[..8] == streamId[..8]
            && n[8] as int * 0x100_0000 + n[9] as int * 0x1_0000 + n[10] as int * 0x100 + n[11] as int == counter
  {
    BigEndian4(counter);
    hide BigEndian;
  }

  /** binary.BigEndian.PutUint32, and the shifts and masks of the C client. */
  method PutUint32(a: array<byte>, at: nat, v: nat)
    requires at + 4 <= a.Length && v < COUNTERS
    modifies a
    ensures a[at..at + 4] == BigEndian(4, v)
    ensures forall i :: 0 <= i < a.Length && !(at <= i < at + 4) ==> a[i] == old(a[i])
  {
    a[at] := v / 0x100_0000;
    a[at + 1] := v / 0x1_0000 % 256;
    a[at + 2] := v / 0x100 % 256;
    a[at + 3] := v % 256;
    BigEndian4(v);
  }

  lemma BigEndian4(v: nat)
    requires v < COUNTERS
    ensures BigEndian(4, v) == [v / 0x100_0000, v / 0x1_0000 % 256, v / 0x100 % 256, v % 256]
  {
    assert BigEndian(1, v / 256 / 256 / 256) == [v / 256 / 256 / 256 % 256];
    assert BigEndian(2, v / 256 / 256) == BigEndian(1, v / 256 / 256 / 256) + [v / 256 / 256 % 256];
    assert BigEndian(3, v / 256) == BigEndian(2, v / 256 / 256) + [v / 256 % 256];
    assert BigEndian(4, v) == BigEndian(3, v / 256) + [v % 256];
  }

  /** The nonce determines the first eight stream bytes and the counter. */
  lemma NonceInjective(s: Bytes, m: nat, t: Bytes, n: nat)
    requires |s| == STREAM_ID_LEN && |t| == STREAM_ID_LEN && m < COUNTERS && n < COUNTERS
    ensures Nonce(s, m) == Nonce(t, n) <==> s[..8] == t[..8] && m == n
  {
    if Nonce(s, m) == Nonce(t, n) {
      assert Nonce(s, m)[..8] == s[..8] && Nonce(t, n)[..8] == t[..8];
      assert Nonce(s, m)[8..] == BigEndian(4, m) && Nonce(t, n)[8..] == BigEndian(4, n);
      assert Pow256(4) == COUNTERS;
      BigEndianInjective(4, m, n);
    }
  }

  // ----- associated data ----------------------------------------------------

  /** The fields, each ended by a newline. */
  function Lines(fields: seq<Bytes>): Bytes {
    if fields == [] then [] else fields[0] + [NL] + Lines(fields[1..])
  }

  function Aad(b: Binding, counter: nat): Bytes {
    Lines([AAD_PREFIX, b.direction, b.headers.keyId, b.route, b.headers.streamIdHex, Decimal(counter)])
  }

  lemma AadUnfolded(b: Binding, counter: nat)
    ensures Aad(b, counter) == AAD_PREFIX + [NL] + (b.direction + [NL] + (b.headers.keyId + [NL] + (b.route + [NL]
                                + (b.headers.streamIdHex + [NL] + (Decimal(counter) + [NL])))))
  {
    var f := [AAD_PREFIX, b.direction, b.headers.keyId, b.route, b.headers.streamIdHex, Decimal(counter)];
    assert f[1..][1..] == f[2..] && f[2..][1..] == f[3..] && f[3..][1..] == f[4..] && f[4..][1..] == f[5..];
    assert Lines(f[5..]) == Decimal(counter) + [NL] + [];
    assert Lines(f[3..]) == f[3] + [NL] + Lines(f[4..]);
    assert Lines(f[1..]) == f[1] + [NL] + Lines(f[2..]);
  }

  /** Associated data as the design gives it: the version, the direction, the key id, the route, the
      stream and the counter in decimal, each ended by a newline. */
  ghost predicate Reads(b: Binding, counter: nat, d: Bytes) {
    exists digits | IsNumeral(digits, counter) ::
      d == [67, 73, 66, 50] + [10] + b.direction + [10] + b.headers.keyId + [10] + b.route + [10]
           + b.headers.streamIdHex + [10] + digits + [10]
  }

  lemma AadReads(b: Binding, counter: nat, d: Bytes)
    ensures Reads(b, counter, d) <==> d == Aad(b, counter)
  {
    DecimalIsNumeral(counter);
    AadUnfolded(b, counter);
    hide Aad, Decimal, IsNumeral, NumberOf;
    AadFlat(b, Decimal(counter));
    forall digits | IsNumeral(digits, counter) ensures digits == Decimal(counter) {
      NumeralIsDecimal(digits, counter);
    }
  }

  lemma AadFlat(b: Binding, digits: Bytes)
    ensures AAD_PREFIX + [NL] + (b.direction + [NL] + (b.headers.keyId + [NL] + (b.route + [NL]
              + (b.headers.streamIdHex + [NL] + (digits + [NL])))))
         == [67, 73, 66, 50] + [10] + b.direction + [10] + b.headers.keyId + [10] + b.route + [10]
            + b.headers.streamIdHex + [10] + digits + [10]
  {
  }

  method BuildAad(b: Binding, counter: nat) returns (out: Bytes)
    requires counter < COUNTERS
    ensures out == Aad(b, counter) && Reads(b, counter, out)
  {
    out := AAD_PREFIX;
    out := out + [NL];
    out := out + b.direction;
    out := out + [NL];
    out := out + b.headers.keyId;
    out := out + [NL];
    out := out + b.route;
    out := out + [NL];
    out := out + b.headers.streamIdHex;
    out := out + [NL];
    out := out + Decimal(counter);
    out := out + [NL];
    AadUnfolded(b, counter);
    hide Aad, Reads, Decimal;
    AadReads(b, counter, out);
  }

  /** Equal associated data means equal direction, key id, route, stream and counter,
      even when the route itself contains newlines. */
  lemma AadInjective(b: Binding, m: nat, c: Binding, n: nat)
    requires b.WellFormed() && c.WellFormed()
    requires Aad(b, m) == Aad(c, n)
    ensures b.direction == c.direction && b.headers.keyId == c.headers.keyId && b.route == c.route
    ensures b.headers.streamIdHex == c.headers.streamIdHex && m == n
  {
    AadUnfolded(b, m);
    AadUnfolded(c, n);
    var bBack := b.route + [NL] + (b.headers.streamIdHex + [NL] + (Decimal(m) + [NL]));
    var cBack := c.route + [NL] + (c.headers.streamIdHex + [NL] + (Decimal(n) + [NL]));
    var bFront := b.headers.keyId + [NL] + bBack;
    var cFront := c.headers.keyId + [NL] + cBack;
    SplitFirst(NL, AAD_PREFIX, b.direction + [NL] + bFront, AAD_PREFIX, c.direction + [NL] + cFront);
    SplitFirst(NL, b.direction, bFront, c.direction, cFront);
    SplitFirst(NL, b.headers.keyId, bBack, c.headers.keyId, cBack);
    PeelBack(b.route, b.headers.streamIdHex, Decimal(m), c.route, c.headers.streamIdHex, Decimal(n));
    DecimalInjective(m, n);
  }

  // The route may contain newlines, so the fields after it are read off from the back.
  lemma PeelBack(r: Bytes, h: Bytes, c: Bytes, q: Bytes, g: Bytes, d: Bytes)
    requires NL !in h && NL !in c && NL !in g && NL !in d
    requires r + [NL] + (h + [NL] + (c + [NL])) == q + [NL] + (g + [NL] + (d + [NL]))
    ensures r == q && h == g && c == d
  {
    var s := r + [NL] + (h + [NL] + (c + [NL]));
    assert s[..|s| - 1] == (r + [NL] + h) + [NL] + c;
    assert s[..|s| - 1] == (q + [NL] + g) + [NL] + d;
    SplitLast(NL, r + [NL] + h, c, q + [NL] + g, d);
    SplitLast(NL, r, h, q, g);
  }

  // ----- inner frame --------------------------------------------------------

  /** Type, 16-bit length and payload. */
  function Framed(r: Record): (s: Bytes)
    requires |r.payload| < 0x1_0000
    ensures |s| == INNER_HEADER_LEN + |r.payload|
  {
    [r.typ] + BE16(|r.payload|) + r.payload
  }

  /** The frame of a payload that an encoder accepts. */
  function Inner(r: Record): (s: Bytes)
    requires |r.payload| <= MAX_PAYLOAD
    ensures |s| == INNER_HEADER_LEN + |r.payload| && 0 < |s| <= MAX_RECORD_PLAIN
  {
    Framed(r)
  }

  method EncodeInner(t: byte, payload: Bytes) returns (res: Result<Bytes, InnerError>)
    ensures |payload| > 4093 ==> res == Failure(TooLarge)
    ensures |payload| <= 4093 ==> res == Success(Inner(Record(t, payload)))
    ensures |payload| <= 4093 ==>
      |res.value| == 3 + |payload| && res.value[0] == t && res.value[1] as int * 256 + res.value[2] as int == |payload| && res.value[3..] == payload
  {
    if |payload| > MAX_PAYLOAD {
      return Failure(TooLarge);
    }
    hide BE16, U16;
    var out := new byte[INNER_HEADER_LEN + |payload|];
    var be := BE16(|payload|);
    out[0] := t;
    out[1] := be[0];
    out[2] := be[1];
    forall i | 0 <= i < |payload| {
      out[INNER_HEADER_LEN + i] := payload[i];
    }
    assert out[..3] == [t] + be;
    assert out[3..] == payload;
    assert out[..] == out[..3] + out[3..];
    res := Success(out[..]);
  }

  function DecodeInner(plain: Bytes): (res: Result<Record, InnerError>)
    ensures res.Success? ==> |plain| == INNER_HEADER_LEN + |res.value.payload|
  {
    if |plain| < INNER_HEADER_LEN then
      Failure(InnerShort)
    else
      var n := U16(plain[1], plain[2]);
      if INNER_HEADER_LEN + n != |plain| then
        Failure(InnerLength)
      else
        Success(Record(plain[0], plain[INNER_HEADER_LEN..INNER_HEADER_LEN + n]))
  }

  /** DecodeInner accepts exactly the frames, each as the record it frames; within the record limit
      these are the frames an encoder writes. */
  lemma InnerRoundTrip(plain: Bytes, r: Record)
    ensures DecodeInner(plain) == Success(r) <==> |r.payload| < 0x1_0000 && plain == Framed(r)
    ensures |plain| <= MAX_RECORD_PLAIN ==> (DecodeInner(plain) == Success(r) <==> |r.payload| <= MAX_PAYLOAD && plain == Inner(r))
  {
    if DecodeInner(plain) == Success(r) {
      var n := U16(plain[1], plain[2]);
      assert BE16(n) == [plain[1], plain[2]];
      assert plain == [plain[0]] + [plain[1], plain[2]] + plain[3..3 + n];
    }
    if |r.payload| < 0x1_0000 && plain == Framed(r) {
      assert plain[1] == BE16(|r.payload|)[0] && plain[2] == BE16(|r.payload|)[1];
      assert plain[3..3 + |r.payload|] == r.payload;
    }
  }

  /** When a plaintext is no frame, and why. */
  lemma InnerErrors(plain: Bytes)
    ensures DecodeInner(plain) == Failure(InnerShort) <==> |plain| < 3
    ensures DecodeInner(plain) == Failure(InnerLength) <==> |plain| >= 3 && 3 + plain[1] as int * 256 + plain[2] as int != |plain|
  {
  }
}
