/** The C client's response parser (clients/c/cib_aes.c): a fixed staging buffer fed by
    pushes of any size, proved against a decoder that sees the whole body at once. */
module CClient {
  import opened Bytes
  import opened Envelope
  import opened Streams

  const MAX_AAD: nat := 512
  const STAGING: nat := 2 + MAX_RECORD_PLAIN + TAG_LEN

  datatype Error = TooBig | BadEnvelope | TagMismatch

  datatype Status = Running | Done | Aborted | Failed(error: Error)

  /** The callback sees the records so far, the last one being new, and says whether to go on. */
  datatype Config = Config(a: Aead, b: Binding, cb: seq<Record> -> bool)

  /** What the callback was given, the state of the transfer, and the bytes kept for later. */
  datatype State = State(delivered: seq<Record>, status: Status, pending: Bytes)

  const INITIAL := State([], Running, [])

  // ----- codec pieces -------------------------------------------------------

  method NonceInto(streamId: array<byte>, counter: nat, out: array<byte>)
    requires streamId.Length == STREAM_ID_LEN && out.Length == NONCE_LEN && counter < COUNTERS
    requires streamId != out
    modifies out
    ensures out[..] == Nonce(streamId[..], counter) && forall i | 0 <= i < 8 :: out[i] == streamId[i]
    ensures out[8] as int * 0x100_0000 + out[9] as int * 0x1_0000 + out[10] as int * 0x100 + out[11] as int == counter
  {
    Envelope.NonceReads(streamId[..], counter);
    forall i | 0 <= i < 8 {
      out[i] := streamId[i];
    }
    PutUint32(out, 8, counter);
    assert out[..8] == streamId[..8];
    assert out[..] == out[..8] + out[8..12];
  }

  /** snprintf into a fixed buffer: the text that fits with its final NUL, and 0 when it does not. */
  method PrintAad(b: Binding, counter: nat, out: array<byte>) returns (n: nat)
    requires counter < COUNTERS && out.Length > 0
    modifies out
    ensures |Aad(b, counter)| < out.Length ==> n == |Aad(b, counter)| && out[..n] == Aad(b, counter)
    ensures |Aad(b, counter)| < out.Length ==> Reads(b, counter, out[..n])
    ensures |Aad(b, counter)| >= out.Length ==> n == 0
  {
    var text := Envelope.BuildAad(b, counter);
    hide Aad, Reads;
    var fit := if |text| < out.Length then |text| else out.Length - 1;
    forall i | 0 <= i < fit {
      out[i] := text[i];
    }
    out[fit] := 0;
    n := if |text| >= out.Length then 0 else |text|;
  }

  method EncodeInto(t: byte, payload: Bytes, out: array<byte>) returns (n: int)
    modifies out
    ensures n == -1 <==> |payload| > MAX_PAYLOAD || out.Length < |payload| + 3
    ensures n != -1 ==> 0 <= n <= out.Length && out[..n] == Inner(Record(t, payload))
    ensures n != -1 ==> n == 3 + |payload| && out[0] == t && out[1] as int * 256 + out[2] as int == |payload| && out[3..n] == payload
  {
    if |payload| > MAX_PAYLOAD || out.Length < |payload| + 3 {
      return -1;
    }
    out[0] := t;
    out[1] := |payload| / 256;
    out[2] := |payload| % 256;
    forall i | 0 <= i < |payload| {
      out[3 + i] := payload[i];
    }
    n := |payload| + 3;
    assert out[..3] == [t] + BE16(|payload|);
    assert out[..n] == out[..3] + out[3..n];
    assert out[3..n] == payload;
  }

  // ----- the decoder --------------------------------------------------------

  /** Consumes complete records from the pending bytes, with no limit on how many there are. */
  function Drain(c: Config, delivered: seq<Record>, pending: Bytes): State
    requires c.b.Shaped()
    decreases |pending|
  {
    if |pending| < 2 then State(delivered, Running, pending)
    else
      var n := U16(pending[0], pending[1]);
      if n == 0 then State(delivered, Done, [])
      else if n > MAX_RECORD_PLAIN then State(delivered, Failed(TooBig), pending)
      else if |pending| < 2 + n + TAG_LEN then State(delivered, Running, pending)
      else
        var taken := Take(c, |delivered|, pending[2..2 + n + TAG_LEN]);
        if taken.Failure? then State(delivered, Failed(taken.error), pending)
        else if !c.cb(delivered + [taken.value]) then State(delivered + [taken.value], Aborted, pending)
        else Drain(c, delivered + [taken.value], pending[2 + n + TAG_LEN..])
  }

  /** Opens and unpacks the i-th record's ciphertext and tag. */
  function Take(c: Config, i: nat, sealed: Bytes): Result<Record, Error>
    requires c.b.Shaped()
  {
    if |AadAt(c.b, i)| >= MAX_AAD then Failure(BadEnvelope)
    else
      match c.a.open(c.b.key, NonceAt(c.b, i), AadAt(c.b, i), sealed)
      case None => Failure(TagMismatch)
      case Some(plain) =>
        match DecodeInner(plain)
        case Failure(_) => Failure(BadEnvelope)
        case Success(r) => Success(r)
  }

  function Whole(c: Config, body: Bytes): State
    requires c.b.Shaped()
  {
    Drain(c, [], body)
  }

  // ----- pushes -------------------------------------------------------------

  function Push(c: Config, s: State, chunk: Bytes): State
    requires c.b.Shaped()
  {
    if s.status != Running then s
    else if |s.pending| + |chunk| > STAGING then s.(status := Failed(TooBig))
    else Drain(c, s.delivered, s.pending + chunk)
  }

  function Feed(c: Config, s: State, chunks: seq<Bytes>): State
    requires c.b.Shaped()
    decreases |chunks|
  {
    if chunks == [] then s else Feed(c, Push(c, s, chunks[0]), chunks[1..])
  }

  /** How many pushes are taken in before one that does not fit the staging buffer. */
  function Accepted(c: Config, s: State, chunks: seq<Bytes>): (k: nat)
    requires c.b.Shaped()
    ensures k <= |chunks|
    decreases |chunks|
  {
    if chunks == [] then 0
    else if s.status == Running && |s.pending| + |chunks[0]| > STAGING then 0
    else 1 + Accepted(c, Push(c, s, chunks[0]), chunks[1..])
  }

  function Concat(chunks: seq<Bytes>): Bytes {
    if chunks == [] then [] else chunks[0] + Concat(chunks[1..])
  }

  /** Equal as far as anyone can tell later: a stopped parser never looks at its bytes again. */
  ghost predicate Same(s: State, t: State) {
    && s.delivered == t.delivered && s.status == t.status
    && (s.status == Running ==> s.pending == t.pending)
  }

  /** A whole record is buffered. */
  predicate HasRecord(pending: Bytes) {
    && |pending| >= 2 && 0 < U16(pending[0], pending[1]) <= MAX_RECORD_PLAIN
    && |pending| >= 2 + U16(pending[0], pending[1]) + TAG_LEN
  }

  lemma DrainTakes(c: Config, delivered: seq<Record>, pending: Bytes)
    requires c.b.Shaped() && HasRecord(pending)
    ensures var cut := 2 + U16(pending[0], pending[1]) + TAG_LEN;
            var taken := Take(c, |delivered|, pending[2..cut]);
            Drain(c, delivered, pending) == if taken.Failure? then State(delivered, Failed(taken.error), pending)
                                            else if c.cb(delivered + [taken.value])
                                            then Drain(c, delivered + [taken.value], pending[cut..])
                                            else State(delivered + [taken.value], Aborted, pending)
  {
    hide NonceAt, AadAt, Take;
  }

  lemma DrainWaits(c: Config, delivered: seq<Record>, p: Bytes, q: Bytes)
    requires c.b.Shaped() && !HasRecord(p)
    ensures var s := Drain(c, delivered, p);
            if s.status == Running then s == State(delivered, Running, p) else Same(Drain(c, delivered, p + q), s)
  {
    hide Take;
    assert |p| >= 2 ==> (p + q)[0] == p[0] && (p + q)[1] == p[1];
  }

  /** Draining, appending and draining again is draining everything at once. */
  lemma {:induction false} DrainAppend(c: Config, delivered: seq<Record>, p: Bytes, q: Bytes)
    requires c.b.Shaped()
    ensures var s := Drain(c, delivered, p);
            if s.status == Running then Drain(c, delivered, p + q) == Drain(c, s.delivered, s.pending + q)
            else Same(Drain(c, delivered, p + q), s)
    decreases |p|
  {
    hide Drain, Take;
    if HasRecord(p) {
      var cut := 2 + U16(p[0], p[1]) + TAG_LEN;
      assert (p + q)[0] == p[0] && (p + q)[1] == p[1];
      assert (p + q)[2..cut] == p[2..cut] && (p + q)[cut..] == p[cut..] + q;
      DrainTakes(c, delivered, p);
      DrainTakes(c, delivered, p + q);
      var taken := Take(c, |delivered|, p[2..cut]);
      if taken.Success? {
        DrainAppend(c, delivered + [taken.value], p[cut..], q);
      }
    } else {
      DrainWaits(c, delivered, p, q);
    }
  }

  /** Less than one record stays behind, so there is always room for another byte. */
  lemma {:induction false} DrainLeavesLessThanARecord(c: Config, delivered: seq<Record>, pending: Bytes)
    requires c.b.Shaped()
    ensures var s := Drain(c, delivered, pending);
            s.status == Running ==>
              && |s.pending| < STAGING
              && (|s.pending| >= 2 ==> |s.pending| < 2 + U16(s.pending[0], s.pending[1]) + TAG_LEN)
    decreases |pending|
  {
    hide Take;
    if |pending| >= 2 {
      var n := U16(pending[0], pending[1]);
      if 0 < n <= MAX_RECORD_PLAIN && |pending| >= 2 + n + TAG_LEN {
        var taken := Take(c, |delivered|, pending[2..2 + n + TAG_LEN]);
        if taken.Success? {
          DrainLeavesLessThanARecord(c, delivered + [taken.value], pending[2 + n + TAG_LEN..]);
        }
      }
    }
  }

  lemma {:induction false} FeedStopped(c: Config, s: State, chunks: seq<Bytes>)
    requires c.b.Shaped() && s.status != Running
    ensures Feed(c, s, chunks) == s && Accepted(c, s, chunks) == |chunks|
    decreases |chunks|
  {
    if chunks != [] {
      FeedStopped(c, s, chunks[1..]);
    }
  }

  lemma {:induction false} FeedIsDrain(c: Config, s: State, chunks: seq<Bytes>)
    requires c.b.Shaped() && s.status == Running && Drain(c, s.delivered, s.pending) == s
    requires Accepted(c, s, chunks) == |chunks|
    ensures Same(Feed(c, s, chunks), Drain(c, s.delivered, s.pending + Concat(chunks)))
    decreases |chunks|
  {
    hide Drain;
    if chunks == [] {
      assert s.pending + Concat(chunks) == s.pending;
    } else {
      var t := Push(c, s, chunks[0]);
      var rest := Concat(chunks[1..]);
      DrainAppend(c, s.delivered, s.pending + chunks[0], rest);
      assert s.pending + Concat(chunks) == s.pending + chunks[0] + rest;
      if t.status == Running {
        DrainIdempotent(c, s.delivered, s.pending + chunks[0]);
        FeedIsDrain(c, t, chunks[1..]);
      } else {
        FeedStopped(c, t, chunks[1..]);
      }
    }
  }

  lemma DrainIdempotent(c: Config, delivered: seq<Record>, p: Bytes)
    requires c.b.Shaped() && Drain(c, delivered, p).status == Running
    ensures var s := Drain(c, delivered, p); Drain(c, s.delivered, s.pending) == s
  {
    hide Drain;
    DrainAppend(c, delivered, p, []);
    assert p + [] == p;
    assert Drain(c, delivered, p).pending + [] == Drain(c, delivered, p).pending;
  }

  lemma {:induction false} FeedSplit(c: Config, s: State, chunks: seq<Bytes>, k: nat)
    requires c.b.Shaped() && k == Accepted(c, s, chunks) && k < |chunks|
    ensures var t := Feed(c, s, chunks[..k]);
            t.status == Running && |t.pending| + |chunks[k]| > STAGING
            && Accepted(c, s, chunks[..k]) == k && Feed(c, s, chunks) == t.(status := Failed(TooBig))
    decreases |chunks|
  {
    hide Drain;
    if k == 0 {
      FeedStopped(c, Push(c, s, chunks[0]), chunks[1..]);
    } else {
      assert chunks[..k][1..] == chunks[1..][..k - 1];
      FeedSplit(c, Push(c, s, chunks[0]), chunks[1..], k - 1);
    }
  }

  /** Chunking is irrelevant up to the first push that overflows the staging buffer: the records,
      and unless a push overflowed the final status, are those of the body seen at once. */
  lemma ChunkingIndependence(c: Config, chunks: seq<Bytes>)
    requires c.b.Shaped()
    ensures var k := Accepted(c, INITIAL, chunks);
            var whole := Whole(c, Concat(chunks[..k]));
            if k == |chunks| then Same(Feed(c, INITIAL, chunks), whole)
            else whole.status == Running && |whole.pending| + |chunks[k]| > STAGING
                 && Feed(c, INITIAL, chunks) == whole.(status := Failed(TooBig))
  {
    hide Drain;
    var k := Accepted(c, INITIAL, chunks);
    assert Drain(c, [], []) == INITIAL by { DrainNothing(c); }
    assert [] + Concat(chunks[..k]) == Concat(chunks[..k]);
    assert chunks[..|chunks|] == chunks;
    if k < |chunks| {
      FeedSplit(c, INITIAL, chunks, k);
    }
    FeedIsDrain(c, INITIAL, chunks[..k]);
  }

  lemma DrainNothing(c: Config)
    requires c.b.Shaped()
    ensures Drain(c, [], []) == INITIAL
  {
  }

  function Singles(body: Bytes): (chunks: seq<Bytes>)
    ensures |chunks| == |body|
  {
    if body == [] then [] else [[body[0]]] + Singles(body[1..])
  }

  lemma {:induction false} ConcatSingles(body: Bytes)
    ensures Concat(Singles(body)) == body
  {
    if body != [] {
      assert Singles(body)[1..] == Singles(body[1..]);
      ConcatSingles(body[1..]);
    }
  }

  lemma {:induction false} SinglesFit(c: Config, s: State, body: Bytes)
    requires c.b.Shaped() && (s.status == Running ==> |s.pending| < STAGING)
    ensures Accepted(c, s, Singles(body)) == |body|
    decreases |body|
  {
    hide Drain;
    if body != [] {
      assert Singles(body)[1..] == Singles(body[1..]);
      if s.status == Running {
        DrainLeavesLessThanARecord(c, s.delivered, s.pending + [body[0]]);
      }
      SinglesFit(c, Push(c, s, [body[0]]), body[1..]);
    }
  }

  /** Fed one byte at a time, the parser handles every body, however long. */
  lemma ByteAtATime(c: Config, body: Bytes)
    requires c.b.Shaped()
    ensures Same(Feed(c, INITIAL, Singles(body)), Whole(c, body))
  {
    hide Drain;
    SinglesFit(c, INITIAL, body);
    ConcatSingles(body);
    assert Singles(body)[..|body|] == Singles(body);
    ChunkingIndependence(c, Singles(body));
  }

  /** Fed as one push, the parser refuses every body longer than the staging buffer, valid or
      not, and delivers nothing. */
  lemma OneBigPush(c: Config, body: Bytes)
    requires c.b.Shaped()
    ensures |body| > 4114 ==> Feed(c, INITIAL, [body]) == State([], Failed(TooBig), [])
    ensures |body| <= 4114 ==> Same(Feed(c, INITIAL, [body]), Whole(c, body))
  {
    hide Drain;
    assert Feed(c, INITIAL, [body]) == Push(c, INITIAL, body);
    assert [] + body == body;
  }

  // ----- the same bytes in Go -----------------------------------------------

  ghost predicate AadFits(b: Binding) {
    forall i: nat :: |AadAt(b, i)| < MAX_AAD
  }

  lemma DecimalLength(n: nat, d: nat)
    requires d > 0
    ensures n < Pow10(d) ==> |Decimal(n)| <= d
    ensures d > 1 && n >= Pow10(d - 1) ==> |Decimal(n)| >= d
    decreases d
  {
    if d > 1 && n >= 10 {
      DecimalLength(n / 10, d - 1);
    }
  }

  function Pow10(d: nat): (p: nat)
    ensures p >= 1 && (d > 0 ==> p >= 10)
  {
    if d == 0 then 1 else 10 * Pow10(d - 1)
  }

  /** The 512-byte buffer holds the associated data of every record exactly when the variable
      fields together have at most 491 bytes. */
  lemma AadFitsWhen(b: Binding)
    ensures AadFits(b) <==> |b.direction| + |b.headers.keyId| + |b.route| + |b.headers.streamIdHex| <= 491
  {
    var fields := |b.direction| + |b.headers.keyId| + |b.route| + |b.headers.streamIdHex|;
    assert Pow10(10) == 100_0000_0000 && Pow10(9) == 10_0000_0000 by {
      assert Pow10(5) == 10_0000;
    }
    forall i: nat ensures |AadAt(b, i)| == fields + 10 + |Decimal(i % COUNTERS)| <= fields + 20 {
      AadUnfolded(b, i % COUNTERS);
      DecimalLength(i % COUNTERS, 10);
    }
    DecimalLength(COUNTERS - 1, 10);
    assert |AadAt(b, COUNTERS - 1)| == fields + 20;
  }

  /** How a stop of the Go reader shows in the C parser once all bytes have been pushed. */
  predicate Corresponds(stop: Stop, s: State) {
    match stop
    case Terminated => s.status == Done
    case Eof => s.status == Running && s.pending == []
    case BadFrame => s.status == Running && s.pending != []
    case TooLong => s.status == Failed(TooBig)
    case BadTag => s.status == Failed(TagMismatch)
    case BadInner(_) => s.status == Failed(BadEnvelope)
    case BadKey => false
  }

  /** Opening and unpacking one record, in both implementations. */
  lemma TakeAgrees(c: Config, i: nat, pending: Bytes)
    requires c.b.Shaped() && |c.b.key| == KEY_LEN && |AadAt(c.b, i)| < MAX_AAD
    requires HasRecord(pending)
    ensures var n := U16(pending[0], pending[1]);
            var rest := pending[2 + n + TAG_LEN..];
            match Take(c, i, pending[2..2 + n + TAG_LEN])
            case Success(r) => Decode(c.a, c.b, i, pending) == Decode(c.a, c.b, i + 1, rest).Prepend([r])
            case Failure(e) =>
              var d := Decode(c.a, c.b, i, pending);
              d.records == [] && (if e == TagMismatch then d.stop == BadTag else e == BadEnvelope && d.stop.BadInner?)
  {
    hide NonceAt, AadAt;
  }

  lemma NoRecordAgrees(c: Config, delivered: seq<Record>, pending: Bytes)
    requires c.b.Shaped() && |c.b.key| == KEY_LEN && !HasRecord(pending)
    ensures var s := Drain(c, delivered, pending); var d := Decode(c.a, c.b, |delivered|, pending);
            s.delivered == delivered && d.records == [] && Corresponds(d.stop, s)
  {
    hide NonceAt, AadAt, Take;
  }

  lemma {:induction false} DrainAgreesWithDecode(c: Config, delivered: seq<Record>, pending: Bytes)
    requires c.b.Shaped() && |c.b.key| == KEY_LEN && AadFits(c.b) && forall ds :: c.cb(ds)
    ensures var s := Drain(c, delivered, pending);
            var d := Decode(c.a, c.b, |delivered|, pending);
            s.delivered == delivered + d.records && Corresponds(d.stop, s)
    decreases |pending|
  {
    hide Drain, Decode, NonceAt, AadAt, Take;
    if HasRecord(pending) {
      var n := U16(pending[0], pending[1]);
      assert |AadAt(c.b, |delivered|)| < MAX_AAD;
      TakeAgrees(c, |delivered|, pending);
      DrainTakes(c, delivered, pending);
      var taken := Take(c, |delivered|, pending[2..2 + n + TAG_LEN]);
      if taken.Success? {
        DrainAgreesWithDecode(c, delivered + [taken.value], pending[2 + n + TAG_LEN..]);
      }
    } else {
      NoRecordAgrees(c, delivered, pending);
    }
  }

  /** On every byte string whatever, valid or not, the C parser and the Go reader deliver the
      same records and stop for the same reason. */
  lemma ImplementationsAgree(c: Config, body: Bytes)
    requires c.b.Shaped() && |c.b.key| == KEY_LEN && AadFits(c.b) && forall ds :: c.cb(ds)
    ensures Whole(c, body).delivered == Decode(c.a, c.b, 0, body).records
    ensures Corresponds(Decode(c.a, c.b, 0, body).stop, Whole(c, body))
  {
    hide Drain, Decode;
    DrainAgreesWithDecode(c, [], body);
    assert [] + Decode(c.a, c.b, 0, body).records == Decode(c.a, c.b, 0, body).records;
  }

  // ----- any callback, any buffer -------------------------------------------

  /** Handing over record j stops the parser: its associated data does not fit the buffer, or the
      callback refuses it. */
  predicate Halts(c: Config, rs: seq<Record>, j: nat)
    requires j < |rs|
  {
    |AadAt(c.b, j)| >= 512 || !c.cb(rs[..j + 1])
  }

  ghost predicate FirstHalt(c: Config, rs: seq<Record>, from: nat, j: nat) {
    from <= j < |rs| && Halts(c, rs, j) && forall i | from <= i < j :: !Halts(c, rs, i)
  }

  ghost predicate NeverHalts(c: Config, rs: seq<Record>, from: nat) {
    forall j | from <= j < |rs| :: !Halts(c, rs, j)
  }

  ghost predicate HaltedAt(c: Config, rs: seq<Record>, j: nat, s: State)
    requires j < |rs|
  {
    if |AadAt(c.b, j)| >= 512 then s.delivered == rs[..j] && s.status == Failed(BadEnvelope)
    else s.delivered == rs[..j + 1] && s.status == Aborted
  }

  /** How the parser stands when the whole-input decoding found these records from this index on. */
  ghost predicate StandsAs(c: Config, rs: seq<Record>, stop: Stop, from: nat, s: State)
    requires from <= |rs|
  {
    && (forall j: nat | FirstHalt(c, rs, from, j) :: HaltedAt(c, rs, j, s))
    && (NeverHalts(c, rs, from) ==>
          s.delivered == rs
          && if |AadAt(c.b, |rs|)| >= 512 && (stop == BadTag || stop.BadInner?) then s.status == Failed(BadEnvelope)
             else Corresponds(stop, s))
  }

  lemma {:induction false} DrainStandsAs(c: Config, delivered: seq<Record>, pending: Bytes)
    requires c.b.Shaped() && |c.b.key| == KEY_LEN
    ensures var d := Decode(c.a, c.b, |delivered|, pending);
            StandsAs(c, delivered + d.records, d.stop, |delivered|, Drain(c, delivered, pending))
    decreases |pending|
  {
    hide Drain, Decode, AadAt, NonceAt, Take, Halts, Corresponds;
    var n := |delivered|;
    var d := Decode(c.a, c.b, n, pending);
    if !HasRecord(pending) {
      NoRecordAgrees(c, delivered, pending);
      NothingOpens(c, n, pending);
      assert delivered + d.records == delivered;
      assert forall j: nat :: !FirstHalt(c, delivered, n, j);
    } else {
      DrainTakes(c, delivered, pending);
      RecordTaken(c, n, pending);
      var cut := 2 + U16(pending[0], pending[1]) + TAG_LEN;
      var taken := Take(c, n, pending[2..cut]);
      if taken.Success? {
        var here := delivered + [taken.value];
        var more := Decode(c.a, c.b, n + 1, pending[cut..]);
        assert delivered + ([taken.value] + more.records) == here + more.records;
        var rs := here + more.records;
        assert rs[..n + 1] == here;
        HaltsHere(c, rs, n);
        if c.cb(here) {
          DrainStandsAs(c, here, pending[cut..]);
          GoesOn(c, rs, more.stop, n, Drain(c, here, pending[cut..]));
        } else {
          StopsHere(c, rs, d.stop, n, Drain(c, delivered, pending));
        }
      } else {
        assert delivered + [] == delivered;
        TooLongHere(c, delivered, d, Drain(c, delivered, pending));
      }
    }
  }

  lemma NothingOpens(c: Config, i: nat, pending: Bytes)
    requires c.b.Shaped() && |c.b.key| == KEY_LEN && !HasRecord(pending)
    ensures var stop := Decode(c.a, c.b, i, pending).stop; stop != BadTag && !stop.BadInner?
  {
    hide NonceAt, AadAt;
  }

  /** What becomes of a buffered record, and what the whole-input decoding makes of it. */
  lemma RecordTaken(c: Config, i: nat, pending: Bytes)
    requires c.b.Shaped() && |c.b.key| == KEY_LEN && HasRecord(pending)
    ensures var cut := 2 + U16(pending[0], pending[1]) + TAG_LEN;
            var taken := Take(c, i, pending[2..cut]);
            var d := Decode(c.a, c.b, i, pending);
            && (|AadAt(c.b, i)| >= 512 ==> taken == Failure(BadEnvelope))
            && (taken.Success? ==> |AadAt(c.b, i)| < 512 && d == Decode(c.a, c.b, i + 1, pending[cut..]).Prepend([taken.value]))
            && (taken.Failure? && |AadAt(c.b, i)| < 512 ==>
                  d.records == [] && (if taken.error == TagMismatch then d.stop == BadTag else taken.error == BadEnvelope && d.stop.BadInner?))
            && (d.records == [] ==> d.stop == BadTag || d.stop.BadInner?)
  {
    hide NonceAt, AadAt;
  }

  lemma HaltsHere(c: Config, rs: seq<Record>, n: nat)
    requires n < |rs|
    ensures Halts(c, rs, n) <==> |AadAt(c.b, n)| >= 512 || !c.cb(rs[..n + 1])
  {
    hide AadAt;
  }

  lemma GoesOn(c: Config, rs: seq<Record>, stop: Stop, n: nat, s: State)
    requires n < |rs| && !Halts(c, rs, n) && StandsAs(c, rs, stop, n + 1, s)
    ensures StandsAs(c, rs, stop, n, s)
  {
    hide AadAt, Halts, Corresponds;
    forall j: nat | FirstHalt(c, rs, n, j) ensures HaltedAt(c, rs, j, s) {
      assert FirstHalt(c, rs, n + 1, j);
    }
    assert NeverHalts(c, rs, n) ==> NeverHalts(c, rs, n + 1);
  }

  lemma StopsHere(c: Config, rs: seq<Record>, stop: Stop, n: nat, s: State)
    requires n < |rs| && Halts(c, rs, n) && |AadAt(c.b, n)| < 512 && s.delivered == rs[..n + 1] && s.status == Aborted
    ensures StandsAs(c, rs, stop, n, s)
  {
    hide AadAt, Halts, Corresponds;
    forall j: nat | FirstHalt(c, rs, n, j) ensures j == n {
    }
  }

  /** The record at hand does not open, or its associated data does not fit. */
  lemma TooLongHere(c: Config, delivered: seq<Record>, d: Decoded, s: State)
    requires s.delivered == delivered && s.status.Failed?
    requires |AadAt(c.b, |delivered|)| >= 512 ==> s.status.error == BadEnvelope
    requires |AadAt(c.b, |delivered|)| < 512 ==>
      d.records == [] && (if s.status.error == TagMismatch then d.stop == BadTag else s.status.error == BadEnvelope && d.stop.BadInner?)
    requires d.records == [] ==> d.stop == BadTag || d.stop.BadInner?
    ensures StandsAs(c, delivered + d.records, d.stop, |delivered|, s)
  {
    var rs, n := delivered + d.records, |delivered|;
    assert rs[..n] == delivered;
    hide AadAt;
    if d.records == [] {
      assert rs == delivered;
      assert forall j: nat :: !FirstHalt(c, rs, n, j);
    } else {
      assert Halts(c, rs, n);
      hide Halts;
      forall j: nat | FirstHalt(c, rs, n, j) ensures j == n {
      }
    }
  }

  /** On every byte string, with every callback and every binding: the parser delivers the Go reader's
      records up to the first that halts it - one whose associated data does not fit is not delivered,
      one that the callback refuses is - and when none does, all of them, stopping as the reader does. */
  lemma ParserIsExact(c: Config, body: Bytes)
    requires c.b.Shaped() && |c.b.key| == KEY_LEN
    ensures var d := Decode(c.a, c.b, 0, body); StandsAs(c, d.records, d.stop, 0, Whole(c, body))
  {
    hide Drain, Decode, StandsAs;
    DrainStandsAs(c, [], body);
    assert [] + Decode(c.a, c.b, 0, body).records == Decode(c.a, c.b, 0, body).records;
  }

  // ----- the verdict of a call ----------------------------------------------

  datatype Verdict = Ok | Err(error: Error) | CallbackStopped

  /** What the call returns once an HTTP 200 transfer is over. */
  function Outcome(s: State): Verdict {
    match s.status
    case Failed(e) => Err(e)
    case Aborted => CallbackStopped
    case Done => Ok
    case Running => Err(BadEnvelope)
  }

  /** A Go sink's bytes, cut anywhere and pushed in any pieces that fit: the callback gets the
      records that arrived whole, and the call succeeds if and only if nothing is missing. */
  lemma GoToC(c: Config, streams: set<Stream>, st: Stream, chunks: seq<Bytes>)
    requires c.b == st.binding && AadFits(c.b) && forall ds :: c.cb(ds)
    requires WellFormed(streams) && Ideal(c.a, streams) && st in streams
    requires Accepted(c, INITIAL, chunks) == |chunks| && Concat(chunks) <= Written(c.a, c.b, 0, st.records)
    ensures var s := Feed(c, INITIAL, chunks);
            && s.delivered == st.records[..Complete(c.a, c.b, 0, st.records, |Concat(chunks)|)]
            && Outcome(s) == (if Concat(chunks) == Written(c.a, c.b, 0, st.records) then Ok else Err(BadEnvelope))
  {
    var body, full := Concat(chunks), Written(c.a, c.b, 0, st.records);
    assert full + [] == Wire(c.a, c.b, 0, st.records) + TERMINATOR + [] == full;
    hide NonceAt, AadAt, Ideal, Drain, Decode, Written, Complete, Feed, AadFits;
    ChunkingIndependence(c, chunks);
    assert chunks[..|chunks|] == chunks;
    ImplementationsAgree(c, body);
    if body == full {
      RoundTrip(c.a, streams, st, []);
      assert |full| >= |Wire(c.a, c.b, 0, st.records)|;
      CompleteAll(c.a, c.b, 0, st.records, |full|);
    } else {
      assert body == full[..|body|];
      TruncationIsNoticedIff(c.a, streams, st, |body|);
    }
  }

  // ----- prefix safety ------------------------------------------------------

  /** Whatever the callback says, the parser delivers no more than the whole-input decoding has. */
  lemma {:induction false} DrainWithinDecode(c: Config, delivered: seq<Record>, pending: Bytes)
    requires c.b.Shaped() && |c.b.key| == KEY_LEN
    ensures Drain(c, delivered, pending).delivered <= delivered + Decode(c.a, c.b, |delivered|, pending).records
    decreases |pending|
  {
    hide Drain, Decode, NonceAt, AadAt, Take;
    if HasRecord(pending) {
      var cut := 2 + U16(pending[0], pending[1]) + TAG_LEN;
      DrainTakes(c, delivered, pending);
      var taken := Take(c, |delivered|, pending[2..cut]);
      if taken.Success? {
        TakenIsDecoded(c, |delivered|, pending);
        DrainWithinDecode(c, delivered + [taken.value], pending[cut..]);
        var d := Decode(c.a, c.b, |delivered| + 1, pending[cut..]).records;
        assert delivered + [taken.value] + d == delivered + ([taken.value] + d);
      }
    } else {
      NoRecordAgrees(c, delivered, pending);
    }
  }

  lemma TakenIsDecoded(c: Config, i: nat, pending: Bytes)
    requires c.b.Shaped() && |c.b.key| == KEY_LEN && HasRecord(pending)
    requires Take(c, i, pending[2..2 + U16(pending[0], pending[1]) + TAG_LEN]).Success?
    ensures var cut := 2 + U16(pending[0], pending[1]) + TAG_LEN;
            var r := Take(c, i, pending[2..cut]).value;
            Decode(c.a, c.b, i, pending) == Decode(c.a, c.b, i + 1, pending[cut..]).Prepend([r])
  {
    hide NonceAt, AadAt;
  }

  /** For every sequence of pushes - forged, spliced, repeated, too long for the buffer - and every
      callback, what the callback was given is a prefix of what the stream's writer sealed. */
  lemma DeliversPrefix(c: Config, streams: set<Stream>, st: Stream, chunks: seq<Bytes>)
    requires c.b == st.binding && |st.records| < COUNTERS
    requires WellFormed(streams) && Distinct(streams) && Ideal(c.a, streams) && st in streams
    ensures Feed(c, INITIAL, chunks).delivered <= st.records
  {
    hide NonceAt, AadAt, Ideal, Distinct, Drain, Decode, Feed;
    var body := Concat(chunks[..Accepted(c, INITIAL, chunks)]);
    ChunkingIndependence(c, chunks);
    assert chunks[..|chunks|] == chunks;
    DrainWithinDecode(c, [], body);
    assert [] + Decode(c.a, c.b, 0, body).records == Decode(c.a, c.b, 0, body).records;
    PrefixSafety(c.a, streams, st);
  }

  // ----- the parser itself --------------------------------------------------

  class Parser {
    const c: Config
    const haveStream: bool             // the stream id header has arrived
    var staging: array<byte>
    var stagingLen: nat
    var recordNeed: nat                // bytes of the current record, 0 when not yet known
    var counter: nat
    var done: bool
    var aborted: bool
    var err: Option<Error>

    var delivered: seq<Record>         // the calls of the callback, which it may remember

    ghost predicate Valid()
      reads this, staging
    {
      && c.b.Shaped()
      && staging.Length == STAGING && stagingLen <= STAGING
      && (View().status == Running ==> counter == |delivered| % COUNTERS)
      && (View().status == Running && recordNeed != 0 ==>
            stagingLen >= 2 && NeedOf(staging[0], staging[1]) == recordNeed)
    }

    ghost function View(): State
      reads this, staging
      requires stagingLen <= staging.Length
    {
      State(delivered,
            if done then Done else if aborted then Aborted else if err.Some? then Failed(err.value) else Running,
            staging[..stagingLen])
    }

    static function NeedOf(hi: byte, lo: byte): nat {
      var n := U16(hi, lo);
      if 0 < n <= MAX_RECORD_PLAIN then 2 + n + TAG_LEN else 0
    }

    constructor (c: Config, haveStream: bool)
      requires c.b.Shaped()
      ensures Valid() && View() == INITIAL && fresh(staging) && this.c == c && this.haveStream == haveStream
    {
      this.c, this.haveStream := c, haveStream;
      staging := new byte[STAGING](_ => 0);
      stagingLen, recordNeed, counter := 0, 0, 0;
      done, aborted, err := false, false, None;
      delivered := [];
    }

    /** Reads the length prefix; true when the whole current record has arrived. */
    method Measure() returns (ready: bool)
      requires Valid() && View().status == Running
      modifies this`recordNeed, this`done, this`stagingLen, this`err
      ensures Valid()
      ensures ready ==> View() == old(View()) && 0 < recordNeed <= stagingLen
      ensures !ready ==> View() == Drain(c, delivered, old(staging[..stagingLen]))
    {
      hide Take;
      if recordNeed == 0 {
        if stagingLen < 2 {
          return false;
        }
        var plainLen := U16(staging[0], staging[1]);
        if plainLen == 0 {
          done := true;
          stagingLen := 0;
          return false;
        }
        if plainLen > MAX_RECORD_PLAIN {
          err := Some(TooBig);
          return false;
        }
        recordNeed := 2 + plainLen + TAG_LEN;
      }
      ready := stagingLen >= recordNeed;
    }

    /** Opens, unpacks and hands over the current record, then drops it from the buffer. */
    method Consume()
      requires Valid() && View().status == Running && 0 < recordNeed <= stagingLen
      modifies this`err, this`delivered, this`aborted, this`counter, this`stagingLen, this`recordNeed, staging
      ensures Valid()
      ensures if View().status == Running
              then stagingLen < old(stagingLen)
                   && Drain(c, delivered, staging[..stagingLen]) == Drain(c, old(delivered), old(staging[..stagingLen]))
              else View() == Drain(c, old(delivered), old(staging[..stagingLen]))
    {
      ghost var pending, cut, first := staging[..stagingLen], recordNeed, staging[2..recordNeed];
      assert pending[2..cut] == first && HasRecord(pending) && cut == 2 + U16(pending[0], pending[1]) + TAG_LEN;
      DrainTakes(c, delivered, pending);
      hide Drain, Take, HasRecord, U16;
      var taken := OpenStaged();
      if taken.Failure? {
        err := Some(taken.error);
        return;
      }
      delivered := delivered + [taken.value];
      if !c.cb(delivered) {
        aborted := true;
        return;
      }
      assert staging[cut..stagingLen] == pending[cut..];
      Shift();
    }

    method DrainStaging()
      requires Valid()
      modifies this, staging
      ensures Valid() && staging == old(staging)
      ensures View() == if old(View()).status == Running
                        then Drain(c, old(delivered), old(staging[..stagingLen])) else old(View())
    {
      hide Drain;
      ghost var start := View();
      ghost var target := if start.status == Running then Drain(c, start.delivered, start.pending) else start;
      while true
        invariant Valid() && staging == old(staging)
        invariant target == if View().status == Running then Drain(c, delivered, staging[..stagingLen]) else View()
        decreases View().status == Running, stagingLen
      {
        if done || aborted || err != None {
          return;
        }
        var ready := Measure();
        if !ready {
          return;
        }
        Consume();
      }
    }

    /** Counts the record and moves the bytes after it to the front of the buffer. */
    method Shift()
      requires c.b.Shaped() && staging.Length == STAGING && 0 < recordNeed <= stagingLen <= STAGING
      requires |delivered| > 0 && counter == (|delivered| - 1) % COUNTERS
      modifies this`counter, this`stagingLen, this`recordNeed, staging
      ensures Valid() && stagingLen == old(stagingLen) - old(recordNeed)
      ensures staging[..stagingLen] == old(staging[recordNeed..stagingLen])
    {
      NextCounter(|delivered| - 1);
      counter := (counter + 1) % COUNTERS;
      var leftover := stagingLen - recordNeed;
      forall i | 0 <= i < leftover {
        staging[i] := staging[recordNeed + i];
      }
      stagingLen := leftover;
      recordNeed := 0;
    }

    method OpenStaged() returns (res: Result<Record, Error>)
      requires Valid() && View().status == Running && 0 < recordNeed <= stagingLen
      ensures res == Take(c, |delivered|, staging[2..recordNeed])
    {
      var aad := new byte[MAX_AAD](_ => 0);
      var n := PrintAad(c.b, counter, aad);
      if n == 0 {
        return Failure(BadEnvelope);
      }
      var plain := c.a.open(c.b.key, Nonce(c.b.headers.streamId, counter), aad[..n], staging[2..recordNeed]);
      match plain
      case None => return Failure(TagMismatch);
      case Some(p) =>
        var inner := DecodeInner(p);
        res := match inner case Failure(_) => Failure(BadEnvelope) case Success(r) => Success(r);
    }

    method PushBytes(chunk: Bytes) returns (taken: nat)
      requires Valid()
      modifies this, staging
      ensures Valid() && staging == old(staging)
      ensures haveStream ==> View() == Push(c, old(View()), chunk)
      ensures !haveStream && old(View()).status == Running ==> View() == old(View()).(status := Failed(BadEnvelope))
      ensures !haveStream && old(View()).status != Running ==> View() == old(View())
      ensures taken == if haveStream && old(View()).status == Running && |old(View()).pending| + |chunk| <= STAGING
                       then |chunk| else 0
    {
      if done || aborted || err != None {
        return 0;
      }
      if !haveStream {
        err := Some(BadEnvelope);
        return 0;
      }
      var add := |chunk|;
      if stagingLen + add > STAGING {
        err := Some(TooBig);
        return 0;
      }
      ghost var before := staging[..stagingLen];
      forall i | 0 <= i < add {
        staging[stagingLen + i] := chunk[i];
      }
      stagingLen := stagingLen + add;
      assert staging[..stagingLen] == before + chunk;
      DrainStaging();
      taken := add;
    }
  }
}
