/** Whole JSON bodies over the record stream: the server's size split and its request reader
    (internal/server/aes.go), and the C client's one-shot accumulator. */
module EnvelopeBody {
  import opened Bytes
  import opened Envelope
  import opened Streams
  import opened RecordStream
  import C = CClient

  const MAX_REQUEST_RECORDS: nat := 2048

  // ----- the split ----------------------------------------------------------

  /** Consecutive pieces of at most MAX_PAYLOAD bytes, one JSON record each. */
  function Chunks(body: Bytes): (rs: seq<Record>)
    ensures AllFit(rs)
    decreases |body|
  {
    if body == [] then []
    else if |body| <= MAX_PAYLOAD then [Record(TYPE_JSON, body)]
    else [Record(TYPE_JSON, body[..MAX_PAYLOAD])] + Chunks(body[MAX_PAYLOAD..])
  }

  function From(body: Bytes, off: nat): Bytes {
    if off < |body| then body[off..] else []
  }

  lemma FromStart(body: Bytes)
    ensures From(body, 0) == body
  {
  }

  lemma FromEnd(body: Bytes, off: nat)
    requires off >= |body|
    ensures Chunks(From(body, off)) == []
  {
  }

  lemma ChunksFrom(body: Bytes, off: nat)
    requires off < |body|
    ensures var end := if off + MAX_PAYLOAD > |body| then |body| else off + MAX_PAYLOAD;
            Chunks(From(body, off)) == [Record(TYPE_JSON, body[off..end])] + Chunks(From(body, off + MAX_PAYLOAD))
  {
    var rest := From(body, off);
    if |rest| <= MAX_PAYLOAD {
      assert body[off..|body|] == rest;
    } else {
      assert rest[..MAX_PAYLOAD] == body[off..off + MAX_PAYLOAD];
      assert rest[MAX_PAYLOAD..] == From(body, off + MAX_PAYLOAD);
    }
  }

  /** The records a response body becomes. */
  function BodyRecords(body: Bytes): (rs: seq<Record>)
    ensures AllFit(rs)
  {
    if |body| > MAX_PAYLOAD then Chunks(body) else [Record(TYPE_JSON, body)]
  }

  /** The concatenation every receiver computes. */
  function JsonOf(rs: seq<Record>): Bytes {
    if rs == [] then []
    else (if rs[0].typ == TYPE_JSON then rs[0].payload else []) + JsonOf(rs[1..])
  }

  function JsonRecords(rs: seq<Record>): seq<Record> {
    if rs == [] then []
    else (if rs[0].typ == TYPE_JSON then [rs[0]] else []) + JsonRecords(rs[1..])
  }

  lemma {:induction false} JsonOfAppend(xs: seq<Record>, ys: seq<Record>)
    ensures JsonOf(xs + ys) == JsonOf(xs) + JsonOf(ys)
  {
    if xs == [] {
      assert xs + ys == ys;
    } else {
      assert (xs + ys)[1..] == xs[1..] + ys;
      JsonOfAppend(xs[1..], ys);
    }
  }

  /** Markers between the pieces change nothing. */
  lemma {:induction false} MarkersAreTransparent(rs: seq<Record>)
    ensures JsonOf(rs) == JsonOf(JsonRecords(rs))
  {
    if rs != [] {
      MarkersAreTransparent(rs[1..]);
      JsonOfAppend(if rs[0].typ == TYPE_JSON then [rs[0]] else [], JsonRecords(rs[1..]));
      assert JsonOf([rs[0]]) == (if rs[0].typ == TYPE_JSON then rs[0].payload else []) + [];
    }
  }

  /** Splitting loses nothing, adds nothing, and makes ceil(len / 4093) records. */
  lemma {:induction false} ChunksJoin(body: Bytes)
    ensures JsonOf(Chunks(body)) == body
    ensures |Chunks(body)| == (|body| + MAX_PAYLOAD - 1) / MAX_PAYLOAD
    ensures forall i | 0 <= i < |Chunks(body)| :: Chunks(body)[i].typ == TYPE_JSON && Chunks(body)[i].payload != []
    decreases |body|
  {
    if |body| > MAX_PAYLOAD {
      var rest := body[MAX_PAYLOAD..];
      ChunksJoin(rest);
      var first := Record(TYPE_JSON, body[..MAX_PAYLOAD]);
      assert ([first] + Chunks(rest))[1..] == Chunks(rest);
      assert body == body[..MAX_PAYLOAD] + rest;
    } else if body != [] {
      assert JsonOf([Record(TYPE_JSON, body)]) == body + [];
    }
  }

  lemma BodyRecordsJoin(body: Bytes)
    ensures JsonOf(BodyRecords(body)) == body
    ensures |body| > 0 ==> |BodyRecords(body)| == (|body| + 4092) / 4093
    ensures body == [] ==> BodyRecords(body) == [Record(0x01, [])]
    ensures forall i | 0 <= i < |BodyRecords(body)| :: BodyRecords(body)[i].typ == 0x01 && |BodyRecords(body)[i].payload| <= 4093
  {
    ChunksJoin(body);
    assert JsonOf([Record(TYPE_JSON, body)]) == body + [];
  }

  // ----- writing ------------------------------------------------------------

  /** The outcome of sending this much to a connection with so much room: all of it, or what fits. */
  ghost predicate SentAsFits(whole: Bytes, room: nat, before: Bytes, after: Bytes, st: Status) {
    if |whole| <= room then st == Ok && after == before + whole
    else st == WriteFailed && after == before + whole[..room]
  }

  /** The body's records up to an offset have been written. */
  ghost predicate Writing(sink: Sink, body: Bytes, off: nat, room: nat)
    reads sink, sink.w
  {
    && sink.Valid() && !sink.closed
    && Chunks(body) == sink.written + Chunks(From(body, off))
    && sink.w.room == room - |Wire(sink.a, sink.b, 0, sink.written)|
  }

  /** One round of the loop. */
  method WriteChunk(sink: Sink, body: Bytes, off: nat, ghost room: nat) returns (st: Status)
    requires Writing(sink, body, off, room) && off < |body| && |sink.b.key| == KEY_LEN
    modifies sink, sink.w
    ensures st == Ok ==> Writing(sink, body, off + MAX_PAYLOAD, room)
    ensures st != Ok ==> SentAsFits(Written(sink.a, sink.b, 0, Chunks(body)), room, sink.base, sink.w.sent, st)
  {
    hide NonceAt, AadAt, RecordBytes, Wire, From, Chunks, Written, SentAsFits;
    var end := off + MAX_PAYLOAD;
    if end > |body| {
      end := |body|;
    }
    ChunksFrom(body, off);
    ghost var done, r := sink.written, Record(TYPE_JSON, body[off..end]);
    WireSnoc(sink.a, sink.b, 0, done, r);
    st := sink.Write(TYPE_JSON, body[off..end]);
    hide Sink.Valid;
    if st != Ok {
      SinkHolds(sink);
      assert Chunks(body)[..|done|] == done && Chunks(body)[|done|] == r;
      Torn(sink.a, sink.b, Chunks(body), |done|, room);
      SentTorn(Written(sink.a, sink.b, 0, Chunks(body)), room, sink.base, sink.w.sent);
    }
  }

  method WriteChunkedJson(w: Writer, a: Aead, b: Binding, body: Bytes) returns (st: Status)
    requires b.Shaped() && |b.key| == KEY_LEN
    modifies w
    ensures SentAsFits(Written(a, b, 0, Chunks(body)), old(w.room), old(w.sent), w.sent, st)
  {
    var sink := new Sink(w, a, b);
    var off := 0;
    ghost var room := w.room;
    WritingStarts(sink, body);
    hide *;
    while off < |body|
      invariant 0 <= off && Writing(sink, body, off, room)
      invariant sink.w == w && sink.a == a && sink.b == b && fresh(sink) && sink.base == old(w.sent)
    {
      st := WriteChunk(sink, body, off, room);
      if st != Ok {
        return;
      }
      off := off + MAX_PAYLOAD;
    }
    st := Finish(sink, body, off, room);
  }

  /** The terminator behind the last record. */
  method Finish(sink: Sink, body: Bytes, ghost off: nat, ghost room: nat) returns (st: Status)
    requires Writing(sink, body, off, room) && off >= |body|
    modifies sink, sink.w
    ensures SentAsFits(Written(sink.a, sink.b, 0, Chunks(body)), room, sink.base, sink.w.sent, st)
  {
    hide NonceAt, AadAt, RecordBytes, Wire, From, Chunks, Written;
    FromEnd(body, off);
    assert sink.written + [] == sink.written;
    st := sink.Close();
    SinkHolds(sink);
    TornEnd(sink.a, sink.b, Chunks(body), room);
  }

  lemma WritingStarts(sink: Sink, body: Bytes)
    requires sink.Valid() && !sink.closed && sink.written == []
    ensures Writing(sink, body, 0, sink.w.room)
  {
    FromStart(body);
    NothingWritten(sink.a, sink.b);
    hide From, Chunks, NonceAt, AadAt;
  }

  lemma SentTorn(whole: Bytes, room: nat, before: Bytes, after: Bytes)
    requires room < |whole| && after == before + whole[..room]
    ensures SentAsFits(whole, room, before, after, WriteFailed)
  {
  }

  lemma NothingWritten(a: Aead, b: Binding)
    requires b.Shaped()
    ensures AllFit([]) && Wire(a, b, 0, []) == []
  {
  }

  lemma SinkHolds(sink: Sink)
    requires sink.Valid()
    ensures AllFit(sink.written) && sink.b.Shaped()
    ensures sink.w.sent == sink.base + (Wire(sink.a, sink.b, 0, sink.written) + sink.tail)
  {
    hide Wire;
  }

  /** What fits when the room ends inside record k. */
  lemma Torn(a: Aead, b: Binding, records: seq<Record>, k: nat, room: nat)
    requires b.Shaped() && AllFit(records) && k < |records|
    requires |Wire(a, b, 0, records[..k])| <= room
    requires room - |Wire(a, b, 0, records[..k])| < |RecordBytes(a, b, k, records[k])|
    ensures room < |Written(a, b, 0, records)|
    ensures Written(a, b, 0, records)[..room]
         == Wire(a, b, 0, records[..k]) + RecordBytes(a, b, k, records[k])[..room - |Wire(a, b, 0, records[..k])|]
  {
    hide NonceAt, AadAt, RecordBytes;
    var x, y := records[..k], records[k..];
    assert records == x + y && y[0] == records[k];
    WireAppend(a, b, 0, x, y);
    hide Wire;
    WrittenCons(a, b, k, y);
    var w, first := Wire(a, b, 0, x), RecordBytes(a, b, k, records[k]);
    var rest := Written(a, b, k + 1, y[1..]);
    assert Written(a, b, 0, records) == w + (first + rest);
    hide *;
    TakePast(w, first + rest, room);
    TakeWithin(first, rest, room - |w|);
  }

  lemma TornEnd(a: Aead, b: Binding, records: seq<Record>, room: nat)
    requires b.Shaped() && AllFit(records) && |Wire(a, b, 0, records)| <= room
    ensures Written(a, b, 0, records) == Wire(a, b, 0, records) + TERMINATOR
    ensures room < |Written(a, b, 0, records)| ==>
      Written(a, b, 0, records)[..room] == Wire(a, b, 0, records) + TERMINATOR[..room - |Wire(a, b, 0, records)|]
  {
    hide Wire;
  }

  method WriteJson(w: Writer, a: Aead, b: Binding, body: Bytes) returns (st: Status)
    requires b.Shaped() && |b.key| == KEY_LEN
    modifies w
    ensures SentAsFits(Written(a, b, 0, BodyRecords(body)), old(w.room), old(w.sent), w.sent, st)
  {
    hide NonceAt, AadAt, RecordBytes;
    if |body| > MAX_PAYLOAD {
      st := WriteChunkedJson(w, a, b, body);
      return;
    }
    ghost var r := Record(TYPE_JSON, body);
    assert Wire(a, b, 0, [r]) == RecordBytes(a, b, 0, r) + [];
    st := SealOneShot(w, a, b, TYPE_JSON, body);
  }

  // ----- the server's request reader ----------------------------------------

  datatype BodyError = TooManyRecords | Unreadable(stop: Stop) | UnexpectedType

  predicate Tolerated(t: byte) {
    t == TYPE_JSON || t == TYPE_HEARTBEAT || t == TYPE_STREAM_END
  }

  /** The loop from the i-th record on, with the body collected so far. */
  function Collect(d: Decoded, i: nat, buf: Bytes): Result<Bytes, BodyError>
    requires i <= |d.records|
    decreases |d.records| - i
  {
    if i >= MAX_REQUEST_RECORDS then Failure(TooManyRecords)
    else if i == |d.records| then
      if d.stop == Terminated || d.stop == Eof then Success(buf) else Failure(Unreadable(d.stop))
    else if !Tolerated(d.records[i].typ) then Failure(UnexpectedType)
    else Collect(d, i + 1, if d.records[i].typ == TYPE_JSON then buf + d.records[i].payload else buf)
  }

  method ReadEnvelope1(r: Reader, a: Aead, b: Binding) returns (res: Result<Bytes, BodyError>)
    requires b.Shaped()
    modifies r
    ensures res == Collect(Decode(a, b, 0, old(r.data)), 0, [])
  {
    hide NonceAt, AadAt, Decode, Source.Valid;
    var src := new Source(r, a, b);
    var buf: Bytes := [];
    var i := 0;
    ghost var d := Decode(a, b, 0, src.input);
    while true
      invariant src.Valid() && !src.dead && fresh(src) && fresh(src.scratch) && src.r == r && src.a == a && src.b == b
      invariant i == |src.yielded| <= MAX_REQUEST_RECORDS && src.yielded <= d.records && src.input == old(r.data)
      invariant Collect(d, 0, []) == Collect(d, i, buf)
      decreases MAX_REQUEST_RECORDS - i
    {
      if i >= MAX_REQUEST_RECORDS {
        return Failure(TooManyRecords);
      }
      var next := src.Next();
      if next == Failure(Terminated) || next == Failure(Eof) {
        break;
      }
      if next.Failure? {
        return Failure(Unreadable(next.error));
      }
      assert next.value == d.records[i];
      if next.value.typ == TYPE_JSON {
        buf := buf + next.value.payload;
      } else if next.value.typ != TYPE_HEARTBEAT && next.value.typ != TYPE_STREAM_END {
        return Failure(UnexpectedType);
      }
      i := i + 1;
    }
    res := Success(buf);
  }

  lemma {:induction false} CollectFrom(d: Decoded, i: nat, buf: Bytes)
    requires i <= |d.records|
    ensures Collect(d, i, buf).Success?
       <==> (|d.records| < MAX_REQUEST_RECORDS && (d.stop == Terminated || d.stop == Eof)
             && forall j | i <= j < |d.records| :: Tolerated(d.records[j].typ))
    ensures Collect(d, i, buf).Success? ==> Collect(d, i, buf).value == buf + JsonOf(d.records[i..])
    decreases |d.records| - i
  {
    if i < MAX_REQUEST_RECORDS && i < |d.records| && Tolerated(d.records[i].typ) {
      var rs := d.records[i..];
      assert rs[0] == d.records[i] && rs[1..] == d.records[i + 1..];
      CollectFrom(d, i + 1, if d.records[i].typ == TYPE_JSON then buf + d.records[i].payload else buf);
    }
  }

  /** A request body is accepted exactly when it decodes to fewer than 2048 records of tolerated
      types and then ends, and its value is the JSON payloads joined. The limit bites one record
      early: a body of 2048 records is refused before its terminator is looked at. */
  lemma AcceptedBodies(d: Decoded, body: Bytes)
    ensures Collect(d, 0, []) == Success(body)
       <==> |d.records| < 2048 && (d.stop == Terminated || d.stop == Eof)
            && (forall j | 0 <= j < |d.records| :: d.records[j].typ in {0x00, 0x01, 0x7F})
            && body == JsonOf(d.records)
  {
    CollectFrom(d, 0, []);
    assert d.records[0..] == d.records;
    assert [] + JsonOf(d.records) == JsonOf(d.records);
  }

  ghost predicate FirstUnexpected(d: Decoded, j: nat) {
    j < |d.records| && !Tolerated(d.records[j].typ) && forall i | 0 <= i < j :: Tolerated(d.records[i].typ)
  }

  lemma {:induction false} RefusedFrom(d: Decoded, i: nat, buf: Bytes)
    requires i <= |d.records| && forall k | 0 <= k < i :: Tolerated(d.records[k].typ)
    ensures forall j: nat | FirstUnexpected(d, j) :: Collect(d, i, buf) == Failure(if j < MAX_REQUEST_RECORDS then UnexpectedType else TooManyRecords)
    ensures (forall k | 0 <= k < |d.records| :: Tolerated(d.records[k].typ)) && |d.records| >= MAX_REQUEST_RECORDS ==>
      Collect(d, i, buf) == Failure(TooManyRecords)
    ensures (forall k | 0 <= k < |d.records| :: Tolerated(d.records[k].typ)) && |d.records| < MAX_REQUEST_RECORDS ==>
      Collect(d, i, buf).Failure? ==> Collect(d, i, buf) == Failure(Unreadable(d.stop))
    decreases |d.records| - i
  {
    if i < MAX_REQUEST_RECORDS && i < |d.records| && Tolerated(d.records[i].typ) {
      RefusedFrom(d, i + 1, if d.records[i].typ == TYPE_JSON then buf + d.records[i].payload else buf);
    }
  }

  /** Why a body is refused: the first record of a type that does not belong in a request, when it is
      among the first 2048; else too many records; else what stopped the reader. */
  lemma RefusedBodies(d: Decoded)
    requires Collect(d, 0, []).Failure?
    ensures forall j: nat | FirstUnexpected(d, j) :: Collect(d, 0, []) == Failure(if j < 2048 then UnexpectedType else TooManyRecords)
    ensures (forall k | 0 <= k < |d.records| :: d.records[k].typ in {0x00, 0x01, 0x7F}) ==>
      Collect(d, 0, []) == Failure(if |d.records| >= 2048 then TooManyRecords else Unreadable(d.stop))
  {
    RefusedFrom(d, 0, []);
  }

  /** Any body of up to 2047 records survives, whatever markers are sent between its pieces and
      whatever follows the terminator. */
  lemma RequestBodyRoundTrip(a: Aead, streams: set<Stream>, st: Stream, body: Bytes, junk: Bytes)
    requires WellFormed(streams) && Ideal(a, streams) && st in streams
    requires JsonRecords(st.records) == BodyRecords(body)
    requires forall j | 0 <= j < |st.records| :: Tolerated(st.records[j].typ)
    ensures Collect(Decode(a, st.binding, 0, Wire(a, st.binding, 0, st.records) + TERMINATOR + junk), 0, [])
         == if |st.records| < MAX_REQUEST_RECORDS then Success(body) else Failure(TooManyRecords)
  {
    hide NonceAt, AadAt, Ideal, Wire, Decode;
    RoundTrip(a, streams, st, junk);
    MarkersAreTransparent(st.records);
    BodyRecordsJoin(body);
    var d := Decoded(st.records, Terminated, TERMINATOR + junk);
    AcceptedBodies(d, body);
    if |st.records| >= MAX_REQUEST_RECORDS {
      TooManyAreRefused(d, 0, []);
    }
  }

  lemma {:induction false} TooManyAreRefused(d: Decoded, i: nat, buf: Bytes)
    requires i <= MAX_REQUEST_RECORDS <= |d.records|
    requires forall j | 0 <= j < |d.records| :: Tolerated(d.records[j].typ)
    ensures Collect(d, i, buf) == Failure(TooManyRecords)
    decreases MAX_REQUEST_RECORDS - i
  {
    if i < MAX_REQUEST_RECORDS {
      TooManyAreRefused(d, i + 1, if d.records[i].typ == TYPE_JSON then buf + d.records[i].payload else buf);
    }
  }

  // ----- the C client's accumulator -----------------------------------------

  /** Bytes stored and whether one did not fit; without a buffer only the length is kept. */
  datatype Acc = Acc(stored: Bytes, len: nat, overflow: bool)

  function Add(cap: Option<nat>, s: Acc, r: Record): Acc {
    if r.typ != TYPE_JSON then s
    else if cap == None then s.(len := s.len + |r.payload|)
    else if s.len + |r.payload| > cap.value then s.(overflow := true)
    else Acc(s.stored + r.payload, s.len + |r.payload|, s.overflow)
  }

  function AddAll(cap: Option<nat>, rs: seq<Record>): Acc
    decreases |rs|
  {
    if rs == [] then Acc([], 0, false)
    else Add(cap, AddAll(cap, rs[..|rs| - 1]), rs[|rs| - 1])
  }

  class OneShotAcc {
    const outBuf: array?<byte>
    const outCap: nat
    var outLen: nat
    var overflow: bool

    ghost predicate Valid()
      reads this
    {
      outBuf != null ==> outLen <= outCap <= outBuf.Length
    }

    ghost function View(): Acc
      reads this, outBuf
      requires Valid()
    {
      Acc(if outBuf == null then [] else outBuf[..outLen], outLen, overflow)
    }

    ghost function Cap(): Option<nat> {
      if outBuf == null then None else Some(outCap)
    }

    constructor (outBuf: array?<byte>, outCap: nat)
      requires outBuf != null ==> outCap <= outBuf.Length
      ensures Valid() && this.outBuf == outBuf && this.outCap == outCap
      ensures View() == AddAll(Cap(), [])
    {
      this.outBuf, this.outCap := outBuf, outCap;
      outLen, overflow := 0, false;
    }

    method Callback(r: Record)
      requires Valid()
      modifies this, outBuf
      ensures Valid() && View() == Add(Cap(), old(View()), r)
    {
      if r.typ != TYPE_JSON {
        return;
      }
      if outBuf == null {
        outLen := outLen + |r.payload|;
        return;
      }
      if outLen + |r.payload| > outCap {
        overflow := true;
        return;
      }
      ghost var before := outBuf[..outLen];
      forall i | 0 <= i < |r.payload| {
        outBuf[outLen + i] := r.payload[i];
      }
      assert outBuf[..outLen + |r.payload|] == before + r.payload;
      outLen := outLen + |r.payload|;
    }
  }

  lemma JsonOfSnoc(rs: seq<Record>)
    requires rs != []
    ensures var r := rs[|rs| - 1];
            JsonOf(rs) == JsonOf(rs[..|rs| - 1]) + (if r.typ == TYPE_JSON then r.payload else [])
  {
    var r := rs[|rs| - 1];
    assert rs == rs[..|rs| - 1] + [r];
    JsonOfAppend(rs[..|rs| - 1], [r]);
    assert JsonOf([r]) == (if r.typ == TYPE_JSON then r.payload else []) + [];
  }

  /** The call overflows exactly when the whole body exceeds the buffer; otherwise the buffer
      holds exactly the body. A piece that fits after one that did not may still be stored, but
      the overflow is remembered. */
  lemma {:induction false} AccumulatorIsExact(cap: Option<nat>, rs: seq<Record>)
    ensures var s := AddAll(cap, rs);
            match cap
            case None => s == Acc([], |JsonOf(rs)|, false)
            case Some(n) =>
              && (s.overflow <==> |JsonOf(rs)| > n)
              && |s.stored| == s.len <= |JsonOf(rs)|
              && (!s.overflow ==> s.stored == JsonOf(rs))
              && s.len <= n
    decreases |rs|
  {
    if rs != [] {
      AccumulatorIsExact(cap, rs[..|rs| - 1]);
      JsonOfSnoc(rs);
    }
  }

  /** Records with a body's JSON in them, any markers between its pieces, leave the body with a C
      caller whose buffer is large enough. */
  lemma BodyAccumulates(rs: seq<Record>, body: Bytes, n: nat)
    requires JsonRecords(rs) == BodyRecords(body)
    ensures AddAll(None, rs).len == |body|
    ensures AddAll(Some(n), rs).overflow <==> |body| > n
    ensures |body| <= n ==> AddAll(Some(n), rs) == Acc(body, |body|, false)
  {
    MarkersAreTransparent(rs);
    BodyRecordsJoin(body);
    AccumulatorIsExact(None, rs);
    AccumulatorIsExact(Some(n), rs);
  }

  lemma {:induction false} OnlyJson(rs: seq<Record>)
    requires forall i | 0 <= i < |rs| :: rs[i].typ == TYPE_JSON
    ensures JsonRecords(rs) == rs
  {
    if rs != [] {
      OnlyJson(rs[1..]);
    }
  }

  /** From the server to the C caller: the bytes WriteJson sends for a body, cut anywhere and pushed
      in any pieces that fit, make the call succeed if and only if none is missing, and then the
      caller's buffer holds the body if and only if it is large enough. */
  lemma ResponseBodyRecovered(c: C.Config, streams: set<Stream>, st: Stream, body: Bytes, n: nat, chunks: seq<Bytes>)
    requires c.b == st.binding && C.AadFits(c.b) && forall ds :: c.cb(ds)
    requires WellFormed(streams) && Ideal(c.a, streams) && st in streams && st.records == BodyRecords(body)
    requires C.Accepted(c, C.INITIAL, chunks) == |chunks| && C.Concat(chunks) <= Written(c.a, c.b, 0, BodyRecords(body))
    ensures var s := C.Feed(c, C.INITIAL, chunks);
            var acc := AddAll(Some(n), s.delivered);
            && (C.Outcome(s) == C.Ok <==> C.Concat(chunks) == Written(c.a, c.b, 0, BodyRecords(body)))
            && (C.Outcome(s) == C.Ok ==> (acc.overflow <==> |body| > n))
            && (C.Outcome(s) == C.Ok && |body| <= n ==> acc == Acc(body, |body|, false))
  {
    hide NonceAt, AadAt, Ideal, C.Feed, C.AadFits, Wire, Complete, C.Concat;
    BodyRecordsJoin(body);
    OnlyJson(BodyRecords(body));
    C.GoToC(c, streams, st, chunks);
    if C.Concat(chunks) == Written(c.a, c.b, 0, st.records) {
      CompleteAll(c.a, c.b, 0, st.records, |C.Concat(chunks)|);
      assert st.records[..|st.records|] == st.records;
      BodyAccumulates(st.records, body, n);
    }
  }
}
