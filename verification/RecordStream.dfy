/** The record stream writers and readers of internal/aes/stream.go. */
module RecordStream {
  import opened Bytes
  import opened Envelope
  import opened Streams

  datatype Status = Ok | Closed | NoKey | Oversized | WriteFailed

  /** io.Writer: a connection that takes `room` more bytes and then fails part-way. */
  class Writer {
    var sent: Bytes
    var room: nat

    constructor (room: nat)
      ensures sent == [] && this.room == room
    {
      sent, this.room := [], room;
    }

    method Write(bs: Bytes) returns (ok: bool)
      modifies this
      ensures ok <==> |bs| <= old(room)
      ensures ok ==> sent == old(sent) + bs && room == old(room) - |bs|
      ensures !ok ==> sent == old(sent) + bs[..old(room)] && room == 0
    {
      ok := |bs| <= room;
      if ok {
        sent, room := sent + bs, room - |bs|;
      } else {
        sent, room := sent + bs[..room], 0;
      }
    }
  }

  datatype ReadStatus = Full | AtEnd | CutShort

  /** io.Reader over bytes that end, read with io.ReadFull. */
  class Reader {
    var data: Bytes

    constructor (data: Bytes)
      ensures this.data == data
    {
      this.data := data;
    }

    method ReadFull(buf: array<byte>, n: nat) returns (st: ReadStatus)
      requires 0 < n <= buf.Length
      modifies this, buf
      ensures |old(data)| >= n ==> st == Full && buf[..n] == old(data)[..n] && data == old(data)[n..]
      ensures |old(data)| < n ==> st == (if old(data) == [] then AtEnd else CutShort) && data == []
    {
      var k := if |data| < n then |data| else n;
      forall i | 0 <= i < k {
        buf[i] := data[i];
      }
      st := if k == n then Full else if k == 0 then AtEnd else CutShort;
      data := data[k..];
    }
  }

  // ----- records ------------------------------------------------------------

  /** The bytes SealRecord puts out for any plaintext, also an empty one. */
  function Sealed(a: Aead, b: Binding, counter: nat, plain: Bytes): Bytes
    requires b.Shaped() && counter < COUNTERS && |plain| <= MAX_RECORD_PLAIN
  {
    BE16(|plain|) + a.seal(b.key, Nonce(b.headers.streamId, counter), Aad(b, counter), plain)
  }

  method SealRecord(w: Writer, a: Aead, b: Binding, counter: nat, plain: Bytes) returns (st: Status)
    requires b.Shaped() && counter < COUNTERS
    modifies w
    ensures |b.key| != KEY_LEN ==> st == NoKey
    ensures |b.key| == KEY_LEN && |plain| > MAX_RECORD_PLAIN ==> st == Oversized
    ensures st == NoKey || st == Oversized ==> w.sent == old(w.sent) && w.room == old(w.room)
    ensures |b.key| == KEY_LEN && |plain| <= MAX_RECORD_PLAIN ==>
      var s := Sealed(a, b, counter, plain);
      if |s| <= old(w.room) then st == Ok && w.sent == old(w.sent) + s && w.room == old(w.room) - |s|
      else st == WriteFailed && w.sent == old(w.sent) + s[..old(w.room)]
  {
    if |b.key| != KEY_LEN {
      return NoKey;
    }
    if |plain| > MAX_RECORD_PLAIN {
      return Oversized;
    }
    ghost var s := Sealed(a, b, counter, plain);
    var ct := a.seal(b.key, Nonce(b.headers.streamId, counter), Aad(b, counter), plain);
    hide Nonce, Aad;
    var ok := w.Write(BE16(|plain|));
    if !ok {
      assert BE16(|plain|)[..old(w.room)] == s[..old(w.room)];
      return WriteFailed;
    }
    ok := w.Write(ct);
    if !ok {
      assert s[..old(w.room)] == BE16(|plain|) + ct[..old(w.room) - 2];
      return WriteFailed;
    }
    st := Ok;
  }

  method WriteTerminator(w: Writer) returns (ok: bool)
    modifies w
    ensures ok <==> 2 <= old(w.room)
    ensures w.sent == old(w.sent) + (if ok then TERMINATOR else TERMINATOR[..old(w.room)])
  {
    ok := w.Write(TERMINATOR);
  }

  /** The length in front of a record. */
  method ReadLength(r: Reader) returns (st: ReadStatus, n: nat)
    modifies r
    ensures |old(r.data)| < 2 ==> st == (if old(r.data) == [] then AtEnd else CutShort) && r.data == []
    ensures |old(r.data)| >= 2 ==> st == Full && n == U16(old(r.data)[0], old(r.data)[1]) && r.data == old(r.data)[2..]
  {
    ghost var input := r.data;
    var lenBuf := new byte[2](_ => 0);
    st := r.ReadFull(lenBuf, 2);
    n := 0;
    if st == Full {
      assert lenBuf[..2][0] == input[..2][0] && lenBuf[..2][1] == input[..2][1];
      n := U16(lenBuf[0], lenBuf[1]);
    }
  }

  // OpenOne in terms of the uint32 counter itself.
  lemma OpenOneByCounter(a: Aead, b: Binding, counter: nat, input: Bytes)
    requires b.Shaped() && counter < COUNTERS
    ensures |b.key| != KEY_LEN ==> OpenOne(a, b, counter, input) == Stopped(BadKey)
    ensures |b.key| == KEY_LEN && |input| < 2 ==>
      OpenOne(a, b, counter, input) == Stopped(if input == [] then Eof else BadFrame)
    ensures |b.key| == KEY_LEN && |input| >= 2 ==>
      var n := U16(input[0], input[1]);
      var end := 2 + n + TAG_LEN;
      OpenOne(a, b, counter, input) == if n == 0 then Stopped(Terminated)
                                       else if n > MAX_RECORD_PLAIN then Stopped(TooLong)
                                       else if |input| < end then Stopped(BadFrame)
                                       else
                                         match a.open(b.key, Nonce(b.headers.streamId, counter), Aad(b, counter), input[2..end])
                                         case None => Stopped(BadTag)
                                         case Some(plain) => Plain(plain, input[end..])
  {
    hide Nonce, Aad;
  }

  /** What a reader has left after one record, or after the attempt to read it. */
  function Leftover(b: Binding, input: Bytes): Bytes {
    if |b.key| != KEY_LEN then input
    else if |input| < 2 then []
    else
      var n := U16(input[0], input[1]);
      if n == 0 || n > MAX_RECORD_PLAIN then input[2..]
      else if |input| < 2 + n + TAG_LEN then []
      else input[2 + n + TAG_LEN..]
  }

  method OpenRecord(r: Reader, a: Aead, b: Binding, counter: nat, scratch: array<byte>)
    returns (res: Result<Bytes, Stop>)
    requires b.Shaped() && counter < COUNTERS
    modifies r, scratch
    ensures match OpenOne(a, b, counter, old(r.data))
            case Plain(plain, rest) => res == Success(plain) && r.data == rest
            case Stopped(s) => res == Failure(s)
    ensures r.data == Leftover(b, old(r.data))
  {
    ghost var input := r.data;
    OpenOneByCounter(a, b, counter, input);
    hide Nonce, Aad, OpenOne;
    if |b.key| != KEY_LEN {
      return Failure(BadKey);
    }
    var st, n := ReadLength(r);
    if st != Full {
      return Failure(if st == CutShort then BadFrame else Eof);
    }
    if n == 0 {
      return Failure(Terminated);
    }
    if n > MAX_RECORD_PLAIN {
      return Failure(TooLong);
    }
    var sealed := ReadSealed(r, n + TAG_LEN, scratch);
    if sealed == None {
      return Failure(BadFrame);
    }
    assert input[2..][..n + TAG_LEN] == input[2..2 + n + TAG_LEN];
    assert input[2..][n + TAG_LEN..] == input[2 + n + TAG_LEN..];
    var plain := a.open(b.key, Nonce(b.headers.streamId, counter), Aad(b, counter), sealed.value);
    res := match plain case None => Failure(BadTag) case Some(p) => Success(p);
  }

  /** Reads the ciphertext and tag into the scratch buffer, or a larger one when that is too small. */
  method ReadSealed(r: Reader, wireLen: nat, scratch: array<byte>) returns (sealed: Option<Bytes>)
    requires wireLen > 0
    modifies r, scratch
    ensures |old(r.data)| >= wireLen ==> sealed == Some(old(r.data)[..wireLen]) && r.data == old(r.data)[wireLen..]
    ensures |old(r.data)| < wireLen ==> sealed == None && r.data == []
  {
    var buf := scratch;
    if scratch.Length < wireLen {
      buf := new byte[wireLen](_ => 0);
    }
    var st := r.ReadFull(buf, wireLen);
    sealed := if st == Full then Some(buf[..wireLen]) else None;
  }

  // ----- one-shot bodies ----------------------------------------------------

  /** One record and the terminator. */
  function OneShotBytes(a: Aead, b: Binding, r: Record): Bytes
    requires b.Shaped() && Fits(r)
  {
    RecordBytes(a, b, 0, r) + TERMINATOR
  }

  method SealOneShot(w: Writer, a: Aead, b: Binding, t: byte, body: Bytes) returns (st: Status)
    requires b.Shaped()
    modifies w
    ensures st == Oversized <==> |body| > MAX_PAYLOAD
    ensures st == NoKey <==> |body| <= MAX_PAYLOAD && |b.key| != KEY_LEN
    ensures st == Oversized || st == NoKey ==> w.sent == old(w.sent)
    ensures |body| <= MAX_PAYLOAD && |b.key| == KEY_LEN ==>
      var s := OneShotBytes(a, b, Record(t, body));
      if |s| <= old(w.room) then st == Ok && w.sent == old(w.sent) + s
      else st == WriteFailed && w.sent == old(w.sent) + s[..old(w.room)]
  {
    hide NonceAt, AadAt;
    var inner := EncodeInner(t, body);
    if inner.Failure? {
      return Oversized;
    }
    SealedIsRecordBytes(a, b, 0, Record(t, body));
    hide Sealed, RecordBytes, Inner;
    ghost var first := RecordBytes(a, b, 0, Record(t, body));
    ghost var s := OneShotBytes(a, b, Record(t, body));
    st := SealRecord(w, a, b, 0, inner.value);
    if st != Ok {
      if st == WriteFailed {
        TakeWithin(first, TERMINATOR, old(w.room));
      }
      return;
    }
    var ok := WriteTerminator(w);
    if !ok {
      TakePast(first, TERMINATOR, old(w.room));
    }
    st := if ok then Ok else WriteFailed;
  }

  lemma SealedIsRecordBytes(a: Aead, b: Binding, i: nat, r: Record)
    requires b.Shaped() && Fits(r)
    ensures Sealed(a, b, i % COUNTERS, Inner(r)) == RecordBytes(a, b, i, r)
  {
  }

  lemma OpenOneAtCounter(a: Aead, b: Binding, i: nat, input: Bytes)
    requires b.Shaped()
    ensures OpenOne(a, b, i % COUNTERS, input) == OpenOne(a, b, i, input)
  {
    AtSameCounter(b, i % COUNTERS, i);
    hide NonceAt, AadAt;
  }

  datatype OneShotError = InStream(stop: Stop) | NoTerminator | TrailingData

  method OpenOneShot(r: Reader, a: Aead, b: Binding) returns (res: Result<Record, OneShotError>)
    requires b.Shaped()
    modifies r
    ensures res == OneShotResult(a, b, old(r.data))
  {
    hide NonceAt, AadAt;
    var none := new byte[0];
    var plain := OpenRecord(r, a, b, 0, none);
    if plain.Failure? {
      return Failure(InStream(plain.error));
    }
    var inner := DecodeInner(plain.value);
    if inner.Failure? {
      return Failure(InStream(BadInner(inner.error)));
    }
    var st, n := ReadLength(r);
    if st != Full {
      return Failure(NoTerminator);
    }
    if n != 0 {
      return Failure(TrailingData);
    }
    res := Success(inner.value);
  }

  function OneShotResult(a: Aead, b: Binding, input: Bytes): Result<Record, OneShotError>
    requires b.Shaped()
  {
    match OpenOne(a, b, 0, input)
    case Stopped(s) => Failure(InStream(s))
    case Plain(plain, rest) =>
      match DecodeInner(plain)
      case Failure(e) => Failure(InStream(BadInner(e)))
      case Success(r) =>
        if |rest| < 2 then Failure(NoTerminator)
        else if U16(rest[0], rest[1]) != 0 then Failure(TrailingData)
        else Success(r)
  }

  /** A body is accepted exactly when it begins with the bytes SealOneShot wrote for that
      record: one-shot bodies cannot be forged, extended by records, or cut. */
  lemma OneShotAcceptsExactlyWhatWasSealed(a: Aead, streams: set<Stream>, st: Stream, input: Bytes, r: Record)
    requires WellFormed(streams) && Distinct(streams) && Ideal(a, streams) && st in streams
    requires |st.records| == 1
    ensures OneShotResult(a, st.binding, input) == Success(r)
       <==> r == st.records[0] && OneShotBytes(a, st.binding, r) <= input
  {
    hide NonceAt, AadAt, Ideal, Inner, OneShotResult, OpenOne, RecordBytes;
    var b, own := st.binding, st.records[0];
    if OneShotResult(a, b, input) == Success(r) {
      OneShotSuccess(a, b, input, r);
      OnlyOwnRecordsOpen(a, streams, st, 0, input);
      InnerRoundTrip(Inner(own), own);
      var rest := OpenOne(a, b, 0, input).rest;
      assert input == OneShotBytes(a, b, own) + rest[2..];
    }
    if r == own && OneShotBytes(a, b, r) <= input {
      var tail := TERMINATOR + input[|OneShotBytes(a, b, r)|..];
      assert input == RecordBytes(a, b, 0, r) + tail;
      OpensOwnRecord(a, streams, st, 0, 0, tail);
      InnerRoundTrip(Inner(r), r);
      OneShotSuccess(a, b, input, r);
    }
  }

  lemma OneShotSuccess(a: Aead, b: Binding, input: Bytes, r: Record)
    requires b.Shaped()
    ensures OneShotResult(a, b, input) == Success(r)
       <==> var o := OpenOne(a, b, 0, input);
            o.Plain? && DecodeInner(o.plain) == Success(r) && TERMINATOR <= o.rest
  {
    hide OpenOne, DecodeInner;
  }

  /** The errors of a one-shot body: what the first record's are, and once that has opened, fewer than
      two bytes behind it, or two that are not the terminator. */
  lemma OneShotErrors(a: Aead, b: Binding, input: Bytes)
    requires b.Shaped()
    ensures var first := NextOf(a, b, 0, input);
            var res := OneShotResult(a, b, input);
            && (first.Failure? <==> res.Failure? && res.error.InStream?)
            && (first.Failure? ==> res == Failure(InStream(first.error)))
            && (first.Success? ==>
                  var rest := Leftover(b, input);
                  && (res == Failure(NoTerminator) <==> |rest| < 2)
                  && (res == Failure(TrailingData) <==> |rest| >= 2 && rest[..2] != [0, 0]))
  {
    hide NonceAt, AadAt, DecodeInner;
  }

  // ----- Sink ---------------------------------------------------------------

  class Sink {
    const a: Aead
    const b: Binding
    const w: Writer
    var counter: nat
    var closed: bool

    ghost const base: Bytes            // what the connection had sent before
    ghost var written: seq<Record>     // the records written in full
    ghost var tail: Bytes              // what followed them: terminator or the torn last write

    ghost predicate Valid()
      reads this, w
    {
      && b.Shaped()
      && AllFit(written)
      && counter == |written| % COUNTERS
      && w.sent == base + Wire(a, b, 0, written) + tail
      && (!closed ==> tail == [])
    }

    constructor (w: Writer, a: Aead, b: Binding)
      requires b.Shaped()
      ensures Valid() && !closed && written == [] && this.w == w && this.a == a && this.b == b && base == w.sent
    {
      this.w, this.a, this.b := w, a, b;
      counter, closed := 0, false;
      base, written, tail := w.sent, [], [];
    }

    method Write(t: byte, payload: Bytes) returns (st: Status)
      requires Valid()
      modifies this, w
      ensures Valid()
      ensures st == Closed <==> old(closed)
      ensures st == Closed ==> w.sent == old(w.sent)
      ensures st == Oversized <==> !old(closed) && |payload| > MAX_PAYLOAD
      ensures st == NoKey <==> !old(closed) && |payload| <= MAX_PAYLOAD && |b.key| != KEY_LEN
      ensures st == Ok <==> !old(closed) && |payload| <= MAX_PAYLOAD && |b.key| == KEY_LEN
                            && |RecordBytes(a, b, |old(written)|, Record(t, payload))| <= old(w.room)
      ensures st == Ok ==> !closed && written == old(written) + [Record(t, payload)]
      ensures st == Ok ==> w.room == old(w.room) - |RecordBytes(a, b, |old(written)|, Record(t, payload))|
      ensures st != Ok ==> closed && written == old(written)
      ensures st == WriteFailed ==>
        var s := RecordBytes(a, b, |written|, Record(t, payload)); old(w.room) < |s| && tail == s[..old(w.room)]
    {
      hide NonceAt, AadAt, Sealed, RecordBytes, Inner, Wire;
      if closed {
        return Closed;
      }
      var inner := EncodeInner(t, payload);
      if inner.Failure? {
        closed := true;
        return Oversized;
      }
      ghost var r := Record(t, payload);
      SealedIsRecordBytes(a, b, |written|, r);
      st := SealRecord(w, a, b, counter, inner.value);
      if st != Ok {
        closed := true;
        tail := w.sent[|old(w.sent)|..];
        return;
      }
      WireSnoc(a, b, 0, written, r);
      assert w.sent == base + (Wire(a, b, 0, written) + RecordBytes(a, b, |written|, r)) + [];
      NextCounter(|written|);
      counter := (counter + 1) % COUNTERS;
      written := written + [r];
    }

    /** The terminator goes out once, and only on a sink no write has failed on. */
    method Close() returns (st: Status)
      requires Valid()
      modifies this, w
      ensures Valid() && closed && written == old(written)
      ensures old(closed) ==> st == Ok && w.sent == old(w.sent) && tail == old(tail)
      ensures !old(closed) ==> st == (if old(w.room) >= 2 then Ok else WriteFailed)
      ensures !old(closed) ==> tail == if st == Ok then [0, 0] else [0, 0][..old(w.room)]
    {
      hide NonceAt, AadAt;
      if closed {
        return Ok;
      }
      closed := true;
      var ok := WriteTerminator(w);
      tail := w.sent[|old(w.sent)|..];
      st := if ok then Ok else WriteFailed;
    }
  }

  // ----- Source -------------------------------------------------------------

  class Source {
    const a: Aead
    const b: Binding
    const r: Reader
    var counter: nat
    var scratch: array<byte>

    ghost const input: Bytes           // all the bytes the reader will ever have
    ghost var yielded: seq<Record>     // what Next has returned so far
    ghost var dead: bool               // Next has failed

    /** While no call has failed the source is where Decode is; and whatever has been yielded, also
        by calls after a failure, was opened at its own index. */
    ghost predicate Valid()
      reads this, r
    {
      && b.Shaped()
      && counter == |yielded| % COUNTERS
      && (!dead ==> Decode(a, b, 0, input) == Decode(a, b, |yielded|, r.data).Prepend(yielded))
      && AllOpened(a, b, yielded)
    }

    constructor (r: Reader, a: Aead, b: Binding)
      requires b.Shaped()
      ensures Valid() && !dead && yielded == [] && this.r == r && this.a == a && this.b == b && input == r.data
      ensures fresh(scratch)
    {
      this.r, this.a, this.b := r, a, b;
      counter := 0;
      scratch := new byte[MAX_RECORD_PLAIN + TAG_LEN];
      input, yielded, dead := r.data, [], false;
      new;
      assert [] + Decode(a, b, 0, input).records == Decode(a, b, 0, input).records;
    }

    /** Next follows Decode record by record; its first error is where Decode stops. A call after an
        error goes on from where the reader is, still at the same index. */
    method Next() returns (res: Result<Record, Stop>)
      requires Valid()
      modifies this, r, scratch
      ensures Valid() && scratch == old(scratch) && r.data == Leftover(b, old(r.data))
      ensures res == NextOf(a, b, |old(yielded)|, old(r.data))
      ensures yielded == if res.Success? then old(yielded) + [res.value] else old(yielded)
      ensures dead == (old(dead) || res.Failure?)
      ensures !old(dead) && res.Success? ==> yielded <= Decode(a, b, 0, input).records
      ensures !old(dead) && res.Failure? ==>
        Decode(a, b, 0, input).records == yielded && Decode(a, b, 0, input).stop == res.error
    {
      hide NonceAt, AadAt;
      ghost var left, n := r.data, |yielded|;
      OpenOneAtCounter(a, b, n, left);
      DecodeStep(a, b, n, left, yielded);
      hide OpenOne, Decode, Leftover, AllOpened;
      var plain := OpenRecord(r, a, b, counter, scratch);
      if plain.Failure? {
        dead := true;
        return Failure(plain.error);
      }
      var inner := DecodeInner(plain.value);
      if inner.Failure? {
        dead := true;
        return Failure(BadInner(inner.error));
      }
      NextCounter(n);
      counter := (counter + 1) % COUNTERS;
      OneMoreOpened(a, b, yielded, left);
      yielded := yielded + [inner.value];
      res := Success(inner.value);
    }
  }

  /** What a reader at index i makes of the first record. */
  function NextOf(a: Aead, b: Binding, i: nat, input: Bytes): Result<Record, Stop>
    requires b.Shaped()
  {
    match OpenOne(a, b, i, input)
    case Stopped(s) => Failure(s)
    case Plain(plain, _) =>
      match DecodeInner(plain)
      case Failure(e) => Failure(BadInner(e))
      case Success(r) => Success(r)
  }

  lemma DecodeStep(a: Aead, b: Binding, i: nat, input: Bytes, earlier: seq<Record>)
    requires b.Shaped()
    ensures var d := Decode(a, b, i, input);
            var next := NextOf(a, b, i, input);
            if next.Failure? then d.Prepend(earlier) == Decoded(earlier, next.error, input)
            else OpenOne(a, b, i, input).Plain?
                 && var more := Decode(a, b, i + 1, OpenOne(a, b, i, input).rest);
                    d.Prepend(earlier) == more.Prepend(earlier + [next.value])
  {
    hide NonceAt, AadAt, OpenOne, DecodeInner;
    var next := NextOf(a, b, i, input);
    if next.Failure? {
      assert earlier + [] == earlier;
    } else {
      var more := Decode(a, b, i + 1, OpenOne(a, b, i, input).rest).records;
      assert earlier + ([next.value] + more) == earlier + [next.value] + more;
    }
  }

  /** Some ciphertext opens to this record at index i. */
  ghost predicate OpenedAt(a: Aead, b: Binding, i: nat, r: Record)
    requires b.Shaped()
  {
    exists c :: OpensTo(a, b, i, c, r)
  }

  ghost predicate OpensTo(a: Aead, b: Binding, i: nat, c: Bytes, r: Record)
    requires b.Shaped()
  {
    match a.open(b.key, NonceAt(b, i), AadAt(b, i), c)
    case None => false
    case Some(p) => DecodeInner(p) == Success(r)
  }

  ghost predicate AllOpened(a: Aead, b: Binding, rs: seq<Record>)
    requires b.Shaped()
  {
    forall i | 0 <= i < |rs| :: OpenedAt(a, b, i, rs[i])
  }

  lemma OneMoreOpened(a: Aead, b: Binding, rs: seq<Record>, input: Bytes)
    requires b.Shaped() && AllOpened(a, b, rs) && NextOf(a, b, |rs|, input).Success?
    ensures AllOpened(a, b, rs + [NextOf(a, b, |rs|, input).value])
  {
    hide NonceAt, AadAt, DecodeInner;
    var r := NextOf(a, b, |rs|, input).value;
    assert OpensTo(a, b, |rs|, input[2..2 + U16(input[0], input[1]) + TAG_LEN], r);
  }

  /** Whatever the connection carried, and also when the caller goes on after errors, a source never
      yields anything but a prefix of what the writer of its stream wrote. */
  lemma SourceYieldsPrefix(src: Source, streams: set<Stream>, st: Stream)
    requires src.Valid() && src.b == st.binding
    requires WellFormed(streams) && Distinct(streams) && Ideal(src.a, streams) && st in streams
    requires |st.records| < COUNTERS
    ensures src.yielded <= st.records
  {
    OpenedAreOwn(src.a, streams, st, src.yielded);
  }

  lemma {:induction false} OpenedAreOwn(a: Aead, streams: set<Stream>, st: Stream, rs: seq<Record>)
    requires WellFormed(streams) && Distinct(streams) && Ideal(a, streams) && st in streams
    requires |st.records| < COUNTERS && AllOpened(a, st.binding, rs)
    ensures rs <= st.records
    decreases |rs|
  {
    hide NonceAt, AadAt, Ideal, Distinct, DecodeInner, Inner;
    if rs != [] {
      var n := |rs| - 1;
      OpenedAreOwn(a, streams, st, rs[..n]);
      assert OpenedAt(a, st.binding, n, rs[n]);
      var c :| OpensTo(a, st.binding, n, c, rs[n]);
      var p := a.open(st.binding.key, NonceAt(st.binding, n), AadAt(st.binding, n), c).value;
      OpenedIsOwn(a, streams, st, n, c, p);
      InnerRoundTrip(p, st.records[n]);
    }
  }

  /** What a sink wrote before Close decodes to exactly its records and the terminator, whatever
      bytes come after. */
  lemma SinkToSource(s: Sink, streams: set<Stream>, junk: Bytes)
    requires s.Valid() && s.closed && s.tail == TERMINATOR && s.base == []
    requires WellFormed(streams) && Ideal(s.a, streams) && Stream.Stream(s.b, s.written) in streams
    ensures Decode(s.a, s.b, 0, s.w.sent + junk) == Decoded(s.written, Terminated, TERMINATOR + junk)
  {
    hide NonceAt, AadAt, Ideal, Decode, Wire;
    var st := Stream.Stream(s.b, s.written);
    RoundTrip(s.a, streams, st, junk);
    assert s.w.sent + junk == Wire(s.a, s.b, 0, s.written) + TERMINATOR + junk;
  }
}
