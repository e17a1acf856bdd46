/** What a record stream is on the wire, what a reader makes of arbitrary bytes, and how
    the two fit together under an ideal authenticated cipher. Pure: the Go and the C
    implementations are proved against these functions. */
module Streams {
  import opened Bytes
  import opened Envelope

  /** The authenticated cipher: key, nonce, associated data, then plaintext or ciphertext. */
  datatype Aead = Aead(
    seal: (Bytes, Bytes, Bytes, Bytes) -> Bytes,
    open: (Bytes, Bytes, Bytes, Bytes) -> Option<Bytes>)

  /** One record stream: what it is bound to and every record its writer ever sealed. */
  datatype Stream = Stream(binding: Binding, records: seq<Record>)

  predicate Fits(r: Record) {
    |r.payload| <= MAX_PAYLOAD
  }

  predicate AllFit(records: seq<Record>) {
    forall i | 0 <= i < |records| :: Fits(records[i])
  }

  ghost predicate WellFormed(streams: set<Stream>) {
    forall st | st in streams :: st.binding.WellFormed() && AllFit(st.records)
  }

  /** Stream ids are fresh: no two streams share a stream id in the same direction. */
  ghost predicate Distinct(streams: set<Stream>) {
    forall s, t | s in streams && t in streams
      && s.binding.direction == t.binding.direction
      && s.binding.headers.streamIdHex == t.binding.headers.streamIdHex :: s == t
  }

  // ----- sealing ------------------------------------------------------------

  // The record index is unbounded; the uint32 counter that enters the nonce is not.
  function NonceAt(b: Binding, i: nat): Bytes
    requires b.Shaped()
  {
    Nonce(b.headers.streamId, i % COUNTERS)
  }

  function AadAt(b: Binding, i: nat): Bytes {
    Aad(b, i % COUNTERS)
  }

  /** Two record positions with the same associated data are the same position up to the wrap. */
  lemma AadAtInjective(b: Binding, i: nat, c: Binding, j: nat)
    requires b.WellFormed() && c.WellFormed() && AadAt(b, i) == AadAt(c, j)
    ensures b.direction == c.direction && b.headers.keyId == c.headers.keyId && b.route == c.route
    ensures b.headers.streamIdHex == c.headers.streamIdHex && i % COUNTERS == j % COUNTERS
  {
    AadInjective(b, i % COUNTERS, c, j % COUNTERS);
  }

  lemma AtSameCounter(b: Binding, i: nat, j: nat)
    requires b.Shaped() && i % COUNTERS == j % COUNTERS
    ensures NonceAt(b, i) == NonceAt(b, j) && AadAt(b, i) == AadAt(b, j)
  {
  }

  lemma NextCounter(n: nat)
    ensures (n % COUNTERS + 1) % COUNTERS == (n + 1) % COUNTERS
  {
  }

  function SealAt(a: Aead, b: Binding, i: nat, r: Record): Bytes
    requires b.Shaped() && Fits(r)
  {
    a.seal(b.key, NonceAt(b, i), AadAt(b, i), Inner(r))
  }

  function RecordBytes(a: Aead, b: Binding, i: nat, r: Record): (s: Bytes)
    requires b.Shaped() && Fits(r)
    ensures |s| >= 2 && s[..2] == BE16(|Inner(r)|) && s[2..] == SealAt(a, b, i, r)
  {
    BE16(|Inner(r)|) + SealAt(a, b, i, r)
  }

  /** Some writer sealed exactly this plaintext under this key, nonce and associated data. */
  ghost predicate Issued(streams: set<Stream>, k: Bytes, n: Bytes, d: Bytes, p: Bytes)
    requires WellFormed(streams)
  {
    exists st, i | st in streams && 0 <= i < |st.records| :: IssuedAt(st, i, k, n, d, p)
  }

  ghost predicate IssuedAt(st: Stream, i: nat, k: Bytes, n: Bytes, d: Bytes, p: Bytes)
    requires st.binding.WellFormed() && AllFit(st.records) && i < |st.records|
  {
    k == st.binding.key && n == NonceAt(st.binding, i) && d == AadAt(st.binding, i) && p == Inner(st.records[i])
  }

  ghost predicate TagSized(a: Aead) {
    forall k, n, d, p :: |a.seal(k, n, d, p)| == |p| + TAG_LEN
  }

  /** An ideal cipher: ciphertext and tag have the plaintext's size plus the tag, and opening
      succeeds exactly on what one of the streams sealed. */
  ghost predicate Ideal(a: Aead, streams: set<Stream>)
    requires WellFormed(streams)
  {
    && TagSized(a)
    && (forall k, n, d, c | a.open(k, n, d, c).Some? :: OpenedWasIssued(a, streams, k, n, d, c))
    && (forall st, i | st in streams && 0 <= i < |st.records| :: OpensAt(a, st, i))
  }

  ghost predicate OpenedWasIssued(a: Aead, streams: set<Stream>, k: Bytes, n: Bytes, d: Bytes, c: Bytes)
    requires WellFormed(streams) && a.open(k, n, d, c).Some?
  {
    var p := a.open(k, n, d, c).value;
    Issued(streams, k, n, d, p) && c == a.seal(k, n, d, p)
  }

  ghost predicate OpensAt(a: Aead, st: Stream, i: nat)
    requires st.binding.WellFormed() && AllFit(st.records) && i < |st.records|
  {
    var b, r := st.binding, st.records[i];
    a.open(b.key, NonceAt(b, i), AadAt(b, i), SealAt(a, b, i, r)) == Some(Inner(r))
  }

  /** The bytes a writer has put out after these records, the first one having index i. */
  function Wire(a: Aead, b: Binding, i: nat, records: seq<Record>): Bytes
    requires b.Shaped() && AllFit(records)
    decreases |records|
  {
    if records == [] then [] else RecordBytes(a, b, i, records[0]) + Wire(a, b, i + 1, records[1..])
  }

  const TERMINATOR: Bytes := [0, 0]

  lemma {:induction false} WireAppend(a: Aead, b: Binding, i: nat, xs: seq<Record>, ys: seq<Record>)
    requires b.Shaped() && AllFit(xs) && AllFit(ys)
    ensures AllFit(xs + ys)
    ensures Wire(a, b, i, xs + ys) == Wire(a, b, i, xs) + Wire(a, b, i + |xs|, ys)
    decreases |xs|
  {
    hide NonceAt, AadAt;
    if xs == [] {
      assert xs + ys == ys;
    } else {
      assert (xs + ys)[1..] == xs[1..] + ys;
      WireAppend(a, b, i + 1, xs[1..], ys);
    }
  }

  lemma WireSnoc(a: Aead, b: Binding, i: nat, xs: seq<Record>, r: Record)
    requires b.Shaped() && AllFit(xs) && Fits(r)
    ensures AllFit(xs + [r])
    ensures Wire(a, b, i, xs + [r]) == Wire(a, b, i, xs) + RecordBytes(a, b, i + |xs|, r)
  {
    hide NonceAt, AadAt;
    WireAppend(a, b, i, xs, [r]);
    assert Wire(a, b, i + |xs|, [r]) == RecordBytes(a, b, i + |xs|, r) + [];
  }

  ghost predicate NonceReads(b: Binding, i: nat, n: Bytes)
    requires b.Shaped()
  {
    && |n| == 12 && n[..8] == b.headers.streamId[..8]
    && n[8] as int * 0x100_0000 + n[9] as int * 0x1_0000 + n[10] as int * 0x100 + n[11] as int == i % 0x1_0000_0000
  }

  /** Record i on the wire: the length of its frame, and the frame sealed under the stream's key, a
      nonce of the first eight stream bytes and the counter, and associated data with that counter. */
  ghost predicate SealedUnder(a: Aead, b: Binding, i: nat, r: Record, s: Bytes, n: Bytes, d: Bytes)
    requires b.Shaped() && Fits(r)
  {
    && NonceReads(b, i, n) && Reads(b, i % 0x1_0000_0000, d)
    && s == BE16(3 + |r.payload|) + a.seal(b.key, n, d, [r.typ] + BE16(|r.payload|) + r.payload)
  }

  lemma RecordReads(a: Aead, b: Binding, i: nat, r: Record, s: Bytes)
    requires b.Shaped() && Fits(r)
    ensures s == RecordBytes(a, b, i, r) <==> exists n, d :: SealedUnder(a, b, i, r, s, n, d)
  {
    var n, d := NonceAt(b, i), AadAt(b, i);
    Envelope.NonceReads(b.headers.streamId, i % COUNTERS);
    AadReads(b, i % COUNTERS, d);
    assert s == RecordBytes(a, b, i, r) ==> SealedUnder(a, b, i, r, s, n, d);
    forall m, e | SealedUnder(a, b, i, r, s, m, e) ensures m == n && e == d {
      AadReads(b, i % COUNTERS, e);
      NonceIsRead(b, i, m);
    }
  }

  lemma NonceIsRead(b: Binding, i: nat, n: Bytes)
    requires b.Shaped() && NonceReads(b, i, n)
    ensures n == NonceAt(b, i)
  {
    var m := NonceAt(b, i);
    Envelope.NonceReads(b.headers.streamId, i % COUNTERS);
    hide NonceAt;
    FourOctets(n[8], n[9], n[10], n[11], m[8], m[9], m[10], m[11]);
    hide NonceReads;
    assert n == n[..8] + [n[8], n[9], n[10], n[11]];
    assert m == m[..8] + [m[8], m[9], m[10], m[11]];
  }

  lemma FourOctets(p: byte, q: byte, r: byte, s: byte, t: byte, u: byte, v: byte, w: byte)
    requires p as int * 0x100_0000 + q as int * 0x1_0000 + r as int * 0x100 + s as int
          == t as int * 0x100_0000 + u as int * 0x1_0000 + v as int * 0x100 + w as int
    ensures p == t && q == u && r == v && s == w
  {
  }

  /** A writer never seals two records under one nonce if and only if it writes at most 2^32. */
  lemma NoncesAreUniqueIff(b: Binding, count: nat)
    requires b.Shaped()
    ensures (forall i, j | 0 <= i < j < count :: NonceAt(b, i) != NonceAt(b, j)) <==> count <= COUNTERS
  {
    forall i, j | 0 <= i < j < count && count <= COUNTERS ensures NonceAt(b, i) != NonceAt(b, j) {
      NonceInjective(b.headers.streamId, i % COUNTERS, b.headers.streamId, j % COUNTERS);
    }
    AtSameCounter(b, 0, COUNTERS);
  }

  /** No record can be mistaken for the terminator. */
  lemma NoRecordLooksLikeTheTerminator(a: Aead, b: Binding, i: nat, r: Record)
    requires b.Shaped() && Fits(r)
    ensures !(TERMINATOR <= RecordBytes(a, b, i, r))
  {
    hide NonceAt, AadAt;
    var s := RecordBytes(a, b, i, r);
    assert U16(s[..2][0], s[..2][1]) == |Inner(r)|;
  }

  // ----- reading ------------------------------------------------------------

  /** Why a reader stopped. Both Terminated and Eof surface as io.EOF in Go. */
  datatype Stop = BadKey | Terminated | Eof | BadFrame | TooLong | BadTag | BadInner(error: InnerError)

  datatype Opened = Plain(plain: Bytes, rest: Bytes) | Stopped(stop: Stop)

  /** OpenRecord on the bytes that remain. */
  function OpenOne(a: Aead, b: Binding, i: nat, input: Bytes): (o: Opened)
    requires b.Shaped()
    ensures o.Plain? ==> |o.rest| < |input|
  {
    if |b.key| != KEY_LEN then Stopped(BadKey)
    else if |input| == 0 then Stopped(Eof)
    else if |input| == 1 then Stopped(BadFrame)
    else
      var n := U16(input[0], input[1]);
      if n == 0 then Stopped(Terminated)
      else if n > MAX_RECORD_PLAIN then Stopped(TooLong)
      else if |input| < 2 + n + TAG_LEN then Stopped(BadFrame)
      else
        match a.open(b.key, NonceAt(b, i), AadAt(b, i), input[2..2 + n + TAG_LEN])
        case None => Stopped(BadTag)
        case Some(plain) => Plain(plain, input[2 + n + TAG_LEN..])
  }

  /** When a record is not opened, and why, on the bytes. */
  lemma StopReasons(a: Aead, b: Binding, i: nat, input: Bytes)
    requires b.Shaped()
    ensures var o := OpenOne(a, b, i, input);
            var n := if |input| >= 2 then input[0] as int * 256 + input[1] as int else 0;
            var keyed := |b.key| == 32;
            && (o == Stopped(BadKey) <==> !keyed)
            && (o == Stopped(Eof) <==> keyed && input == [])
            && (o == Stopped(Terminated) <==> keyed && |input| >= 2 && n == 0)
            && (o == Stopped(TooLong) <==> keyed && n > 4096)
            && (o == Stopped(BadFrame) <==> keyed && (|input| == 1 || (|input| >= 2 && 0 < n <= 4096 && |input| < 2 + n + 16)))
            && (o == Stopped(BadTag) ==> keyed && 0 < n <= 4096 && |input| >= 2 + n + 16)
            && (keyed && 0 < n <= 4096 && |input| >= 2 + n + 16 ==>
                  (o == Stopped(BadTag) <==> a.open(b.key, NonceAt(b, i), AadAt(b, i), input[2..2 + n + 16]) == None))
  {
    hide NonceAt, AadAt;
  }

  /** The records read before the first stop, why reading stopped, and the bytes from the
      start of the record that was not delivered. */
  datatype Decoded = Decoded(records: seq<Record>, stop: Stop, rest: Bytes)
  {
    function Prepend(earlier: seq<Record>): Decoded {
      this.(records := earlier + records)
    }
  }

  /** Calling Next until it fails. */
  function Decode(a: Aead, b: Binding, i: nat, input: Bytes): Decoded
    requires b.Shaped()
    decreases |input|
  {
    match OpenOne(a, b, i, input)
    case Stopped(s) => Decoded([], s, input)
    case Plain(plain, rest) =>
      match DecodeInner(plain)
      case Failure(e) => Decoded([], BadInner(e), input)
      case Success(r) =>
        Decode(a, b, i + 1, rest).Prepend([r])
  }

  // ----- round trip ---------------------------------------------------------

  lemma OpensOwnRecord(a: Aead, streams: set<Stream>, st: Stream, i: nat, j: nat, tail: Bytes)
    requires WellFormed(streams) && Ideal(a, streams) && st in streams
    requires j < |st.records| && i % COUNTERS == j % COUNTERS
    ensures OpenOne(a, st.binding, i, RecordBytes(a, st.binding, i, st.records[j]) + tail)
         == Plain(Inner(st.records[j]), tail)
  {
    hide NonceAt, AadAt;
    var b, r := st.binding, st.records[j];
    AtSameCounter(b, i, j);
    var s := RecordBytes(a, b, i, r);
    var input := s + tail;
    var c := SealAt(a, b, i, r);
    assert input[0] == s[..2][0] && input[1] == s[..2][1];
    assert U16(input[0], input[1]) == |Inner(r)|;
    assert |s| == 2 + |Inner(r)| + TAG_LEN;
    assert input[2..|s|] == c && input[|s|..] == tail;
    assert OpensAt(a, st, j);
  }

  lemma DecodeOne(a: Aead, b: Binding, i: nat, input: Bytes, r: Record, more: Bytes)
    requires b.Shaped() && Fits(r) && OpenOne(a, b, i, input) == Plain(Inner(r), more)
    ensures Decode(a, b, i, input) == Decode(a, b, i + 1, more).Prepend([r])
  {
    InnerRoundTrip(Inner(r), r);
    hide OpenOne, Inner, DecodeInner;
  }

  lemma {:induction false} DecodeWire(a: Aead, streams: set<Stream>, st: Stream, i: nat, tail: Bytes)
    requires WellFormed(streams) && Ideal(a, streams) && st in streams && i <= |st.records|
    ensures Decode(a, st.binding, i, Wire(a, st.binding, i, st.records[i..]) + tail)
         == Decode(a, st.binding, |st.records|, tail).Prepend(st.records[i..])
    decreases |st.records| - i
  {
    hide NonceAt, AadAt, OpenOne, RecordBytes, Ideal, Decode;
    var b := st.binding;
    var d := Decode(a, b, |st.records|, tail);
    if i == |st.records| {
      assert Wire(a, b, i, st.records[i..]) + tail == tail;
      assert st.records[i..] + d.records == d.records;
    } else {
      var r := st.records[i];
      assert st.records[i..][1..] == st.records[i + 1..];
      var more := Wire(a, b, i + 1, st.records[i + 1..]) + tail;
      assert Wire(a, b, i, st.records[i..]) + tail == RecordBytes(a, b, i, r) + more;
      OpensOwnRecord(a, streams, st, i, i, more);
      DecodeOne(a, b, i, RecordBytes(a, b, i, r) + more, r, more);
      DecodeWire(a, streams, st, i + 1, tail);
      assert [r] + (st.records[i + 1..] + d.records) == st.records[i..] + d.records;
    }
  }

  /** Writing records and then the terminator, whatever follows: the reader gets exactly that
      list and stops at the terminator. */
  lemma RoundTrip(a: Aead, streams: set<Stream>, st: Stream, junk: Bytes)
    requires WellFormed(streams) && Ideal(a, streams) && st in streams
    ensures Decode(a, st.binding, 0, Wire(a, st.binding, 0, st.records) + TERMINATOR + junk)
         == Decoded(st.records, Terminated, TERMINATOR + junk)
  {
    hide NonceAt, AadAt;
    assert st.records[0..] == st.records;
    DecodeWire(a, streams, st, 0, TERMINATOR + junk);
    assert Wire(a, st.binding, 0, st.records) + TERMINATOR + junk
        == Wire(a, st.binding, 0, st.records) + (TERMINATOR + junk);
    assert st.records + [] == st.records;
  }

  /** How many of the records lie wholly within the first n bytes of their wire form. */
  function Complete(a: Aead, b: Binding, i: nat, records: seq<Record>, n: nat): (k: nat)
    requires b.Shaped() && AllFit(records)
    ensures k <= |records|
    decreases |records|
  {
    if records == [] || n < |RecordBytes(a, b, i, records[0])| then 0
    else 1 + Complete(a, b, i + 1, records[1..], n - |RecordBytes(a, b, i, records[0])|)
  }

  /** The whole of what a writer puts out. */
  function Written(a: Aead, b: Binding, i: nat, records: seq<Record>): Bytes
    requires b.Shaped() && AllFit(records)
  {
    Wire(a, b, i, records) + TERMINATOR
  }

  /** It is the last record boundary at or before n. */
  lemma {:induction false} CompleteIsLast(a: Aead, b: Binding, i: nat, records: seq<Record>, n: nat)
    requires b.Shaped() && AllFit(records)
    ensures var k := Complete(a, b, i, records, n);
            && |Wire(a, b, i, records[..k])| <= n
            && (k < |records| ==> n < |Wire(a, b, i, records[..k + 1])|)
    decreases |records|
  {
    hide NonceAt, AadAt, RecordBytes;
    var k := Complete(a, b, i, records, n);
    if k == 0 {
      if records != [] {
        assert records[..1][1..] == [];
      }
    } else {
      var rest := records[1..];
      CompleteIsLast(a, b, i + 1, rest, n - |RecordBytes(a, b, i, records[0])|);
      assert records[..k][1..] == rest[..k - 1];
      if k < |records| {
        assert records[..k + 1][1..] == rest[..k];
      }
    }
  }

  lemma {:induction false} CompleteAll(a: Aead, b: Binding, i: nat, records: seq<Record>, n: nat)
    requires b.Shaped() && AllFit(records) && n >= |Wire(a, b, i, records)|
    ensures Complete(a, b, i, records, n) == |records|
    decreases |records|
  {
    hide NonceAt, AadAt, RecordBytes;
    if records != [] {
      CompleteAll(a, b, i + 1, records[1..], n - |RecordBytes(a, b, i, records[0])|);
    }
  }

  /** A reader of a stream that was cut anywhere - inside a record, inside the terminator, between
      records - gets the records that arrived whole, and can tell the cut from the terminator if and
      only if bytes of another record or of the terminator follow them. */
  lemma TruncationIsNoticedIff(a: Aead, streams: set<Stream>, st: Stream, cut: nat)
    requires WellFormed(streams) && Ideal(a, streams) && st in streams
    requires cut < |Written(a, st.binding, 0, st.records)|
    ensures var d := Decode(a, st.binding, 0, Written(a, st.binding, 0, st.records)[..cut]);
            var whole := st.records[..Complete(a, st.binding, 0, st.records, cut)];
            && d.records == whole
            && d.stop == (if cut == |Wire(a, st.binding, 0, whole)| then Eof else BadFrame)
            && (d.stop == Eof <==> d.rest == [])
  {
    assert st.records[0..] == st.records;
    CutDecodes(a, streams, st, 0, cut);
    hide NonceAt, AadAt, Decode, Complete, Wire, Written;
  }

  ghost predicate CutAt(a: Aead, b: Binding, i: nat, records: seq<Record>, cut: nat)
    requires b.Shaped() && AllFit(records) && cut < |Written(a, b, i, records)|
  {
    var d := Decode(a, b, i, Written(a, b, i, records)[..cut]);
    var whole := records[..Complete(a, b, i, records, cut)];
    && d.records == whole
    && d.stop == (if cut == |Wire(a, b, i, whole)| then Eof else BadFrame)
    && (d.stop == Eof <==> d.rest == [])
  }

  lemma {:induction false} CutDecodes(a: Aead, streams: set<Stream>, st: Stream, i: nat, cut: nat)
    requires WellFormed(streams) && Ideal(a, streams) && st in streams && i <= |st.records|
    requires cut < |Written(a, st.binding, i, st.records[i..])|
    ensures CutAt(a, st.binding, i, st.records[i..], cut)
    decreases |st.records| - i
  {
    assert TagSized(a);
    StreamIsWellFormed(streams, st);
    hide *;
    var b, records := st.binding, st.records[i..];
    if i < |st.records| && cut >= |RecordBytes(a, b, i, st.records[i])| {
      var n := |RecordBytes(a, b, i, st.records[i])|;
      assert records[1..] == st.records[i + 1..];
      WrittenCons(a, b, i, records);
      CutDecodes(a, streams, st, i + 1, cut - n);
      OpensOwnRecord(a, streams, st, i, i, Written(a, b, i + 1, records[1..])[..cut - n]);
      CutLater(a, b, i, records, cut);
    } else {
      CutNow(a, b, i, records, cut);
    }
  }

  lemma StreamIsWellFormed(streams: set<Stream>, st: Stream)
    requires WellFormed(streams) && st in streams
    ensures st.binding.WellFormed() && st.binding.Shaped() && AllFit(st.records)
    ensures forall i | 0 <= i <= |st.records| :: AllFit(st.records[i..])
  {
  }

  lemma WrittenCons(a: Aead, b: Binding, i: nat, records: seq<Record>)
    requires b.Shaped() && AllFit(records) && records != []
    ensures Written(a, b, i, records) == RecordBytes(a, b, i, records[0]) + Written(a, b, i + 1, records[1..])
  {
    hide NonceAt, AadAt, RecordBytes;
  }

  lemma CutNow(a: Aead, b: Binding, i: nat, records: seq<Record>, cut: nat)
    requires b.WellFormed() && AllFit(records) && TagSized(a) && cut < |Written(a, b, i, records)|
    requires records != [] ==> cut < |RecordBytes(a, b, i, records[0])|
    ensures CutAt(a, b, i, records, cut)
  {
    hide NonceAt, AadAt, RecordBytes, OpenOne, TagSized;
    var input := Written(a, b, i, records)[..cut];
    if records == [] {
      CutTerminator(a, b, i, input);
    } else {
      WrittenCons(a, b, i, records);
      assert input == RecordBytes(a, b, i, records[0])[..cut];
      CutRecord(a, b, i, records[0], cut);
    }
    assert Wire(a, b, i, []) == [];
  }

  lemma CutLater(a: Aead, b: Binding, i: nat, records: seq<Record>, cut: nat)
    requires b.WellFormed() && AllFit(records) && records != [] && |RecordBytes(a, b, i, records[0])| <= cut
    requires cut < |Written(a, b, i, records)|
    requires cut - |RecordBytes(a, b, i, records[0])| < |Written(a, b, i + 1, records[1..])|
    requires var first := RecordBytes(a, b, i, records[0]);
             var more := Written(a, b, i + 1, records[1..])[..cut - |first|];
             OpenOne(a, b, i, first + more) == Plain(Inner(records[0]), more)
    requires CutAt(a, b, i + 1, records[1..], cut - |RecordBytes(a, b, i, records[0])|)
    ensures CutAt(a, b, i, records, cut)
  {
    var first, rest := RecordBytes(a, b, i, records[0]), records[1..];
    var w := Written(a, b, i + 1, rest);
    var k := Complete(a, b, i + 1, rest, cut - |first|);
    CompleteCons(a, b, i, records, cut);
    hide NonceAt, AadAt, RecordBytes, OpenOne, Decode, Complete, Wire, Written, SealAt, Inner, DecodeInner, Nonce, Aad;
    var more := w[..cut - |first|];
    WrittenCons(a, b, i, records);
    TakePast(first, w, cut);
    DecodeOne(a, b, i, first + more, records[0], more);
    TakeOneMore(records, k);
    WireCons(a, b, i, records[0], rest[..k], []);
  }

  lemma CompleteCons(a: Aead, b: Binding, i: nat, records: seq<Record>, n: nat)
    requires b.Shaped() && AllFit(records) && records != [] && |RecordBytes(a, b, i, records[0])| <= n
    ensures AllFit(records[1..]) && Fits(records[0])
    ensures Complete(a, b, i, records, n) == 1 + Complete(a, b, i + 1, records[1..], n - |RecordBytes(a, b, i, records[0])|)
  {
    hide NonceAt, AadAt, RecordBytes;
  }

  lemma TakePast(x: Bytes, y: Bytes, n: nat)
    requires |x| <= n <= |x| + |y|
    ensures (x + y)[..n] == x + y[..n - |x|]
  {
  }

  lemma TakeWithin(x: Bytes, y: Bytes, n: nat)
    requires n <= |x|
    ensures (x + y)[..n] == x[..n]
  {
  }

  lemma TakeOneMore(rs: seq<Record>, k: nat)
    requires k + 1 <= |rs|
    ensures rs[..k + 1] == [rs[0]] + rs[1..][..k]
  {
  }

  lemma CutTerminator(a: Aead, b: Binding, i: nat, input: Bytes)
    requires b.WellFormed() && input < TERMINATOR
    ensures OpenOne(a, b, i, input) == Stopped(if input == [] then Eof else BadFrame)
  {
    hide NonceAt, AadAt;
  }

  lemma CutRecord(a: Aead, b: Binding, i: nat, r: Record, cut: nat)
    requires b.WellFormed() && Fits(r) && TagSized(a) && cut < |RecordBytes(a, b, i, r)|
    ensures OpenOne(a, b, i, RecordBytes(a, b, i, r)[..cut]) == Stopped(if cut == 0 then Eof else BadFrame)
  {
    hide NonceAt, AadAt;
    var s := RecordBytes(a, b, i, r);
    var input := s[..cut];
    assert |s| == 2 + |Inner(r)| + TAG_LEN;
    if cut >= 2 {
      assert input[0] == s[..2][0] && input[1] == s[..2][1];
    }
  }

  // ----- prefix safety ------------------------------------------------------

  /** A record that opens at index i of stream st is that stream's i-th record, and the bytes
      are the ones its writer produced. */
  lemma OnlyOwnRecordsOpen(a: Aead, streams: set<Stream>, st: Stream, i: nat, input: Bytes)
    requires WellFormed(streams) && Distinct(streams) && Ideal(a, streams) && st in streams
    requires i <= |st.records| < COUNTERS
    requires OpenOne(a, st.binding, i, input).Plain?
    ensures var o := OpenOne(a, st.binding, i, input);
            i < |st.records| && o.plain == Inner(st.records[i])
            && input == RecordBytes(a, st.binding, i, st.records[i]) + o.rest
  {
    hide NonceAt, AadAt;
    var b := st.binding;
    var o := OpenOne(a, b, i, input);
    var n := U16(input[0], input[1]);
    var c := input[2..2 + n + TAG_LEN];
    assert a.open(b.key, NonceAt(b, i), AadAt(b, i), c) == Some(o.plain);
    assert input == [input[0], input[1]] + c + o.rest;
    hide OpenOne;
    OpenedIsOwn(a, streams, st, i, c, o.plain);
    assert n == |Inner(st.records[i])|;
    assert BE16(n) == [input[0], input[1]];
  }

  lemma OpenedIsOwn(a: Aead, streams: set<Stream>, st: Stream, i: nat, c: Bytes, plain: Bytes)
    requires WellFormed(streams) && Distinct(streams) && Ideal(a, streams) && st in streams
    requires i <= |st.records| < COUNTERS
    requires a.open(st.binding.key, NonceAt(st.binding, i), AadAt(st.binding, i), c) == Some(plain)
    ensures i < |st.records| && plain == Inner(st.records[i]) && c == SealAt(a, st.binding, i, st.records[i])
    ensures |c| == |plain| + TAG_LEN
  {
    hide NonceAt, AadAt;
    var b := st.binding;
    assert OpenedWasIssued(a, streams, b.key, NonceAt(b, i), AadAt(b, i), c);
    var s, j :| s in streams && 0 <= j < |s.records| && IssuedAt(s, j, b.key, NonceAt(b, i), AadAt(b, i), plain);
    AadAtInjective(b, i, s.binding, j);
    assert s == st && j == i;
  }

  /** From index i on, this input yields a prefix of the stream's records and consumes their bytes. */
  ghost predicate Honest(a: Aead, st: Stream, i: nat, input: Bytes)
    requires st.binding.WellFormed() && i <= |st.records|
  {
    var d := Decode(a, st.binding, i, input);
    && d.records <= st.records[i..]
    && AllFit(d.records)
    && input == Wire(a, st.binding, i, d.records) + d.rest
  }

  lemma WireCons(a: Aead, b: Binding, i: nat, r: Record, rs: seq<Record>, rest: Bytes)
    requires b.Shaped() && Fits(r) && AllFit(rs)
    ensures AllFit([r] + rs)
    ensures Wire(a, b, i, [r] + rs) + rest == RecordBytes(a, b, i, r) + (Wire(a, b, i + 1, rs) + rest)
    ensures |Wire(a, b, i, [r] + rs)| == |RecordBytes(a, b, i, r)| + |Wire(a, b, i + 1, rs)|
  {
    hide NonceAt, AadAt, RecordBytes;
    assert ([r] + rs)[1..] == rs;
  }

  lemma PrefixCons(rs: seq<Record>, i: nat, xs: seq<Record>)
    requires i < |rs| && xs <= rs[i + 1..]
    ensures [rs[i]] + xs <= rs[i..]
  {
    assert rs[i..] == [rs[i]] + rs[i + 1..];
  }

  lemma HonestStep(a: Aead, st: Stream, i: nat, input: Bytes)
    requires st.binding.WellFormed() && AllFit(st.records) && i < |st.records|
    requires OpenOne(a, st.binding, i, input).Plain?
    requires var o := OpenOne(a, st.binding, i, input);
             && o.plain == Inner(st.records[i])
             && input == RecordBytes(a, st.binding, i, st.records[i]) + o.rest
             && Honest(a, st, i + 1, o.rest)
    ensures Honest(a, st, i, input)
  {
    hide NonceAt, AadAt, Inner;
    var b, r := st.binding, st.records[i];
    var d := Decode(a, b, i, input);
    var rest := OpenOne(a, b, i, input).rest;
    DecodeOne(a, b, i, input, r, rest);
    hide OpenOne, RecordBytes, Decode, Wire;
    var e := Decode(a, b, i + 1, rest);
    WireCons(a, b, i, r, e.records, e.rest);
    PrefixCons(st.records, i, e.records);
    assert d == Decoded([r] + e.records, e.stop, e.rest);
  }

  lemma {:induction false} PrefixSafetyFrom(a: Aead, streams: set<Stream>, st: Stream, i: nat, input: Bytes)
    requires WellFormed(streams) && Distinct(streams) && Ideal(a, streams) && st in streams
    requires i <= |st.records| < COUNTERS
    ensures Honest(a, st, i, input)
    decreases |input|
  {
    hide NonceAt, AadAt;
    var o := OpenOne(a, st.binding, i, input);
    if o.Plain? {
      OnlyOwnRecordsOpen(a, streams, st, i, input);
      PrefixSafetyFrom(a, streams, st, i + 1, o.rest);
      HonestStep(a, st, i, input);
    }
  }

  /** For every input whatever - truncated, reordered, duplicated, spliced from other streams -
      the records a reader delivers are a prefix of what the stream's writer sealed. */
  ghost predicate PrefixSafe(a: Aead, st: Stream)
    requires st.binding.WellFormed()
  {
    forall input :: Decode(a, st.binding, 0, input).records <= st.records
  }

  /** Prefix safety holds for every input exactly while the uint32 counter has not wrapped. */
  lemma PrefixSafety(a: Aead, streams: set<Stream>, st: Stream)
    requires WellFormed(streams) && Distinct(streams) && Ideal(a, streams) && st in streams
    ensures PrefixSafe(a, st) <==> |st.records| < 0x1_0000_0000
  {
    hide NonceAt, AadAt;
    if |st.records| < COUNTERS {
      forall input ensures Decode(a, st.binding, 0, input).records <= st.records {
        PrefixSafetyFrom(a, streams, st, 0, input);
        assert st.records[0..] == st.records;
      }
    } else {
      RecordAfterWrapIsAccepted(a, streams, st);
    }
  }

  // Past the wrap the reader's counter is an earlier record's, and that record opens again.
  lemma RecordAfterWrapOpens(a: Aead, streams: set<Stream>, st: Stream, again: Bytes)
    requires WellFormed(streams) && Ideal(a, streams) && st in streams && |st.records| >= COUNTERS
    requires again == RecordBytes(a, st.binding, |st.records|, st.records[|st.records| % COUNTERS])
    ensures Decode(a, st.binding, |st.records|, again).records != []
  {
    hide NonceAt, AadAt;
    var r := st.records[|st.records| % COUNTERS];
    assert again + [] == again;
    OpensOwnRecord(a, streams, st, |st.records|, |st.records| % COUNTERS, []);
    InnerRoundTrip(Inner(r), r);
  }

  lemma RecordAfterWrapIsAccepted(a: Aead, streams: set<Stream>, st: Stream)
    requires WellFormed(streams) && Ideal(a, streams) && st in streams && |st.records| >= COUNTERS
    ensures exists input :: !(Decode(a, st.binding, 0, input).records <= st.records)
  {
    hide NonceAt, AadAt;
    var n := |st.records|;
    var again := RecordBytes(a, st.binding, n, st.records[n % COUNTERS]);
    RecordAfterWrapOpens(a, streams, st, again);
    DecodeWire(a, streams, st, 0, again);
    hide Ideal, RecordBytes, Wire, Decode;
    var input := Wire(a, st.binding, 0, st.records[0..]) + again;
    var d := Decode(a, st.binding, 0, input);
    assert |d.records| > n;
  }

  /** What is delivered is also consumed verbatim: the accepted bytes are a prefix of the
      writer's own bytes, so nothing else decodes to these records. */
  lemma AcceptedBytesAreTheWriters(a: Aead, streams: set<Stream>, st: Stream, input: Bytes)
    requires WellFormed(streams) && Distinct(streams) && Ideal(a, streams) && st in streams
    requires |st.records| < COUNTERS
    ensures var d := Decode(a, st.binding, 0, input);
            |d.rest| <= |input| && input[..|input| - |d.rest|] <= Wire(a, st.binding, 0, st.records)
  {
    hide NonceAt, AadAt;
    var d := Decode(a, st.binding, 0, input);
    PrefixSafetyFrom(a, streams, st, 0, input);
    assert st.records[0..] == st.records;
    var k := |d.records|;
    assert st.records == d.records + st.records[k..];
    WireAppend(a, st.binding, 0, d.records, st.records[k..]);
    hide Ideal, RecordBytes, Wire, Decode;
    var used := Wire(a, st.binding, 0, d.records);
    assert input[..|used|] == used;
  }

  // ----- the assumptions can be met ----------------------------------------

  /** For every finite set of streams there is a cipher that is ideal for it. */
  ghost function Plainly(streams: set<Stream>): Aead
    requires WellFormed(streams)
  {
    var tag := seq(TAG_LEN, _ => 0 as byte);
    Aead((k: Bytes, n: Bytes, d: Bytes, p: Bytes) => p + tag,
         (k: Bytes, n: Bytes, d: Bytes, c: Bytes) =>
           if |c| >= TAG_LEN && c[|c| - TAG_LEN..] == tag && Issued(streams, k, n, d, c[..|c| - TAG_LEN])
           then Some(c[..|c| - TAG_LEN]) else None)
  }

  lemma PlainlyOpensOnlyIssued(streams: set<Stream>, k: Bytes, n: Bytes, d: Bytes, c: Bytes)
    requires WellFormed(streams) && Plainly(streams).open(k, n, d, c).Some?
    ensures OpenedWasIssued(Plainly(streams), streams, k, n, d, c)
  {
    hide NonceAt, AadAt, Issued;
    assert c == c[..|c| - TAG_LEN] + c[|c| - TAG_LEN..];
  }

  lemma PlainlyOpens(streams: set<Stream>, k: Bytes, n: Bytes, d: Bytes, p: Bytes)
    requires WellFormed(streams) && Issued(streams, k, n, d, p)
    ensures var a := Plainly(streams); a.open(k, n, d, a.seal(k, n, d, p)) == Some(p)
  {
    hide NonceAt, AadAt, Issued;
    var c := Plainly(streams).seal(k, n, d, p);
    assert c[..|c| - TAG_LEN] == p;
  }

  lemma PlainlyOpensIssued(streams: set<Stream>, st: Stream, i: nat)
    requires WellFormed(streams) && st in streams && i < |st.records|
    ensures OpensAt(Plainly(streams), st, i)
  {
    hide NonceAt, AadAt, Inner, Plainly;
    var b, p := st.binding, Inner(st.records[i]);
    assert IssuedAt(st, i, b.key, NonceAt(b, i), AadAt(b, i), p);
    PlainlyOpens(streams, b.key, NonceAt(b, i), AadAt(b, i), p);
  }

  lemma IdealCipherExists(streams: set<Stream>)
    requires WellFormed(streams)
    ensures exists a :: Ideal(a, streams)
  {
    hide NonceAt, AadAt;
    var a := Plainly(streams);
    forall k, n, d, c | a.open(k, n, d, c).Some? ensures OpenedWasIssued(a, streams, k, n, d, c) {
      PlainlyOpensOnlyIssued(streams, k, n, d, c);
    }
    forall st, i | st in streams && 0 <= i < |st.records| ensures OpensAt(a, st, i) {
      PlainlyOpensIssued(streams, st, i);
    }
    assert Ideal(a, streams);
  }
}
