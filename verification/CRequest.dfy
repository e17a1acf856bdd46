/** The C client's request (build_oneshot_request of clients/c/cib_aes.c), and what the Go server
    makes of it. */
module CRequest {
  import opened Bytes
  import opened Envelope
  import opened Streams
  import Hex
  import C = CClient
  import G = RecordStream
  import E = EnvelopeBody

  datatype Refusal = BodyTooLarge | BadArg

  /** What a request under this fresh stream id is bound to. */
  function RequestBinding(key: Bytes, keyId: Bytes, route: Bytes, streamId: Bytes): Binding {
    Binding(key, Headers(keyId, streamId, Hex.Octets(Hex.Text(streamId))), REQUEST, route)
  }

  /** The stream id is drawn from the random generator. */
  method BuildOneShot(a: Aead, key: Bytes, keyId: Bytes, route: Bytes, req: Bytes, streamId: array<byte>)
    returns (res: Result<Bytes, Refusal>)
    requires TagSized(a) && streamId.Length == STREAM_ID_LEN
    ensures var b := RequestBinding(key, keyId, route, streamId[..]);
            if |req| > MAX_PAYLOAD then res == Failure(BodyTooLarge)
            else if |Aad(b, 0)| >= C.MAX_AAD then res == Failure(BadArg)
            else res == Success(G.OneShotBytes(a, b, Record(TYPE_JSON, req)))
  {
    hide Aad, Nonce, Hex.Text;
    if |req| > MAX_PAYLOAD {
      return Failure(BodyTooLarge);
    }
    var hex := Hex.Encode(streamId);
    var b := Binding(key, Headers(keyId, streamId[..], Hex.Octets(hex[..])), REQUEST, route);
    var inner := new byte[MAX_RECORD_PLAIN](_ => 0);
    var n := C.EncodeInto(TYPE_JSON, req, inner);
    var aad := new byte[C.MAX_AAD](_ => 0);
    var aadLen := C.PrintAad(b, 0, aad);
    assert |Aad(b, 0)| > 0 by { AadUnfolded(b, 0); }
    if aadLen == 0 {
      return Failure(BadArg);
    }
    var nonce := new byte[NONCE_LEN](_ => 0);
    C.NonceInto(streamId, 0, nonce);
    var sealed := a.seal(key, nonce[..], aad[..aadLen], inner[..n]);
    var body := Layout(n, sealed);
    res := Success(body[..]);
  }

  /** Length, ciphertext and tag, and the zero length that ends the stream. */
  method Layout(n: nat, sealed: Bytes) returns (body: array<byte>)
    requires n <= MAX_RECORD_PLAIN && |sealed| == n + TAG_LEN
    ensures body[..] == BE16(n) + sealed + TERMINATOR
  {
    body := new byte[2 + n + TAG_LEN + 2](_ => 0);
    body[0] := n / 256 % 256;
    body[1] := n % 256;
    forall i | 0 <= i < |sealed| {
      body[2 + i] := sealed[i];
    }
    var off := 2 + n + TAG_LEN;
    body[off] := 0;
    body[off + 1] := 0;
    assert n / 256 % 256 == n / 256;
    assert body[..2] == BE16(n);
    assert body[2..off] == sealed;
    assert body[off..] == TERMINATOR;
    assert body[..] == body[..2] + body[2..off] + body[off..];
  }

  /** What the server opens a request under: REQUEST, the route of the URL, and the key id and stream id
      of the headers, the latter both as sent and decoded. */
  function ServerBinding(key: Bytes, keyId: Bytes, route: Bytes, streamIdHex: Bytes, streamId: Bytes): Binding {
    Binding(key, Headers(keyId, streamId, streamIdHex), [82, 69, 81, 85, 69, 83, 84], route)
  }

  /** A request of the C client reaches the Go server as it was, whatever bytes the server decodes from
      the stream header, through the body reader and through the one-shot reader, and whatever follows. */
  lemma CToGo(a: Aead, streams: set<Stream>, key: Bytes, keyId: Bytes, route: Bytes, streamId: Bytes, parsed: Bytes,
              req: Bytes, junk: Bytes)
    requires |streamId| == STREAM_ID_LEN && |req| <= MAX_PAYLOAD && Hex.Spells(Hex.Text(streamId), parsed)
    requires WellFormed(streams) && Ideal(a, streams)
    requires Stream.Stream(RequestBinding(key, keyId, route, streamId), [Record(TYPE_JSON, req)]) in streams
    ensures var b := ServerBinding(key, keyId, route, Hex.Octets(Hex.Text(streamId)), parsed);
            var body := G.OneShotBytes(a, RequestBinding(key, keyId, route, streamId), Record(TYPE_JSON, req)) + junk;
            && b.Shaped()
            && E.Collect(Decode(a, b, 0, body), 0, []) == Success(req)
            && G.OneShotResult(a, b, body) == Success(Record(TYPE_JSON, req))
  {
    Hex.TextSpells(streamId);
    Hex.SpellingIsExact(Hex.Text(streamId), streamId, parsed);
    hide NonceAt, AadAt, Ideal, Decode, RecordBytes, WellFormed, G.OneShotBytes, G.OneShotResult, E.Collect, Hex.Text, Hex.Spells;
    OwnRequestOpens(a, streams, Stream.Stream(RequestBinding(key, keyId, route, streamId), [Record(TYPE_JSON, req)]), req, junk);
  }

  lemma OwnRequestOpens(a: Aead, streams: set<Stream>, st: Stream, req: Bytes, junk: Bytes)
    requires WellFormed(streams) && Ideal(a, streams) && st in streams
    requires |req| <= MAX_PAYLOAD && st.records == [Record(TYPE_JSON, req)]
    ensures var body := G.OneShotBytes(a, st.binding, Record(TYPE_JSON, req)) + junk;
            && E.Collect(Decode(a, st.binding, 0, body), 0, []) == Success(req)
            && G.OneShotResult(a, st.binding, body) == Success(Record(TYPE_JSON, req))
  {
    hide NonceAt, AadAt, Ideal, Decode, RecordBytes;
    var b, r := st.binding, Record(TYPE_JSON, req);
    assert Wire(a, b, 0, [r]) == RecordBytes(a, b, 0, r) + [];
    assert Wire(a, b, 0, [r]) + TERMINATOR + junk == G.OneShotBytes(a, b, r) + junk;
    RoundTrip(a, streams, st, junk);
    E.AcceptedBodies(Decoded([r], Terminated, TERMINATOR + junk), req);
    assert E.JsonOf([r]) == req + [];
    OpensOwnRecord(a, streams, st, 0, 0, TERMINATOR + junk);
    InnerRoundTrip(Inner(r), r);
    assert G.OneShotBytes(a, b, r) + junk == RecordBytes(a, b, 0, r) + (TERMINATOR + junk);
  }

  /** Fresh stream ids make the requests' bindings well formed and tell the streams apart. */
  lemma FreshIdsAreDistinct(key: Bytes, keyId: Bytes, route: Bytes, s: Bytes, t: Bytes)
    requires |key| == KEY_LEN && |s| == |t| == STREAM_ID_LEN && NL !in keyId
    ensures RequestBinding(key, keyId, route, s).WellFormed()
    ensures var x := RequestBinding(key, keyId, route, s).headers.streamIdHex;
            var y := RequestBinding(key, keyId, route, t).headers.streamIdHex;
            x == y <==> s == t
  {
    Hex.TextInjective(s, t);
  }
}
