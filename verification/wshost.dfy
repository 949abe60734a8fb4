/**
 * The broadcast wire format of the WebSocket host: a 16-byte big-endian header
 * (total length, header length, protocol version, operation, sequence) followed
 * by the body, and the 16-byte acknowledgement sent for every inbound message.
 * The header is built the way the host builds it: a zero-filled 16-byte buffer
 * written in place field by field, then concatenated with the body.
 */
module WsHost {
  import opened Wrappers

  type Byte = b: int | 0 <= b < 256

  const HeaderLength: nat := 16
  const ProtocolVersion: nat := 1
  /** Operation of an event message carrying a JSON body. */
  const OpMessage: nat := 5
  /** Operation of the reply to an inbound client message. */
  const OpHandshakeAck: nat := 8
  const SequenceId: nat := 1

  /** One more than the largest value that n big-endian bytes can hold. */
  function Pow256(n: nat): (r: nat)
    ensures r >= 1
    ensures n > 0 ==> r >= 256
  {
    if n == 0 then 1 else 256 * Pow256(n - 1)
  }

  /** The n-byte big-endian image of v (most significant byte first). */
  function BigEndian(v: nat, n: nat): (r: seq<Byte>)
    ensures |r| == n
  {
    if n == 0 then [] else BigEndian(v / 256, n - 1) + [v % 256]
  }

  /** The value that a big-endian byte string denotes. */
  function FromBigEndian(s: seq<Byte>): (r: nat)
    ensures r < Pow256(|s|)
  {
    if s == [] then 0 else FromBigEndian(s[..|s| - 1]) * 256 + s[|s| - 1]
  }

  /** Reading back a big-endian image gives the value that was written. */
  lemma {:induction false} FromBigEndianOfBigEndian(v: nat, n: nat)
    requires v < Pow256(n)
    ensures FromBigEndian(BigEndian(v, n)) == v
  {
    if n > 0 {
      FromBigEndianOfBigEndian(v / 256, n - 1);
      var s := BigEndian(v, n);
      assert s[..|s| - 1] == BigEndian(v / 256, n - 1);
    }
  }

  /** Every byte string is the big-endian image of the value it denotes. */
  lemma {:induction false} BigEndianOfFromBigEndian(s: seq<Byte>)
    ensures BigEndian(FromBigEndian(s), |s|) == s
  {
    if s != [] {
      var init := s[..|s| - 1];
      BigEndianOfFromBigEndian(init);
      var v := FromBigEndian(s);
      assert v / 256 == FromBigEndian(init) && v % 256 == s[|s| - 1];
      assert s == init + [s[|s| - 1]];
    }
  }

  datatype Header = Header(packetLength: nat, headerLength: nat, version: nat, operation: nat, sequence: nat)

  /** Every field fits the width the header gives it (4, 2, 2, 4 and 4 bytes). */
  predicate HeaderFits(h: Header) {
    && h.packetLength < Pow256(4)
    && h.headerLength < Pow256(2)
    && h.version < Pow256(2)
    && h.operation < Pow256(4)
    && h.sequence < Pow256(4)
  }

  /** The 16 header bytes: each field's big-endian image, in field order. */
  function EncodeHeader(h: Header): (r: seq<Byte>)
    ensures |r| == HeaderLength
  {
    BigEndian(h.packetLength, 4) + BigEndian(h.headerLength, 2) + BigEndian(h.version, 2)
    + BigEndian(h.operation, 4) + BigEndian(h.sequence, 4)
  }

  /** What a receiver reads from the first 16 bytes of a frame; None when the frame is shorter. */
  function DecodeHeader(s: seq<Byte>): (r: Option<Header>)
    ensures r.Some? <==> |s| >= HeaderLength
  {
    if |s| < HeaderLength then None
    else Some(Header(FromBigEndian(s[0..4]), FromBigEndian(s[4..6]), FromBigEndian(s[6..8]),
                     FromBigEndian(s[8..12]), FromBigEndian(s[12..16])))
  }

  /** A frame split into its header and the body that follows the 16 header bytes. */
  function DecodeFrame(s: seq<Byte>): (r: Option<(Header, seq<Byte>)>)
    ensures r.Some? <==> |s| >= HeaderLength
    ensures r.Some? ==> s == EncodeHeader(r.value.0) + r.value.1
  {
    match DecodeHeader(s)
    case None => None
    case Some(h) =>
      HeaderOfDecodeHeader(s);
      assert s == s[..HeaderLength] + s[HeaderLength..];
      Some((h, s[HeaderLength..]))
  }

  /** Decoding an encoded header gives the header back. */
  lemma HeaderRoundTrip(h: Header)
    requires HeaderFits(h)
    ensures DecodeHeader(EncodeHeader(h)) == Some(h)
  {
    var s := EncodeHeader(h);
    var front := BigEndian(h.packetLength, 4) + BigEndian(h.headerLength, 2) + BigEndian(h.version, 2)
      + BigEndian(h.operation, 4);
    assert s == front + BigEndian(h.sequence, 4) && |front| == 12;
    assert s[0..4] == BigEndian(h.packetLength, 4);
    assert s[4..6] == BigEndian(h.headerLength, 2);
    assert s[6..8] == BigEndian(h.version, 2);
    assert s[8..12] == BigEndian(h.operation, 4);
    assert s[12..16] == BigEndian(h.sequence, 4);
    FromBigEndianOfBigEndian(h.packetLength, 4);
    FromBigEndianOfBigEndian(h.headerLength, 2);
    FromBigEndianOfBigEndian(h.version, 2);
    FromBigEndianOfBigEndian(h.operation, 4);
    FromBigEndianOfBigEndian(h.sequence, 4);
  }

  /** Re-encoding a decoded header reproduces the 16 bytes it was read from. */
  lemma HeaderOfDecodeHeader(s: seq<Byte>)
    requires |s| >= HeaderLength
    ensures DecodeHeader(s).Some? && HeaderFits(DecodeHeader(s).value)
    ensures EncodeHeader(DecodeHeader(s).value) == s[..HeaderLength]
  {
    BigEndianOfFromBigEndian(s[0..4]);
    BigEndianOfFromBigEndian(s[4..6]);
    BigEndianOfFromBigEndian(s[6..8]);
    BigEndianOfFromBigEndian(s[8..12]);
    BigEndianOfFromBigEndian(s[12..16]);
    assert s[..HeaderLength] == s[0..4] + s[4..6] + s[6..8] + s[8..12] + s[12..16];
  }

  /** The header the host puts in front of a body of n bytes. */
  function MessageHeader(n: nat): Header {
    Header(HeaderLength + n, HeaderLength, ProtocolVersion, OpMessage, SequenceId)
  }

  /** The header of the acknowledgement: a frame with no body. */
  function AckHeader(): Header {
    Header(HeaderLength, HeaderLength, ProtocolVersion, OpHandshakeAck, SequenceId)
  }

  /** Only the first 16 bytes of a frame take part in its header. */
  lemma DecodeHeaderOfPrefix(s: seq<Byte>)
    requires |s| >= HeaderLength
    ensures DecodeHeader(s) == DecodeHeader(s[..HeaderLength])
  {
    var p := s[..HeaderLength];
    assert p[0..4] == s[0..4] && p[4..6] == s[4..6] && p[6..8] == s[6..8];
    assert p[8..12] == s[8..12] && p[12..16] == s[12..16];
  }

  /** A complete event frame holds the body unchanged and is recovered by DecodeFrame. */
  lemma {:induction false} MessageFrameRoundTrip(body: seq<Byte>)
    requires HeaderLength + |body| < Pow256(4)
    ensures DecodeFrame(EncodeHeader(MessageHeader(|body|)) + body) == Some((MessageHeader(|body|), body))
  {
    var h := MessageHeader(|body|);
    var s := EncodeHeader(h) + body;
    assert s[..HeaderLength] == EncodeHeader(h);
    assert s[HeaderLength..] == body;
    HeaderRoundTrip(h);
    DecodeHeaderOfPrefix(s);
  }

  /** Five field images laid side by side at offsets 0, 4, 6, 8 and 12 form the encoded header. */
  lemma FieldsFormHeader(s: seq<Byte>, h: Header)
    requires |s| == HeaderLength
    requires s[0..4] == BigEndian(h.packetLength, 4)
    requires s[4..6] == BigEndian(h.headerLength, 2)
    requires s[6..8] == BigEndian(h.version, 2)
    requires s[8..12] == BigEndian(h.operation, 4)
    requires s[12..16] == BigEndian(h.sequence, 4)
    ensures s == EncodeHeader(h)
  {
    assert s == s[0..4] + s[4..6] + s[6..8] + s[8..12] + s[12..16];
  }

  /** The big-endian images of the constant header fields. */
  lemma ConstantFieldImages()
    ensures BigEndian(HeaderLength, 2) == [0, 16] && BigEndian(ProtocolVersion, 2) == [0, 1]
    ensures BigEndian(OpMessage, 4) == [0, 0, 0, 5] && BigEndian(OpHandshakeAck, 4) == [0, 0, 0, 8]
    ensures BigEndian(SequenceId, 4) == [0, 0, 0, 1] && BigEndian(HeaderLength, 4) == [0, 0, 0, 16]
  {
  }

  datatype FrameError = ValueOutOfRange

  /**
   * Buffer.writeUInt32BE(value, offset) and Buffer.writeUInt16BE(value, offset),
   * with byteLength 4 and 2: stores the byteLength-byte big-endian image of
   * value at offset, touching no other byte.
   */
  method WriteUIntBE(buf: array<Byte>, value: nat, offset: nat, byteLength: nat)
    requires offset + byteLength <= buf.Length
    requires value < Pow256(byteLength)
    modifies buf
    ensures buf[offset..offset + byteLength] == BigEndian(value, byteLength)
    ensures forall i :: 0 <= i < buf.Length && !(offset <= i < offset + byteLength) ==> buf[i] == old(buf[i])
  {
    var v := value;
    var j := byteLength;
    while j > 0
      invariant 0 <= j <= byteLength
      invariant forall i :: 0 <= i < buf.Length && !(offset + j <= i < offset + byteLength) ==> buf[i] == old(buf[i])
      invariant BigEndian(value, byteLength) == BigEndian(v, j) + buf[offset + j..offset + byteLength]
    {
      ghost var tail := buf[offset + j..offset + byteLength];
      buf[offset + j - 1] := v % 256;
      assert buf[offset + j - 1..offset + byteLength] == [v % 256] + tail;
      assert BigEndian(v, j) == BigEndian(v / 256, j - 1) + [v % 256];
      v := v / 256;
      j := j - 1;
    }
  }

  /**
   * parseMessage: the event frame for an already encoded body. Fails, as
   * writeUInt32BE does, when the total length does not fit in 32 bits.
   */
  method ParseMessage(body: seq<Byte>) returns (r: Result<seq<Byte>, FrameError>)
    ensures r.Failure? <==> HeaderLength + |body| >= Pow256(4)
    ensures r.Success? ==> |r.value| == HeaderLength + |body|
    ensures r.Success? ==> r.value[0..4] == BigEndian(HeaderLength + |body|, 4)
    ensures r.Success? ==> r.value[4..8] == [0, 16, 0, 1]
    ensures r.Success? ==> r.value[8..16] == [0, 0, 0, 5, 0, 0, 0, 1]
    ensures r.Success? ==> r.value[HeaderLength..] == body
    ensures r.Success? ==> DecodeFrame(r.value) == Some((MessageHeader(|body|), body))
  {
    var total := HeaderLength + |body|;
    if total >= Pow256(4) {
      return Failure(ValueOutOfRange);
    }
    var header := new Byte[HeaderLength](_ => 0);
    WriteUIntBE(header, total, 0, 4);
    ghost var afterLength := header[..];
    WriteUIntBE(header, HeaderLength, 4, 2);
    WriteUIntBE(header, ProtocolVersion, 6, 2);
    WriteUIntBE(header, OpMessage, 8, 4);
    WriteUIntBE(header, SequenceId, 12, 4);
    assert header[0..4] == afterLength[0..4];
    FieldsFormHeader(header[..], MessageHeader(|body|));
    var payload := header[..] + body;
    MessageFrameBytes(body);
    r := Success(payload);
  }

  /** Where each field of an event frame sits and what it holds. */
  lemma MessageFrameBytes(body: seq<Byte>)
    requires HeaderLength + |body| < Pow256(4)
    ensures var s := EncodeHeader(MessageHeader(|body|)) + body;
      && |s| == HeaderLength + |body|
      && s[0..4] == BigEndian(HeaderLength + |body|, 4)
      && s[4..8] == [0, 16, 0, 1]
      && s[8..16] == [0, 0, 0, 5, 0, 0, 0, 1]
      && s[HeaderLength..] == body
      && DecodeFrame(s) == Some((MessageHeader(|body|), body))
  {
    var e := EncodeHeader(MessageHeader(|body|));
    var s := e + body;
    ConstantFieldImages();
    assert s[0..4] == e[0..4] && s[4..8] == e[4..8] && s[8..16] == e[8..16];
    assert s[HeaderLength..] == body;
    MessageFrameRoundTrip(body);
  }

  /** The 16-byte reply the host sends for every message a client sends it. */
  method HandshakeAck() returns (ack: seq<Byte>)
    ensures ack == [0, 0, 0, 16, 0, 16, 0, 1, 0, 0, 0, 8, 0, 0, 0, 1]
    ensures DecodeFrame(ack) == Some((AckHeader(), []))
  {
    var accepted := new Byte[HeaderLength](_ => 0);
    WriteUIntBE(accepted, HeaderLength, 0, 4);
    WriteUIntBE(accepted, HeaderLength, 4, 2);
    WriteUIntBE(accepted, ProtocolVersion, 6, 2);
    WriteUIntBE(accepted, OpHandshakeAck, 8, 4);
    WriteUIntBE(accepted, SequenceId, 12, 4);
    FieldsFormHeader(accepted[..], AckHeader());
    ConstantFieldImages();
    ack := accepted[..];
    HeaderRoundTrip(AckHeader());
    assert ack == ack + [];
  }
}
