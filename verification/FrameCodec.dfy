/** Frames as they go over the wire: stuffed, and closed by a zero byte. */
module FrameCodec {
  import opened Bytes
  import opened LinkFrames
  import Cobs

  predicate Encodable(f: Frame) {
    |f.payload| <= MAX_PAYLOAD_SIZE
  }

  /** The encoding without its delimiter. */
  function Stuffed(f: Frame): bytes
    requires Encodable(f)
  {
    Cobs.Encode(SerializeRaw(f))
  }

  function EncodeFrame(f: Frame): bytes
    requires Encodable(f)
  {
    Stuffed(f) + [0]
  }

  function DecodeFrame(data: bytes): FrameResult {
    match Cobs.Decode(data)
    case None => FrameResult.Err(CobsDecode)
    case Some(raw) => ParseRaw(raw)
  }

  method Encode(f: Frame) returns (encoded: bytes)
    requires Encodable(f)
    ensures encoded == EncodeFrame(f)
  {
    var raw := SerializeRaw(f);
    encoded := Cobs.EncodeInPlace(raw);
    encoded := encoded + [0];
  }

  /** The largest frame on the wire, delimiter included. */
  const MAX_WIRE_SIZE := 4127

  lemma RoundTrip(f: Frame)
    requires Encodable(f)
    ensures DecodeFrame(Stuffed(f)) == FrameResult.Ok(f)
  {
    Cobs.RoundTrip(SerializeRaw(f));
    ParsesRaw(f.flags.ToByte(), f.seqNo, f.ack, f.payload);
    FlagsRoundTrip(f.flags);
  }

  /** One zero byte, at the end; at most one byte in 254 of overhead, and the delimiter. */
  lemma WireShape(f: Frame)
    requires Encodable(f)
    ensures var n := |SerializeRaw(f)|;
      && Stuffed(f) != [] && 0 !in Stuffed(f)
      && |EncodeFrame(f)| <= n + n / 254 + 2 <= MAX_WIRE_SIZE
  {
    Cobs.EncodeNonEmpty(SerializeRaw(f));
    Cobs.NoZero(SerializeRaw(f));
    Cobs.Length(SerializeRaw(f));
  }

  /** Raw frames shorter than a block grow by exactly the lead byte and the delimiter: a pure ACK
      takes 15 bytes, a NACK 17. */
  lemma ControlFrameSizes(seqNo: u16, ack: u16, missing: u16)
    ensures |EncodeFrame(AckFrame(seqNo, ack))| == 15
    ensures |EncodeFrame(NackFrame(seqNo, ack, missing))| == 17
  {
    Cobs.ShortLength(SerializeRaw(AckFrame(seqNo, ack)));
    Cobs.ShortLength(SerializeRaw(NackFrame(seqNo, ack, missing)));
  }
}
