/** Frames of the serial link and their raw layout. */
module LinkFrames {
  import opened Bytes
  import opened Crc

  const MAX_PAYLOAD_SIZE := 4096
  const HEADER_SIZE := 9
  const CRC_SIZE := 4
  const MAX_FRAME_SIZE := HEADER_SIZE + MAX_PAYLOAD_SIZE + CRC_SIZE

  datatype FrameFlags = Data | Ack | Nack | Control | Fin | Chunk {
    predicate IsAckOnly() { Ack? || Nack? }

    function ToByte(): byte {
      match this
      case Data => 0x01
      case Ack => 0x02
      case Nack => 0x04
      case Control => 0x08
      case Fin => 0x10
      case Chunk => 0x20
    }
  }

  /** Unknown values read as data. */
  function FlagsFromByte(b: byte): FrameFlags {
    match b
    case 0x02 => Ack
    case 0x04 => Nack
    case 0x08 => Control
    case 0x10 => Fin
    case 0x20 => Chunk
    case _ => Data
  }

  datatype Frame = Frame(flags: FrameFlags, seqNo: u16, ack: u16, payload: bytes)

  datatype FrameError = CobsDecode | TooShort | BadMagic | LengthMismatch | CrcMismatch

  datatype FrameResult = Ok(frame: Frame) | Err(error: FrameError)

  function DataFrame(seqNo: u16, ack: u16, payload: bytes): Frame {
    Frame(Data, seqNo, ack, payload)
  }

  function AckFrame(seqNo: u16, ack: u16): Frame {
    Frame(Ack, seqNo, ack, [])
  }

  function NackFrame(seqNo: u16, ack: u16, missing: u16): Frame {
    Frame(Nack, seqNo, ack, U16ToBe(missing))
  }

  // ---- Raw layout ----

  /** Magic, flags, sequence number, acknowledgement, payload length. */
  function Header(flags: byte, seqNo: u16, ack: u16, length: u16): (h: bytes)
    ensures |h| == HEADER_SIZE
  {
    [0x53, 0x52, flags] + U16ToBe(seqNo) + U16ToBe(ack) + U16ToBe(length)
  }

  function RawFrame(flags: byte, seqNo: u16, ack: u16, payload: bytes): (raw: bytes)
    requires |payload| < 0x1_0000
    ensures |raw| == HEADER_SIZE + |payload| + CRC_SIZE
  {
    var body := Header(flags, seqNo, ack, |payload|) + payload;
    body + U32ToBe(Crc32(body))
  }

  function SerializeRaw(f: Frame): bytes
    requires |f.payload| <= MAX_PAYLOAD_SIZE
  {
    RawFrame(f.flags.ToByte(), f.seqNo, f.ack, f.payload)
  }

  function ParseRaw(raw: bytes): FrameResult {
    if |raw| < HEADER_SIZE + CRC_SIZE then FrameResult.Err(TooShort)
    else if raw[0..2] != [0x53, 0x52] then FrameResult.Err(BadMagic)
    else
      var length := U16FromBe(raw[7], raw[8]);
      var end := HEADER_SIZE + length;
      if |raw| != end + CRC_SIZE then FrameResult.Err(LengthMismatch)
      else if U32FromBe(raw[end], raw[end + 1], raw[end + 2], raw[end + 3]) != Crc32(raw[..end])
      then FrameResult.Err(CrcMismatch)
      else FrameResult.Ok(Frame(FlagsFromByte(raw[2]), U16FromBe(raw[3], raw[4]), U16FromBe(raw[5], raw[6]),
              raw[HEADER_SIZE..end]))
  }

  lemma HeaderLayout(flags: byte, seqNo: u16, ack: u16, length: u16)
    ensures var h := Header(flags, seqNo, ack, length);
      && h[0] == 0x53 && h[1] == 0x52 && h[2] == flags
      && Spelled(h[3..5]) == seqNo && Spelled(h[5..7]) == ack && Spelled(h[7..9]) == length
  {
    var h := Header(flags, seqNo, ack, length);
    assert h[3..5] == U16ToBe(seqNo) && h[5..7] == U16ToBe(ack) && h[7..9] == U16ToBe(length);
    SpelledTwo(h[3..5]);
    SpelledTwo(h[5..7]);
    SpelledTwo(h[7..9]);
  }

  /** The layout of a frame as it is documented: magic, flag, sequence number, acknowledgement and payload
      length, the payload, and the checksum of all that; numbers with the highest byte first. */
  lemma RawLayout(f: Frame)
    requires |f.payload| <= MAX_PAYLOAD_SIZE
    ensures var raw, n := SerializeRaw(f), |f.payload|;
      && |raw| == 13 + n && raw[0] == 0x53 && raw[1] == 0x52
      && raw[2] == (match f.flags case Data => 1 case Ack => 2 case Nack => 4 case Control => 8 case Fin => 16 case Chunk => 32)
      && Spelled(raw[3..5]) == f.seqNo && Spelled(raw[5..7]) == f.ack && Spelled(raw[7..9]) == n
      && raw[9..9 + n] == f.payload
      && Spelled(raw[9 + n..]) == Crc32(raw[..9 + n])
  {
    HeaderLayout(f.flags.ToByte(), f.seqNo, f.ack, |f.payload|);
    PartsOfRaw(f.flags.ToByte(), f.seqNo, f.ack, f.payload);
  }

  lemma PartsOfRaw(flags: byte, seqNo: u16, ack: u16, payload: bytes)
    requires |payload| < 0x1_0000
    ensures var raw, h, n := RawFrame(flags, seqNo, ack, payload), Header(flags, seqNo, ack, |payload|), |payload|;
      && raw[0] == h[0] && raw[1] == h[1] && raw[2] == h[2]
      && raw[3..5] == h[3..5] && raw[5..7] == h[5..7] && raw[7..9] == h[7..9] && raw[9..9 + n] == payload
      && Spelled(raw[9 + n..]) == Crc32(raw[..9 + n])
  {
    var h := Header(flags, seqNo, ack, |payload|);
    var body, raw := h + payload, RawFrame(flags, seqNo, ack, payload);
    var seal := U32ToBe(Crc32(body));
    assert raw[..9] == h && raw[..9 + |payload|] == body && raw[9 + |payload|..] == seal;
    assert raw[3..5] == raw[..9][3..5] && raw[5..7] == raw[..9][5..7] && raw[7..9] == raw[..9][7..9];
    SpelledFour(seal);
  }

  /** Every raw frame, whatever its flag byte, parses to the fields it was built from. */
  lemma ParsesRaw(flags: byte, seqNo: u16, ack: u16, payload: bytes)
    requires |payload| < 0x1_0000
    ensures ParseRaw(RawFrame(flags, seqNo, ack, payload))
      == FrameResult.Ok(Frame(FlagsFromByte(flags), seqNo, ack, payload))
  {
    var h := Header(flags, seqNo, ack, |payload|);
    var raw := RawFrame(flags, seqNo, ack, payload);
    var end := HEADER_SIZE + |payload|;
    assert raw[..end] == h + payload;
    assert raw[HEADER_SIZE..end] == payload;
    assert raw[0..2] == [0x53, 0x52];
    assert raw[7] == U16ToBe(|payload|)[0] && raw[8] == U16ToBe(|payload|)[1];
    assert raw[end..] == U32ToBe(Crc32(h + payload));
    assert forall i :: 0 <= i < 4 ==> raw[end + i] == raw[end..][i];
  }

  lemma HeaderOfRaw(raw: bytes)
    requires |raw| == HEADER_SIZE && raw[0..2] == [0x53, 0x52]
    ensures raw == Header(raw[2], U16FromBe(raw[3], raw[4]), U16FromBe(raw[5], raw[6]), U16FromBe(raw[7], raw[8]))
  {
    U16BeUnique(raw[3], raw[4]);
    U16BeUnique(raw[5], raw[6]);
    U16BeUnique(raw[7], raw[8]);
    assert raw[0..2][0] == raw[0] && raw[0..2][1] == raw[1];
    assert raw == [raw[0], raw[1], raw[2]] + [raw[3], raw[4]] + [raw[5], raw[6]] + [raw[7], raw[8]];
  }

  /** And nothing else parses: an accepted frame is the raw frame of its fields. */
  lemma OnlyRawParses(raw: bytes)
    requires ParseRaw(raw).Ok?
    ensures var f := ParseRaw(raw).frame;
      && |f.payload| < 0x1_0000
      && f.flags == FlagsFromByte(raw[2])
      && raw == RawFrame(raw[2], f.seqNo, f.ack, f.payload)
  {
    var f := ParseRaw(raw).frame;
    var end := HEADER_SIZE + |f.payload|;
    assert raw[..HEADER_SIZE][0..2] == raw[0..2];
    HeaderOfRaw(raw[..HEADER_SIZE]);
    assert raw[..end] == raw[..HEADER_SIZE] + f.payload;
    U32BeUnique(raw[end..]);
    assert raw == raw[..end] + raw[end..];
  }

  lemma FlagsRoundTrip(flags: FrameFlags)
    ensures FlagsFromByte(flags.ToByte()) == flags
  {
  }
}
