/**
 * The frame codec of the MXW01 protocol (main.go, buildCommand and the first
 * lines of parseNotification).
 *
 * A frame is `22 21 id 00 lenLo lenHi payload crc FF`: a two-byte header, the
 * command id, a reserved zero byte, the payload length as a little-endian
 * 16-bit field, the payload, the CRC-8 of the payload alone, and a footer.
 */
module Frame {
  import opened Wrappers
  import opened Crc
  import opened Bytes

  const Header0: bv8 := 0x22
  const Header1: bv8 := 0x21
  const Footer: bv8 := 0xFF

  /** buildCommand: frame a payload for command `id`; `FrameLayout` gives the layout. */
  function BuildCommand(id: bv8, payload: seq<bv8>): (frame: seq<bv8>)
    ensures |frame| == |payload| + 8
  {
    var head := [Header0, Header1, id, 0x00, LowByte(|payload|), HighByte(|payload|)];
    head + payload + [Crc8(payload), Footer]
  }

  /**
   * The layout of a built frame: header, id, reserved zero, the payload length
   * modulo 2^16 as a little-endian field, the payload, its checksum, the footer.
   */
  lemma FrameLayout(id: bv8, payload: seq<bv8>)
    ensures var frame := BuildCommand(id, payload);
      && |frame| == |payload| + 8
      && frame[0] == Header0 && frame[1] == Header1 && frame[2] == id && frame[3] == 0
      && Le16(frame[4], frame[5]) == |payload| % 65536
      && frame[6..6 + |payload|] == payload
      && frame[6 + |payload|] == Crc8(payload) && frame[7 + |payload|] == Footer
  {
    LengthField(|payload|);
    var frame := BuildCommand(id, payload);
    assert frame[6..6 + |payload|] == payload;
  }

  /** The frame's own checksum byte depends on the payload and nothing else. */
  lemma ChecksumCoversPayloadOnly(id1: bv8, id2: bv8, payload: seq<bv8>)
    ensures BuildCommand(id1, payload)[6 + |payload|] == BuildCommand(id2, payload)[6 + |payload|]
  {
    FrameLayout(id1, payload);
    FrameLayout(id2, payload);
  }

  /** The payload of the one-argument commands (status, battery, version, ...). */
  function SimplePayload(): seq<bv8> {
    [0x00]
  }

  /** The payload of the eject and retract commands: a little-endian line count. */
  function LinePayload(lines: nat): (p: seq<bv8>)
    ensures |p| == 2 && Le16(p[0], p[1]) == lines % 65536
  {
    LengthField(lines);
    [LowByte(lines), HighByte(lines)]
  }

  /** The fixed part every notification starts with. */
  datatype Head = Head(command: bv8, dataLen: nat)

  datatype HeadError =
    | BadHeader  // shorter than two bytes, or not starting 22 21
    | TooShort   // header present, but the id and length bytes are missing

  predicate HasHeader(data: seq<bv8>) {
    |data| >= 2 && data[0] == Header0 && data[1] == Header1
  }

  /** The header check and the id and length reads of parseNotification. */
  function DecodeHead(data: seq<bv8>): (r: Result<Head, HeadError>)
    ensures r == Failure(BadHeader) <==> !HasHeader(data)
    ensures r == Failure(TooShort) <==> HasHeader(data) && |data| < 6
    ensures r.Success? ==> |data| >= 6 && r.value.command == data[2]
    ensures r.Success? ==> r.value.dataLen == Le16(data[4], data[5]) < 65536
  {
    if !HasHeader(data) then Failure(BadHeader)
    else if |data| < 6 then Failure(TooShort)
    else Success(Head(data[2], Le16(data[4], data[5])))
  }

  /** Decoding the head of a built frame gives back the id and the length modulo 2^16. */
  lemma DecodeBuiltCommand(id: bv8, payload: seq<bv8>)
    ensures DecodeHead(BuildCommand(id, payload)) == Success(Head(id, |payload| % 65536))
  {
    var frame := BuildCommand(id, payload);
    FrameLayout(id, payload);
    assert HasHeader(frame);
  }
}
