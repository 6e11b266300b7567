/**
 * The notification interpreter of the MXW01 driver (main.go, parseNotification).
 *
 * The driver prints one line per notification; here each notification becomes
 * an `Event`.  The driver reads fixed offsets after checking little more than
 * the header, so a short frame makes it index out of range; the model reports
 * such a frame as `Malformed(Truncated)` instead, and `SourceReadsPastEnd`
 * says exactly which frames those are.
 */
module Notification {
  import opened Wrappers
  import opened Bytes
  import opened Frame

  /** The message the driver chooses for a status notification. */
  datatype StatusReason =
    | Standby | Printing | FeedingPaper | EjectingPaper
    | NoPaper | Overheated | LowBattery
    | UnknownReason

  datatype PressureKind = HighPressure | LowPressure | UnknownPressure

  datatype MalformedReason =
    | InvalidHeader  // shorter than two bytes or not starting 22 21
    | Truncated      // a field the command's decoding reads lies past the end
    | ShortVersion   // a version frame shorter than 14 + its length field

  datatype Event =
    | Status(ok: bool, message: StatusReason, battery: bv8, temperature: bv8)
    | EjectAck
    | RetractAck
    | QueryCount(count: Option<seq<bv8>>)
    | PrintAck(ok: bool)
    | PrintComplete
    | Battery(level: bv8)
    | PrintType(kind: PressureKind)
    | Version(version: seq<bv8>, kind: PressureKind)
    | Malformed(reason: MalformedReason)
    | Unknown(command: bv8)

  /** The command ids parseNotification has a case for. */
  predicate IsKnownCommand(cmd: bv8) {
    cmd in {0xA1, 0xA3, 0xA4, 0xA7, 0xA9, 0xAA, 0xAB, 0xB0, 0xB1}
  }

  /** The status message: the status code when the printer is ok, the error code otherwise. */
  function StatusReasonOf(ok: bool, statusCode: bv8, errorCode: bv8): (r: StatusReason)
    ensures ok ==> (r == Standby <==> statusCode == 0) && (r == Printing <==> statusCode == 1)
    ensures ok ==> (r == FeedingPaper <==> statusCode == 2) && (r == EjectingPaper <==> statusCode == 3)
    ensures !ok ==> (r == NoPaper <==> errorCode == 1 || errorCode == 9)
    ensures !ok ==> (r == Overheated <==> errorCode == 4) && (r == LowBattery <==> errorCode == 8)
    ensures r == UnknownReason <==>
      (ok && statusCode > 3) || (!ok && errorCode !in {1, 4, 8, 9})
  {
    if ok then
      if statusCode == 0 then Standby
      else if statusCode == 1 then Printing
      else if statusCode == 2 then FeedingPaper
      else if statusCode == 3 then EjectingPaper
      else UnknownReason
    else
      if errorCode == 1 || errorCode == 9 then NoPaper
      else if errorCode == 4 then Overheated
      else if errorCode == 8 then LowBattery
      else UnknownReason
  }

  /** The print type of a GetPrintType reply (0xB0). */
  function PrintTypeOf(b: bv8): (k: PressureKind)
    ensures k == HighPressure <==> b == 0x01
    ensures k == UnknownPressure <==> b == 0xFF
  {
    if b == 0x01 then HighPressure
    else if b == 0xFF then UnknownPressure
    else LowPressure
  }

  /** The print type carried by a GetVersion reply (0xB1). */
  function VersionPrintTypeOf(b: bv8): (k: PressureKind)
    ensures k == HighPressure <==> b == 0x32
    ensures k == LowPressure <==> b == 0x31
  {
    if b == 0x32 then HighPressure
    else if b == 0x31 then LowPressure
    else UnknownPressure
  }

  /** One past the last fixed offset the branch for `cmd` reads. */
  function FieldsEnd(cmd: bv8): nat {
    if cmd == 0xA1 then 14
    else if cmd == 0xA9 || cmd == 0xAB || cmd == 0xB0 then 7
    else if cmd == 0xB1 then 15
    else 6
  }

  /**
   * The frames on which the driver, as written, reads past the end: its header
   * check passes, and then the id and length bytes, a fixed field of the
   * command, or (for a version frame that passed its own length check) byte 14
   * lie beyond the frame.
   */
  predicate SourceReadsPastEnd(data: seq<bv8>) {
    HasHeader(data) &&
    (|data| < 6 ||
     (data[2] in {0xA1, 0xA9, 0xAB, 0xB0} && |data| < FieldsEnd(data[2])) ||
     (data[2] == 0xB1 && 14 + Le16(data[4], data[5]) <= |data| < 15))
  }

  /** The command-specific part of parseNotification, once the head is read. */
  function DecodeBody(data: seq<bv8>, head: Head): Event
    requires |data| >= 6 && head.command == data[2] && head.dataLen == Le16(data[4], data[5])
  {
    var cmd := head.command;
    if cmd == 0xA1 then
      if |data| < 14 then Malformed(Truncated)
      else
        var ok := data[12] == 0;
        Status(ok, StatusReasonOf(ok, data[6], data[13]), data[9], data[10])
    else if cmd == 0xA3 then EjectAck
    else if cmd == 0xA4 then RetractAck
    else if cmd == 0xA7 then QueryCount(if |data| >= 12 then Some(data[6..12]) else None)
    else if cmd == 0xA9 then
      if |data| < 7 then Malformed(Truncated) else PrintAck(data[6] == 0)
    else if cmd == 0xAA then PrintComplete
    else if cmd == 0xAB then
      if |data| < 7 then Malformed(Truncated) else Battery(data[6])
    else if cmd == 0xB0 then
      if |data| < 7 then Malformed(Truncated) else PrintType(PrintTypeOf(data[6]))
    else if cmd == 0xB1 then
      if |data| < 14 + head.dataLen then Malformed(ShortVersion)
      else if |data| < 15 then Malformed(Truncated)
      else Version(data[6..6 + head.dataLen], VersionPrintTypeOf(data[14]))
    else Unknown(cmd)
  }

  /** parseNotification, returning the event instead of printing it. */
  function ParseNotification(data: seq<bv8>): (e: Event)
    ensures e == Malformed(InvalidHeader) <==> !HasHeader(data)
    ensures e == Malformed(Truncated) <==> SourceReadsPastEnd(data)
    ensures e == Malformed(ShortVersion) <==>
      HasHeader(data) && |data| >= 6 && data[2] == 0xB1 && |data| < 14 + Le16(data[4], data[5])
    ensures e.Unknown? <==> HasHeader(data) && |data| >= 6 && !IsKnownCommand(data[2])
    ensures e.Unknown? ==> e.command == data[2]
  {
    match DecodeHead(data)
    case Failure(BadHeader) => Malformed(InvalidHeader)
    case Failure(TooShort) => Malformed(Truncated)
    case Success(head) => DecodeBody(data, head)
  }

  /** Past a good header, parseNotification is the decoding of the command's body. */
  lemma ParseAfterHead(data: seq<bv8>)
    requires HasHeader(data) && |data| >= 6
    ensures ParseNotification(data) == DecodeBody(data, Head(data[2], Le16(data[4], data[5])))
  {
    assert DecodeHead(data) == Success(Head(data[2], Le16(data[4], data[5])));
  }

  /** A status reply (0xA1) long enough for its fields. */
  lemma StatusDecoding(data: seq<bv8>)
    requires HasHeader(data) && |data| >= 14 && data[2] == 0xA1
    ensures var e := ParseNotification(data);
      && e.Status?
      && e.battery == data[9] && e.temperature == data[10]
      && (e.ok <==> data[12] == 0)
      && e.message == StatusReasonOf(data[12] == 0, data[6], data[13])
  {
    ParseAfterHead(data);
  }

  /** The status example: battery 60, ok, status code 1 decodes as printing. */
  lemma PrintingStatusExample(data: seq<bv8>)
    requires HasHeader(data) && |data| >= 14 && data[2] == 0xA1
    requires data[6] == 0x01 && data[9] == 0x3C && data[12] == 0x00
    ensures ParseNotification(data) == Status(true, Printing, 60, data[10])
  {
    ParseAfterHead(data);
  }

  /** A query-count reply carries bytes 6..12, and only when the frame has them. */
  lemma QueryCountDecoding(data: seq<bv8>)
    requires HasHeader(data) && |data| >= 6 && data[2] == 0xA7
    ensures ParseNotification(data) == QueryCount(if |data| >= 12 then Some(data[6..12]) else None)
  {
    ParseAfterHead(data);
  }

  /** Replies that only report a byte at offset 6: print ack, battery, print type. */
  lemma ByteSixDecoding(data: seq<bv8>)
    requires HasHeader(data) && |data| >= 7
    ensures data[2] == 0xA9 ==> ParseNotification(data) == PrintAck(data[6] == 0)
    ensures data[2] == 0xAB ==> ParseNotification(data) == Battery(data[6])
    ensures data[2] == 0xB0 ==> ParseNotification(data) == PrintType(PrintTypeOf(data[6]))
  {
    ParseAfterHead(data);
  }

  /** Replies that carry nothing past the head: eject ack, retract ack, print complete. */
  lemma AckDecoding(data: seq<bv8>)
    requires HasHeader(data) && |data| >= 6
    ensures data[2] == 0xA3 ==> ParseNotification(data) == EjectAck
    ensures data[2] == 0xA4 ==> ParseNotification(data) == RetractAck
    ensures data[2] == 0xAA ==> ParseNotification(data) == PrintComplete
  {
    ParseAfterHead(data);
  }

  /** A version reply: the version is the `dataLen` bytes at offset 6, the print type byte 14. */
  lemma VersionDecoding(data: seq<bv8>)
    requires HasHeader(data) && |data| >= 15 && data[2] == 0xB1
    requires |data| >= 14 + Le16(data[4], data[5])
    ensures ParseNotification(data) ==
      Version(data[6..6 + Le16(data[4], data[5])], VersionPrintTypeOf(data[14]))
  {
    ParseAfterHead(data);
  }

  /** A frame built like a command, for an id outside the known set, decodes as Unknown. */
  lemma ParseBuiltUnknown(id: bv8, payload: seq<bv8>)
    requires !IsKnownCommand(id)
    ensures ParseNotification(BuildCommand(id, payload)) == Unknown(id)
  {
    DecodeBuiltCommand(id, payload);
  }

  /**
   * A version frame built like a command is always reported as short: it is
   * 8 + n bytes long and the decoder wants 14 + n.
   */
  lemma ParseBuiltVersion(payload: seq<bv8>)
    requires |payload| < 65536
    ensures ParseNotification(BuildCommand(0xB1, payload)) == Malformed(ShortVersion)
  {
    var frame := BuildCommand(0xB1, payload);
    FrameLayout(0xB1, payload);
    ModOfSum(0, |payload|);
    assert HasHeader(frame) && frame[2] == 0xB1 && Le16(frame[4], frame[5]) == |payload|;
    ParseAfterHead(frame);
  }

  // Frames on which the driver as written reads past the end.

  /** A bare header passes the driver's only check; it then reads bytes 2, 4 and 5. */
  lemma BareHeaderReadsPastEnd()
    ensures HasHeader([0x22, 0x21]) && SourceReadsPastEnd([0x22, 0x21])
    ensures ParseNotification([0x22, 0x21]) == Malformed(Truncated)
  {
  }

  /** A six-byte status frame: the driver reads bytes 6 to 13 unchecked. */
  lemma ShortStatusReadsPastEnd()
    ensures SourceReadsPastEnd([0x22, 0x21, 0xA1, 0x00, 0x00, 0x00])
    ensures ParseNotification([0x22, 0x21, 0xA1, 0x00, 0x00, 0x00]) == Malformed(Truncated)
  {
  }

  /** A 14-byte version frame with length 0 passes `len >= 14 + dataLen`, then byte 14 is read. */
  lemma EmptyVersionReadsPastEnd()
    ensures var data: seq<bv8> := [0x22, 0x21, 0xB1, 0x00, 0x00, 0x00, 0x00, 0x00, 0x00, 0x00, 0x00, 0x00, 0x00, 0x00];
      && |data| == 14 && !(|data| < 14 + Le16(data[4], data[5]))
      && SourceReadsPastEnd(data)
      && ParseNotification(data) == Malformed(Truncated)
  {
  }
}
