/**
 * The print session of the MXW01 driver (main.go, sendImageBufferToPrinter,
 * sendSimpleCommand and sendLineCommand).
 *
 * The BLE client is an abstract `Client` whose `Write` records each request it
 * is given, with the outcome the stack reported, in a ghost trace.  A session
 * writes a fixed plan of requests in order and stops at the first write that
 * fails; `Delivered` states exactly that, and the lemmas describe the plan.
 */
module Session {
  import opened Wrappers
  import opened Bytes
  import opened Frame
  import opened Raster

  /** The two print modes and the mode byte the print command carries. */
  datatype PrintMode = Mode1bpp | Mode4bpp

  function ModeByte(mode: PrintMode): bv8 {
    if mode == Mode1bpp then 0x00 else 0x02
  }

  /** Bytes per printer line: one bit per pixel, or four. */
  function BytesPerLine(mode: PrintMode): (n: nat)
    ensures mode == Mode1bpp ==> 8 * n == LinePixels
    ensures mode == Mode4bpp ==> 2 * n == LinePixels
  {
    if mode == Mode4bpp then LinePixels / 2 else LinePixels / 8
  }

  /** The characteristics written to: commands go to the print characteristic, image data to the data characteristic. */
  datatype Channel = PrintChannel | DataChannel

  datatype Request = Request(channel: Channel, bytes: seq<bv8>)

  /** A write as the client saw it: the request and whether the stack accepted it. */
  datatype Sent = Sent(request: Request, ok: bool)

  /** The BLE client, reduced to the writes it is asked to make. */
  class Client {
    ghost var trace: seq<Sent>

    constructor ()
      ensures trace == []
    {
      trace := [];
    }

    /**
     * WriteCharacteristic, as a write without response: the stack may still
     * report an error, and the outcome is not under the driver's control.
     */
    method Write(channel: Channel, bytes: seq<bv8>) returns (ok: bool)
      modifies this
      ensures trace == old(trace) + [Sent(Request(channel, bytes), ok)]
    {
      ok :| true;
      trace := trace + [Sent(Request(channel, bytes), ok)];
    }
  }

  // Writing a plan.

  /**
   * `sent` is what writing `plan` in order leaves behind when the first
   * failing write ends it: each write makes the next request of the plan, a
   * failed write is the last one, and `ok` says the whole plan went through.
   */
  predicate Delivered(sent: seq<Sent>, plan: seq<Request>, ok: bool)
    decreases |sent|
  {
    if sent == [] then ok && plan == []
    else
      && plan != []
      && sent[0].request == plan[0]
      && if sent[0].ok then Delivered(sent[1..], plan[1..], ok) else !ok && |sent| == 1
  }

  /** The same, stated position by position. */
  predicate WrittenInOrder(sent: seq<Sent>, plan: seq<Request>, ok: bool) {
    && |sent| <= |plan|
    && (forall i | 0 <= i < |sent| :: sent[i].request == plan[i])
    && (ok ==> |sent| == |plan| && forall i | 0 <= i < |sent| :: sent[i].ok)
    && (!ok ==> 0 < |sent| && (forall i | 0 <= i < |sent| - 1 :: sent[i].ok) && !sent[|sent| - 1].ok)
  }

  lemma {:induction false} DeliveredMeans(sent: seq<Sent>, plan: seq<Request>, ok: bool)
    ensures Delivered(sent, plan, ok) <==> WrittenInOrder(sent, plan, ok)
    decreases |sent|
  {
    if sent != [] && plan != [] && sent[0].ok {
      DeliveredMeans(sent[1..], plan[1..], ok);
      if WrittenInOrder(sent, plan, ok) {
        assert WrittenInOrder(sent[1..], plan[1..], ok) by {
          assert forall i | 0 <= i < |sent| - 1 :: sent[1..][i] == sent[i + 1];
        }
      }
      if WrittenInOrder(sent[1..], plan[1..], ok) {
        forall i | 1 <= i < |sent|
          ensures sent[i].request == plan[i]
        {
          assert sent[i] == sent[1..][i - 1];
        }
      }
    }
  }

  /** A failed plan wrote at least once; a completed one wrote every request. */
  lemma {:induction false} DeliveredLength(sent: seq<Sent>, plan: seq<Request>, ok: bool)
    requires Delivered(sent, plan, ok)
    ensures |sent| <= |plan|
    ensures ok ==> |sent| == |plan|
    ensures !ok ==> 0 < |sent|
    decreases |sent|
  {
    if sent != [] && sent[0].ok {
      DeliveredLength(sent[1..], plan[1..], ok);
    }
  }

  /** A completed plan followed by a second one is delivered as the two plans joined. */
  lemma {:induction false} DeliveredThen(s1: seq<Sent>, p1: seq<Request>, s2: seq<Sent>, p2: seq<Request>, ok: bool)
    requires Delivered(s1, p1, true) && Delivered(s2, p2, ok)
    ensures Delivered(s1 + s2, p1 + p2, ok)
    decreases |s1|
  {
    if s1 == [] {
      assert s1 + s2 == s2 && p1 + p2 == p2;
    } else {
      DeliveredThen(s1[1..], p1[1..], s2, p2, ok);
      assert (s1 + s2)[1..] == s1[1..] + s2;
      assert (p1 + p2)[1..] == p1[1..] + p2;
    }
  }

  /** A plan that failed part way also failed as a prefix of any longer plan. */
  lemma {:induction false} DeliveredExtend(s: seq<Sent>, p: seq<Request>, rest: seq<Request>)
    requires Delivered(s, p, false)
    ensures Delivered(s, p + rest, false)
    decreases |s|
  {
    if s[0].ok {
      DeliveredExtend(s[1..], p[1..], rest);
      assert (p + rest)[1..] == p[1..] + rest;
    }
  }

  /** One write after a completed plan. */
  lemma DeliveredSnoc(sent: seq<Sent>, done: seq<Request>, r: Request, ok: bool)
    requires Delivered(sent, done, true)
    ensures Delivered(sent + [Sent(r, ok)], done + [r], ok)
  {
    assert Delivered([Sent(r, ok)], [r], ok) by {
      assert [Sent(r, ok)][1..] == [];
    }
    DeliveredThen(sent, done, [Sent(r, ok)], [r], ok);
  }

  /** Appending to the trace in two steps appends the two parts joined. */
  lemma Appended(trace: seq<Sent>, sent: seq<Sent>, more: seq<Sent>)
    ensures trace + sent + more == trace + (sent + more)
  {
  }

  // The plan.

  /** Go's `mtu`: the largest data write. */
  const Mtu: nat := 20

  /** The chunks of `line` from `offset` on: `line[offset .. min(offset + 20, |line|)]`, then the rest. */
  function ChunksFrom(line: seq<bv8>, offset: nat): seq<seq<bv8>>
    decreases |line| - offset
  {
    if offset >= |line| then []
    else
      var end := if offset + Mtu > |line| then |line| else offset + Mtu;
      [line[offset..end]] + ChunksFrom(line, offset + Mtu)
  }

  function Chunks(line: seq<bv8>): seq<seq<bv8>> {
    ChunksFrom(line, 0)
  }

  /** Each chunk as a write to the data characteristic. */
  function DataWrites(chunks: seq<seq<bv8>>): (rs: seq<Request>)
    ensures |rs| == |chunks|
  {
    if chunks == [] then [] else [Request(DataChannel, chunks[0])] + DataWrites(chunks[1..])
  }

  /** Where line `y` starts in the packed buffer: `y * BytesPerLine(mode)`, written linearly. */
  function LineStart(mode: PrintMode, y: nat): nat {
    if mode == Mode4bpp then 192 * y else 48 * y
  }

  /** Line `y` of the packed buffer. */
  function Line(pixels: seq<bv8>, mode: PrintMode, y: nat): (line: seq<bv8>)
    requires LineStart(mode, y + 1) <= |pixels|
    ensures |line| == BytesPerLine(mode)
  {
    pixels[LineStart(mode, y)..LineStart(mode, y + 1)]
  }

  function LineWrites(pixels: seq<bv8>, mode: PrintMode, y: nat): seq<Request>
    requires LineStart(mode, y + 1) <= |pixels|
  {
    DataWrites(Chunks(Line(pixels, mode, y)))
  }

  /** The data writes of lines 0 to `height - 1`, line after line. */
  function ImageWrites(pixels: seq<bv8>, mode: PrintMode, height: nat): seq<Request>
    requires LineStart(mode, height) <= |pixels|
  {
    if height == 0 then []
    else ImageWrites(pixels, mode, height - 1) + LineWrites(pixels, mode, height - 1)
  }

  /** Writes per line: 48 bytes make three chunks, 192 bytes ten. */
  function ChunksPerLine(mode: PrintMode): nat {
    if mode == Mode4bpp then 10 else 3
  }

  /** Writes for `height` lines, `height * ChunksPerLine(mode)` written linearly. */
  function ImageChunks(mode: PrintMode, height: nat): nat {
    if mode == Mode4bpp then 10 * height else 3 * height
  }

  function IntensityCommand(intensity: bv8): Request {
    Request(PrintChannel, BuildCommand(0xA2, [intensity]))
  }

  /** The parameters of the print command: the line count as two little-endian bytes, then 0x30 and the mode byte. */
  function PrintParams(height: nat, mode: PrintMode): seq<bv8> {
    [LowByte(height), HighByte(height), 0x30, ModeByte(mode)]
  }

  function PrintCommand(height: nat, mode: PrintMode): Request {
    Request(PrintChannel, BuildCommand(0xA9, PrintParams(height, mode)))
  }

  function FlushCommand(): Request {
    Request(PrintChannel, BuildCommand(0xAD, [0x00]))
  }

  /**
   * The three command frames of a print: intensity, print start and flush.
   * Building a frame is pure, so building the three before the first write
   * changes nothing that is written.
   */
  datatype Commands = Commands(intensity: seq<bv8>, start: seq<bv8>, flush: seq<bv8>)

  function SessionCommands(intensity: bv8, height: nat, mode: PrintMode): Commands {
    Commands(IntensityCommand(intensity).bytes, PrintCommand(height, mode).bytes, FlushCommand().bytes)
  }

  /** The two commands that open a print. */
  function HeadWrites(cmds: Commands): seq<Request> {
    [Request(PrintChannel, cmds.intensity), Request(PrintChannel, cmds.start)]
  }

  /** The writes of a print made of the frames `cmds` and the first `height` lines of `pixels`. */
  function PlanWrites(cmds: Commands, pixels: seq<bv8>, height: nat, mode: PrintMode): seq<Request>
    requires LineStart(mode, height) <= |pixels|
  {
    HeadWrites(cmds) + ImageWrites(pixels, mode, height) + [Request(PrintChannel, cmds.flush)]
  }

  /** Everything sendImageBufferToPrinter writes when no write fails. */
  function SessionWrites(pixels: seq<bv8>, height: nat, mode: PrintMode, intensity: bv8): seq<Request>
    requires LineStart(mode, height) <= |pixels|
  {
    PlanWrites(SessionCommands(intensity, height, mode), pixels, height, mode)
  }

  // The session.

  datatype SendError =
    | IntensityFailed         // "intensity set failed"
    | PrintStartFailed        // "print command failed"
    | ChunkFailed(line: nat)  // "line %d chunk write failed"
    | FlushFailed             // "flush failed"

  /**
   * The error sendImageBufferToPrinter reports when its `count`-th write
   * fails: the intensity, the print command, a chunk of the line that write
   * belongs to, or the flush.
   */
  function StopError(mode: PrintMode, height: nat, count: nat): SendError {
    if count <= 1 then IntensityFailed
    else if count == 2 then PrintStartFailed
    else if count >= 3 + ImageChunks(mode, height) then FlushFailed
    else ChunkFailed((count - 3) / ChunksPerLine(mode))
  }

  /** The chunk written at `offset`. */
  function ChunkAt(line: seq<bv8>, offset: nat): seq<bv8>
    requires offset < |line|
  {
    line[offset..if offset + Mtu > |line| then |line| else offset + Mtu]
  }

  /** One pass of the chunk loop: the chunk at `offset` either is written or ends the line. */
  lemma ChunkWritten(line: seq<bv8>, offset: nat, sent: seq<Sent>, done: seq<Request>, ok: bool)
    requires offset < |line|
    requires Delivered(sent, done, true) && done + DataWrites(ChunksFrom(line, offset)) == DataWrites(Chunks(line))
    ensures var r := Request(DataChannel, ChunkAt(line, offset));
      && (ok ==> Delivered(sent + [Sent(r, ok)], done + [r], true))
      && (ok ==> done + [r] + DataWrites(ChunksFrom(line, offset + Mtu)) == DataWrites(Chunks(line)))
      && (!ok ==> Delivered(sent + [Sent(r, ok)], DataWrites(Chunks(line)), false))
  {
    var r := Request(DataChannel, ChunkAt(line, offset));
    var rest := DataWrites(ChunksFrom(line, offset + Mtu));
    assert DataWrites(ChunksFrom(line, offset)) == [r] + rest;
    assert done + [r] + rest == done + ([r] + rest);
    DeliveredSnoc(sent, done, r, ok);
    if !ok {
      DeliveredExtend(sent + [Sent(r, ok)], done + [r], rest);
    }
  }

  /**
   * The inner loop of sendImageBufferToPrinter: one line, in chunks of at
   * most 20 bytes.  `sent` is what the loop adds to the client's trace.
   */
  method SendLine(client: Client, line: seq<bv8>) returns (ok: bool, ghost sent: seq<Sent>)
    modifies client
    ensures client.trace == old(client.trace) + sent
    ensures Delivered(sent, DataWrites(Chunks(line)), ok)
  {
    ghost var done: seq<Request> := [];
    sent := [];
    var offset := 0;
    while offset < |line|
      invariant client.trace == old(client.trace) + sent
      invariant Delivered(sent, done, true)
      invariant done + DataWrites(ChunksFrom(line, offset)) == DataWrites(Chunks(line))
      decreases |line| - offset
    {
      var end := offset + Mtu;
      if end > |line| {
        end := |line|;
      }
      var chunk := line[offset..end];
      ok := client.Write(DataChannel, chunk);
      Appended(old(client.trace), sent, [Sent(Request(DataChannel, chunk), ok)]);
      ChunkWritten(line, offset, sent, done, ok);
      sent := sent + [Sent(Request(DataChannel, chunk), ok)];
      if !ok {
        return;
      }
      done := done + [Request(DataChannel, chunk)];
      offset := offset + Mtu;
    }
    assert done == done + [];
    ok := true;
  }

  /**
   * After a plan `done`, the writes of one more part `line` either complete
   * `done + line` or end the whole plan `all` early.
   */
  lemma LineStep(sent: seq<Sent>, done: seq<Request>, lineSent: seq<Sent>, line: seq<Request>, ok: bool, all: seq<Request>)
    requires Delivered(sent, done, true) && Delivered(lineSent, line, ok)
    requires done + line <= all
    ensures ok ==> Delivered(sent + lineSent, done + line, true)
    ensures !ok ==> Delivered(sent + lineSent, all, false)
    ensures !ok ==> |done| < |sent + lineSent| <= |done + line|
  {
    DeliveredThen(sent, done, lineSent, line, ok);
    DeliveredLength(sent, done, true);
    DeliveredLength(lineSent, line, ok);
    if !ok {
      DeliveredExtend(sent + lineSent, done + line, all[|done + line|..]);
      assert done + line + all[|done + line|..] == all;
    }
  }

  /**
   * One pass of the line loop: after lines 0 to `y - 1` went through as
   * `sent`, line `y` either completes or ends the image, and then `y` is the
   * line of the last write.
   */
  lemma LineStepAt(pixels: seq<bv8>, mode: PrintMode, y: nat, height: nat, sent: seq<Sent>, lineSent: seq<Sent>, ok: bool)
    requires y < height && LineStart(mode, height) <= |pixels|
    requires Delivered(sent, ImageWrites(pixels, mode, y), true)
    requires Delivered(lineSent, DataWrites(Chunks(Line(pixels, mode, y))), ok)
    ensures ok ==> Delivered(sent + lineSent, ImageWrites(pixels, mode, y + 1), true)
    ensures !ok ==> Delivered(sent + lineSent, ImageWrites(pixels, mode, height), false)
    ensures !ok ==> y == (|sent + lineSent| - 1) / ChunksPerLine(mode)
  {
    ImageWritesPrefix(pixels, mode, y + 1, height);
    var done, line := ImageWrites(pixels, mode, y), LineWrites(pixels, mode, y);
    assert done + line == ImageWrites(pixels, mode, y + 1);
    LineStep(sent, done, lineSent, line, ok, ImageWrites(pixels, mode, height));
    if !ok {
      ImageWritesLength(pixels, mode, y);
      LineWritesLength(pixels, mode, y);
      LineOfWrite(mode, y, |sent + lineSent|);
    }
  }

  /**
   * The line loop of sendImageBufferToPrinter: lines 0 to `height - 1` in
   * order; when a chunk write fails, `failed` is the line it belonged to.
   */
  method SendLines(client: Client, pixels: seq<bv8>, height: nat, mode: PrintMode)
    returns (ok: bool, failed: nat, ghost sent: seq<Sent>)
    requires LineStart(mode, height) <= |pixels|
    modifies client
    ensures client.trace == old(client.trace) + sent
    ensures Delivered(sent, ImageWrites(pixels, mode, height), ok)
    ensures !ok ==> failed == (|sent| - 1) / ChunksPerLine(mode)
  {
    sent := [];
    failed := 0;
    for y := 0 to height
      invariant client.trace == old(client.trace) + sent
      invariant Delivered(sent, ImageWrites(pixels, mode, y), true)
    {
      var slice := pixels[LineStart(mode, y)..LineStart(mode, y + 1)];
      ghost var lineSent;
      ok, lineSent := SendLine(client, slice);
      Appended(old(client.trace), sent, lineSent);
      LineStepAt(pixels, mode, y, height, sent, lineSent, ok);
      sent := sent + lineSent;
      if !ok {
        failed := y;
        return;
      }
    }
    ok := true;
  }

  /** The first two writes of sendImageBufferToPrinter: the intensity, then the print command. */
  method SendHead(client: Client, cmds: Commands) returns (r: Outcome<SendError>, ghost sent: seq<Sent>)
    modifies client
    ensures client.trace == old(client.trace) + sent
    ensures Delivered(sent, HeadWrites(cmds), r.Pass?)
    ensures r.Fail? ==> r.error == if |sent| == 1 then IntensityFailed else PrintStartFailed
  {
    var ok := client.Write(PrintChannel, cmds.intensity);
    sent := [Sent(Request(PrintChannel, cmds.intensity), ok)];
    HeadDelivered(cmds, ok, false);
    if !ok {
      return Fail(IntensityFailed), sent;
    }
    var printOk := client.Write(PrintChannel, cmds.start);
    Appended(old(client.trace), sent, [Sent(Request(PrintChannel, cmds.start), printOk)]);
    sent := sent + [Sent(Request(PrintChannel, cmds.start), printOk)];
    HeadDelivered(cmds, ok, printOk);
    if !printOk {
      return Fail(PrintStartFailed), sent;
    }
    return Pass, sent;
  }

  /** The head writes: a failed intensity write ends them, otherwise the print command decides. */
  lemma HeadDelivered(cmds: Commands, intensityOk: bool, printOk: bool)
    ensures !intensityOk ==>
      Delivered([Sent(Request(PrintChannel, cmds.intensity), false)], HeadWrites(cmds), false)
    ensures intensityOk ==>
      Delivered([Sent(Request(PrintChannel, cmds.intensity), true), Sent(Request(PrintChannel, cmds.start), printOk)],
        HeadWrites(cmds), printOk)
  {
    var s := [Sent(Request(PrintChannel, cmds.intensity), true), Sent(Request(PrintChannel, cmds.start), printOk)];
    assert s[1..][1..] == [] && HeadWrites(cmds)[1..][1..] == [];
  }

  /**
   * The body of sendImageBufferToPrinter once its frames are built: the
   * intensity, the print command, every line in chunks, the flush; the first
   * failing write ends the session with the matching error.
   */
  method SendPlan(client: Client, cmds: Commands, pixels: seq<bv8>, height: nat, mode: PrintMode)
    returns (r: Outcome<SendError>, ghost sent: seq<Sent>)
    requires LineStart(mode, height) <= |pixels|
    modifies client
    ensures client.trace == old(client.trace) + sent
    ensures Delivered(sent, PlanWrites(cmds, pixels, height, mode), r.Pass?)
    ensures r.Fail? ==> r.error == StopError(mode, height, |sent|)
  {
    r, sent := SendHead(client, cmds);
    if r.Fail? {
      HeadStops(cmds, pixels, height, mode, sent);
      return;
    }

    var ok, failed;
    ghost var linesSent;
    ok, failed, linesSent := SendLines(client, pixels, height, mode);
    Appended(old(client.trace), sent, linesSent);
    LinesStop(cmds, pixels, height, mode, sent, linesSent, ok, failed);
    sent := sent + linesSent;
    if !ok {
      return Fail(ChunkFailed(failed)), sent;
    }

    ok := client.Write(PrintChannel, cmds.flush);
    Appended(old(client.trace), sent, [Sent(Request(PrintChannel, cmds.flush), ok)]);
    FlushStops(cmds, pixels, height, mode, sent, ok);
    sent := sent + [Sent(Request(PrintChannel, cmds.flush), ok)];
    if !ok {
      return Fail(FlushFailed), sent;
    }
    return Pass, sent;
  }

  /**
   * sendImageBufferToPrinter: the intensity, the print command, every line
   * in chunks, the flush; the first failing write ends the session with the
   * matching error.  `sent` is what the session adds to the client's trace.
   */
  method SendImageBuffer(client: Client, pixels: seq<bv8>, height: nat, mode: PrintMode, intensity: bv8)
    returns (r: Outcome<SendError>, ghost sent: seq<Sent>)
    requires LineStart(mode, height) <= |pixels|
    modifies client
    ensures client.trace == old(client.trace) + sent
    ensures Delivered(sent, SessionWrites(pixels, height, mode, intensity), r.Pass?)
    ensures r.Fail? ==> r.error == StopError(mode, height, |sent|)
  {
    var cmds := Commands(BuildCommand(0xA2, [intensity]), BuildCommand(0xA9, PrintParams(height, mode)), BuildCommand(0xAD, [0x00]));
    r, sent := SendPlan(client, cmds, pixels, height, mode);
  }

  /** A session whose head writes failed stops there, with the head's error. */
  lemma HeadStops(cmds: Commands, pixels: seq<bv8>, height: nat, mode: PrintMode, sent: seq<Sent>)
    requires LineStart(mode, height) <= |pixels|
    requires Delivered(sent, HeadWrites(cmds), false)
    ensures Delivered(sent, PlanWrites(cmds, pixels, height, mode), false)
    ensures StopError(mode, height, |sent|) == if |sent| == 1 then IntensityFailed else PrintStartFailed
  {
    var rest := ImageWrites(pixels, mode, height) + [Request(PrintChannel, cmds.flush)];
    assert PlanWrites(cmds, pixels, height, mode) == HeadWrites(cmds) + rest;
    DeliveredExtend(sent, HeadWrites(cmds), rest);
    DeliveredLength(sent, HeadWrites(cmds), false);
  }

  /** After the head, the line loop either completes the image or stops the session in line `failed`. */
  lemma LinesStop(cmds: Commands, pixels: seq<bv8>, height: nat, mode: PrintMode,
                  headSent: seq<Sent>, linesSent: seq<Sent>, ok: bool, failed: nat)
    requires LineStart(mode, height) <= |pixels|
    requires Delivered(headSent, HeadWrites(cmds), true)
    requires Delivered(linesSent, ImageWrites(pixels, mode, height), ok)
    requires !ok ==> failed == (|linesSent| - 1) / ChunksPerLine(mode)
    ensures ok ==> Delivered(headSent + linesSent, HeadWrites(cmds) + ImageWrites(pixels, mode, height), true)
    ensures !ok ==> Delivered(headSent + linesSent, PlanWrites(cmds, pixels, height, mode), false)
    ensures !ok ==> ChunkFailed(failed) == StopError(mode, height, |headSent + linesSent|)
  {
    var head, image := HeadWrites(cmds), ImageWrites(pixels, mode, height);
    var all := PlanWrites(cmds, pixels, height, mode);
    LineStep(headSent, head, linesSent, image, ok, all);
    DeliveredLength(headSent, head, true);
    ImageWritesLength(pixels, mode, height);
  }

  /** The flush ends the session; when it fails, the error is the flush's. */
  lemma FlushStops(cmds: Commands, pixels: seq<bv8>, height: nat, mode: PrintMode, sent: seq<Sent>, ok: bool)
    requires LineStart(mode, height) <= |pixels|
    requires Delivered(sent, HeadWrites(cmds) + ImageWrites(pixels, mode, height), true)
    ensures Delivered(sent + [Sent(Request(PrintChannel, cmds.flush), ok)], PlanWrites(cmds, pixels, height, mode), ok)
    ensures !ok ==> FlushFailed == StopError(mode, height, |sent| + 1)
  {
    var done := HeadWrites(cmds) + ImageWrites(pixels, mode, height);
    DeliveredSnoc(sent, done, Request(PrintChannel, cmds.flush), ok);
    DeliveredLength(sent, done, true);
    ImageWritesLength(pixels, mode, height);
  }

  /** sendSimpleCommand: command `cmdId` with the one-byte payload 00. */
  method SendSimpleCommand(client: Client, cmdId: bv8) returns (ok: bool)
    modifies client
    ensures client.trace == old(client.trace) + [Sent(Request(PrintChannel, BuildCommand(cmdId, SimplePayload())), ok)]
  {
    ok := client.Write(PrintChannel, BuildCommand(cmdId, [0x00]));
  }

  /** sendLineCommand: command `cmdId` carrying a line count. */
  method SendLineCommand(client: Client, cmdId: bv8, lines: nat) returns (ok: bool)
    modifies client
    ensures client.trace == old(client.trace) + [Sent(Request(PrintChannel, BuildCommand(cmdId, LinePayload(lines))), ok)]
  {
    ok := client.Write(PrintChannel, BuildCommand(cmdId, [LowByte(lines), HighByte(lines)]));
  }

  // Properties of the plan.

  /** The writes of the first `y` lines are a prefix of the writes of the first `height`. */
  lemma {:induction false} ImageWritesPrefix(pixels: seq<bv8>, mode: PrintMode, y: nat, height: nat)
    requires y <= height && LineStart(mode, height) <= |pixels|
    ensures LineStart(mode, y) <= |pixels|
    ensures ImageWrites(pixels, mode, y) <= ImageWrites(pixels, mode, height)
    decreases height
  {
    if y < height {
      ImageWritesPrefix(pixels, mode, y, height - 1);
    }
  }

  /** Line `y` starts where the driver's product `y * bytesPerLine` says. */
  lemma LineBounds(mode: PrintMode, y: nat)
    ensures y * BytesPerLine(mode) == LineStart(mode, y)
  {
    if mode == Mode4bpp {
      assert BytesPerLine(mode) == 192;
    } else {
      assert BytesPerLine(mode) == 48;
    }
  }

  /** The number of chunks from `offset` on: the rest of the line divided by 20, rounded up. */
  lemma {:induction false} ChunkCount(line: seq<bv8>, offset: nat)
    ensures |ChunksFrom(line, offset)| == if offset >= |line| then 0 else (|line| - offset + Mtu - 1) / Mtu
    decreases |line| - offset
  {
    if offset < |line| {
      ChunkCount(line, offset + Mtu);
    }
  }

  /** Every chunk holds 1 to 20 bytes, and every chunk but the last exactly 20. */
  lemma {:induction false} ChunkSizes(line: seq<bv8>, offset: nat)
    ensures forall i | 0 <= i < |ChunksFrom(line, offset)| :: 1 <= |ChunksFrom(line, offset)[i]| <= Mtu
    ensures forall i | 0 <= i < |ChunksFrom(line, offset)| - 1 :: |ChunksFrom(line, offset)[i]| == Mtu
    decreases |line| - offset
  {
    if offset < |line| {
      ChunkSizes(line, offset + Mtu);
    }
  }

  /** Chunk `k` from `offset` on starts `20 * k` bytes further and stops 20 bytes later or at the end of the line. */
  lemma {:induction false} ChunkSpan(line: seq<bv8>, offset: nat, k: nat)
    requires k < |ChunksFrom(line, offset)|
    ensures offset + 20 * k < |line|
    ensures ChunksFrom(line, offset)[k] ==
      line[offset + 20 * k..if offset + 20 * k + 20 > |line| then |line| else offset + 20 * k + 20]
    decreases k
  {
    if k > 0 {
      ChunkSpan(line, offset + Mtu, k - 1);
    }
  }

  /**
   * Chunk `k` of line `y` is a slice of the packed buffer that starts and
   * ends inside line `y`: no chunk crosses a line boundary.
   */
  lemma LineChunk(pixels: seq<bv8>, mode: PrintMode, y: nat, k: nat)
    requires LineStart(mode, y + 1) <= |pixels| && k < |LineWrites(pixels, mode, y)|
    ensures var start, bpl := LineStart(mode, y), BytesPerLine(mode);
      var end := if 20 * k + 20 > bpl then bpl else 20 * k + 20;
      && 20 * k < end
      && start + end <= LineStart(mode, y + 1)
      && LineWrites(pixels, mode, y)[k] == Request(DataChannel, pixels[start + 20 * k..start + end])
  {
    var line := Line(pixels, mode, y);
    ChunkSpan(line, 0, k);
    DataWritesIndex(Chunks(line), k);
  }

  lemma {:induction false} DataWritesIndex(chunks: seq<seq<bv8>>, k: nat)
    requires k < |chunks|
    ensures DataWrites(chunks)[k] == Request(DataChannel, chunks[k])
    decreases k
  {
    if k > 0 {
      DataWritesIndex(chunks[1..], k - 1);
    }
  }

  /** The bytes of a sequence of writes, laid end to end. */
  function Payload(rs: seq<Request>): seq<bv8> {
    if rs == [] then [] else rs[0].bytes + Payload(rs[1..])
  }

  lemma {:induction false} PayloadAppend(a: seq<Request>, b: seq<Request>)
    ensures Payload(a + b) == Payload(a) + Payload(b)
    decreases |a|
  {
    if a == [] {
      assert a + b == b;
    } else {
      PayloadAppend(a[1..], b);
      assert (a + b)[1..] == a[1..] + b;
    }
  }

  /** The chunks of a line, laid end to end, are the line from `offset` on: nothing lost, nothing repeated. */
  lemma {:induction false} ChunksJoin(line: seq<bv8>, offset: nat)
    requires offset <= |line|
    ensures Payload(DataWrites(ChunksFrom(line, offset))) == line[offset..]
    decreases |line| - offset
  {
    if offset < |line| {
      var end := if offset + Mtu > |line| then |line| else offset + Mtu;
      if end < |line| {
        ChunksJoin(line, offset + Mtu);
      }
      assert line[offset..] == line[offset..end] + line[end..];
      assert DataWrites(ChunksFrom(line, offset))[1..] == DataWrites(ChunksFrom(line, offset + Mtu));
    }
  }

  /** The data writes of the first `height` lines carry exactly the first `height` lines of the buffer. */
  lemma {:induction false} ImageData(pixels: seq<bv8>, mode: PrintMode, height: nat)
    requires LineStart(mode, height) <= |pixels|
    ensures Payload(ImageWrites(pixels, mode, height)) == pixels[..LineStart(mode, height)]
  {
    if height > 0 {
      ImageData(pixels, mode, height - 1);
      PayloadAppend(ImageWrites(pixels, mode, height - 1), LineWrites(pixels, mode, height - 1));
      ChunksJoin(Line(pixels, mode, height - 1), 0);
      assert pixels[..LineStart(mode, height)]
        == pixels[..LineStart(mode, height - 1)] + Line(pixels, mode, height - 1);
    }
  }

  lemma LineWritesLength(pixels: seq<bv8>, mode: PrintMode, y: nat)
    requires LineStart(mode, y + 1) <= |pixels|
    ensures |LineWrites(pixels, mode, y)| == ChunksPerLine(mode)
  {
    ChunkCount(Line(pixels, mode, y), 0);
  }

  /** The first `height` lines make `height * ChunksPerLine(mode)` writes. */
  lemma {:induction false} ImageWritesLength(pixels: seq<bv8>, mode: PrintMode, height: nat)
    requires LineStart(mode, height) <= |pixels|
    ensures |ImageWrites(pixels, mode, height)| == ImageChunks(mode, height)
  {
    if height > 0 {
      ImageWritesLength(pixels, mode, height - 1);
      LineWritesLength(pixels, mode, height - 1);
    }
  }

  lemma {:induction false} DataWritesAreData(chunks: seq<seq<bv8>>)
    ensures forall i | 0 <= i < |DataWrites(chunks)| :: DataWrites(chunks)[i].channel == DataChannel
  {
    if chunks != [] {
      DataWritesAreData(chunks[1..]);
    }
  }

  /** Every image write goes to the data characteristic. */
  lemma {:induction false} ImageWritesAreData(pixels: seq<bv8>, mode: PrintMode, height: nat)
    requires LineStart(mode, height) <= |pixels|
    ensures forall i | 0 <= i < |ImageWrites(pixels, mode, height)| :: ImageWrites(pixels, mode, height)[i].channel == DataChannel
  {
    if height > 0 {
      ImageWritesAreData(pixels, mode, height - 1);
      DataWritesAreData(Chunks(Line(pixels, mode, height - 1)));
    }
  }

  /**
   * The shape of a print: the two head commands, then only data writes,
   * `ChunksPerLine` per line, and the flush last.
   */
  lemma PlanShape(cmds: Commands, pixels: seq<bv8>, height: nat, mode: PrintMode)
    requires LineStart(mode, height) <= |pixels|
    ensures var all := PlanWrites(cmds, pixels, height, mode);
      && |all| == 3 + ImageChunks(mode, height)
      && all[0] == Request(PrintChannel, cmds.intensity) && all[1] == Request(PrintChannel, cmds.start)
      && all[|all| - 1] == Request(PrintChannel, cmds.flush)
      && forall i | 2 <= i < |all| - 1 :: all[i].channel == DataChannel
  {
    var image := ImageWrites(pixels, mode, height);
    ImageWritesLength(pixels, mode, height);
    ImageWritesAreData(pixels, mode, height);
    var all := PlanWrites(cmds, pixels, height, mode);
    assert forall i | 2 <= i < |all| - 1 :: all[i] == image[i - 2];
  }

  /** sendImageBufferToPrinter writes the intensity, the print command, the image data and the flush, in that order. */
  lemma SessionShape(pixels: seq<bv8>, height: nat, mode: PrintMode, intensity: bv8)
    requires LineStart(mode, height) <= |pixels|
    ensures var all := SessionWrites(pixels, height, mode, intensity);
      && |all| == 3 + ImageChunks(mode, height)
      && all[0] == IntensityCommand(intensity) && all[1] == PrintCommand(height, mode)
      && all[|all| - 1] == FlushCommand()
      && forall i | 2 <= i < |all| - 1 :: all[i].channel == DataChannel
  {
    PlanShape(SessionCommands(intensity, height, mode), pixels, height, mode);
  }

  /** A write that falls among the writes of line `y` belongs to line `y`. */
  lemma LineOfWrite(mode: PrintMode, y: nat, count: nat)
    requires ImageChunks(mode, y) < count <= ImageChunks(mode, y + 1)
    ensures (count - 1) / ChunksPerLine(mode) == y
  {
  }

  /** A chunk failure names a line of the image, the one whose writes include the failed write. */
  lemma StopErrorLine(mode: PrintMode, height: nat, count: nat)
    requires 3 <= count < 3 + ImageChunks(mode, height)
    ensures StopError(mode, height, count).ChunkFailed?
    ensures var y := StopError(mode, height, count).line;
      y < height && ImageChunks(mode, y) < count - 2 <= ImageChunks(mode, y + 1)
  {
  }

  /** The print command carries the line count modulo 2^16, the constant 0x30 and the mode byte. */
  lemma PrintCommandFields(height: nat, mode: PrintMode)
    ensures var frame := PrintCommand(height, mode).bytes;
      && |frame| == 12 && frame[2] == 0xA9
      && Le16(frame[6], frame[7]) == height % 65536
      && frame[8] == 0x30 && frame[9] == ModeByte(mode)
  {
    var params := PrintParams(height, mode);
    FrameLayout(0xA9, params);
    LengthField(height);
    var frame := BuildCommand(0xA9, params);
    assert frame[6] == params[0] && frame[7] == params[1] && frame[8] == params[2] && frame[9] == params[3] by {
      assert frame[6..10] == params;
    }
  }
}
