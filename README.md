# MXW01 thermal printer driver, modelled in Dafny

A model of the protocol and pixel-encoding core of a Go command-line driver for
the MXW01 Bluetooth LE thermal printer (`main.go`), with proofs of what that
core promises:

- **Frames and checksum** (`frame.dfy`, `crc8.dfy`, `bytes.dfy`): `buildCommand` lays out
  `22 21 id 00 lenLo lenHi payload crc FF`. `calculateCRC8` is a table-driven
  CRC-8 over the payload only, starting from 0. The 256-entry table is copied
  from the driver, row by row.
- **Notifications** (`notification.dfy`): `parseNotification` returns an `Event`
  instead of printing a line. It covers status, paper acks, the query counter,
  the print ack and completion, battery, print type, version, unknown commands,
  and malformed frames.
- **Rasters and padding** (`raster.dfy`): an image is a grid of 8-bit gray
  rows. `padImageToMinLines` pastes a short image on top of a white canvas of
  exactly 86 (`minLines`) rows; the driver does this to the decoded image before resizing,
  and the model does it to a gray raster (see "Left out").
- **Packing and previews** (`mono.dfy`, `fourbit.dfy`):
  - the 1-bpp packing loop, LSB first, with dark meaning below 128;
  - the 4-bpp packing loop, a level `(255 - g) >> 4` with even pixels in the high nibble.

  Both work in place on an `array`. They are proved equal to specification
  functions, and the preview renderers are proved to read back what was packed.
- **Print session** (`session.dfy`): `sendImageBufferToPrinter` writes, in order:
  1. the intensity command;
  2. the print command;
  3. every line of the packed buffer, in chunks of at most 20 bytes, on the data characteristic;
  4. the flush command.

  The first failing write ends the session with the matching error.
  The BLE client is a `Client` class: every write is recorded in a ghost trace
  together with the outcome, and the outcome of a write is not under the
  driver's control. `sendSimpleCommand` and `sendLineCommand` are modelled too.
- **Command line decisions** (`cli.dfy`):
  - whether notifications and the printer are needed;
  - mode selection and the intensity clamp;
  - preview versus query versus print;
  - the query block, which sends every selected query and drops the errors before it refuses to also print.

## Model

| member | source | states |
|---|---|---|
| Bytes.LowByte | main.go:731 | `byte(n & 0xFF)` is the value `n mod 256` |
| Bytes.HighByte | main.go:731 | `byte(n >> 8)` is `(n / 256) mod 256`: the conversion drops higher bits |
| Bytes.LengthField | main.go:731 | writing a length into the two-byte field keeps it modulo 2^16 |
| Crc.CalculateCrc8 | main.go:738-777 | the table-driven loop returns the checksum of the whole payload, the fold `Crc8` |
| Crc.CrcFromConcat | main.go:772-776 | feeding `a` then `b` equals feeding `a + b`: the checksum is a left fold over the payload |
| Crc.Crc8Snoc | main.go:772-776 | the empty payload has checksum 0, and one more byte `b` makes the checksum `table[crc ^ b]` |
| Crc.ZeroPayloadChecksum | main.go:740 | the payload `[0x00]` of the simple commands has checksum 0x00, as the bitwise polynomial-0x07 CRC says |
| Crc.TableEntry1 | main.go:740 | table entry 1 is 0x07, the bitwise polynomial-0x07 CRC of 1 |
| Crc.TableEntry64 | main.go:748 | table entry 64 is 0xC7, the bitwise polynomial-0x07 CRC of 64 |
| Crc.TableEntry128 | main.go:756 | table entry 128 is 0x89, the bitwise polynomial-0x07 CRC of 128 |
| Frame.BuildCommand | main.go:727-736 | a frame is eight bytes longer than its payload |
| Frame.FrameLayout | main.go:727-736 | the frame is the header, the id, a zero, the payload length mod 2^16 (little endian), the payload, the payload's CRC-8 and the footer 0xFF |
| Frame.ChecksumCoversPayloadOnly | main.go:733 | the checksum byte does not depend on the command id: the CRC covers the payload only |
| Frame.LinePayload | main.go:413-417 | the eject and retract payload is two bytes holding the line count mod 2^16, little endian |
| Frame.DecodeHead | main.go:121-127 | a bad header exactly when the frame is shorter than 2 bytes or does not start `22 21`; too short when the header is good but the frame has fewer than 6 bytes; otherwise the id is `data[2]` and the length `data[4] + 256 * data[5]` |
| Frame.DecodeBuiltCommand | main.go:121-127 | the head of a built frame decodes to its id and its payload length mod 2^16 |
| Notification.StatusReasonOf | main.go:137-158 | when the printer is ok, status codes 0 to 3 mean standby, printing, feeding and ejecting; otherwise error codes 1 or 9 mean no paper, 4 overheated and 8 low battery; every other code means unknown |
| Notification.PrintTypeOf | main.go:183-192 | print type 0x01 is high pressure, 0xFF unknown, anything else low pressure |
| Notification.VersionPrintTypeOf | main.go:202-209 | in a version reply, 0x32 is high pressure, 0x31 low pressure, anything else unknown |
| Notification.ParseNotification | main.go:120-215 | invalid header iff not `22 21`; truncated iff the driver would read past the end; short version iff a version frame is shorter than 14 + its length; `Unknown(id)` iff the id is outside the nine known commands |
| Notification.StatusDecoding | main.go:130-160 | a status reply reports battery `data[9]`, temperature `data[10]`, ok iff `data[12] == 0`, and the reason from `data[6]` or `data[13]` |
| Notification.PrintingStatusExample | main.go:130-160 | status code 1 with ok set and battery byte 0x3C decodes as printing, battery 60 |
| Notification.QueryCountDecoding | main.go:168-171 | a query-count reply carries `data[6..12]` exactly when the frame has 12 bytes |
| Notification.ByteSixDecoding | main.go:173-192 | print ack is ok iff `data[6] == 0`; battery is `data[6]`; the print type comes from `data[6]` |
| Notification.AckDecoding | main.go:162-166 | an eject-paper reply (0xA3) is an eject ack, a retract-paper reply (0xA4) a retract ack, and 0xAA print complete (main.go:176-177), whatever follows the head |
| Notification.VersionDecoding | main.go:195-210 | a long enough version reply carries `data[6 .. 6 + dataLen]` and the print type of `data[14]` |
| Notification.ParseBuiltUnknown | main.go:212-213 | any id outside the known set decodes as `Unknown(id)`, never as an error |
| Notification.ParseBuiltVersion | main.go:195-199 | a version frame shaped like a command (8 + n bytes) is always reported as a short version |
| Notification.BareHeaderReadsPastEnd | main.go:121-127 | the two-byte frame `22 21` passes the driver's only check and then needs bytes 2, 4 and 5 |
| Notification.ShortStatusReadsPastEnd | main.go:130-135 | a six-byte status frame passes every check and then needs bytes 6 to 13 |
| Notification.EmptyVersionReadsPastEnd | main.go:196-202 | a 14-byte version frame with length 0 passes `len >= 14 + dataLen`, and then byte 14 is read |
| Raster.PadToMinLines | main.go:396-406 | a raster with at least `minLines` rows is returned unchanged; a shorter one gets exactly `minLines` rows of the same width, the originals on top and white below |
| Raster.PadIdempotent | main.go:396-406 | padding twice is padding once |
| Mono.PackMono | main.go:276-285 | the packing loop fills a fresh buffer with exactly `Packed(r)` |
| Mono.PackLine | main.go:278-285 | one pass of the row loop packs exactly the pixels of that row |
| Mono.Packed | main.go:276 | the packed buffer has 48 bytes per row |
| Mono.PackedBitIsDark | main.go:279-283 | bit `x % 8` of byte `(y * 384 + x) / 8` is set iff pixel (y, x) is below 128 |
| Mono.UniformPacking | main.go:276-285 | an all-dark raster packs to 0xFF bytes and an all-light one to zero bytes |
| Mono.MaskIsShift | main.go:282 | the bit mask of column `k` is `1 << k` |
| Mono.PreviewPixel | main.go:423-429 | a 1-bpp preview pixel is black (0) or white (255) |
| Mono.RenderPreview | main.go:419-433 | every preview pixel is black when its bit is set and white otherwise |
| Mono.PreviewOfPacked | main.go:419-433 | previewing a packed raster shows 0 where the gray value was below 128 and 255 elsewhere |
| FourBit.Level | main.go:332 | a level `(255 - g) >> 4` lies in 0..15 |
| FourBit.PackFourBit | main.go:327-338 | the packing loop fills a fresh buffer with exactly `Packed(r)` |
| FourBit.PackLine | main.go:330-336 | one pass of the row loop packs exactly the pixels of that row |
| FourBit.Packed | main.go:327 | the packed buffer has 192 bytes per row |
| FourBit.PackedNibbleIsLevel | main.go:329-337 | the nibble of byte `(y * 384 + x) / 2` chosen by the parity of x is the level of pixel (y, x) |
| FourBit.NibblesOfPair | main.go:334-336 | a byte holding an even and an odd level gives both back, each nibble written once |
| FourBit.UniformPacking | main.go:327-337 | a raster of one gray packs to its level in both nibbles of every byte; all white packs to zeros |
| FourBit.Nibble | main.go:440-441 | reading a nibble gives a level in 0..15 |
| FourBit.RenderPreview | main.go:435-447 | every preview pixel is `255 - 17 * level` of its nibble |
| FourBit.PreviewOfPacked | main.go:435-447 | previewing a packed raster shows each pixel as the shade of its level |
| FourBit.ShadeOfLevel | main.go:442 | the preview shade of a pixel lies within 15 of its original gray value |
| FourBit.LevelMonotone | main.go:332 | a darker pixel never gets a lower level or a lighter shade |
| Session.BytesPerLine | main.go:367-370 | a line takes 48 bytes in 1-bpp mode and 192 in 4-bpp mode (384 dots at 1 or 4 bits each) |
| Session.Client.Write | main.go:353 | a write appends its channel, bytes and outcome to the trace |
| Session.DeliveredMeans | main.go:352-391 | a trace follows a plan in order and stops at its first failure, stated both recursively and position by position |
| Session.DeliveredLength | main.go:352-391 | a completed plan writes every request; a failed one writes at least one and no more than the plan |
| Session.SendLine | main.go:375-385 | one line is written as its chunks, in order, up to the first failing write |
| Session.SendLines | main.go:373-386 | the lines are written one after the other; on a failure, the error names the line of the failed write |
| Session.SendHead | main.go:352-365 | the intensity command, then the print command; a failure of either stops with its own error |
| Session.SendPlan | main.go:352-393 | the head, the lines and the flush in order; the first failure stops the session with the error `StopError` gives for its position |
| Session.SendImageBuffer | main.go:349-394 | the trace follows `SessionWrites` up to the first failed write, and the error returned is the one for that write |
| Session.SendSimpleCommand | main.go:408-411 | one write of `buildCommand(id, [0x00])` on the print characteristic |
| Session.SendLineCommand | main.go:413-417 | one write of `buildCommand(id, [lines & 0xFF, lines >> 8])` on the print characteristic |
| Session.ChunkCount | main.go:375-380 | a line of n bytes gives `ceil(n / 20)` chunks |
| Session.ChunkSizes | main.go:375-380 | every chunk holds 1 to 20 bytes, and every chunk except the last holds exactly 20 |
| Session.ChunkSpan | main.go:375-380 | chunk k is the slice of the line from `20 * k` to `20 * k + 20`, cut at the end of the line |
| Session.LineChunk | main.go:374-380 | every chunk of line y is a slice of the buffer that lies inside line y: no chunk crosses a line boundary |
| Session.ChunksJoin | main.go:375-380 | the chunks of a line laid end to end are the line itself |
| Session.ImageData | main.go:373-386 | the data writes laid end to end are exactly `pixels[0 .. height * bytesPerLine]` |
| Session.LineBounds | main.go:374 | line y starts at `y * bytesPerLine` |
| Session.ImageWritesLength | main.go:373-386 | the image is `height` times 3 (1 bpp) or 10 (4 bpp) data writes |
| Session.ImageWritesAreData | main.go:380 | every image write goes to the data characteristic |
| Session.PlanShape | main.go:349-394 | a print is `3 + height * chunksPerLine` writes: the two head commands, then data writes only, then the flush |
| Session.SessionShape | main.go:349-394 | the writes are the intensity command, the print command, `height * chunksPerLine` data writes and the flush, in that order |
| Session.StopErrorLine | main.go:382 | a chunk failure names a line below `height`, the line whose writes include the failed one |
| Session.PrintCommandFields | main.go:357-362 | the print command is id 0xA9 with the height mod 2^16 (little endian), 0x30 and the mode byte |
| Cli.SelectMode | main.go:607-615 | "1bpp" and "4bpp" select their modes; every other string is refused |
| Cli.SelectModeByName | main.go:607-615 | a mode's name selects that mode and no other name does |
| Cli.ModeBytes | main.go:344-347 | the modes are the distinct mode bytes 0x00 and 0x02 |
| Cli.ClampIntensity | main.go:710-712 | the intensity byte is the flag value clamped to 0..100 |
| Cli.ClampMonotone | main.go:710-712 | the clamp is monotone and idempotent |
| Cli.Queries | main.go:595 | a query is sent exactly when notifications are needed |
| Cli.Dispatch | main.go:595-716 | nothing to do iff no printer is needed and no preview is asked for; a bad mode is refused next; then a named image that fails to load or convert is fatal, before any preview, query or print; a preview path wins over queries and printing; queries are sent and then refused iff an image was also given; otherwise the image is printed at the clamped intensity |
| Cli.PreviewNeverTouchesPrinter | main.go:618-656 | with a preview path, nothing is queried or printed: the run ends with a bad mode, a fatal image failure or the preview |
| Cli.PrintOrQuery | main.go:700-704 | a run that prints asks for no query |
| Cli.PackedFitsSession | main.go:366-374 | both packers produce exactly the `height * bytesPerLine` bytes the session slices |
| Cli.SendQuery | main.go:677-695 | one query makes one write of its command frame |
| Cli.RunQueries | main.go:676-696 | every selected query is written, in the driver's order, whatever became of the writes before it |

## Left out

- BLE plumbing is foreign I/O and is not part of this model: scanning, connecting, MTU exchange, characteristic discovery and notification subscription (main.go:449-586). The client is reduced to `Client.Write`.
- Image decoding, resizing, grayscale conversion, contrast and dithering (main.go:223-271, 291-324) are calls into image libraries. The model starts from a grayscale raster 384 pixels wide.
- The floating-point height computation of the resize (main.go:245-246, 292-293) is left out. For that reason nothing here claims that the printed height is at least 86.
- Cli.Dispatch takes whether the named image decodes and converts as the input `imageOk`; why a given file fails (main.go:223-271, 291-324, 524-540) is not modelled, only that the failure is fatal before anything is previewed, queried or printed (main.go:622-626).
- Raster.PadToMinLines pads a gray raster, whereas the driver pads the decoded colour image (main.go:529) before the resize to 384 dots and the grayscale conversion (main.go:247-248, 294-295). Since the resize is left out, no minimum printed height is claimed.
- `time.Sleep` pacing (main.go:384, 698) has no meaning in the model.
- Other I/O is left out: flag parsing, the banner, PNG encoding, file and stdout output, and the fatal exits on missing characteristics.
- Crc.TableEntry: only entries 0, 1, 64 and 128 are proved equal to the bitwise polynomial-0x07 CRC. The full table is the driver's literal table, copied as is.
- Notification.ParseNotification: where the driver would index out of range and panic, the model returns `Malformed(Truncated)`.
- Session.SendImageBuffer requires `pixels` to hold `height` lines, as the driver's slicing does: a shorter buffer makes the driver panic.
- Mono.RenderPreview, FourBit.RenderPreview: these require the buffer to cover `width * height` pixels, as the driver's indexing does.
- Session.SendImageBuffer: the three command frames are built before the first write rather than just before each write. Building a frame is pure, so the writes are the same.
- Integer widths are not modelled:
  - Go's `int`, and the `uint` of the eject and retract counts, are unbounded here;
  - every byte conversion in the core keeps only the low bits, and that is modelled explicitly.

## Findings

| source | as written | input that shows it | evidently intended | confidence | as-written member | corrected member |
|---|---|---|---|---|---|---|
| main.go:121-127 | only `len >= 2` and the header bytes are checked before `data[2]`, `data[4]` and `data[5]` are read | the frame `22 21` | reject frames shorter than 6 bytes | not executed | Notification.BareHeaderReadsPastEnd | Notification.ParseNotification |
| main.go:130-135 | the status branch reads `data[6]` to `data[13]` without a length check (likewise `data[6]` at lines 174, 181 and 185) | the frame `22 21 A1 00 00 00` | report a status frame shorter than 14 bytes as malformed | not executed | Notification.ShortStatusReadsPastEnd | Notification.ParseNotification |
| main.go:196-202 | the guard `len < 14 + dataLen` admits a 14-byte frame with `dataLen = 0`, and then `data[14]` is read | fourteen bytes `22 21 B1` followed by eleven zeros | require `len >= 15` as well before reading byte 14 | not executed | Notification.EmptyVersionReadsPastEnd | Notification.ParseNotification |
