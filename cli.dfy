/**
 * The decisions `main` makes once the flags are parsed: whether a printer is
 * needed at all, the print mode, the intensity byte, the preview-or-print
 * choice, and the queries it sends (ignoring their errors) before refusing to
 * combine them with a print.
 */
module Cli {
  import opened Wrappers
  import opened Bytes
  import opened Frame
  import opened Raster
  import opened Session
  import Mono
  import FourBit

  /**
   * The parsed flags main looks at; `args` is the number of positional
   * arguments, and `imageOk` says whether the image they name decodes and
   * converts (the image loading itself is not part of this model).
   */
  datatype Options = Options(
    getStatus: bool, getBattery: bool, getVersion: bool, getPrintType: bool, getQueryCount: bool,
    ejectPaper: nat, retractPaper: nat,
    intensity: int, mode: string, outputPath: string, args: nat, imageOk: bool)

  /** An image is named but cannot be decoded or converted: main exits on it. */
  predicate ImageFails(o: Options) {
    o.args > 0 && !o.imageOk
  }

  /** Some query or paper-moving flag is set, so notifications must be subscribed to. */
  predicate NeedNotifications(o: Options) {
    o.getStatus || o.getBattery || o.getVersion || o.getPrintType || o.getQueryCount
    || o.ejectPaper > 0 || o.retractPaper > 0
  }

  /** The printer is needed for queries, or for an image to print rather than preview. */
  predicate NeedPrinter(o: Options) {
    NeedNotifications(o) || (o.args > 0 && o.outputPath == "")
  }

  /** The name of each mode on the command line. */
  function ModeName(mode: PrintMode): string {
    if mode == Mode1bpp then "1bpp" else "4bpp"
  }

  /** The mode switch of main: "1bpp" or "4bpp", anything else is refused. */
  function SelectMode(name: string): (mode: Option<PrintMode>)
    ensures mode == Some(Mode1bpp) <==> name == "1bpp"
    ensures mode == Some(Mode4bpp) <==> name == "4bpp"
    ensures mode == None <==> name != "1bpp" && name != "4bpp"
  {
    if name == "1bpp" then Some(Mode1bpp)
    else if name == "4bpp" then Some(Mode4bpp)
    else None
  }

  /** Selecting a mode by its name gives the mode back, and only its name selects it. */
  lemma SelectModeByName(mode: PrintMode, name: string)
    ensures SelectMode(ModeName(mode)) == Some(mode)
    ensures SelectMode(name) == Some(mode) ==> name == ModeName(mode)
  {
  }

  /** The two modes travel as the distinct mode bytes 0x00 and 0x02. */
  lemma ModeBytes(a: PrintMode, b: PrintMode)
    ensures ModeByte(Mode1bpp) == 0x00 && ModeByte(Mode4bpp) == 0x02
    ensures ModeByte(a) == ModeByte(b) <==> a == b
  {
  }

  /** The intensity byte: the flag value clamped to 0..100. */
  function ClampIntensity(i: int): (b: bv8)
    ensures b as int <= 100
    ensures 0 <= i <= 100 ==> b as int == i
    ensures i < 0 ==> b == 0
    ensures i > 100 ==> b as int == 100
  {
    var c := if i < 0 then 0 else if i > 100 then 100 else i;
    ByteOfValue(c);
    ByteOf(c)
  }

  /** A larger flag value never gives a lower intensity, and clamping twice is clamping once. */
  lemma ClampMonotone(a: int, b: int)
    requires a <= b
    ensures ClampIntensity(a) <= ClampIntensity(b)
    ensures ClampIntensity(ClampIntensity(a) as int) == ClampIntensity(a)
  {
  }

  /** A query main sends: a one-byte command, or a command carrying a line count. */
  datatype Query = Simple(id: bv8) | Lines(id: bv8, lines: nat)

  /** The write a query makes: sendSimpleCommand or sendLineCommand. */
  function QueryRequest(q: Query): Request {
    match q
    case Simple(id) => Request(PrintChannel, BuildCommand(id, SimplePayload()))
    case Lines(id, lines) => Request(PrintChannel, BuildCommand(id, LinePayload(lines)))
  }

  /** The query `q` when its flag is set, nothing otherwise. */
  function Selected(b: bool, q: Query): seq<Query> {
    if b then [q] else []
  }

  /** The queries main sends, in its order: status, battery, version, print type, count, eject, retract. */
  function Queries(o: Options): (qs: seq<Query>)
    ensures |qs| <= 7
    ensures qs == [] <==> !NeedNotifications(o)
  {
    Selected(o.getStatus, Simple(0xA1)) + Selected(o.getBattery, Simple(0xAB)) + Selected(o.getVersion, Simple(0xB1))
    + Selected(o.getPrintType, Simple(0xB0)) + Selected(o.getQueryCount, Simple(0xA7))
    + Selected(o.ejectPaper > 0, Lines(0xA3, o.ejectPaper)) + Selected(o.retractPaper > 0, Lines(0xA4, o.retractPaper))
  }

  /**
   * The packers produce exactly the buffer sendImageBufferToPrinter slices:
   * `height` lines of 48 bytes in 1-bpp mode and of 192 bytes in 4-bpp mode.
   */
  lemma PackedFitsSession(r: Raster)
    requires PrinterWide(r)
    ensures |Mono.Packed(r)| == LineStart(Mode1bpp, Height(r))
    ensures |FourBit.Packed(r)| == LineStart(Mode4bpp, Height(r))
  {
  }

  /** What main ends up doing. */
  datatype Action =
    | NothingToDo                                  // "Nothing to do. Use -h for help."
    | InvalidMode                                  // "Invalid mode. Use '1bpp' or '4bpp'."
    | ImageFailed                                  // the image did not load: a fatal exit
    | Preview(mode: PrintMode)                     // a PNG preview instead of printing
    | Query(queries: seq<Query>, refused: bool)    // queries sent; refused when an image was also given
    | Print(mode: PrintMode, intensity: bv8)       // sendImageBufferToPrinter

  /** The decision part of main, with the printer and the image left out. */
  function Dispatch(o: Options): (a: Action)
    ensures a == NothingToDo <==> !NeedPrinter(o) && o.outputPath == ""
    ensures a == InvalidMode <==> (NeedPrinter(o) || o.outputPath != "") && SelectMode(o.mode).None?
    ensures a == ImageFailed <==>
      (NeedPrinter(o) || o.outputPath != "") && SelectMode(o.mode).Some? && ImageFails(o)
    ensures a.Preview? <==> o.outputPath != "" && SelectMode(o.mode).Some? && !ImageFails(o)
    ensures a.Query? <==>
      o.outputPath == "" && NeedNotifications(o) && SelectMode(o.mode).Some? && !ImageFails(o)
    ensures a.Query? ==> a.queries == Queries(o) && a.queries != [] && (a.refused <==> o.args >= 1)
    ensures a.Print? <==>
      o.outputPath == "" && !NeedNotifications(o) && o.args > 0 && o.imageOk && SelectMode(o.mode).Some?
    ensures a.Print? ==> Some(a.mode) == SelectMode(o.mode) && a.intensity == ClampIntensity(o.intensity)
  {
    if !NeedPrinter(o) && o.outputPath == "" then NothingToDo
    else
      match SelectMode(o.mode)
      case None => InvalidMode
      case Some(mode) =>
        if ImageFails(o) then ImageFailed
        else if o.outputPath != "" then Preview(mode)
        else if NeedNotifications(o) then Query(Queries(o), o.args >= 1)
        else Print(mode, ClampIntensity(o.intensity))
  }

  /** A preview path wins over everything else: no query is sent and nothing is printed. */
  lemma PreviewNeverTouchesPrinter(o: Options)
    requires o.outputPath != ""
    ensures Dispatch(o) == InvalidMode || Dispatch(o) == ImageFailed || Dispatch(o).Preview?
  {
  }

  /** Printing and querying never happen in one run: a print asks for no query. */
  lemma PrintOrQuery(o: Options)
    ensures Dispatch(o).Print? ==> Queries(o) == []
    ensures Queries(o) != [] ==> !Dispatch(o).Print?
  {
  }

  /** Every query write is attempted in order, whatever became of the ones before it. */
  predicate Attempted(sent: seq<Sent>, qs: seq<Query>) {
    |sent| == |qs| && forall i | 0 <= i < |sent| :: sent[i].request == QueryRequest(qs[i])
  }

  lemma AttemptedSnoc(sent: seq<Sent>, qs: seq<Query>, q: Query, ok: bool)
    requires Attempted(sent, qs)
    ensures Attempted(sent + [Sent(QueryRequest(q), ok)], qs + [q])
  {
  }

  /** One query, sent with sendSimpleCommand or sendLineCommand. */
  method SendQuery(client: Client, q: Query) returns (ok: bool)
    modifies client
    ensures client.trace == old(client.trace) + [Sent(QueryRequest(q), ok)]
  {
    match q
    case Simple(id) => ok := SendSimpleCommand(client, id);
    case Lines(id, lines) => ok := SendLineCommand(client, id, lines);
  }

  /** One selected query, sent after the ones in `qs` whose writes are `sent`. */
  method QueryStep(client: Client, selected: bool, q: Query,
                   ghost before: seq<Sent>, ghost qs: seq<Query>, ghost sent: seq<Sent>)
    returns (ghost qs': seq<Query>, ghost sent': seq<Sent>)
    requires client.trace == before + sent && Attempted(sent, qs)
    modifies client
    ensures client.trace == before + sent'
    ensures qs' == qs + Selected(selected, q) && Attempted(sent', qs')
  {
    qs', sent' := qs, sent;
    if selected {
      var ok := SendQuery(client, q);
      AttemptedSnoc(sent, qs, q, ok);
      qs', sent' := qs + [q], sent + [Sent(QueryRequest(q), ok)];
      Appended(before, sent, [Sent(QueryRequest(q), ok)]);
    } else {
      assert qs + [] == qs;
    }
  }

  /**
   * The query block of main: each selected query is sent in turn and its
   * error, if any, is dropped, so a failed write never stops the ones after it.
   */
  method RunQueries(client: Client, o: Options) returns (ghost sent: seq<Sent>)
    modifies client
    ensures client.trace == old(client.trace) + sent
    ensures Attempted(sent, Queries(o))
  {
    ghost var qs: seq<Query> := [];
    sent := [];
    qs, sent := QueryStep(client, o.getStatus, Simple(0xA1), old(client.trace), qs, sent);
    qs, sent := QueryStep(client, o.getBattery, Simple(0xAB), old(client.trace), qs, sent);
    qs, sent := QueryStep(client, o.getVersion, Simple(0xB1), old(client.trace), qs, sent);
    qs, sent := QueryStep(client, o.getPrintType, Simple(0xB0), old(client.trace), qs, sent);
    qs, sent := QueryStep(client, o.getQueryCount, Simple(0xA7), old(client.trace), qs, sent);
    qs, sent := QueryStep(client, o.ejectPaper > 0, Lines(0xA3, o.ejectPaper), old(client.trace), qs, sent);
    qs, sent := QueryStep(client, o.retractPaper > 0, Lines(0xA4, o.retractPaper), old(client.trace), qs, sent);
    assert [] + Selected(o.getStatus, Simple(0xA1)) == Selected(o.getStatus, Simple(0xA1));
  }
}
