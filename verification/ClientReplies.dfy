/** client.ts with the replies it collects: every framed command settles with the report it asked for,
  * however the report is cut into chunks, and an `sd read` settles with a reply that parses to its sector. */
module ClientReplies {
  import opened Bytes
  import opened CliFraming
  import opened Collector
  import opened Crc32
  import opened Digits
  import opened SdRead
  import opened CliClient
  import opened ReplyTexts
  import SdFirmware

  /** The framed reports of the firmware. */
  datatype Report =
    | Barometer | FlashInfo | SdData | SdState | Blackbox | PidDiag | Storage | Config
    | Ports | Modes | Timing | LoopRate | Mixer | Sensors | Calibration

  /** The line a report ends with. */
  function LastLine(report: Report): string {
    match report
    case Barometer => "barometer_end: 1"
    case FlashInfo => "flash_info_end: 1"
    case SdData => "sd_data_end: 1"
    case SdState => "sd_end: 1"
    case Blackbox => "blackbox_end: 1"
    case PidDiag => "pid_diag_end: 1"
    case Storage => "storage_end: 1"
    case Config => "# config_end: 1"
    case Ports => "ports_end: 1"
    case Modes => "modes_end: 1"
    case Timing => "timing_end: 1"
    case LoopRate => "loop_rate_end: 1"
    case Mixer => "mixer_end: 1"
    case Sensors => "sensors_end: 1"
    case Calibration => "calibration_end: 1"
  }

  /** The commands answered by a report. */
  predicate Asks(line: string, report: Report) {
    match report
    case Barometer => line == "barometer"
    case FlashInfo => line == "flash_info"
    case SdData => StartsWith(line, "sd read")
    case SdState => StartsWith(line, "sd ") && !StartsWith(line, "sd read")
    case Blackbox => StartsWith(line, "blackbox ")
    case PidDiag => line == "pid_diag" || StartsWith(line, "pid_diag ")
    case Storage => line == "storage"
    case Config => line == "diff all" || line == "dump all"
    case Ports => line == "ports"
    case Modes => line == "modes" || StartsWith(line, "mode_range ") || StartsWith(line, "control_source ")
    case Timing => line == "timing"
    case LoopRate => line == "loop_rate"
    case Mixer => line == "mixer"
    case Sensors => line == "sensors"
    case Calibration => line == "calibration"
  }

  /** The client waits for the last line of the report it asked for. */
  lemma WaitsForLastLine(line: string, report: Report)
    requires Asks(line, report)
    ensures EndMarkerOf(line) == Some(LastLine(report))
  {
    hide EndMarkerOf, Asks, LastLine;
    match report
    case SdData => SdWaits(line, report);
    case SdState => SdWaits(line, report);
    case Storage => SensorsWait(line, report);
    case Sensors => SensorsWait(line, report);
    case Blackbox => BoxesWait(line, report);
    case Barometer => BoxesWait(line, report);
    case FlashInfo => BoxesWait(line, report);
    case PidDiag => PortsWait(line, report);
    case Ports => PortsWait(line, report);
    case Modes => ModesWait(line);
    case Config => ConfigWaits(line, report);
    case Calibration => ConfigWaits(line, report);
    case _ => LoopWaits(line, report);
  }

  lemma SdWaits(line: string, report: Report)
    requires (report == SdData || report == SdState) && Asks(line, report)
    ensures EndMarkerOf(line) == Some(LastLine(report))
  {
    assert line[0] == 's' && line[1] == 'd';
  }

  lemma SensorsWait(line: string, report: Report)
    requires (report == Storage || report == Sensors) && Asks(line, report)
    ensures EndMarkerOf(line) == Some(LastLine(report))
  {
    assert line[0] == 's' && line[1] == if report == Storage then 't' else 'e';
  }

  lemma BoxesWait(line: string, report: Report)
    requires (report == Blackbox || report == Barometer || report == FlashInfo) && Asks(line, report)
    ensures EndMarkerOf(line) == Some(LastLine(report))
  {
    if report == Blackbox { assert line[0] == 'b' && line[1] == 'l'; }
  }

  lemma PortsWait(line: string, report: Report)
    requires (report == PidDiag || report == Ports) && Asks(line, report)
    ensures EndMarkerOf(line) == Some(LastLine(report))
  {
    assert line[0] == 'p' && line[1] == if report == PidDiag then 'i' else 'o';
  }

  lemma ConfigWaits(line: string, report: Report)
    requires (report == Config || report == Calibration) && Asks(line, report)
    ensures EndMarkerOf(line) == Some(LastLine(report))
  {
    if report == Config { assert line[0] == 'd' && line[4] == ' '; } else { assert line[0] == 'c' && line[1] == 'a'; }
  }

  lemma LoopWaits(line: string, report: Report)
    requires (report == Timing || report == LoopRate || report == Mixer) && Asks(line, report)
    ensures EndMarkerOf(line) == Some(LastLine(report))
  {
    assert line[0] == if report == Timing then 't' else if report == LoopRate then 'l' else 'm';
    if report == Mixer { assert line[1] == 'i'; }
  }

  lemma ModesWait(line: string)
    requires Asks(line, Modes)
    ensures EndMarkerOf(line) == Some(LastLine(Modes))
  {
    assert (line[0] == 'm' && line[1] == 'o') || (line[0] == 'c' && line[1] == 'o');
  }

  // ---------------------------------------------------------------- a reply in chunks

  /** The chunks arrive on `port`, one after the other. */
  function Arrivals(port: nat, chunks: seq<string>): seq<Input> {
    seq(|chunks|, i requires 0 <= i < |chunks| => Received(port, chunks[i]))
  }

  /** Command `k` was just sent, and we listen to `port`. */
  predicate JustSent(c: Client, k: nat, port: nat) {
    && c.talk.collector == Some(k) && k < |c.talk.commands| && port in c.link.attached
    && c.talk.commands[k].view == View("", None)
  }

  /** What the client is after some of the reply: the command's view has taken the chunks in, and the
    * link is as it was. */
  predicate Listening(c: Client, k: nat, view: View, c': Client) {
    && c'.link == c.link && c'.session == c.session && |c'.talk.commands| == |c.talk.commands| && k < |c.talk.commands|
    && c'.talk.commands[k].line == c.talk.commands[k].line
    && c'.talk.commands[k].maxChars == c.talk.commands[k].maxChars && c'.talk.commands[k].view == view
    && c'.talk.collector == if view.outcome.Some? then None else Some(k)
  }

  lemma HearsChunk(c: Client, k: nat, port: nat, view: View, c': Client, chunk: string, marker: string)
    requires k < |c.talk.commands| && EndMarkerOf(c.talk.commands[k].line) == Some(marker)
    requires port in c.link.attached && Listening(c, k, view, c')
    requires view.outcome.Some? ==> view.outcome.value.Resolved?
    requires |view.text| + |chunk| <= c.talk.commands[k].maxChars
    ensures Listening(c, k, AfterPush(Some(marker), c.talk.commands[k].maxChars, view, chunk),
                      CliClient.Next(c', Received(port, chunk)))
  {
    hide EndMarkerOf, Complete, Rest, HasStop, DropsLink, Release;
  }

  /** Within the limit a collector never rejects, and its text is at most what was pushed. */
  lemma {:induction false} NeverOverflows(marker: string, maxChars: nat, chunks: seq<string>)
    requires |Concat(chunks)| <= maxChars
    ensures var v := AfterChunks(marker, maxChars, chunks);
      |v.text| <= |Concat(chunks)| && (v.outcome.Some? ==> v.outcome.value.Resolved?)
  {
    hide HasStop, Complete;
    if chunks != [] { NeverOverflows(marker, maxChars, chunks[..|chunks| - 1]); }
  }

  lemma {:induction false} HearsChunks(c: Client, k: nat, port: nat, marker: string, chunks: seq<string>)
    requires JustSent(c, k, port) && EndMarkerOf(c.talk.commands[k].line) == Some(marker)
    requires |Concat(chunks)| <= c.talk.commands[k].maxChars
    ensures Listening(c, k, AfterChunks(marker, c.talk.commands[k].maxChars, chunks),
                      CliClient.Run(c, Arrivals(port, chunks)))
  {
    hide EndMarkerOf, AfterPush, CliClient.Next, Listening;
    if chunks == [] {
      assert Listening(c, k, View("", None), c) by { StillListening(c, k, port); }
    } else {
      var n := |chunks| - 1;
      assert Arrivals(port, chunks) == Arrivals(port, chunks[..n]) + [Received(port, chunks[n])];
      RunSplits(c, Arrivals(port, chunks[..n]), Received(port, chunks[n]));
      NeverOverflows(marker, c.talk.commands[k].maxChars, chunks[..n]);
      HearsChunks(c, k, port, marker, chunks[..n]);
      HearsChunk(c, k, port, AfterChunks(marker, c.talk.commands[k].maxChars, chunks[..n]),
                 CliClient.Run(c, Arrivals(port, chunks[..n])), chunks[n], marker);
    }
  }

  lemma StillListening(c: Client, k: nat, port: nat)
    requires JustSent(c, k, port)
    ensures Listening(c, k, View("", None), c)
  {
  }

  /** The command resolved with the reply, or the reply without its last LF, and the link is as it was. */
  predicate ResolvedWith(c: Client, k: nat, reply: string, r: Client)
    requires k < |c.talk.commands|
  {
    && r.link == c.link && r.session == c.session && r.talk.collector.None? && |r.talk.commands| == |c.talk.commands|
    && r.talk.commands[k].view.outcome.Some? && r.talk.commands[k].view.outcome.value.Resolved?
    && var text := r.talk.commands[k].view.outcome.value.text;
       (text == reply || text + "\n" == reply) && Split(text) == Split(reply)
  }

  lemma FramedSettles(c: Client, k: nat, port: nat, report: Report, reply: string, chunks: seq<string>)
    requires JustSent(c, k, port) && Asks(c.talk.commands[k].line, report)
    requires Framed(LastLine(report), reply) && Concat(chunks) == reply && |reply| <= c.talk.commands[k].maxChars
    ensures ResolvedWith(c, k, reply, CliClient.Run(c, Arrivals(port, chunks)))
  {
    hide Asks, LastLine, EndMarkerOf, Framed, Split, AfterPush, CliClient.Next, CliClient.Run;
    WaitsForLastLine(c.talk.commands[k].line, report);
    HearsChunks(c, k, port, LastLine(report), chunks);
    FramedReplySettles(LastLine(report), c.talk.commands[k].maxChars, chunks);
  }

  /** A framed command settles: for every report, every command that asks for it, every text of lines none of
    * which ends a reply, and every way of cutting the report into chunks, the command resolves with the
    * report once its last line is there. */
  lemma ReportSettles(c: Client, k: nat, port: nat, report: Report, body: string, chunks: seq<string>)
    requires JustSent(c, k, port) && Asks(c.talk.commands[k].line, report)
    requires Rest(body) == "" && !HasStop(LastLine(report), Complete(body))
    requires Concat(chunks) == body + (LastLine(report) + "\r\n")
    requires |Concat(chunks)| <= c.talk.commands[k].maxChars
    ensures ResolvedWith(c, k, Concat(chunks), CliClient.Run(c, Arrivals(port, chunks)))
  {
    hide Asks, Split, ResolvedWith, CliClient.Run, Framed, HasStop, JustSent;
    LastLinesAreLines(report);
    hide LastLine;
    BodyIsFramed(LastLine(report), body);
    FramedSettles(c, k, port, report, Concat(chunks), chunks);
  }

  lemma LastLinesAreLines(report: Report)
    ensures NoBreak(LastLine(report)) && LastLine(report) != ""
  {
    hide LastLine, NoBreak;
    match report
    case SdData => CardLines(report);
    case SdState => CardLines(report);
    case Blackbox => CardLines(report);
    case Storage => CardLines(report);
    case Barometer => BoardLines(report);
    case FlashInfo => BoardLines(report);
    case Sensors => BoardLines(report);
    case Calibration => BoardLines(report);
    case PidDiag => FlightLines(report);
    case Timing => FlightLines(report);
    case LoopRate => FlightLines(report);
    case Mixer => FlightLines(report);
    case Config => SetupLines(report);
    case Ports => SetupLines(report);
    case Modes => SetupLines(report);
  }

  lemma CardLines(report: Report)
    requires report == SdData || report == SdState || report == Blackbox || report == Storage
    ensures NoBreak(LastLine(report)) && LastLine(report) != ""
  {
  }

  lemma BoardLines(report: Report)
    requires report == Barometer || report == FlashInfo || report == Sensors || report == Calibration
    ensures NoBreak(LastLine(report)) && LastLine(report) != ""
  {
  }

  lemma FlightLines(report: Report)
    requires report == PidDiag || report == Timing || report == LoopRate || report == Mixer
    ensures NoBreak(LastLine(report)) && LastLine(report) != ""
  {
  }

  lemma SetupLines(report: Report)
    requires report == Config || report == Ports || report == Modes
    ensures NoBreak(LastLine(report)) && LastLine(report) != ""
  {
  }

  lemma BodyIsFramed(marker: string, body: string)
    requires NoBreak(marker) && marker != "" && Rest(body) == "" && !HasStop(marker, Complete(body))
    ensures Framed(marker, body + (marker + "\r\n"))
  {
    hide Split;
    assert marker + "\r\n" == marker + "\r\n" + "";
    assert !CutsPair(body, marker + "\r\n") by { assert (marker + "\r\n")[0] == marker[0]; }
    SplitConcat(body, marker + "\r\n");
    SplitLine(marker, "");
    SplitNothing();
    assert "" + (marker + "\r\n") == marker + "\r\n";
    var lines := Complete(body + (marker + "\r\n"));
    assert lines == Complete(body) + [marker];
    assert lines[..|lines| - 1] == Complete(body) && StopsReply(marker, lines[|lines| - 1]);
  }

  /** A firmware that does not know a framed command answers with one line, which settles it too. */
  lemma UnknownSettles(c: Client, k: nat, port: nat, report: Report, line: string, chunks: seq<string>)
    requires JustSent(c, k, port) && Asks(c.talk.commands[k].line, report)
    requires line == "unknown" || line == "unknown command" || line == "unknown \U{2014} try help"
    requires Concat(chunks) == line + "\r\n" && |Concat(chunks)| <= c.talk.commands[k].maxChars
    ensures ResolvedWith(c, k, line + "\r\n", CliClient.Run(c, Arrivals(port, chunks)))
  {
    UnknownIsFramed(LastLine(report), line);
    hide Asks, LastLine, Split, ResolvedWith, CliClient.Run, Framed, JustSent;
    FramedSettles(c, k, port, report, line + "\r\n", chunks);
  }

  /** A refused `sd read` settles with the firmware's own refusal. */
  lemma RefusalSettles(c: Client, k: nat, port: nat, sector: nat, error: SdFirmware.ReadError, chunks: seq<string>)
    requires JustSent(c, k, port) && !error.Injected?
    requires c.talk.commands[k].line == SdFirmware.ReadCommand(sector) && c.talk.commands[k].maxChars == REPLY_CAP
    requires Concat(chunks) == ErrorReply(SdFirmware.ErrorLine(error))
    ensures var r := CliClient.Run(c, Arrivals(port, chunks));
      && ResolvedWith(c, k, Concat(chunks), r)
      && Verdict(r.talk.commands[k].view.outcome.value.text, sector)
         == Error(sector, SdFirmware.ErrorLine(error))
  {
    hide Split, CliClient.Run, Framed, JustSent, SdFirmware.ErrorText, SdFirmware.ReadCommand;
    hide LinesVerdict, IsErrorLine, NoBreak, Tight, Asks, SdFirmware.IsPlain;
    SdFirmware.TextsArePlain(error);
    SdFirmware.PlainErrorLine(SdFirmware.ErrorText(error));
    ErrorIsFramed(SdFirmware.ErrorLine(error));
    SdFirmware.RefusalsAreErrors(error, sector);
    assert Asks(SdFirmware.ReadCommand(sector), SdData) by { ReadAsks(sector); }
    FramedSettles(c, k, port, SdData, Concat(chunks), chunks);
  }

  /** An `sd read` settles with its sector: in whatever chunks the firmware's reply arrives, the command
    * resolves, and what it resolves with parses exactly as the whole reply. */
  lemma ReadSettles(c: Client, k: nat, port: nat, sector: nat, bytes: seq<byte>, crc: string, chunks: seq<string>)
    requires JustSent(c, k, port) && sector <= MAX_SECTOR && |bytes| == SECTOR_BYTES && |crc| == 8 && IsHexText(crc)
    requires c.talk.commands[k].line == SdFirmware.ReadCommand(sector) && c.talk.commands[k].maxChars == REPLY_CAP
    requires Concat(chunks) == PrintReply(sector, bytes, crc)
    ensures var r := CliClient.Run(c, Arrivals(port, chunks));
      && r.link == c.link && r.session == c.session && r.talk.collector.None? && |r.talk.commands| == |c.talk.commands|
      && r.talk.commands[k].view.outcome.Some? && r.talk.commands[k].view.outcome.value.Resolved?
      && Verdict(r.talk.commands[k].view.outcome.value.text, sector) == Verdict(PrintReply(sector, bytes, crc), sector)
  {
    hide PrintReply, Verdict, AfterPush, CliClient.Next, CliClient.Run, EndMarkerOf;
    assert EndMarkerOf(c.talk.commands[k].line) == Some(END_LINE) by { ReadAsks(sector); }
    PrintedLength(sector, bytes, crc);
    HearsChunks(c, k, port, END_LINE, chunks);
    ChunkedReply(sector, bytes, crc, sector, chunks);
  }

  /** What is heard while no command is outstanding reaches the line listeners: the lines of the whole text,
    * one empty line more for each cut between a CR and its LF, and what no line end follows is kept. */
  lemma LinesHeard(c: Client, port: nat, chunks: seq<string>)
    requires port in c.link.attached && c.talk.collector.None? && c.talk.lineBuf == ""
    ensures var r := CliClient.Run(c, Arrivals(port, chunks));
      && r.link == c.link && r.session == c.session && r.talk.commands == c.talk.commands
      && r.talk.lineBuf == Rest(Concat(chunks))
      && c.talk.lines <= r.talk.lines
      && var heard := r.talk.lines[|c.talk.lines|..];
         && NonEmpty(heard) == NonEmpty(Complete(Concat(chunks)))
         && |heard| == |Complete(Concat(chunks))| + CutPairs(chunks)
         && (CutPairs(chunks) == 0 ==> heard == Complete(Concat(chunks)))
  {
    hide CliClient.Run, Split, NonEmpty, CutPairs;
    ChunksSplitAlike(chunks);
    HearsLines(c, port, chunks);
    var r := CliClient.Run(c, Arrivals(port, chunks));
    assert r.talk.lines[|c.talk.lines|..] == PushAll(chunks).0;
  }

  lemma {:induction false} HearsLines(c: Client, port: nat, chunks: seq<string>)
    requires port in c.link.attached && c.talk.collector.None? && c.talk.lineBuf == ""
    ensures CliClient.Run(c, Arrivals(port, chunks)) == AfterLines(c, PushAll(chunks))
  {
    hide Complete, Rest, CliClient.Next;
    if chunks == [] {
      assert c.talk.lines + [] == c.talk.lines;
    } else {
      var n := |chunks| - 1;
      HearsLines(c, port, chunks[..n]);
      assert Arrivals(port, chunks) == Arrivals(port, chunks[..n]) + [Received(port, chunks[n])];
      RunSplits(c, Arrivals(port, chunks[..n]), Received(port, chunks[n]));
      HearsLine(c, port, PushAll(chunks[..n]), chunks[n]);
    }
  }

  /** The client after these lines were emitted and this text is left over. */
  function AfterLines(c: Client, pushed: (seq<string>, string)): Client {
    c.(talk := c.talk.(lines := c.talk.lines + pushed.0, lineBuf := pushed.1))
  }

  lemma HearsLine(c: Client, port: nat, pushed: (seq<string>, string), chunk: string)
    requires port in c.link.attached && c.talk.collector.None?
    ensures var text := pushed.1 + chunk;
      CliClient.Next(AfterLines(c, pushed), Received(port, chunk))
      == AfterLines(c, (pushed.0 + Complete(text), Rest(text)))
  {
    hide Complete, Rest;
    var more := Complete(pushed.1 + chunk);
    assert c.talk.lines + pushed.0 + more == c.talk.lines + (pushed.0 + more);
  }

  lemma ReadAsks(sector: nat)
    ensures EndMarkerOf(SdFirmware.ReadCommand(sector)) == Some(END_LINE)
    ensures Asks(SdFirmware.ReadCommand(sector), SdData)
  {
    hide Decimal, EndMarkerOf;
    assert SdFirmware.ReadCommand(sector)[..7] == "sd read";
    WaitsForLastLine(SdFirmware.ReadCommand(sector), SdData);
  }

  /** The whole conversation: a client that connects and sends `sd read` writes the line the firmware reads,
    * and the firmware's reply, in whatever chunks, resolves that command and parses to its bytes. */
  lemma ReadConversation(reconnect: bool, maxAttempts: nat, sector: nat, bytes: seq<byte>, chunks: seq<string>)
    requires sector <= MAX_SECTOR && |bytes| == SECTOR_BYTES
    requires Concat(chunks) == PrintReply(sector, bytes, FormatCrc32(Crc(bytes)))
    ensures var asked := Asked(reconnect, maxAttempts, SdFirmware.ReadCommand(sector));
      var r := CliClient.Run(asked, Arrivals(0, chunks));
      && asked.talk.wire == [SdFirmware.ReadCommand(sector) + "\n"]
      && r.session.status == Connected && PortIsOpen(r.link) && |r.talk.commands| == 1
      && r.talk.commands[0].view.outcome.Some? && r.talk.commands[0].view.outcome.value.Resolved?
      && Verdict(r.talk.commands[0].view.outcome.value.text, sector) == Data(sector, bytes, FormatCrc32(Crc(bytes)))
  {
    hide PrintReply, Verdict, FormatCrc32, Crc, CliClient.Run, Asked;
    FormattedShape(Crc(bytes));
    AskedWaits(reconnect, maxAttempts, SdFirmware.ReadCommand(sector));
    CommandIsTight(sector);
    var asked := Asked(reconnect, maxAttempts, SdFirmware.ReadCommand(sector));
    ReadSettles(asked, 0, 0, sector, bytes, FormatCrc32(Crc(bytes)), chunks);
    SdRead.RoundTrip(sector, bytes);
  }

  lemma CommandIsTight(sector: nat)
    ensures Trim(SdFirmware.ReadCommand(sector)) == SdFirmware.ReadCommand(sector)
  {
    hide Trim, IsSpace;
    var line := SdFirmware.ReadCommand(sector);
    assert IsDigit(line[|line| - 1]) by { assert line[|line| - 1] == Decimal(sector)[|Decimal(sector)| - 1]; }
    assert line[0] == 's';
    SpaceIsNoWord(line[0]);
    SpaceIsNoWord(line[|line| - 1]);
    TrimTight(line);
  }

  /** A fresh client that has connected and sent a line. */
  function Asked(reconnect: bool, maxAttempts: nat, line: string): Client {
    CliClient.Next(CliClient.Next(CliClient.Next(CliClient.Start(reconnect, maxAttempts), Connect), Opened),
                   SendRaw(line, REPLY_CAP))
  }

  lemma AskedWaits(reconnect: bool, maxAttempts: nat, line: string)
    ensures var c := Asked(reconnect, maxAttempts, line);
      && c.link == Link(Some(0), Some(0), {0}, {0}, 1) && c.session.status == Connected && c.talk.collector == Some(0)
      && c.talk.commands == [CliClient.Command(line, REPLY_CAP, 0, View("", None), false)]
      && c.talk.wire == [Trim(line) + "\n"]
  {
    hide Trim;
  }
}
